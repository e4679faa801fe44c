/**
  The getopt wrapper of mirage2iso: from a `struct option` table (terminated
  by an entry whose name is NULL) it builds the short-option string that
  getopt_long expects, one character per option with a nonzero `val`,
  followed by `:` when the option requires an argument.
 */
module MirageGetopt {
  import opened Common

  datatype HasArg = NoArgument | RequiredArgument | OptionalArgument

  /** One entry of a `struct option` table; `name == None` is the NULL terminator. */
  datatype LongOption = LongOption(name: Option<string>, hasArg: HasArg, val: int)

  /** A table the C loops can walk: some entry terminates it. */
  predicate Terminated(table: seq<LongOption>) {
    exists i :: 0 <= i < |table| && table[i].name.None?
  }

  /** Index of the terminating entry. */
  function TerminatorIndex(table: seq<LongOption>): (n: nat)
    requires Terminated(table)
    ensures n < |table| && table[n].name.None?
    ensures forall k :: 0 <= k < n ==> table[k].name.Some?
  {
    if table[0].name.None? then 0
    else
      assert Terminated(table[1..]) by {
        var i :| 0 <= i < |table| && table[i].name.None?;
        assert table[1..][i - 1] == table[i];
      }
      1 + TerminatorIndex(table[1..])
  }

  /** The entries before the terminator. */
  function Entries(table: seq<LongOption>): seq<LongOption>
    requires Terminated(table)
  {
    table[..TerminatorIndex(table)]
  }

  /** The `char` that `*(bufptr++) = op->val` stores: the low byte of `val`. */
  function OptChar(val: int): char {
    (val % 256) as char
  }

  /** What one entry contributes to the short-option string. */
  function Emitted(o: LongOption): string {
    if o.val == 0 then []
    else [OptChar(o.val)] + (if o.hasArg == RequiredArgument then [':'] else [])
  }

  /** The short-option string of a list of entries, in table order. */
  function ShortOptions(entries: seq<LongOption>): string {
    if entries == [] then [] else Emitted(entries[0]) + ShortOptions(entries[1..])
  }

  /** Entries with a nonzero `val` and an optional argument: counted for the buffer, never written. */
  function OptionalCount(entries: seq<LongOption>): nat {
    if entries == [] then 0
    else (if entries[0].val != 0 && entries[0].hasArg == OptionalArgument then 1 else 0)
         + OptionalCount(entries[1..])
  }

  /** The short-option string is built entry by entry: it distributes over concatenation of tables. */
  lemma {:induction false} ShortOptionsAppend(a: seq<LongOption>, b: seq<LongOption>)
    ensures ShortOptions(a + b) == ShortOptions(a) + ShortOptions(b)
  {
    if a == [] {
      assert a + b == b;
    } else {
      assert (a + b)[1..] == a[1..] + b;
      ShortOptionsAppend(a[1..], b);
    }
  }

  /** So does the count of optional-argument entries. */
  lemma {:induction false} OptionalCountAppend(a: seq<LongOption>, b: seq<LongOption>)
    ensures OptionalCount(a + b) == OptionalCount(a) + OptionalCount(b)
  {
    if a == [] {
      assert a + b == b;
    } else {
      assert (a + b)[1..] == a[1..] + b;
      OptionalCountAppend(a[1..], b);
    }
  }

  /** Each nonzero `val` appears once, in table order, with a `:` right after it exactly when
      its argument is required; entries with `val == 0` contribute nothing. */
  lemma {:induction false} ShortOptionsSplit(entries: seq<LongOption>, k: nat)
    requires k < |entries|
    ensures ShortOptions(entries)
         == ShortOptions(entries[..k]) + Emitted(entries[k]) + ShortOptions(entries[k + 1..])
  {
    assert entries == entries[..k] + ([entries[k]] + entries[k + 1..]);
    ShortOptionsAppend(entries[..k], [entries[k]] + entries[k + 1..]);
    assert ([entries[k]] + entries[k + 1..])[1..] == entries[k + 1..];
  }

  /** The length the first loop computes: 1 for the terminator, 1 per nonzero `val`, and 1 more
      when `has_arg != no_argument`; that is the written characters, the terminator and one
      unused slot per optional-argument option. */
  method ShortOptionsLength(table: seq<LongOption>) returns (len: int)
    requires Terminated(table)
    ensures len == 1 + |ShortOptions(Entries(table))| + OptionalCount(Entries(table))
  {
    ghost var n := TerminatorIndex(table);
    len := 1;
    var k := 0;
    while table[k].name.Some?
      invariant 0 <= k <= n
      invariant len == 1 + |ShortOptions(table[..k])| + OptionalCount(table[..k])
      decreases n - k
    {
      var op := table[k];
      EntryStep(table, k, n);
      if op.val != 0 {
        len := len + 1;
        if op.hasArg != NoArgument {
          len := len + 1;
        }
      }
      k := k + 1;
    }
    assert table[..k] == Entries(table);
  }

  /** mirage_getopt's buffer: the short-option string, then its NUL terminator; the
      characters written never go past `len - 1`. */
  method ShortOptionBuffer(table: seq<LongOption>) returns (buf: array<char>)
    requires Terminated(table)
    ensures buf.Length == 1 + |ShortOptions(Entries(table))| + OptionalCount(Entries(table))
    ensures buf[..|ShortOptions(Entries(table))|] == ShortOptions(Entries(table))
    ensures buf[|ShortOptions(Entries(table))|] == NUL
  {
    ghost var n := TerminatorIndex(table);
    var len := ShortOptionsLength(table);
    buf := new char[len];
    var pos := 0;
    var k := 0;
    while table[k].name.Some?
      invariant 0 <= k <= n
      invariant pos == |ShortOptions(table[..k])|
      invariant pos + |ShortOptions(table[k..n])| + OptionalCount(table[k..n]) < buf.Length
      invariant buf[..pos] == ShortOptions(table[..k])
      decreases n - k
    {
      var op := table[k];
      EntryStep(table, k, n);
      ghost var before := buf[..pos];
      if op.val != 0 {
        buf[pos] := OptChar(op.val);
        pos := pos + 1;
        if op.hasArg == RequiredArgument {
          buf[pos] := ':';
          pos := pos + 1;
        }
      }
      assert buf[..pos] == before + Emitted(op);
      k := k + 1;
    }
    assert table[..k] == Entries(table);
    buf[pos] := NUL;
  }

  /** One step of either loop over the table, entry `k` before the terminator at `n`. */
  lemma EntryStep(table: seq<LongOption>, k: nat, n: nat)
    requires k < n <= |table|
    ensures ShortOptions(table[..k + 1]) == ShortOptions(table[..k]) + Emitted(table[k])
    ensures OptionalCount(table[..k + 1]) == OptionalCount(table[..k]) + OptionalCount([table[k]])
    ensures ShortOptions(table[k..n]) == Emitted(table[k]) + ShortOptions(table[k + 1..n])
    ensures OptionalCount(table[k..n]) == OptionalCount([table[k]]) + OptionalCount(table[k + 1..n])
    ensures ShortOptions([table[k]]) == Emitted(table[k])
    ensures OptionalCount([table[k]]) == (if table[k].val != 0 && table[k].hasArg == OptionalArgument then 1 else 0)
  {
    var op := table[k];
    assert [op][1..] == [];
    ShortOptionsAppend(table[..k], [op]);
    OptionalCountAppend(table[..k], [op]);
    assert table[..k + 1] == table[..k] + [op];
    ShortOptionsAppend([op], table[k + 1..n]);
    OptionalCountAppend([op], table[k + 1..n]);
    assert table[k..n] == [op] + table[k + 1..n];
  }

  /** getopt's global `optind`. */
  class GetoptState {
    var optind: int

    constructor ()
      ensures optind == 1
    {
      optind := 1;
    }
  }

  /** The build without getopt_long parses no options at all: it rewinds `optind` to the
      first argument and reports the end of the options. */
  method FallbackGetopt(g: GetoptState) returns (r: int)
    modifies g
    ensures g.optind == 1 && r == -1
  {
    g.optind := 1;
    r := -1;
  }

  /** The option table of mirage2iso's main. */
  function Mirage2IsoOptions(): seq<LongOption> {
    [ LongOption(Some("stdout"), NoArgument, 'c' as int),
      LongOption(Some("force"), NoArgument, 'f' as int),
      LongOption(Some("help"), NoArgument, '?' as int),
      LongOption(Some("session"), RequiredArgument, 's' as int),
      LongOption(Some("stdio"), NoArgument, 'S' as int),
      LongOption(Some("verbose"), NoArgument, 'v' as int),
      LongOption(Some("version"), NoArgument, 'V' as int),
      LongOption(None, NoArgument, 0) ]
  }

  /** The short-option string built from mirage2iso's own table, in table order. */
  lemma Mirage2IsoShortOptions()
    ensures Terminated(Mirage2IsoOptions())
    ensures ShortOptions(Entries(Mirage2IsoOptions())) == "cf?s:SvV"
    ensures OptionalCount(Entries(Mirage2IsoOptions())) == 0
  {
    var t := Mirage2IsoOptions();
    assert t[7].name.None?;
    assert TerminatorIndex(t) == 7;
    var e := Entries(t);
    assert e == [t[0], t[1], t[2], t[3], t[4], t[5], t[6]];
  }
}
