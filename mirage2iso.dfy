/**
  The mirage2iso command: it reads its options, settles on the input image,
  the output (a named file, a name guessed from the input, or standard
  output) and the session, then opens the image through the libmirage
  wrapper and extracts the first track of that session.
 */
module Mirage2Iso {
  import opened Common
  import opened MirageWrapper

  // Exit codes of sysexits.h.
  const EX_OK: int := 0
  const EX_USAGE: int := 64
  const EX_DATAERR: int := 65
  const EX_IOERR: int := 74

  // ---------------------------------------------------------------------------
  // Integer arguments: strtol(val, &end, 0)

  /** isspace in the C locale: space, \t, \n, \v, \f, \r. */
  predicate IsSpace(c: char) {
    c == ' ' || ('\t' <= c <= '\r')
  }

  /** Value of a digit in any base up to 36; 36 for a character that is no digit at all. */
  function DigitValue(c: char): nat {
    if '0' <= c <= '9' then c as int - '0' as int
    else if 'a' <= c <= 'z' then c as int - 'a' as int + 10
    else if 'A' <= c <= 'Z' then c as int - 'A' as int + 10
    else 36
  }

  /** Index of the first character at or after `i` that is not white space. */
  function SpacesEnd(s: string, i: nat): (j: nat)
    requires i <= |s|
    ensures i <= j <= |s|
    decreases |s| - i
  {
    if i < |s| && IsSpace(s[i]) then SpacesEnd(s, i + 1) else i
  }

  /** Index of the first character at or after `i` that is no digit of `base`. */
  function DigitsEnd(s: string, i: nat, base: nat): (j: nat)
    requires i <= |s|
    ensures i <= j <= |s|
    decreases |s| - i
  {
    if i < |s| && DigitValue(s[i]) < base then DigitsEnd(s, i + 1, base) else i
  }

  /** strtol's white-space skip stops exactly at the first character that is not white
      space: everything it passes over is white space. */
  lemma {:induction false} SpacesEndSkips(s: string, i: nat)
    requires i <= |s|
    ensures forall k :: i <= k < SpacesEnd(s, i) ==> IsSpace(s[k])
    ensures SpacesEnd(s, i) < |s| ==> !IsSpace(s[SpacesEnd(s, i)])
    decreases |s| - i
  {
    if i < |s| && IsSpace(s[i]) {
      SpacesEndSkips(s, i + 1);
    }
  }

  /** The number the digits `s[i..j]` denote in `base`. */
  function DigitsValue(s: string, i: nat, j: nat, base: nat): int
    requires i <= j <= |s|
    decreases j - i
  {
    if i == j then 0 else DigitsValue(s, i, j - 1, base) * base + DigitValue(s[j - 1])
  }

  /** What strtol returns, and how many characters it consumed (`end - val`). */
  datatype Conversion = Conversion(value: int, consumed: nat)

  // The range of a 64-bit `long`, where strtol saturates.
  const LONG_MIN: int := -0x8000_0000_0000_0000
  const LONG_MAX: int := 0x7fff_ffff_ffff_ffff

  /** strtol's result for a value outside `long`: the nearer limit (with ERANGE). */
  function ClampLong(x: int): (r: int)
    ensures LONG_MIN <= r <= LONG_MAX
    ensures LONG_MIN <= x <= LONG_MAX ==> r == x
    ensures x > LONG_MAX ==> r == LONG_MAX
    ensures x < LONG_MIN ==> r == LONG_MIN
  {
    if x > LONG_MAX then LONG_MAX else if x < LONG_MIN then LONG_MIN else x
  }

  /** strtol with base 0: optional white space and sign; then a "0x" prefix followed by a
      hexadecimal digit selects base 16, a leading 0 base 8, anything else base 10. Without
      any digit nothing is consumed and the value is 0. */
  function Strtol(s: string): (c: Conversion)
    ensures c.consumed <= |s|
    ensures LONG_MIN <= c.value <= LONG_MAX
  {
    var i := SpacesEnd(s, 0);
    var negative := i < |s| && s[i] == '-';
    var j := if i < |s| && (s[i] == '-' || s[i] == '+') then i + 1 else i;
    var hex := j + 2 < |s| && s[j] == '0' && (s[j + 1] == 'x' || s[j + 1] == 'X')
               && DigitValue(s[j + 2]) < 16;
    var base := if hex then 16 else if j < |s| && s[j] == '0' then 8 else 10;
    DigitsFrom(s, if hex then j + 2 else j, base, negative)
  }

  /** The conversion once the digits of `base` are known to start at `d`. */
  function DigitsFrom(s: string, d: nat, base: nat, negative: bool): (c: Conversion)
    requires d <= |s|
    ensures c.consumed <= |s|
    ensures LONG_MIN <= c.value <= LONG_MAX
    ensures c.consumed == 0 || d < c.consumed
  {
    var e := DigitsEnd(s, d, base);
    if e == d then Conversion(0, 0)
    else
      var m := DigitsValue(s, d, e, base);
      Conversion(ClampLong(if negative then -m else m), e)
  }

  /** try_atoi: whether the whole string was a number, and the new value of `*out`: strtol's
      `long` narrowed to the 32-bit `int` it is stored in; on failure `*out` keeps its value. */
  function TryAtoi(val: string, out: int): (r: (bool, int))
    ensures r.0 <==> Strtol(val).consumed == |val|
    ensures !r.0 ==> r.1 == out
    ensures r.0 ==> r.1 == WrapInt(Strtol(val).value)
  {
    var c := Strtol(val);
    if c.consumed != |val| then (false, out) else (true, WrapInt(c.value))
  }

  function DigitChar(d: nat): char
    requires d < 10
  {
    ('0' as int + d) as char
  }

  /** Decimal digits of a natural number, without leading zeros. */
  function Digits(m: nat): (s: string)
    ensures |s| > 0
    ensures forall k :: 0 <= k < |s| ==> '0' <= s[k] <= '9'
    ensures (s[0] == '0') <==> m == 0
    ensures m == 0 ==> s == "0"
  {
    if m < 10 then [DigitChar(m)] else Digits(m / 10) + [DigitChar(m % 10)]
  }

  /** The usual decimal spelling of an integer. */
  function DecimalString(n: int): string {
    if n < 0 then "-" + Digits(-n) else Digits(n)
  }

  /** Digits(m), found at index `j` of `s`, are read back as m. */
  lemma {:induction false} DigitsValueOfDigits(m: nat, s: string, j: nat)
    requires j + |Digits(m)| <= |s|
    requires forall k :: 0 <= k < |Digits(m)| ==> s[j + k] == Digits(m)[k]
    ensures DigitsValue(s, j, j + |Digits(m)|, 10) == m
  {
    if m >= 10 {
      var d := Digits(m / 10);
      assert Digits(m) == d + [DigitChar(m % 10)];
      forall k | 0 <= k < |d| ensures s[j + k] == d[k] {
        assert s[j + k] == Digits(m)[k];
      }
      DigitsValueOfDigits(m / 10, s, j);
      assert s[j + |d|] == Digits(m)[|d|];
    }
  }

  /** The digit run ends at the first character that is no digit of `base`. */
  lemma {:induction false} DigitsEndExact(s: string, i: nat, base: nat, e: nat)
    requires i <= e <= |s|
    requires forall k :: i <= k < e ==> DigitValue(s[k]) < base
    requires e < |s| ==> DigitValue(s[e]) >= base
    ensures DigitsEnd(s, i, base) == e
    decreases e - i
  {
    if i < e {
      DigitsEndExact(s, i + 1, base, e);
    }
  }

  /** A character that ends a decimal numeral and cannot start a "0x" prefix either. */
  predicate EndsNumeral(c: char) {
    DigitValue(c) >= 10 && c != 'x' && c != 'X'
  }

  /** How a decimal spelling followed by `rest` begins: a minus sign exactly for a negative
      number, then the digits. */
  lemma DecimalShape(n: int, rest: string)
    ensures var s := DecimalString(n) + rest;
            var j := if n < 0 then 1 else 0;
            var ds := Digits(if n < 0 then -n else n);
            && |DecimalString(n)| == j + |ds| <= |s|
            && !IsSpace(s[0]) && s[0] != '+' && (s[0] == '-' <==> n < 0)
            && (forall k :: 0 <= k < |ds| ==> s[j + k] == ds[k])
            && (forall k :: 0 <= k < |rest| ==> s[j + |ds| + k] == rest[k])
  {
    var s := DecimalString(n) + rest;
    assert s[0] == DecimalString(n)[0];
  }

  /** Decimal digits at `j`, ended by a character that is no digit, convert to their value
      (a lone "0" is read in base 8, to the same effect). */
  lemma DigitsFromDecimal(s: string, j: nat, m: nat, negative: bool)
    requires j + |Digits(m)| <= |s|
    requires forall k :: 0 <= k < |Digits(m)| ==> s[j + k] == Digits(m)[k]
    requires j + |Digits(m)| < |s| ==> EndsNumeral(s[j + |Digits(m)|])
    requires if negative then m <= -LONG_MIN else m <= LONG_MAX
    ensures DigitsFrom(s, j, if m == 0 then 8 else 10, negative)
         == Conversion(if negative then -(m as int) else m as int, j + |Digits(m)|)
  {
    var ds := Digits(m);
    var e := j + |ds|;
    var base := if m == 0 then 8 else 10;
    forall k | j <= k < e ensures DigitValue(s[k]) < base {
      assert s[k] == ds[k - j];
    }
    DigitsEndExact(s, j, base, e);
    if m == 0 {
      assert DigitsValue(s, j, e, base) == 0;
    } else {
      DigitsValueOfDigits(m, s, j);
    }
  }

  /** Without leading white space, a plus sign or a "0x" prefix, the digits start right after
      the minus sign, if any, and a leading 0 selects octal. */
  lemma StrtolUnprefixed(s: string, j: nat)
    requires j < |s| && j <= 1
    requires !IsSpace(s[0]) && s[0] != '+' && (s[0] == '-' <==> j == 1)
    requires !(j + 2 < |s| && s[j] == '0' && (s[j + 1] == 'x' || s[j + 1] == 'X'))
    ensures Strtol(s) == DigitsFrom(s, j, if s[j] == '0' then 8 else 10, j == 1)
  {
    assert SpacesEnd(s, 0) == 0;
  }

  /** strtol reads a decimal spelling of a `long` back, whatever ends it. */
  lemma StrtolDecimal(n: int, rest: string)
    requires LONG_MIN <= n <= LONG_MAX
    requires rest != [] ==> EndsNumeral(rest[0])
    ensures Strtol(DecimalString(n) + rest) == Conversion(n, |DecimalString(n)|)
  {
    var s := DecimalString(n) + rest;
    var m := if n < 0 then -n else n;
    var j := if n < 0 then 1 else 0;
    var ds := Digits(m);
    DecimalShape(n, rest);
    assert s[j] == ds[0];
    StrtolUnprefixed(s, j);
    assert j + |ds| < |s| ==> s[j + |ds|] == rest[0];
    DigitsFromDecimal(s, j, m, n < 0);
  }

  /** A --session argument spelled in decimal is accepted, with its value narrowed to `int`:
      one within `int` is taken as it is. */
  lemma TryAtoiDecimal(n: int, out: int)
    requires LONG_MIN <= n <= LONG_MAX
    ensures TryAtoi(DecimalString(n), out) == (true, WrapInt(n))
    ensures INT_MIN <= n <= INT_MAX ==> TryAtoi(DecimalString(n), out).1 == n
  {
    StrtolDecimal(n, []);
    assert DecimalString(n) + [] == DecimalString(n);
  }

  /** A value between INT_MAX and 2^32 wraps around to a negative one: "4294967295" is
      accepted as session -1, the last session. */
  lemma TryAtoiWraps(n: int, out: int)
    requires INT_MAX < n < 0x1_0000_0000
    ensures TryAtoi(DecimalString(n), out) == (true, n - 0x1_0000_0000)
  {
    TryAtoiDecimal(n, out);
    WrapIntHigh(n);
  }

  /** Narrowing to `int` takes 2^32 off a value between INT_MAX and 2^32. */
  lemma WrapIntHigh(n: int)
    requires INT_MAX < n < 0x1_0000_0000
    ensures WrapInt(n) == n - 0x1_0000_0000
  {
    var x := n - INT_MIN;
    assert 0x1_0000_0000 <= x < 0x2_0000_0000;
    assert x % 0x1_0000_0000 == x - 0x1_0000_0000;
  }

  /** A number followed by text that ends it is refused, and `*out` keeps its value. */
  lemma TryAtoiTrailing(n: int, rest: string, out: int)
    requires LONG_MIN <= n <= LONG_MAX
    requires rest != [] && EndsNumeral(rest[0])
    ensures TryAtoi(DecimalString(n) + rest, out) == (false, out)
  {
    StrtolDecimal(n, rest);
  }

  /** Corners of base 0: "08" is octal and stops at the 8, so it is refused; "0x1f" is
      hexadecimal; the empty string converts nothing yet leaves nothing behind, so it is
      accepted as 0. */
  lemma TryAtoiCorners(out: int)
    ensures TryAtoi("08", out) == (false, out)
    ensures TryAtoi("0x1f", out) == (true, 31)
    ensures TryAtoi("", out) == (true, 0)
  {
    assert Strtol("08") == Conversion(0, 1) by {
      assert SpacesEnd("08", 0) == 0;
      assert DigitsEnd("08", 0, 8) == 1;
    }
    assert Strtol("0x1f") == Conversion(31, 4) by {
      assert SpacesEnd("0x1f", 0) == 0;
      assert DigitsEnd("0x1f", 2, 16) == 4;
      assert DigitsValue("0x1f", 2, 4, 16) == 31;
    }
  }

  // ---------------------------------------------------------------------------
  // Output file name

  /** strrchr(s, '.'): the index of the last dot. */
  function LastDot(s: string): (r: Option<nat>)
    ensures r.Some? ==> r.value < |s| && s[r.value] == '.'
                        && forall k :: r.value < k < |s| ==> s[k] != '.'
    ensures r.None? ==> forall k :: 0 <= k < |s| ==> s[k] != '.'
  {
    if s == [] then None
    else if s[|s| - 1] == '.' then Some(|s| - 1)
    else LastDot(s[..|s| - 1])
  }

  /** The output name guessed from the input name. */
  function GuessedName(input: string): (r: string)
    ensures |r| >= 4 && r[|r| - 4..] == ".iso"
    ensures var stem := r[..|r| - 4];
            && |stem| <= |input|
            && stem == input[..|stem|]
            && (forall k :: |stem| < k < |input| ==> input[k] != '.')
            && (|stem| < |input| <==> exists k :: 0 <= k < |input| && input[k] == '.')
            && (|stem| < |input| ==> input[|stem|] == '.')
  {
    var namelen := match LastDot(input) case Some(k) => k case None => |input|;
    input[..namelen] + ".iso"
  }

  /** The guessed name built in a buffer of `namelen + 5` characters: the stem, ".iso" and
      the terminator fill it exactly. */
  method BuildOutputName(input: string) returns (outbuf: array<char>)
    requires NUL !in input
    ensures outbuf.Length == |GuessedName(input)| + 1
    ensures outbuf[..outbuf.Length - 1] == GuessedName(input)
    ensures outbuf[outbuf.Length - 1] == NUL
  {
    var ext := LastDot(input);
    var namelen := |input| - (if ext.Some? then |input| - ext.value else 0);
    outbuf := new char[namelen + 5];
    forall k | 0 <= k < namelen {
      outbuf[k] := input[k];
    }
    outbuf[namelen] := '.';
    outbuf[namelen + 1] := 'i';
    outbuf[namelen + 2] := 's';
    outbuf[namelen + 3] := 'o';
    outbuf[namelen + 4] := NUL;
    assert outbuf[..namelen + 4] == input[..namelen] + ".iso";
  }

  /** The guessed name as main builds it: strncpy copies `namelen` characters into the fresh
      buffer and, `namelen` being at most strlen(in), no terminator; strcat then appends ".iso"
      at the first NUL it finds, which lies in the uninitialised rest `alloc[namelen..]` of
      the `namelen + 5` characters allocated. None: strcat writes past the allocation. */
  function GuessAsWritten(input: string, alloc: seq<char>): (r: Option<string>)
    requires NUL !in input
    requires |alloc| == |GuessedName(input)| + 1
    ensures r.Some? ==> r.value == GuessedName(input)
  {
    var namelen := |GuessedName(input)| - 4;
    var copied := input[..namelen] + alloc[namelen..];
    var at := CLen(copied);
    if at + 5 > |copied| then None else Some(copied[..at] + ".iso")
  }

  /** As written, the guessed name comes out right exactly when the allocation happens to
      hold a NUL at `namelen`; any other byte there makes strcat overrun the buffer. */
  lemma GuessAsWrittenNeedsZero(input: string, alloc: seq<char>)
    requires NUL !in input
    requires |alloc| == |GuessedName(input)| + 1
    ensures var namelen := |GuessedName(input)| - 4;
            GuessAsWritten(input, alloc)
            == (if alloc[namelen] == NUL then Some(GuessedName(input)) else None)
  {
    var name := GuessedName(input);
    var namelen := |name| - 4;
    var copied := input[..namelen] + alloc[namelen..];
    forall k | 0 <= k < namelen ensures copied[k] != NUL {
      assert copied[k] == input[k];
    }
    assert copied[namelen] == alloc[namelen];
    if alloc[namelen] == NUL {
      CLenAt(copied, namelen);
      assert copied[..namelen] == input[..namelen];
      assert name == name[..namelen] + name[namelen..];
    } else {
      assert CLen(copied) > namelen;
    }
  }

  /** With no NUL in the new allocation, "a.b" makes strcat run off the buffer. */
  lemma GuessAsWrittenOverruns()
    ensures GuessAsWritten("a.b", "zzzzzz") == None
  {
    GuessAsWrittenNeedsZero("a.b", "zzzzzz");
  }

  // ---------------------------------------------------------------------------
  // Command line

  /** The options getopt_long hands to main, in order (an unknown option or a missing
      argument comes back as --help's '?'). */
  datatype Opt = StdoutFlag | ForceFlag | SessionFlag(arg: string) | StdioFlag
               | VerboseFlag | VersionFlag | HelpFlag

  predicate StopsParsing(o: Opt) {
    o.VersionFlag? || o.HelpFlag?
  }

  function StopCodeOf(o: Opt): int
    requires StopsParsing(o)
  {
    if o.VersionFlag? then EX_OK else EX_USAGE
  }

  /** The exit code of the first --version (EX_OK) or --help (EX_USAGE), if any. */
  function StopCode(opts: seq<Opt>): Option<int> {
    if opts == [] then None
    else if StopsParsing(opts[0]) then Some(StopCodeOf(opts[0]))
    else StopCode(opts[1..])
  }

  /** Parsing ends at the first --version or --help, with that option's exit code. */
  lemma {:induction false} StopCodeAt(opts: seq<Opt>, k: nat)
    requires k < |opts| && StopsParsing(opts[k])
    requires forall j :: 0 <= j < k ==> !StopsParsing(opts[j])
    ensures StopCode(opts) == Some(StopCodeOf(opts[k]))
  {
    if k > 0 {
      assert forall j :: 0 <= j < k - 1 ==> opts[1..][j] == opts[j + 1];
      StopCodeAt(opts[1..], k - 1);
    }
  }

  /** Without --version and --help, parsing runs through all the options. */
  lemma {:induction false} StopCodeNone(opts: seq<Opt>)
    ensures StopCode(opts).None? <==> forall k :: 0 <= k < |opts| ==> !StopsParsing(opts[k])
  {
    if opts != [] {
      StopCodeNone(opts[1..]);
      assert forall k :: 1 <= k < |opts| ==> opts[k] == opts[1..][k - 1];
    }
  }

  /** The variables main's option loop sets. `stdio` is --stdio alone. */
  datatype Settings = Settings(sessionNum: int, force: bool, useStdout: bool, stdio: bool, verbose: bool)

  /** Their values before the loop: session -1 (the last one), every flag off. */
  const INITIAL_SETTINGS: Settings := Settings(-1, false, false, false, false)

  /** One pass of the option switch. A --session whose argument is not a whole number is
      reported and leaves the session number as it was. */
  function Record(st: Settings, o: Opt): (r: Settings)
    ensures r.force == (st.force || o.ForceFlag?)
    ensures r.useStdout == (st.useStdout || o.StdoutFlag?)
    ensures r.stdio == (st.stdio || o.StdioFlag?)
    ensures r.verbose == (st.verbose || o.VerboseFlag?)
    ensures !o.SessionFlag? ==> r.sessionNum == st.sessionNum
    ensures o.SessionFlag? ==>
              if Strtol(o.arg).consumed == |o.arg| then r.sessionNum == WrapInt(Strtol(o.arg).value)
              else r.sessionNum == st.sessionNum
  {
    match o
    case StdoutFlag => st.(useStdout := true)
    case ForceFlag => st.(force := true)
    case SessionFlag(a) => st.(sessionNum := TryAtoi(a, st.sessionNum).1)
    case StdioFlag => st.(stdio := true)
    case VerboseFlag => st.(verbose := true)
    case VersionFlag => st
    case HelpFlag => st
  }

  /** The settings after a run of options. */
  function SettingsAfter(opts: seq<Opt>): Settings
  {
    if opts == [] then INITIAL_SETTINGS
    else Record(SettingsAfter(opts[..|opts| - 1]), opts[|opts| - 1])
  }

  /** Each flag is on exactly when its option was given at least once. */
  lemma {:induction false} SettingsFlags(opts: seq<Opt>)
    ensures SettingsAfter(opts).force == (ForceFlag in opts)
    ensures SettingsAfter(opts).useStdout == (StdoutFlag in opts)
    ensures SettingsAfter(opts).stdio == (StdioFlag in opts)
    ensures SettingsAfter(opts).verbose == (VerboseFlag in opts)
  {
    if opts != [] {
      var before := opts[..|opts| - 1];
      assert opts == before + [opts[|opts| - 1]];
      SettingsFlags(before);
    }
  }

  /** Without a --session that converts completely, the default session (-1, the last one) stays. */
  lemma {:induction false} SessionSettingKeepsDefault(opts: seq<Opt>)
    requires forall k :: 0 <= k < |opts| && opts[k].SessionFlag? ==> Strtol(opts[k].arg).consumed != |opts[k].arg|
    ensures SettingsAfter(opts).sessionNum == -1
  {
    if opts != [] {
      var before := opts[..|opts| - 1];
      assert forall k :: 0 <= k < |before| ==> before[k] == opts[k];
      SessionSettingKeepsDefault(before);
    }
  }

  /** The session number is the default or the value of an accepted --session argument. */
  lemma {:induction false} SessionSettingSource(opts: seq<Opt>)
    ensures var r := SettingsAfter(opts).sessionNum;
            r == -1 || exists k :: && 0 <= k < |opts| && opts[k].SessionFlag?
                                   && Strtol(opts[k].arg).consumed == |opts[k].arg|
                                   && r == WrapInt(Strtol(opts[k].arg).value)
  {
    if opts != [] {
      var before := opts[..|opts| - 1];
      var last := opts[|opts| - 1];
      var r := SettingsAfter(opts).sessionNum;
      if last.SessionFlag? && Strtol(last.arg).consumed == |last.arg| {
        assert r == WrapInt(Strtol(last.arg).value);
      } else {
        assert r == SettingsAfter(before).sessionNum;
        SessionSettingSource(before);
        if r != -1 {
          var k :| && 0 <= k < |before| && before[k].SessionFlag?
                   && Strtol(before[k].arg).consumed == |before[k].arg|
                   && r == WrapInt(Strtol(before[k].arg).value);
          assert opts[k] == before[k];
        }
      }
    }
  }

  /** Each accepted --session argument overwrites the session number, so the last accepted
      one wins. */
  lemma {:induction false} SessionSettingLast(opts: seq<Opt>, k: nat)
    requires k < |opts| && opts[k].SessionFlag? && Strtol(opts[k].arg).consumed == |opts[k].arg|
    requires forall j :: k < j < |opts| && opts[j].SessionFlag? ==> Strtol(opts[j].arg).consumed != |opts[j].arg|
    ensures SettingsAfter(opts).sessionNum == WrapInt(Strtol(opts[k].arg).value)
    decreases |opts|
  {
    var before := opts[..|opts| - 1];
    if k < |opts| - 1 {
      assert forall j :: k < j < |before| ==> before[j] == opts[j];
      assert before[k] == opts[k];
      SessionSettingLast(before, k);
    }
  }

  /** The settings after one more option. */
  lemma SettingsStep(opts: seq<Opt>, k: nat)
    requires k < |opts|
    ensures SettingsAfter(opts[..k + 1]) == Record(SettingsAfter(opts[..k]), opts[k])
  {
    assert opts[..k + 1][..k] == opts[..k];
  }

  /** main's getopt loop: it stops with an exit code at --version or --help, and otherwise
      records each option. */
  method ScanOptions(opts: seq<Opt>) returns (stop: Option<int>, st: Settings)
    ensures stop == StopCode(opts)
    ensures stop.None? ==> st == SettingsAfter(opts)
  {
    st := INITIAL_SETTINGS;
    var k := 0;
    while k < |opts|
      invariant 0 <= k <= |opts|
      invariant forall j :: 0 <= j < k ==> !StopsParsing(opts[j])
      invariant st == SettingsAfter(opts[..k])
    {
      SettingsStep(opts, k);
      ghost var before := st;
      match opts[k] {
        case StdoutFlag => st := st.(useStdout := true);
        case ForceFlag => st := st.(force := true);
        case SessionFlag(a) =>
          var r := TryAtoi(a, st.sessionNum);
          st := st.(sessionNum := r.1);
        case StdioFlag => st := st.(stdio := true);
        case VerboseFlag => st := st.(verbose := true);
        case VersionFlag =>
          StopCodeAt(opts, k);
          return Some(EX_OK), st;
        case HelpFlag =>
          StopCodeAt(opts, k);
          return Some(EX_USAGE), st;
      }
      assert st == Record(before, opts[k]);
      k := k + 1;
    }
    assert opts[..k] == opts;
    StopCodeNone(opts);
    stop := None;
  }

  /** What main decides before touching the image: exit with a code, or convert. `output` is
      None for standard output. */
  datatype Invocation =
    | Exit(code: int)
    | Convert(input: string, output: Option<string>, sessionNum: int, forceStdio: bool, verbose: bool)

  /** main up to opening the image. `operands` are the arguments left after the options;
      `guessFree(name)` says whether opening `name` for reading fails with ENOENT. */
  method ParseCommandLine(opts: seq<Opt>, operands: seq<string>, guessFree: string -> bool)
    returns (inv: Invocation)
    requires forall k :: 0 <= k < |operands| ==> NUL !in operands[k]
    ensures StopCode(opts).Some? ==> inv == Exit(StopCode(opts).value)
    ensures StopCode(opts).None? && operands == [] ==> inv == Exit(EX_USAGE)
    ensures StopCode(opts).None? && StdoutFlag in opts && |operands| >= 2 ==> inv == Exit(EX_USAGE)
    ensures (&& StopCode(opts).None? && StdoutFlag !in opts && ForceFlag !in opts && |operands| == 1
             && !guessFree(GuessedName(operands[0]))) ==> inv == Exit(EX_USAGE)
    ensures inv.Exit? ==> (|| StopCode(opts).Some?
                           || operands == []
                           || (StdoutFlag in opts && |operands| >= 2)
                           || (&& StdoutFlag !in opts && ForceFlag !in opts && |operands| == 1
                               && !guessFree(GuessedName(operands[0]))))
    ensures inv.Convert? ==>
              && StopCode(opts).None? && operands != []
              && inv.input == operands[0]
              && inv.sessionNum == SettingsAfter(opts).sessionNum
              && inv.verbose == (VerboseFlag in opts)
              && inv.forceStdio == (StdoutFlag in opts || StdioFlag in opts)
              && inv.output == (if StdoutFlag in opts then None
                                else if |operands| >= 2 then Some(operands[1])
                                else Some(GuessedName(operands[0])))
  {
    var stop, st := ScanOptions(opts);
    if stop.Some? {
      return Exit(stop.value);
    }
    SettingsFlags(opts);
    var forceStdio := st.stdio || st.useStdout;
    if |operands| == 0 {
      return Exit(EX_USAGE);
    }
    var input := operands[0];
    var output: Option<string>;
    if |operands| < 2 {
      if !st.useStdout {
        var outbuf := BuildOutputName(input);
        var name := outbuf[..outbuf.Length - 1];
        if !st.force && !guessFree(name) {
          return Exit(EX_USAGE);
        }
        output := Some(name);
      } else {
        output := None;
      }
    } else if st.useStdout {
      return Exit(EX_USAGE);
    } else {
      output := Some(operands[1]);
    }
    inv := Convert(input, output, st.sessionNum, forceStdio, st.verbose);
  }

  // ---------------------------------------------------------------------------
  // Conversion

  /** output_track: refuses a track of size 0 before touching the output; otherwise extracts
      into a region mapped onto the output file (sized to the track), or with --stdio /
      --stdout through sequential writes. */
  method OutputTrack(w: Wrapper, trackNum: int, forceStdio: bool, f: OutputFile) returns (code: int)
    requires w.Valid()
    modifies f
    ensures code == EX_OK || code == EX_DATAERR || code == EX_IOERR
    ensures w.TrackSize(trackNum) == 0 ==> code == EX_DATAERR && unchanged(f)
    ensures code == EX_DATAERR ==> w.TrackSize(trackNum) == 0
    ensures w.TrackSize(trackNum) > 0 ==>
              (code == EX_OK <==> TrackExtraction(w.session.value, trackNum,
                                                   if forceStdio then Some(old(f.room)) else None).ok)
    ensures code == EX_OK ==>
              && w.session.Some?
              && var s := w.session.value;
              && 0 <= trackNum < |s.tracks| && s.tracks[trackNum].mode == MODE_MODE1
              && (forceStdio ==>
                    var e := TrackExtraction(s, trackNum, Some(old(f.room)));
                    e.ok && f.contents == old(f.contents) + e.payload && |e.payload| == w.TrackSize(trackNum))
              && (!forceStdio ==>
                    var e := TrackExtraction(s, trackNum, None);
                    e.ok && f.contents == e.payload && |e.payload| == w.TrackSize(trackNum))
  {
    var size := w.TrackSize(trackNum);
    if size == 0 {
      return EX_DATAERR;
    }
    var s := w.session.value;
    var ok, visited;
    if !forceStdio {
      var region := new byte[size];
      ok, visited := w.OutputTrack(region, trackNum, f);
      ExtractionMatchesSize(s, trackNum, None);
      assert ok ==> region[..] == region[..size];
      f.CommitMapping(region[..]);
    } else {
      ok, visited := w.OutputTrack(null, trackNum, f);
      ExtractionMatchesSize(s, trackNum, Some(old(f.room)));
    }
    code := if ok then EX_OK else EX_IOERR;
  }

  /** The end of main: open the image (None: the library could not read the file) and the
      session, note a session with several tracks, and extract track 0 only. */
  method RunConversion(image: Option<Disc>, sessionNum: int, forceStdio: bool, f: OutputFile)
    returns (code: int, severalTracks: bool)
    requires image.Some? ==> DiscWellFormed(image.value)
    modifies f
    ensures code == EX_OK || code == EX_DATAERR || code == EX_IOERR
    ensures image.Some? && SessionByIndex(image.value, sessionNum).Some?
            && |SessionByIndex(image.value, sessionNum).value.tracks| > 0 ==>
              var s := SessionByIndex(image.value, sessionNum).value;
              && (code == EX_DATAERR <==> SessionTrackSize(s, 0) == 0)
              && (SessionTrackSize(s, 0) == 0 ==> unchanged(f))
    ensures var opens := && image.Some? && |image.value.sessions| > 0
                         && SessionByIndex(image.value, sessionNum).Some?
                         && |SessionByIndex(image.value, sessionNum).value.tracks| > 0;
            && (!opens ==> code == EX_DATAERR && !severalTracks && unchanged(f))
            && (opens ==> severalTracks == (|SessionByIndex(image.value, sessionNum).value.tracks| > 1))
    ensures (&& image.Some?
             && SessionByIndex(image.value, sessionNum).Some?
             && var s := SessionByIndex(image.value, sessionNum).value;
             && s.tracks != [] && s.tracks[0].mode == MODE_MODE1
             && s.tracks[0].start < s.tracks[0].length
             && TrackExtraction(s, 0, if forceStdio then Some(old(f.room)) else None).ok)
            ==> code == EX_OK
    ensures code == EX_OK ==>
              && image.Some?
              && SessionByIndex(image.value, sessionNum).Some?
              && var s := SessionByIndex(image.value, sessionNum).value;
              && s.tracks != [] && s.tracks[0].mode == MODE_MODE1
              && s.tracks[0].start < s.tracks[0].length
              && var e := TrackExtraction(s, 0, if forceStdio then Some(old(f.room)) else None);
              && e.ok
              && |e.payload| == SECTOR_SIZE * (s.tracks[0].length - s.tracks[0].start)
              && f.contents == (if forceStdio then old(f.contents) else []) + e.payload
  {
    var w := new Wrapper();
    var ok := w.Open(image, sessionNum);
    if !ok {
      return EX_DATAERR, false;
    }
    severalTracks := w.TrackCount() > 1;
    code := OutputTrack(w, 0, forceStdio, f);
    if code == EX_OK {
      assert w.session.value.tracks[0] in w.session.value.tracks;
      assert [] + f.contents == f.contents;
    }
  }
}
