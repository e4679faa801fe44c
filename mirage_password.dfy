/**
  Password input of mirage2iso: the first request reads one line from
  standard input into a 256-byte buffer, strips its line terminator and
  keeps it; later requests return the kept buffer without reading again.
  Forgetting the password wipes the buffer before releasing it.
 */
module MiragePassword {
  import opened Common

  /** Size of the password buffer handed to fgets. */
  const PASSWORD_BUFSIZE: nat := 256

  predicate IsEol(c: char) {
    c == '\n' || c == '\r'
  }

  /** How many characters fgets takes from `input` when it may store at most `max`: up to and
      including the first newline, and no more than `max`. */
  function FgetsCount(input: seq<char>, max: nat): (n: nat)
    ensures n <= max && n <= |input|
    ensures forall k :: 0 <= k < n - 1 ==> input[k] != '\n'
    ensures n < max && n < |input| ==> n > 0 && input[n - 1] == '\n'
    ensures max > 0 && input != [] ==> n > 0
  {
    if max == 0 || input == [] then 0
    else if input[0] == '\n' then 1
    else 1 + FgetsCount(input[1..], max - 1)
  }

  /** fgets(buf, size, stdin): None at end of input, otherwise the characters it stores
      (a terminating NUL follows them in the buffer). */
  function Fgets(input: seq<char>, size: nat): (line: Option<string>)
    requires size >= 2
    ensures line.None? <==> input == []
    ensures line.Some? ==> && 0 < |line.value| <= size - 1
                           && |line.value| <= |input|
                           && line.value == input[..|line.value|]
    ensures line.Some? ==> |line.value| == FgetsCount(input, size - 1)
  {
    if input == [] then None else Some(input[..FgetsCount(input, size - 1)])
  }

  /** Removal of the line terminator: a final LF or CR goes, and so does the character before
      it when that is the other one of CR and LF (CR/LF and LF/CR); a doubled LF or doubled CR
      keeps its first half. */
  function StripNewline(s: string): (r: string)
    ensures |r| <= |s| && r == s[..|r|]
    ensures |s| - |r| <= 2
    ensures forall k :: |r| <= k < |s| ==> IsEol(s[k])
    ensures |r| < |s| <==> |s| >= 1 && IsEol(s[|s| - 1])
    ensures |r| + 2 == |s| <==> |s| >= 2 && IsEol(s[|s| - 1]) && IsEol(s[|s| - 2]) && s[|s| - 2] != s[|s| - 1]
  {
    if |s| >= 1 && IsEol(s[|s| - 1]) then
      if |s| >= 2 && s[|s| - 2] != s[|s| - 1] && IsEol(s[|s| - 2]) then s[..|s| - 2]
      else s[..|s| - 1]
    else s
  }

  /** CR/LF and LF/CR are removed whole, while LF/LF and CR/CR lose only their last character. */
  lemma StripTerminatorPairs(s: string)
    ensures StripNewline(s + "\r\n") == s
    ensures StripNewline(s + "\n\r") == s
    ensures StripNewline(s + "\n\n") == s + "\n"
    ensures StripNewline(s + "\r\r") == s + "\r"
  {
    assert (s + "\r\n")[..|s|] == s;
    assert (s + "\n\r")[..|s|] == s;
    assert (s + "\n\n")[..|s| + 1] == s + "\n";
    assert (s + "\r\r")[..|s| + 1] == s + "\r";
  }

  /** Standard input: the characters not read yet. */
  class Console {
    var pending: seq<char>

    constructor (input: seq<char>)
      ensures pending == input
    {
      pending := input;
    }
  }

  /** fgets stores the line it read, then a NUL. */
  method StoreLine(b: array<char>, text: string)
    requires |text| < b.Length
    modifies b
    ensures CStr(b[..]) == CStr(text) && CLen(b[..]) < b.Length
  {
    forall k | 0 <= k < |text| {
      b[k] := text[k];
    }
    b[|text|] := NUL;
    assert b[..] == text + b[|text|..];
    CStrOfTerminated(text, b[|text|..]);
  }

  /** The in-place removal of the line terminator: NULs are written over the final LF or CR
      and over a different CR or LF before it. */
  method StripInPlace(b: array<char>)
    requires CLen(b[..]) < b.Length
    modifies b
    ensures CStr(b[..]) == StripNewline(old(CStr(b[..])))
    ensures CLen(b[..]) < b.Length
  {
    ghost var c := CStr(b[..]);
    var len := CLen(b[..]);
    assert b[..len] == c;
    if len >= 1 && IsEol(b[len - 1]) {
      if len >= 2 && b[len - 2] != b[len - 1] && IsEol(b[len - 2]) {
        b[len - 2] := NUL;
      }
      b[len - 1] := NUL;
    }
    ghost var p := StripNewline(c);
    assert b[..|p|] == p;
    CLenAt(b[..], |p|);
  }

  /** The password module's static state. `buf` is the buffer pointer; `released` records that
      the buffer it points to has been freed (the pointer is not reset). */
  class PasswordStore {
    var buf: array?<char>
    var released: bool

    ghost predicate Valid()
      reads this, buf
    {
      && (buf != null ==> buf.Length == PASSWORD_BUFSIZE)
      && (buf != null && !released ==> 0 < CLen(buf[..]) < PASSWORD_BUFSIZE)
    }

    constructor ()
      ensures Valid() && buf == null && !released
    {
      buf := null;
      released := false;
    }

    /** mirage_input_password: reads and keeps a password on the first call only. */
    method InputPassword(stdin: Console) returns (pass: Option<string>)
      requires Valid() && !released
      modifies this, stdin
      ensures Valid()
      ensures old(buf) != null ==> (&& buf == old(buf) && !released
                                    && buf[..] == old(buf[..])
                                    && stdin.pending == old(stdin.pending)
                                    && pass == Some(CStr(buf[..])))
      ensures old(buf) == null ==>
        var line := Fgets(old(stdin.pending), PASSWORD_BUFSIZE);
        && (line.None? ==> pass.None? && released && stdin.pending == old(stdin.pending))
        && (line.Some? ==>
              && stdin.pending == old(stdin.pending)[|line.value|..]
              && var p := StripNewline(CStr(line.value));
              && (p == [] ==> pass.None? && released)
              && (p != [] ==> pass == Some(p) && !released && buf != null && CStr(buf[..]) == p))
      ensures pass.Some? ==> 0 < |pass.value| < PASSWORD_BUFSIZE
    {
      if buf == null {
        var b := new char[PASSWORD_BUFSIZE];
        buf := b;
        var line := Fgets(stdin.pending, PASSWORD_BUFSIZE);
        if line.None? {
          released := true;
          return None;
        }
        var text := line.value;
        StoreLine(b, text);
        stdin.pending := stdin.pending[|text|..];
        StripInPlace(b);
        if b[0] == NUL {
          released := true;
          return None;
        }
      }
      pass := Some(CStr(buf[..]));
    }

    /** mirage_forget_password: zeroes all 256 bytes of an existing buffer and frees it. */
    method ForgetPassword()
      requires Valid() && !released
      modifies this, buf
      ensures Valid()
      ensures old(buf) == null ==> buf == null && !released
      ensures old(buf) != null ==> (&& buf == old(buf) && released
                                    && buf[..] == seq(PASSWORD_BUFSIZE, _ => NUL))
    {
      if buf != null {
        forall k | 0 <= k < buf.Length {
          buf[k] := NUL;
        }
        released := true;
      }
    }
  }

  /** Memoisation: once a password is held, asking again returns it unchanged and reads nothing. */
  method AskTwice(store: PasswordStore, stdin: Console) returns (first: Option<string>, second: Option<string>)
    requires store.Valid() && !store.released
    modifies store, stdin
    ensures first.Some? ==> second == first
    ensures first.Some? && old(store.buf) != null ==> stdin.pending == old(stdin.pending)
    ensures first.Some? && old(store.buf) == null ==>
              && old(stdin.pending) != []
              && stdin.pending == old(stdin.pending)[|Fgets(old(stdin.pending), PASSWORD_BUFSIZE).value|..]
  {
    first := store.InputPassword(stdin);
    if first.Some? {
      second := store.InputPassword(stdin);
    } else {
      second := None;
    }
  }
}
