/**
  Small shared vocabulary for the mirage2iso model: an option type standing
  in for C's NULL-or-value returns, the byte type sectors are made of, and
  C strings (a character sequence read up to its first NUL). Each `char`
  stands for one byte of the C program's `char` data, so lengths and limits
  counted in characters are the C program's byte counts; multi-byte
  encodings are not modelled.
 */
module Common {

  datatype Option<+T> = None | Some(value: T)

  /** One byte of sector data. */
  newtype byte = x: int | 0 <= x < 256

  const NUL: char := '\0'

  /** strlen: the number of characters before the first NUL (or all of them). */
  function CLen(s: seq<char>): (n: nat)
    ensures n <= |s|
    ensures forall k :: 0 <= k < n ==> s[k] != NUL
    ensures n < |s| ==> s[n] == NUL
  {
    if s == [] || s[0] == NUL then 0 else 1 + CLen(s[1..])
  }

  /** The C string a character buffer holds. */
  function CStr(s: seq<char>): (r: string)
    ensures |r| <= |s| && r == s[..|r|]
    ensures NUL !in r
  {
    s[..CLen(s)]
  }

  /** The length of a C string is pinned down by where its first NUL is. */
  lemma CLenAt(s: seq<char>, n: nat)
    requires n <= |s|
    requires forall k :: 0 <= k < n ==> s[k] != NUL
    requires n < |s| ==> s[n] == NUL
    ensures CLen(s) == n
  {
  }

  /** A NUL right after a buffer's text ends the C string there, whatever follows it. */
  lemma CStrOfTerminated(text: seq<char>, tail: seq<char>)
    requires tail != [] && tail[0] == NUL
    ensures CStr(text + tail) == CStr(text)
  {
    var s := text + tail;
    var n := CLen(text);
    forall k | 0 <= k < n ensures s[k] != NUL {
      assert s[k] == text[k];
    }
    assert n < |s| && s[n] == NUL by {
      if n < |text| { assert s[n] == text[n]; } else { assert s[n] == tail[0]; }
    }
    CLenAt(s, n);
    assert s[..n] == text[..n];
  }
}
