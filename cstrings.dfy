/**
 * The shell's own string helpers (my_strlen, my_strcpy, my_strcmp, my_strdup).
 * A C string is a char buffer holding a NUL terminator; CString gives the
 * characters before the first NUL. Everywhere else in the model a C string is
 * represented by exactly that NUL-free sequence of characters.
 */
module CStrings {
  const NUL: char := '\0'

  /** The characters of a buffer before its first NUL: what C reads as the string. */
  function CString(buf: seq<char>): (s: seq<char>)
    ensures |s| <= |buf| && s == buf[..|s|]
    ensures NUL !in s
    ensures |s| < |buf| ==> buf[|s|] == NUL
    ensures NUL in buf ==> |s| < |buf|
  {
    if buf == [] || buf[0] == NUL then [] else [buf[0]] + CString(buf[1..])
  }

  /** A buffer whose first NUL is at index n holds the string of its first n characters. */
  lemma {:induction false} CStringOfTerminated(buf: seq<char>, n: nat)
    requires n < |buf| && buf[n] == NUL && NUL !in buf[..n]
    ensures CString(buf) == buf[..n]
  {
    if n > 0 {
      assert buf[1..][..n - 1] == buf[..n][1..];
      CStringOfTerminated(buf[1..], n - 1);
      assert buf[..n] == [buf[0]] + buf[1..][..n - 1];
    }
  }

  /** The character code C sees at the head of a string; the terminator reads as 0. */
  function Head(s: seq<char>): int {
    if s == [] then 0 else s[0] as int
  }

  /**
   * The value my_strcmp returns for two C strings: the difference of the
   * character codes at the first position where they differ, counting the
   * terminator as 0.
   */
  function Compare(s: seq<char>, t: seq<char>): int {
    if s != [] && t != [] && s[0] == t[0] then Compare(s[1..], t[1..]) else Head(s) - Head(t)
  }

  /** my_strcmp reports equality exactly when the two strings are equal. */
  lemma {:induction false} CompareZeroIff(s: seq<char>, t: seq<char>)
    requires NUL !in s && NUL !in t
    ensures Compare(s, t) == 0 <==> s == t
  {
    if s != [] && t != [] && s[0] == t[0] {
      CompareZeroIff(s[1..], t[1..]);
      assert s == [s[0]] + s[1..];
      assert t == [t[0]] + t[1..];
    } else if s != [] && t == [] {
      assert s[0] != NUL;
    } else if s == [] && t != [] {
      assert t[0] != NUL;
    }
  }

  /** Swapping the arguments of my_strcmp negates its result. */
  lemma {:induction false} CompareAntisymmetric(s: seq<char>, t: seq<char>)
    ensures Compare(s, t) == -Compare(t, s)
  {
    if s != [] && t != [] && s[0] == t[0] {
      CompareAntisymmetric(s[1..], t[1..]);
    }
  }

  /** my_strlen: a NULL pointer has length 0; otherwise the index of the first NUL. */
  method Strlen(str: array?<char>) returns (len: int)
    requires str != null ==> NUL in str[..]
    ensures str == null ==> len == 0
    ensures str != null ==> 0 <= len < str.Length && str[len] == NUL && NUL !in str[..len]
    ensures str != null ==> len == |CString(str[..])|
  {
    len := 0;
    if str == null {
      return;
    }
    ghost var s := CString(str[..]);
    while str[len] != NUL
      invariant 0 <= len <= |s|
      invariant str[..len] == s[..len]
      decreases |s| - len
    {
      len := len + 1;
    }
  }

  /**
   * my_strcpy: copies the string of src, terminator included, to the front of
   * dest. Either pointer NULL: nothing happens. The caller provides a dest that
   * is a different buffer with room for the string and its terminator.
   */
  method Strcpy(dest: array?<char>, src: array?<char>)
    requires src != null ==> NUL in src[..]
    requires dest != null && src != null ==> dest != src && |CString(src[..])| < dest.Length
    modifies dest
    ensures dest != null && src == null ==> dest[..] == old(dest[..])
    ensures dest != null && src != null ==>
      var n := |CString(src[..])|;
      dest[..n] == CString(src[..]) && dest[n] == NUL && dest[n + 1..] == old(dest[n + 1..])
  {
    if dest == null || src == null {
      return;
    }
    ghost var s := CString(src[..]);
    var i := 0;
    while src[i] != NUL
      invariant 0 <= i <= |s|
      invariant dest[..i] == s[..i]
      invariant forall k :: i <= k < dest.Length ==> dest[k] == old(dest[k])
      decreases |s| - i
    {
      dest[i] := src[i];
      i := i + 1;
    }
    dest[i] := NUL;
    assert dest[i + 1..] == old(dest[i + 1..]);
  }

  /** my_strcmp, with its NULL convention: two NULLs are equal and NULL sorts first. */
  method Strcmp(s1: array?<char>, s2: array?<char>) returns (r: int)
    requires s1 != null ==> NUL in s1[..]
    requires s2 != null ==> NUL in s2[..]
    ensures s1 == null || s2 == null ==> r == (if s1 == s2 then 0 else if s1 != null then 1 else -1)
    ensures s1 != null && s2 != null ==> r == Compare(CString(s1[..]), CString(s2[..]))
  {
    if s1 == null || s2 == null {
      return if s1 == s2 then 0 else if s1 != null then 1 else -1;
    }
    ghost var a, b := CString(s1[..]), CString(s2[..]);
    var i := 0;
    while s1[i] != NUL && s2[i] != NUL
      invariant 0 <= i <= |a| && i <= |b|
      invariant Compare(a, b) == Compare(a[i..], b[i..])
      decreases |a| - i
    {
      assert s1[i] == a[i] && s2[i] == b[i];
      if s1[i] != s2[i] {
        CompareStop(a, b, i);
        return s1[i] as int - s2[i] as int;
      }
      CompareStep(a, b, i);
      i := i + 1;
    }
    assert i == |a| || i == |b|;
    CompareStop(a, b, i);
    assert Head(a[i..]) == s1[i] as int;
    assert Head(b[i..]) == s2[i] as int;
    r := s1[i] as int - s2[i] as int;
  }

  /** A common character is skipped. */
  lemma CompareStep(a: seq<char>, b: seq<char>, i: nat)
    requires i < |a| && i < |b| && a[i] == b[i]
    ensures Compare(a[i..], b[i..]) == Compare(a[i + 1..], b[i + 1..])
  {
    assert a[i..][1..] == a[i + 1..] && b[i..][1..] == b[i + 1..];
  }

  /** At the first difference, or the end of either string, the heads decide. */
  lemma CompareStop(a: seq<char>, b: seq<char>, i: nat)
    requires i <= |a| && i <= |b| && !(i < |a| && i < |b| && a[i] == b[i])
    ensures Compare(a[i..], b[i..]) == Head(a[i..]) - Head(b[i..])
  {
  }

  /** my_strdup: a fresh buffer holding a copy of the string and its terminator. */
  method Strdup(str: array?<char>) returns (dup: array?<char>)
    requires str != null ==> NUL in str[..]
    ensures str == null <==> dup == null
    ensures str != null ==> fresh(dup) && dup[..] == CString(str[..]) + [NUL]
  {
    if str == null {
      return null;
    }
    var len := Strlen(str);
    var copy := new char[len + 1];
    Strcpy(copy, str);
    assert copy[..] == copy[..len] + [copy[len]];
    dup := copy;
  }
}
