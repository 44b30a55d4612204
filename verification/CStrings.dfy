/** The C string functions webbench fills its arrays with. */
module CStrings {
  import opened Wrappers
  import opened Text
  import opened Buffers

  /** The string an array holds: what comes before its first NUL. */
  function CString(a: string): string {
    a[..Find(a, NUL)]
  }

  /** atoi: 0 without digits. Too many digits for an int are not modelled. */
  function Atoi(s: string): int {
    var v := ReadInt(s);
    if v.Some? then v.value else 0
  }

  lemma CStringIs(a: string, s: string, rest: string)
    requires NUL !in s && a == s + [NUL] + rest
    ensures CString(a) == s
  {
    assert a[..|s|] == s && a[|s|] == NUL;
    FindIs(a, NUL, |s|);
  }

  lemma NoNulSlice(s: string, i: nat, j: nat)
    requires i <= j <= |s| && NUL !in s
    ensures NUL !in s[i..j]
  {
    forall k | 0 <= k < j - i ensures s[i..j][k] != NUL {
      assert s[i..j][k] == s[i + k];
    }
  }

  method BZero(dst: array<char>)
    modifies dst
    ensures AllNul(dst[..]) && CString(dst[..]) == []
  {
    forall i | 0 <= i < dst.Length {
      dst[i] := NUL;
    }
  }

  /** strcat, with room for the result and its NUL. */
  method StrCat(dst: array<char>, s: string)
    requires NUL !in s && |CString(dst[..])| + |s| < dst.Length
    modifies dst
    ensures CString(dst[..]) == old(CString(dst[..])) + s
  {
    var n := Find(dst[..], NUL);
    ghost var t := CString(dst[..]);
    forall i | 0 <= i < |s| {
      dst[n + i] := s[i];
    }
    dst[n + |s|] := NUL;
    assert dst[..] == t + s + [NUL] + dst[n + |s| + 1..];
    CStringIs(dst[..], t + s, dst[n + |s| + 1..]);
  }

  /** strncpy of all of s into an array of NULs, with room for a NUL behind it. */
  method StrNCpy(dst: array<char>, s: string)
    requires NUL !in s && |s| < dst.Length && AllNul(dst[..])
    modifies dst
    ensures CString(dst[..]) == s
  {
    forall i | 0 <= i < |s| {
      dst[i] := s[i];
    }
    assert dst[|s|] == NUL;
    assert dst[..] == s + [NUL] + dst[|s| + 1..];
    CStringIs(dst[..], s, dst[|s| + 1..]);
  }
}
