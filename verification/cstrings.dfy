/** Text in character arrays, ended by a NUL. */
module CStrings {
  import opened Options

  /** `a` starts with the text `s` and its terminating NUL. */
  predicate IsCString(a: seq<char>, s: string) {
    |s| < |a| && a[..|s|] == s && a[|s|] == '\0' && '\0' !in s
  }

  lemma CStringChars(a: seq<char>, s: string)
    requires IsCString(a, s)
    ensures forall i :: 0 <= i < |s| ==> a[i] == s[i] && a[i] != '\0'
  {
    forall i | 0 <= i < |s|
      ensures a[i] == s[i] && s[i] in s
    {
      assert a[..|s|][i] == s[i];
    }
  }

  method StrLen(a: array<char>, ghost s: string) returns (n: nat)
    requires IsCString(a[..], s)
    ensures n == |s| && a[..n] == s
  {
    n := 0;
    CStringChars(a[..], s);
    while a[n] != '\0'
      invariant n <= |s|
      decreases |s| - n
    {
      n := n + 1;
    }
    assert a[..][..n] == a[..n];
  }

  method StrChr(a: array<char>, ghost s: string, c: char) returns (r: Option<nat>)
    requires IsCString(a[..], s)
    ensures r.Some? ==> r.value < |s| && s[r.value] == c && c !in s[..r.value]
    ensures r.None? ==> c !in s
  {
    CStringChars(a[..], s);
    var i := 0;
    while a[i] != '\0'
      invariant i <= |s| && c !in s[..i]
      decreases |s| - i
    {
      if a[i] == c {
        return Some(i);
      }
      assert s[..i + 1] == s[..i] + [s[i]];
      i := i + 1;
    }
    assert s[..|s|] == s;
    r := None;
  }
}
