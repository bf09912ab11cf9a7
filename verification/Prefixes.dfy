/** The part of a sequence before a stopping element. */
module Prefixes {

  function UpTo<T(==)>(s: seq<T>, stop: T): (p: seq<T>)
    ensures stop !in p && p <= s && (|p| < |s| ==> s[|p|] == stop)
  {
    if s == [] || s[0] == stop then [] else [s[0]] + UpTo(s[1..], stop)
  }

  lemma UpToIs<T>(s: seq<T>, stop: T, k: nat)
    requires k <= |s| && stop !in s[..k] && (k < |s| ==> s[k] == stop)
    ensures UpTo(s, stop) == s[..k]
  {
    var n := |UpTo(s, stop)|;
    assert forall i :: 0 <= i < k ==> s[..k][i] == s[i];
    assert forall i :: 0 <= i < n ==> UpTo(s, stop)[i] == s[i];
  }

  lemma UpToWhole<T>(s: seq<T>, stop: T)
    requires stop !in s
    ensures UpTo(s, stop) == s
  {
    assert s[..|s|] == s;
    UpToIs(s, stop, |s|);
  }
}
