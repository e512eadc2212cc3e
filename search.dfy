/** The one search shape the page objects repeat: walk a sequence in order
    and stop at the first element that satisfies a test (a Python `for`
    loop that returns early, or a `for ... break ... else`). */
module Search {
  import opened Wrappers

  /** The first index at or after `i` whose element satisfies `p`. */
  function FirstMatchFrom<T>(s: seq<T>, p: T -> bool, i: nat): (r: Option<nat>)
    requires i <= |s|
    ensures r.Some? ==> i <= r.value < |s| && p(s[r.value])
    decreases |s| - i
  {
    if i == |s| then None
    else if p(s[i]) then Some(i)
    else FirstMatchFrom(s, p, i + 1)
  }

  /** The first index whose element satisfies `p`, or `None`. */
  function FirstMatch<T>(s: seq<T>, p: T -> bool): (r: Option<nat>)
    ensures r.Some? ==> r.value < |s| && p(s[r.value])
  {
    FirstMatchFrom(s, p, 0)
  }

  /** `k` is an index whose element satisfies `p` and no earlier one does. */
  ghost predicate IsFirstMatch<T>(s: seq<T>, p: T -> bool, k: nat) {
    k < |s| && p(s[k]) && forall j :: 0 <= j < k ==> !p(s[j])
  }

  lemma {:induction false} FirstMatchFromSpec<T>(s: seq<T>, p: T -> bool, i: nat)
    requires i <= |s|
    requires forall j :: 0 <= j < i ==> !p(s[j])
    ensures FirstMatchFrom(s, p, i).Some? ==> IsFirstMatch(s, p, FirstMatchFrom(s, p, i).value)
    ensures FirstMatchFrom(s, p, i).None? ==> forall j :: 0 <= j < |s| ==> !p(s[j])
    decreases |s| - i
  {
    if i < |s| && !p(s[i]) {
      FirstMatchFromSpec(s, p, i + 1);
    }
  }

  /** First match wins: `FirstMatch` finds `k` exactly when `k` is the first
      index that satisfies `p`, and finds nothing exactly when no element
      satisfies it. */
  lemma FirstMatchSpec<T>(s: seq<T>, p: T -> bool)
    ensures forall k: nat :: FirstMatch(s, p) == Some(k) <==> IsFirstMatch(s, p, k)
    ensures FirstMatch(s, p) == None <==> forall j :: 0 <= j < |s| ==> !p(s[j])
  {
    FirstMatchFromSpec(s, p, 0);
  }

  /** The loop itself: scan `s` from the front and return the index of the
      first element that passes `p`. */
  method FindFirst<T>(s: seq<T>, p: T -> bool) returns (r: Option<nat>)
    ensures r == FirstMatch(s, p)
  {
    var i := 0;
    while i < |s|
      invariant i <= |s|
      invariant FirstMatchFrom(s, p, i) == FirstMatch(s, p)
    {
      if p(s[i]) {
        return Some(i);
      }
      i := i + 1;
    }
    return None;
  }
}
