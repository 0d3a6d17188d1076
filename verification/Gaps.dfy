// Being joined by small steps: the closure both gap scans compute in one pass.
module Gaps {

  // A walk through some times, each next one less than `gap` after the one before, or at most
  // `gap` after it when `inclusive`.
  ghost predicate SmallStep(a: real, b: real, gap: real, inclusive: bool) {
    a <= b && (b - a < gap || (inclusive && b - a == gap))
  }

  ghost predicate Walk(times: seq<real>, path: seq<real>, gap: real, inclusive: bool) {
    && path != []
    && (forall i :: 0 <= i < |path| ==> path[i] in times)
    && (forall i :: 0 <= i < |path| - 1 ==> SmallStep(path[i], path[i + 1], gap, inclusive))
  }

  ghost predicate Joined(times: seq<real>, a: real, b: real, gap: real, inclusive: bool) {
    exists path :: Walk(times, path, gap, inclusive) && path[0] == a && path[|path| - 1] == b
  }

  lemma {:induction false} JoinedSelf(times: seq<real>, a: real, gap: real, inclusive: bool)
    requires a in times
    ensures Joined(times, a, a, gap, inclusive)
  {
    assert Walk(times, [a], gap, inclusive);
  }

  lemma {:induction false} JoinedStep(times: seq<real>, a: real, b: real, c: real, gap: real, inclusive: bool)
    requires Joined(times, a, b, gap, inclusive) && c in times && SmallStep(b, c, gap, inclusive)
    ensures Joined(times, a, c, gap, inclusive)
  {
    var path :| Walk(times, path, gap, inclusive) && path[0] == a && path[|path| - 1] == b;
    assert Walk(times, path + [c], gap, inclusive);
  }

  // A walk over a time that no element bridges stays on its side.
  lemma {:induction false} WalkStays(times: seq<real>, path: seq<real>, gap: real, inclusive: bool, edge: real)
    requires Walk(times, path, gap, inclusive) && path[0] <= edge
    requires forall a, b :: a in times && b in times && a <= edge < b ==> !SmallStep(a, b, gap, inclusive)
    ensures path[|path| - 1] <= edge
  {
    if |path| > 1 {
      assert path[1] in times && path[0] in times;
      assert SmallStep(path[0], path[1], gap, inclusive);
      WalkStays(times, path[1..], gap, inclusive, edge);
    }
  }

  lemma {:induction false} NotJoinedAcross(times: seq<real>, a: real, b: real, gap: real, inclusive: bool, edge: real)
    requires a <= edge < b
    requires forall x, y :: x in times && y in times && x <= edge < y ==> !SmallStep(x, y, gap, inclusive)
    ensures !Joined(times, a, b, gap, inclusive)
  {
    forall path | Walk(times, path, gap, inclusive) && path[0] == a
      ensures path[|path| - 1] != b
    {
      WalkStays(times, path, gap, inclusive, edge);
    }
  }

  lemma {:induction false} WalkClimbs(times: seq<real>, path: seq<real>, gap: real, inclusive: bool, i: nat)
    requires Walk(times, path, gap, inclusive) && i < |path|
    ensures path[i] <= path[|path| - 1] && path[0] <= path[i]
    decreases |path|
  {
    if |path| > 1 {
      assert SmallStep(path[0], path[1], gap, inclusive);
      WalkClimbs(times, path[1..], gap, inclusive, if i == 0 then 0 else i - 1);
    }
  }

  // Only the times up to the walk's end matter to it.
  lemma {:induction false} JoinedByEarlier(times: seq<real>, others: seq<real>, a: real, b: real, gap: real,
                                           inclusive: bool)
    requires Joined(times, a, b, gap, inclusive)
    requires forall x :: x in times && x <= b ==> x in others
    ensures Joined(others, a, b, gap, inclusive)
  {
    var path :| Walk(times, path, gap, inclusive) && path[0] == a && path[|path| - 1] == b;
    forall i | 0 <= i < |path| ensures path[i] in others {
      WalkClimbs(times, path, gap, inclusive, i);
    }
    assert Walk(others, path, gap, inclusive);
  }
}
