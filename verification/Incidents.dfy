// `_incidents`: alert instances grouped by when their conditions began.
module Incidents {
  import opened Wrappers
  import opened Gaps
  import Sorting

  const INCIDENT_GAP_SECONDS := 360

  // An instance: which one, and its onset when one is recorded.
  datatype Instance = Instance(id: nat, onset: Option<real>)

  function Onset(i: Instance): real { if i.onset.Some? then i.onset.value else 0.0 }

  predicate IsTimed(i: Instance) { i.onset.Some? }

  predicate IsUntimed(i: Instance) { i.onset.None? }

  function Flatten(groups: seq<seq<Instance>>): seq<Instance> {
    if groups == [] then [] else Flatten(groups[..|groups| - 1]) + groups[|groups| - 1]
  }

  lemma {:induction false} FlattenAppend(a: seq<seq<Instance>>, b: seq<seq<Instance>>)
    ensures Flatten(a + b) == Flatten(a) + Flatten(b)
  {
    if b == [] {
      assert a + b == a;
    } else {
      assert (a + b)[..|a + b| - 1] == a + b[..|b| - 1];
      FlattenAppend(a, b[..|b| - 1]);
    }
  }

  function Gap(): (r: real)
    ensures r == 360.0
  {
    INCIDENT_GAP_SECONDS as real
  }

  // One incident: instances in the order of their onsets, each within the gap of the one before.
  ghost predicate Tight(group: seq<Instance>) {
    && group != []
    && (forall k :: 0 <= k < |group| ==> group[k].onset.Some?)
    && (forall k :: 0 <= k < |group| - 1 ==> SmallStep(Onset(group[k]), Onset(group[k + 1]), Gap(), true))
  }

  ghost predicate Apart(earlier: seq<Instance>, later: seq<Instance>) {
    forall i, j :: 0 <= i < |earlier| && 0 <= j < |later| ==> Onset(later[j]) - Onset(earlier[i]) > Gap()
  }

  ghost predicate Separated(groups: seq<seq<Instance>>) {
    && (forall g :: 0 <= g < |groups| ==> Tight(groups[g]))
    && (forall g, h :: 0 <= g < h < |groups| ==> Apart(groups[g], groups[h]))
  }

  // What the pass has built: the groups closed, and the one it is filling.
  ghost predicate Building(groups: seq<seq<Instance>>, current: seq<Instance>) {
    && Separated(groups) && (current != [] ==> Tight(current))
    && forall g :: 0 <= g < |groups| ==> Apart(groups[g], current)
  }

  lemma {:induction false} TightEnds(group: seq<Instance>, i: nat)
    requires Tight(group) && i < |group|
    ensures Onset(group[i]) <= Onset(group[|group| - 1])
    decreases |group| - i
  {
    if i < |group| - 1 {
      assert SmallStep(Onset(group[i]), Onset(group[i + 1]), Gap(), true);
      TightEnds(group, i + 1);
    }
  }

  lemma {:induction false} CloseGroup(groups: seq<seq<Instance>>, current: seq<Instance>, inst: Instance)
    requires Building(groups, current) && current != []
    requires Onset(inst) - Onset(current[|current| - 1]) > Gap()
    ensures Separated(groups + [current])
    ensures forall g :: 0 <= g < |groups + [current]| ==> Apart((groups + [current])[g], [inst])
  {
    forall g, k | 0 <= g < |groups| && 0 <= k < |groups[g]| ensures Onset(inst) - Onset(groups[g][k]) > Gap() {
      assert Apart(groups[g], current);
      assert Onset(current[|current| - 1]) - Onset(groups[g][k]) > Gap();
    }
    forall k | 0 <= k < |current| ensures Onset(inst) - Onset(current[k]) > Gap() {
      TightEnds(current, k);
    }
  }

  lemma {:induction false} Extend(groups: seq<seq<Instance>>, current: seq<Instance>, inst: Instance)
    requires Separated(groups) && inst.onset.Some?
    requires if current == [] then forall g :: 0 <= g < |groups| ==> Apart(groups[g], [inst])
             else Building(groups, current) && SmallStep(Onset(current[|current| - 1]), Onset(inst), Gap(), true)
    ensures Building(groups, current + [inst])
  {
    forall g, k, j | 0 <= g < |groups| && 0 <= k < |groups[g]| && 0 <= j < |current + [inst]|
      ensures Onset((current + [inst])[j]) - Onset(groups[g][k]) > Gap()
    {
      if current == [] {
        assert Apart(groups[g], [inst]);
        assert Onset([inst][0]) - Onset(groups[g][k]) > Gap();
      } else {
        assert Apart(groups[g], current);
        assert Onset(current[|current| - 1]) - Onset(groups[g][k]) > Gap();
      }
    }
  }

  // The next instance begins a group past the gap, and joins the one being filled within it.
  lemma {:induction false} NextInstance(groups: seq<seq<Instance>>, current: seq<Instance>, inst: Instance)
    requires Building(groups, current) && (current == [] ==> groups == []) && inst.onset.Some?
    requires current != [] ==> Onset(current[|current| - 1]) <= Onset(inst)
    ensures if current != [] && Onset(inst) - Onset(current[|current| - 1]) > Gap()
            then (&& Building(groups + [current], [inst])
                  && Flatten(groups + [current]) + [inst] == Flatten(groups) + current + [inst])
            else (&& Building(groups, current + [inst])
                  && Flatten(groups) + (current + [inst]) == Flatten(groups) + current + [inst])
  {
    if current != [] && Onset(inst) - Onset(current[|current| - 1]) > Gap() {
      CloseGroup(groups, current, inst);
      FlattenSnoc(groups, current);
      Extend(groups + [current], [], inst);
      assert [] + [inst] == [inst];
    } else {
      Extend(groups, current, inst);
    }
  }

  // How far the pass has come.
  ghost predicate Passed(timed: seq<Instance>, groups: seq<seq<Instance>>, current: seq<Instance>, i: nat) {
    && i <= |timed| && Flatten(groups) + current == timed[..i]
    && Building(groups, current) && (current == [] ==> groups == [])
    && (current != [] ==> i > 0 && current[|current| - 1] == timed[i - 1])
  }

  lemma {:induction false} PassesOne(timed: seq<Instance>, groups: seq<seq<Instance>>, current: seq<Instance>, i: nat)
    requires Sorting.Sorted(timed, Onset) && i < |timed| && timed[i].onset.Some? && Passed(timed, groups, current, i)
    ensures if current != [] && Onset(timed[i]) - Onset(current[|current| - 1]) > Gap()
            then Passed(timed, groups + [current], [timed[i]], i + 1)
            else Passed(timed, groups, current + [timed[i]], i + 1)
  {
    assert timed[..i + 1] == timed[..i] + [timed[i]];
    assert i > 0 ==> Onset(timed[i - 1]) <= Onset(timed[i]);
    NextInstance(groups, current, timed[i]);
  }

  // The one pass over the sorted, timed instances.
  method GroupTimed(timed: seq<Instance>) returns (groups: seq<seq<Instance>>)
    requires Sorting.Sorted(timed, Onset) && forall k :: 0 <= k < |timed| ==> timed[k].onset.Some?
    ensures Flatten(groups) == timed && Separated(groups)
  {
    groups := [];
    var current: seq<Instance> := [];
    for i := 0 to |timed|
      invariant Passed(timed, groups, current, i)
    {
      var inst := timed[i];
      PassesOne(timed, groups, current, i);
      if current != [] && Onset(inst) - Onset(current[|current| - 1]) > INCIDENT_GAP_SECONDS as real {
        groups, current := groups + [current], [];
      }
      assert current == [] ==> [] + [inst] == [inst];
      current := current + [inst];
    }
    assert timed[..|timed|] == timed;
    LastGroup(groups, current);
    if current != [] {
      groups := groups + [current];
    }
  }

  lemma {:induction false} LastGroup(groups: seq<seq<Instance>>, current: seq<Instance>)
    requires Building(groups, current)
    ensures current == [] ==> Flatten(groups) + current == Flatten(groups)
    ensures current != [] ==> Separated(groups + [current]) && Flatten(groups + [current]) == Flatten(groups) + current
  {
    FlattenSnoc(groups, current);
  }

  lemma {:induction false} FlattenSnoc(groups: seq<seq<Instance>>, group: seq<Instance>)
    ensures Flatten(groups + [group]) == Flatten(groups) + group
  {
    assert (groups + [group])[..|groups|] == groups;
  }

  function Alone(s: seq<Instance>): seq<seq<Instance>> {
    if s == [] then [] else Alone(s[..|s| - 1]) + [[s[|s| - 1]]]
  }

  lemma {:induction false} AloneIs(s: seq<Instance>)
    ensures |Alone(s)| == |s| && Flatten(Alone(s)) == s
    ensures forall k :: 0 <= k < |s| ==> Alone(s)[k] == [s[k]]
  {
    if s != [] {
      AloneIs(s[..|s| - 1]);
      assert Alone(s)[..|s| - 1] == Alone(s[..|s| - 1]);
    }
  }

  function Onsets(instances: seq<Instance>): seq<real> {
    Sorting.Map(Sorting.Filter(instances, IsTimed), Onset)
  }

  // Two onsets belong to one incident: small steps lead from one to the other.
  ghost predicate Linked(instances: seq<Instance>, a: real, b: real) {
    Joined(Onsets(instances), if a <= b then a else b, if a <= b then b else a, Gap(), true)
  }

  ghost predicate IsTimedAt(groups: seq<seq<Instance>>, g: int, j: int) {
    0 <= g < |groups| && 0 <= j < |groups[g]| && groups[g][j].onset.Some?
  }

  ghost predicate AreComponents(instances: seq<Instance>, groups: seq<seq<Instance>>) {
    forall g, h, j, k :: IsTimedAt(groups, g, j) && IsTimedAt(groups, h, k) ==>
      (g == h <==> Linked(instances, groups[g][j].onset.value, groups[h][k].onset.value))
  }

  // The answer: a partition of the instances in which timed ones share a group exactly when
  // they are linked, and an untimed one is alone.
  ghost predicate AreIncidents(instances: seq<Instance>, groups: seq<seq<Instance>>) {
    && multiset(Flatten(groups)) == multiset(instances)
    && (forall g :: 0 <= g < |groups| ==> groups[g] != [])
    && (forall g, k :: 0 <= g < |groups| && 0 <= k < |groups[g]| && groups[g][k].onset.None? ==> |groups[g]| == 1)
    && AreComponents(instances, groups)
  }

  lemma {:induction false} TightWalks(group: seq<Instance>, times: seq<real>, j: nat, k: nat)
    requires Tight(group) && j <= k < |group|
    requires forall i :: 0 <= i < |group| ==> Onset(group[i]) in times
    ensures Onset(group[j]) <= Onset(group[k]) && Joined(times, Onset(group[j]), Onset(group[k]), Gap(), true)
    decreases k - j
  {
    if j == k {
      JoinedSelf(times, Onset(group[j]), Gap(), true);
    } else {
      TightWalks(group, times, j, k - 1);
      assert SmallStep(Onset(group[k - 1]), Onset(group[k]), Gap(), true);
      JoinedStep(times, Onset(group[j]), Onset(group[k - 1]), Onset(group[k]), Gap(), true);
    }
  }

  lemma {:induction false} InFlatten(groups: seq<seq<Instance>>, x: Instance)
    ensures x in Flatten(groups) <==> exists g, k :: 0 <= g < |groups| && 0 <= k < |groups[g]| && groups[g][k] == x
  {
    if groups != [] {
      InFlatten(groups[..|groups| - 1], x);
      assert forall g :: 0 <= g < |groups| - 1 ==> groups[..|groups| - 1][g] == groups[g];
    }
  }

  lemma {:induction false} GroupsInOrder(groups: seq<seq<Instance>>, g: nat, e: nat, i: nat)
    requires Separated(groups) && g < |groups| && e < |groups| && i < |groups[e]|
    ensures var edge := Onset(groups[g][|groups[g]| - 1]);
            if e <= g then Onset(groups[e][i]) <= edge else Onset(groups[e][i]) - edge > Gap()
  {
    TightEnds(groups[g], if e == g then i else 0);
    if e < g {
      assert Apart(groups[e], groups[g]);
    } else if e > g {
      assert Apart(groups[g], groups[e]);
    }
  }

  // Nothing links across a gap between groups.
  lemma {:induction false} GroupsDoNotLink(groups: seq<seq<Instance>>, times: seq<real>, g: nat, h: nat, j: nat, k: nat)
    requires Separated(groups) && g < h < |groups| && j < |groups[g]| && k < |groups[h]|
    requires forall t :: t in times
               ==> exists e, i :: 0 <= e < |groups| && 0 <= i < |groups[e]| && Onset(groups[e][i]) == t
    ensures Onset(groups[g][j]) < Onset(groups[h][k])
    ensures !Joined(times, Onset(groups[g][j]), Onset(groups[h][k]), Gap(), true)
  {
    var edge := Onset(groups[g][|groups[g]| - 1]);
    GroupsInOrder(groups, g, g, j);
    GroupsInOrder(groups, g, h, k);
    forall x, y | x in times && y in times && x <= edge < y ensures !SmallStep(x, y, Gap(), true) {
      var e, i :| 0 <= e < |groups| && 0 <= i < |groups[e]| && Onset(groups[e][i]) == y;
      GroupsInOrder(groups, g, e, i);
    }
    NotJoinedAcross(times, Onset(groups[g][j]), Onset(groups[h][k]), Gap(), true, edge);
  }

  ghost predicate TimesOf(groups: seq<seq<Instance>>, times: seq<real>) {
    && (forall t :: t in times ==> exists e, i :: 0 <= e < |groups| && 0 <= i < |groups[e]| && Onset(groups[e][i]) == t)
    && (forall e, i :: 0 <= e < |groups| && 0 <= i < |groups[e]| ==> Onset(groups[e][i]) in times)
  }

  lemma {:induction false} GroupsAreComponents(instances: seq<Instance>, groups: seq<seq<Instance>>, g: nat, h: nat,
                                               j: nat, k: nat)
    requires Separated(groups) && TimesOf(groups, Onsets(instances))
    requires g < |groups| && h < |groups| && j < |groups[g]| && k < |groups[h]|
    ensures g == h <==> Linked(instances, Onset(groups[g][j]), Onset(groups[h][k]))
  {
    var times := Onsets(instances);
    if g < h {
      GroupsDoNotLink(groups, times, g, h, j, k);
    } else if h < g {
      GroupsDoNotLink(groups, times, h, g, k, j);
    } else if j <= k {
      TightWalks(groups[g], times, j, k);
    } else {
      TightWalks(groups[g], times, k, j);
    }
  }

  lemma {:induction false} TimesMatch(instances: seq<Instance>, timed: seq<Instance>, groups: seq<seq<Instance>>)
    requires Flatten(groups) == timed
    requires forall x :: x in timed <==> x in Sorting.Filter(instances, IsTimed)
    ensures TimesOf(groups, Onsets(instances))
  {
    var kept := Sorting.Filter(instances, IsTimed);
    forall t | t in Onsets(instances)
      ensures exists e, i :: 0 <= e < |groups| && 0 <= i < |groups[e]| && Onset(groups[e][i]) == t
    {
      var m :| 0 <= m < |kept| && Onset(kept[m]) == t;
      InFlatten(groups, kept[m]);
    }
    forall e, i | 0 <= e < |groups| && 0 <= i < |groups[e]| ensures Onset(groups[e][i]) in Onsets(instances) {
      InFlatten(groups, groups[e][i]);
      var m :| 0 <= m < |kept| && kept[m] == groups[e][i];
      assert Onsets(instances)[m] == Onset(kept[m]);
    }
  }

  lemma {:induction false} SplitOne(kept: seq<Instance>, rest: seq<Instance>, init: seq<Instance>, last: Instance)
    requires multiset(kept) + multiset(rest) == multiset(init)
    ensures multiset(kept + if IsTimed(last) then [last] else [])
              + multiset(rest + if IsUntimed(last) then [last] else [])
         == multiset(init + [last])
  {
    assert kept + [] == kept && rest + [] == rest;
    assert multiset(init + [last]) == multiset(init) + multiset{last};
  }

  lemma {:induction false} SplitCounts(s: seq<Instance>)
    ensures multiset(Sorting.Filter(s, IsTimed)) + multiset(Sorting.Filter(s, IsUntimed)) == multiset(s)
  {
    if s != [] {
      var init, last := s[..|s| - 1], s[|s| - 1];
      SplitCounts(init);
      SplitOne(Sorting.Filter(init, IsTimed), Sorting.Filter(init, IsUntimed), init, last);
      assert s == init + [last];
    }
  }

  // Timed groups first, then the untimed instances, each in a group of its own.
  ghost predicate Laid(groups: seq<seq<Instance>>, together: seq<seq<Instance>>, rest: seq<Instance>) {
    && |groups| == |together| + |rest|
    && (forall g :: 0 <= g < |together| ==> groups[g] == together[g] && Tight(together[g]))
    && (forall g :: |together| <= g < |groups| ==>
          groups[g] == [rest[g - |together|]] && rest[g - |together|].onset.None?)
  }

  lemma {:induction false} LaidOut(together: seq<seq<Instance>>, rest: seq<Instance>)
    requires Separated(together) && forall k :: 0 <= k < |rest| ==> rest[k].onset.None?
    ensures Laid(together + Alone(rest), together, rest)
  {
    AloneIs(rest);
  }

  lemma {:induction false} Shapes(groups: seq<seq<Instance>>, together: seq<seq<Instance>>, rest: seq<Instance>, g: nat)
    requires Laid(groups, together, rest) && g < |groups|
    ensures groups[g] != []
    ensures forall k :: 0 <= k < |groups[g]| && groups[g][k].onset.None? ==> |groups[g]| == 1
  {
    if g < |together| {
      assert Tight(together[g]);
    }
  }

  lemma {:induction false} TimedAreTogether(groups: seq<seq<Instance>>, together: seq<seq<Instance>>,
                                            rest: seq<Instance>, g: nat, j: nat)
    requires Laid(groups, together, rest) && IsTimedAt(groups, g, j)
    ensures g < |together| && j < |together[g]| && groups[g][j] == together[g][j]
    ensures together[g][j].onset == Some(Onset(together[g][j]))
  {
  }

  lemma {:induction false} PairOfGroups(instances: seq<Instance>, groups: seq<seq<Instance>>,
                                        together: seq<seq<Instance>>, rest: seq<Instance>,
                                        g: nat, h: nat, j: nat, k: nat)
    requires Separated(together) && TimesOf(together, Onsets(instances)) && Laid(groups, together, rest)
    requires IsTimedAt(groups, g, j) && IsTimedAt(groups, h, k)
    ensures g == h <==> Linked(instances, groups[g][j].onset.value, groups[h][k].onset.value)
  {
    TimedAreTogether(groups, together, rest, g, j);
    TimedAreTogether(groups, together, rest, h, k);
    GroupsAreComponents(instances, together, g, h, j, k);
  }

  lemma {:induction false} ComponentsWithAlone(instances: seq<Instance>, groups: seq<seq<Instance>>,
                                               together: seq<seq<Instance>>, rest: seq<Instance>)
    requires Separated(together) && TimesOf(together, Onsets(instances)) && Laid(groups, together, rest)
    ensures AreComponents(instances, groups)
  {
    forall g, h, j, k | IsTimedAt(groups, g, j) && IsTimedAt(groups, h, k)
      ensures g == h <==> Linked(instances, groups[g][j].onset.value, groups[h][k].onset.value)
    {
      PairOfGroups(instances, groups, together, rest, g, h, j, k);
    }
  }

  lemma {:induction false} TogetherAndAlone(instances: seq<Instance>, together: seq<seq<Instance>>, rest: seq<Instance>)
    requires Separated(together) && TimesOf(together, Onsets(instances))
    requires forall k :: 0 <= k < |rest| ==> rest[k].onset.None?
    requires multiset(Flatten(together)) + multiset(rest) == multiset(instances)
    ensures AreIncidents(instances, together + Alone(rest))
  {
    var groups: seq<seq<Instance>> := together + Alone(rest);
    AloneIs(rest);
    FlattenAppend(together, Alone(rest));
    LaidOut(together, rest);
    ComponentsWithAlone(instances, groups, together, rest);
    forall g | 0 <= g < |groups|
      ensures groups[g] != [] && forall k :: 0 <= k < |groups[g]| && groups[g][k].onset.None? ==> |groups[g]| == 1
    {
      Shapes(groups, together, rest, g);
    }
  }

  lemma {:induction false} FlattenAlone(rest: seq<Instance>)
    ensures Flatten(Alone(rest)) == rest
  {
    AloneIs(rest);
    var groups: seq<seq<Instance>> := Alone(rest);
    if rest != [] {
      FlattenAlone(rest[..|rest| - 1]);
      AloneIs(rest[..|rest| - 1]);
      assert groups[..|groups| - 1] == Alone(rest[..|rest| - 1]);
    }
  }

  method Incidents(instances: seq<Instance>) returns (groups: seq<seq<Instance>>)
    ensures AreIncidents(instances, groups)
    // The timed ones by onset, those of one onset as they came, and then the others as they came.
    ensures Flatten(groups) == Sorting.Sort(Sorting.Filter(instances, IsTimed), Onset)
                               + Sorting.Filter(instances, IsUntimed)
  {
    var kept, rest := Sorting.Filter(instances, IsTimed), Sorting.Filter(instances, IsUntimed);
    Sorting.FilterIn(instances, IsTimed);
    Sorting.FilterIn(instances, IsUntimed);
    var timed := Sorting.Sort(kept, Onset);
    Sorting.SortSorts(kept, Onset);
    Sorting.SortKeeps(kept, Onset);
    forall k | 0 <= k < |timed| ensures timed[k].onset.Some? {
      assert timed[k] in kept;
    }
    var together := GroupTimed(timed);
    SplitCounts(instances);
    TimesMatch(instances, timed, together);
    TogetherAndAlone(instances, together, rest);
    FlattenAppend(together, Alone(rest));
    FlattenAlone(rest);
    groups := together + Alone(rest);
  }
}
