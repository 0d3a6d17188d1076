// What a person's acknowledgement covers of a row's events.
module Acknowledgements {
  import opened Wrappers
  import opened Gaps
  import Sorting

  const STABLE_SECONDS := 15 * 60

  // An acknowledgement: when it was given (none when its time cannot be read), and the end of the
  // planned quiet period it names, if it names one (none of that too when it cannot be read).
  datatype Ack = Ack(at: Option<real>, until: Option<real>)

  datatype Cover = Cover(covered: bool, after: Option<real>, expired: bool)

  function Same(t: real): real { t }

  function Edge(ack: Ack): real
    requires ack.at.Some?
  {
    if ack.until.Some? then ack.until.value else ack.at.value
  }

  // Covered though past the edge: joined, by steps under STABLE_SECONDS, to an event no later
  // than the acknowledgement. A planned quiet period carries nothing past its end.
  ghost predicate Carried(ack: Ack, events: seq<real>, e: real)
    requires ack.at.Some?
  {
    ack.until.None?
    && exists b :: b in events && b <= ack.at.value && Joined(events, b, e, STABLE_SECONDS as real, false)
  }

  ghost predicate Uncovered(ack: Ack, events: seq<real>, e: real)
    requires ack.at.Some?
  {
    e in events && e > Edge(ack) && !Carried(ack, events, e)
  }

  // The one answer: the least event not covered, if there is one.
  ghost predicate Answers(ack: Ack, events: seq<real>, now: real, out: Cover) {
    && out.expired == (ack.until.Some? && now > ack.until.value)
    && if ack.at.None? then !out.covered && out.after.None?
       else
         && (out.covered <==> out.after.None?)
         && (out.after.None? ==> forall e :: e in events ==> !Uncovered(ack, events, e))
         && (out.after.Some? ==> Uncovered(ack, events, out.after.value))
         && (out.after.Some? ==> forall e :: Uncovered(ack, events, e) ==> out.after.value <= e)
  }

  // The chain the scan keeps: the last event joined to one no later than the acknowledgement.
  ghost predicate ChainFor(ack: Ack, es: seq<real>, chain: Option<real>)
    requires ack.at.Some?
  {
    if chain.Some? then
      && ack.until.None? && chain.value in es && Carried(ack, es, chain.value)
      && forall x :: x in es && x <= ack.at.value ==> x <= chain.value
    else ack.until.None? ==> forall x :: x in es && x <= ack.at.value ==> ack.at.value - x >= STABLE_SECONDS as real
  }

  // Past a gap the chain does not reach, nothing is carried.
  lemma {:induction false} GapIsUncovered(ack: Ack, es: seq<real>, chain: Option<real>, e: real)
    requires ack.at.Some? && ChainFor(ack, es, chain) && e in es && e > Edge(ack)
    requires chain.Some? ==> e - chain.value >= STABLE_SECONDS as real
    requires forall x :: x in es && x < e ==> x <= Edge(ack) || (chain.Some? && x <= chain.value)
    ensures Uncovered(ack, es, e)
  {
    if ack.until.None? {
      var edge := if chain.Some? then chain.value else ack.at.value;
      var gap := STABLE_SECONDS as real;
      forall x, y | x in es && y in es && x <= edge < y ensures !SmallStep(x, y, gap, false) {
      }
      forall b | b in es && b <= ack.at.value ensures !Joined(es, b, e, gap, false) {
        NotJoinedAcross(es, b, e, gap, false, edge);
      }
    }
  }

  lemma {:induction false} FirstLink(ack: Ack, es: seq<real>, last: real)
    requires ack.at.Some? && ack.until.None? && last in es && last <= ack.at.value
    ensures Carried(ack, es, last)
  {
    JoinedSelf(es, last, STABLE_SECONDS as real, false);
  }

  lemma {:induction false} NextLink(ack: Ack, es: seq<real>, chain: real, e: real)
    requires ack.at.Some? && Carried(ack, es, chain) && e in es && chain <= e && e - chain < STABLE_SECONDS as real
    ensures Carried(ack, es, e)
  {
    var gap := STABLE_SECONDS as real;
    var b :| b in es && b <= ack.at.value && Joined(es, b, chain, gap, false);
    JoinedStep(es, b, chain, e, gap, false);
  }

  // The last event no later than the edge, of a sorted list: its index plus one, or zero.
  method CountBefore(es: seq<real>, edge: real) returns (n: nat)
    requires Sorting.Sorted(es, Same)
    ensures n <= |es|
    ensures forall k :: 0 <= k < |es| ==> (es[k] <= edge <==> k < n)
  {
    n := 0;
    while n < |es| && es[n] <= edge
      invariant n <= |es| && forall k :: 0 <= k < n ==> es[k] <= edge
    {
      n := n + 1;
    }
    assert n < |es| ==> forall k :: n <= k < |es| ==> Same(es[n]) <= Same(es[k]);
  }

  // The cycle under way at the acknowledgement, and where the events past the edge begin.
  method Begin(ack: Ack, es: seq<real>) returns (n: nat, chain: Option<real>)
    requires ack.at.Some? && Sorting.Sorted(es, Same)
    ensures n <= |es| && forall k :: 0 <= k < |es| ==> (es[k] <= Edge(ack) <==> k < n)
    ensures ChainFor(ack, es, chain) && (chain.Some? ==> chain.value <= ack.at.value)
  {
    n := CountBefore(es, Edge(ack));
    chain := None;
    assert forall k :: 0 <= k < n ==> Same(es[k]) <= Same(es[n - 1]);
    if ack.until.None? && n > 0 && ack.at.value - es[n - 1] < STABLE_SECONDS as real {
      chain := Some(es[n - 1]);
      FirstLink(ack, es, es[n - 1]);
    }
  }

  // Every event past the edge and before the `i`-th is carried, and the chain ends between them.
  ghost predicate Reached(ack: Ack, es: seq<real>, chain: Option<real>, n: nat, i: nat)
    requires ack.at.Some?
  {
    && n <= i <= |es| && ChainFor(ack, es, chain)
    && (forall k :: n <= k < i ==> Carried(ack, es, es[k]) && chain.Some? && es[k] <= chain.value)
    && (chain.Some? ==> forall k :: i <= k < |es| ==> chain.value <= es[k])
  }

  lemma {:induction false} ReachesOne(ack: Ack, es: seq<real>, chain: real, n: nat, i: nat)
    requires ack.at.Some? && Sorting.Sorted(es, Same) && i < |es| && Reached(ack, es, Some(chain), n, i)
    requires es[i] - chain < STABLE_SECONDS as real
    ensures Reached(ack, es, Some(es[i]), n, i + 1)
  {
    NextLink(ack, es, chain, es[i]);
    assert forall k :: i <= k < |es| ==> Same(es[i]) <= Same(es[k]);
  }

  lemma {:induction false} AllReached(ack: Ack, es: seq<real>, chain: Option<real>, n: nat, e: real)
    requires ack.at.Some? && Reached(ack, es, chain, n, |es|)
    requires forall k :: 0 <= k < |es| ==> (es[k] <= Edge(ack) <==> k < n)
    ensures !Uncovered(ack, es, e)
  {
    if e in es {
      var k :| 0 <= k < |es| && es[k] == e;
    }
  }

  // The scan over the sorted events past the edge.
  method Scan(ack: Ack, es: seq<real>) returns (after: Option<real>)
    requires ack.at.Some? && Sorting.Sorted(es, Same)
    ensures after.None? ==> forall e :: e in es ==> !Uncovered(ack, es, e)
    ensures after.Some? ==> Uncovered(ack, es, after.value)
    ensures after.Some? ==> forall e :: Uncovered(ack, es, e) ==> after.value <= e
  {
    var n, chain := Begin(ack, es);
    for i := n to |es|
      invariant Reached(ack, es, chain, n, i)
    {
      var e := es[i];
      if chain.Some? && e - chain.value < STABLE_SECONDS as real {
        ReachesOne(ack, es, chain.value, n, i);
        chain := Some(e);
      } else {
        Missed(ack, es, chain, n, i);
        return Some(e);
      }
    }
    forall e | e in es ensures !Uncovered(ack, es, e) {
      AllReached(ack, es, chain, n, e);
    }
    return None;
  }

  // The first event the chain does not reach is the least one not covered.
  lemma {:induction false} Missed(ack: Ack, es: seq<real>, chain: Option<real>, n: nat, i: nat)
    requires ack.at.Some? && Sorting.Sorted(es, Same) && i < |es| && Reached(ack, es, chain, n, i)
    requires forall k :: 0 <= k < |es| ==> (es[k] <= Edge(ack) <==> k < n)
    requires chain.Some? ==> es[i] - chain.value >= STABLE_SECONDS as real
    ensures Uncovered(ack, es, es[i])
    ensures forall e :: Uncovered(ack, es, e) ==> es[i] <= e
  {
    assert forall k :: i <= k < |es| ==> Same(es[i]) <= Same(es[k]);
    forall x | x in es && x < es[i] ensures x <= Edge(ack) || (chain.Some? && x <= chain.value) {
      var k :| 0 <= k < |es| && es[k] == x;
      assert k < i;
    }
    GapIsUncovered(ack, es, chain, es[i]);
    forall e | Uncovered(ack, es, e) ensures es[i] <= e {
      var k :| 0 <= k < |es| && es[k] == e;
      assert k >= i;
    }
  }

  lemma {:induction false} OnlyMembershipCounts(ack: Ack, events: seq<real>, others: seq<real>, e: real)
    requires ack.at.Some? && forall x :: x in events <==> x in others
    ensures Uncovered(ack, events, e) <==> Uncovered(ack, others, e)
  {
    var gap := STABLE_SECONDS as real;
    forall b ensures Joined(events, b, e, gap, false) <==> Joined(others, b, e, gap, false) {
      if Joined(events, b, e, gap, false) {
        JoinedByEarlier(events, others, b, e, gap, false);
      }
      if Joined(others, b, e, gap, false) {
        JoinedByEarlier(others, events, b, e, gap, false);
      }
    }
  }

  method Covers(ack: Ack, events: seq<real>, now: real) returns (out: Cover)
    ensures Answers(ack, events, now, out)
  {
    out := Cover(false, None, ack.until.Some? && now > ack.until.value);
    if ack.at.None? {
      return;
    }
    var es := Sorting.Sort(events, Same);
    Sorting.SortSorts(events, Same);
    Sorting.SortKeeps(events, Same);
    var after := Scan(ack, es);
    forall e ensures Uncovered(ack, events, e) <==> Uncovered(ack, es, e) {
      OnlyMembershipCounts(ack, events, es, e);
    }
    out := out.(covered := after.None?, after := after);
  }

  // The answer is one, and neither the events' order nor a repeated event moves it.
  lemma {:induction false} OrderAndRepeatsAreNoMatter(ack: Ack, events: seq<real>, others: seq<real>, now: real,
                                                      a: Cover, b: Cover)
    requires forall x :: x in events <==> x in others
    requires Answers(ack, events, now, a) && Answers(ack, others, now, b)
    ensures a == b
  {
    if ack.at.Some? {
      forall e ensures Uncovered(ack, events, e) <==> Uncovered(ack, others, e) {
        OnlyMembershipCounts(ack, events, others, e);
      }
    }
  }

  lemma {:induction false} UncoveredWithLater(ack: Ack, events: seq<real>, more: seq<real>, a: real, e: real)
    requires ack.at.Some? && a in events && e <= a
    requires forall x :: x in more ==> a <= x
    ensures Uncovered(ack, events + more, e) <==> Uncovered(ack, events, e)
  {
    var gap, all := STABLE_SECONDS as real, events + more;
    forall b ensures Joined(events, b, e, gap, false) <==> Joined(all, b, e, gap, false) {
      if Joined(events, b, e, gap, false) {
        JoinedByEarlier(events, all, b, e, gap, false);
      }
      if Joined(all, b, e, gap, false) {
        JoinedByEarlier(all, events, b, e, gap, false);
      }
    }
    if Carried(ack, all, e) {
      var b :| b in all && b <= ack.at.value && Joined(all, b, e, gap, false);
      var path :| Walk(all, path, gap, false) && path[0] == b && path[|path| - 1] == e;
      WalkClimbs(all, path, gap, false, 0);
      assert b in events;
    }
  }

  // Once an event is reported as not covered, no later one changes the report.
  lemma {:induction false} LaterEventsChangeNothing(ack: Ack, events: seq<real>, more: seq<real>, now: real,
                                                    before: Cover, after: Cover)
    requires Answers(ack, events, now, before) && Answers(ack, events + more, now, after)
    requires before.after.Some? && forall x :: x in more ==> before.after.value <= x
    ensures after.after == before.after && !after.covered
  {
    var a := before.after.value;
    UncoveredWithLater(ack, events, more, a, a);
    if after.after.Some? && after.after.value <= a {
      UncoveredWithLater(ack, events, more, a, after.after.value);
    }
  }

  // A planned quiet period covers every event to its end and none after it.
  lemma {:induction false} QuietPeriodCoversToItsEnd(ack: Ack, events: seq<real>, now: real, out: Cover)
    requires Answers(ack, events, now, out) && ack.at.Some? && ack.until.Some?
    ensures out.covered <==> forall e :: e in events ==> e <= ack.until.value
    ensures out.after.Some? ==> forall e :: e in events && e > ack.until.value ==> out.after.value <= e
  {
    assert forall e :: e in events ==> (Uncovered(ack, events, e) <==> e > ack.until.value);
  }

  // Without one, it covers exactly the events up to when it was given and those that follow one of them
  // by steps of less than a quarter of an hour.
  lemma {:induction false} AckCoversItsCycle(ack: Ack, events: seq<real>, now: real, out: Cover)
    requires Answers(ack, events, now, out) && ack.at.Some? && ack.until.None?
    ensures out.covered <==> forall e :: e in events ==>
              e <= ack.at.value || exists b :: b in events && b <= ack.at.value && Joined(events, b, e, 900.0, false)
    ensures !out.expired
  {
    assert STABLE_SECONDS as real == 900.0;
    forall e | e in events
      ensures Uncovered(ack, events, e)
         <==> e > ack.at.value && !exists b :: b in events && b <= ack.at.value && Joined(events, b, e, 900.0, false)
    {
    }
  }
}
