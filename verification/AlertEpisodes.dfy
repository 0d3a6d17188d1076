// `episodes`: each instance's non-normal stretches, folded from its transitions in Grafana's order.
module AlertEpisodes {
  import opened Wrappers
  import opened AlertLog
  import opened AlertGate
  import Calendar
  import Sorting

  // The states of one stretch in order (never empty), and the resolve that ended it.
  datatype Episode = Episode(states: seq<Row>, resolve: Option<Row>) {
    function StartedAt(): Second
      requires states != []
    {
      states[0].at
    }
    function ResolvedAt(): Option<Second> {
      if resolve.None? then None else Some(resolve.value.at)
    }
  }

  function MovedKeys(log: seq<Entry>): set<Key> {
    set i, j | 0 <= i < |log| && log[i].Moved? && 0 <= j < |log[i].keys| :: log[i].keys[j]
  }

  // The transitions still served: every one no marker names.
  function Served(log: seq<Entry>): seq<Row> { Sorting.Filter(Rows(log), NotIn(MovedKeys(log))) }

  // A marker of the log names the transition of this row.
  predicate IsMoved(log: seq<Entry>, r: Row) {
    exists i, j :: 0 <= i < |log| && log[i].Moved? && 0 <= j < |log[i].keys|
      && log[i].keys[j] == Key(r.identity, r.word, r.at)
  }

  // Served is a row exactly when it is in the log and no marker names it.
  lemma {:induction false} ServedIff(log: seq<Entry>, r: Row)
    ensures r in Served(log) <==> (exists i :: 0 <= i < |log| && log[i] == Transition(r)) && !IsMoved(log, r)
  {
    Sorting.FilterHolds(Rows(log), NotIn(MovedKeys(log)), r);
    RowsAre(log, r);
  }

  function NotIn(gone: set<Key>): Row -> bool { (r: Row) => r.TransitionKey() !in gone }

  function RowRank(r: Row): real { r.When().Rank() as real }

  function IsOf(id: Identity): Row -> bool { (r: Row) => r.identity == id }

  function RowsOf(rows: seq<Row>, id: Identity): seq<Row> { Sorting.Filter(rows, IsOf(id)) }

  function Ordered(rows: seq<Row>, id: Identity): seq<Row> { Sorting.Sort(RowsOf(rows, id), RowRank) }

  // `open` holds the states of the stretch under way; it is empty when there is none.
  function FoldFrom(open: seq<Row>, rs: seq<Row>): seq<Episode>
    decreases |rs|
  {
    if rs == [] then (if open == [] then [] else [Episode(open, None)])
    else if rs[0].to != Normal then FoldFrom(open + [rs[0]], rs[1..])
    else if open == [] then FoldFrom([], rs[1..])
    else [Episode(open, Some(rs[0]))] + FoldFrom([], rs[1..])
  }

  function EpisodesOf(rows: seq<Row>, id: Identity): seq<Episode> { FoldFrom([], Ordered(rows, id)) }

  function NonNormal(rs: seq<Row>): seq<Row> { Sorting.Filter(rs, (r: Row) => r.to != Normal) }

  function Resolves(rs: seq<Row>): seq<Row> { Sorting.Filter(rs, (r: Row) => r.to == Normal) }

  function StatesIn(es: seq<Episode>): seq<Row> {
    if es == [] then [] else es[0].states + StatesIn(es[1..])
  }

  function ResolvesIn(es: seq<Episode>): seq<Row> {
    if es == [] then []
    else (if es[0].resolve.Some? then [es[0].resolve.value] else []) + ResolvesIn(es[1..])
  }

  lemma {:induction false} HeadFirst(rs: seq<Row>, p: Row -> bool)
    requires rs != []
    ensures Sorting.Filter(rs, p) == (if p(rs[0]) then [rs[0]] else []) + Sorting.Filter(rs[1..], p)
  {
    assert rs == rs[..1] + rs[1..];
    Sorting.FilterAppend(rs[..1], rs[1..], p);
    assert rs[..1][..0] == [];
  }

  // Every non-normal transition is in exactly one episode, once, and in order: the episodes'
  // states laid end to end are the instance's non-normal transitions.
  lemma {:induction false} StatesPartitioned(open: seq<Row>, rs: seq<Row>)
    ensures StatesIn(FoldFrom(open, rs)) == open + NonNormal(rs)
    decreases |rs|
  {
    if rs != [] {
      HeadFirst(rs, (r: Row) => r.to != Normal);
      if rs[0].to != Normal {
        StatesPartitioned(open + [rs[0]], rs[1..]);
      } else {
        StatesPartitioned([], rs[1..]);
      }
    }
  }

  // A resolve with nothing open before it: first of all, or straight after another resolve.
  predicate Stray(rs: seq<Row>, j: nat)
    requires j < |rs|
  {
    rs[j].to == Normal && (j == 0 || rs[j - 1].to == Normal)
  }

  predicate NoStrayFrom(isOpen: bool, rs: seq<Row>)
    decreases |rs|
  {
    rs == [] || if rs[0].to == Normal then isOpen && NoStrayFrom(false, rs[1..])
                else NoStrayFrom(true, rs[1..])
  }

  lemma {:induction false} NoStrayByIndex(isOpen: bool, rs: seq<Row>)
    ensures NoStrayFrom(isOpen, rs)
       <==> forall j :: 0 <= j < |rs| && Stray(rs, j) ==> j == 0 && isOpen
    decreases |rs|
  {
    if rs != [] {
      var tail := rs[1..];
      NoStrayByIndex(rs[0].to != Normal, tail);
      assert forall j :: 1 <= j < |tail| ==> (Stray(tail, j) <==> Stray(rs, j + 1));
      assert forall j :: 2 <= j < |rs| ==> (Stray(rs, j) <==> Stray(tail, j - 1));
      if tail != [] {
        assert Stray(rs, 1) <==> Stray(tail, 0) && rs[0].to == Normal;
      }
      assert Stray(rs, 0) <==> rs[0].to == Normal;
    }
  }

  lemma {:induction false} FoldClosesIff(open: seq<Row>, rs: seq<Row>)
    ensures |ResolvesIn(FoldFrom(open, rs))| <= |Resolves(rs)|
    ensures ResolvesIn(FoldFrom(open, rs)) == Resolves(rs) <==> NoStrayFrom(open != [], rs)
    decreases |rs|
  {
    if rs != [] {
      HeadFirst(rs, (r: Row) => r.to == Normal);
      FoldClosesIff(if rs[0].to != Normal then open + [rs[0]] else [], rs[1..]);
      if rs[0].to == Normal && open != [] {
        assert FoldFrom(open, rs)[1..] == FoldFrom([], rs[1..]);
        assert ([rs[0]] + ResolvesIn(FoldFrom([], rs[1..])))[1..] == ResolvesIn(FoldFrom([], rs[1..]));
      }
    }
  }

  // Each served resolve closes exactly one episode, in order, exactly when none is stray.
  lemma {:induction false} ResolvesCloseIff(rows: seq<Row>, id: Identity)
    ensures ResolvesIn(EpisodesOf(rows, id)) == Resolves(Ordered(rows, id))
       <==> forall j :: 0 <= j < |Ordered(rows, id)| ==> !Stray(Ordered(rows, id), j)
  {
    FoldClosesIff([], Ordered(rows, id));
    NoStrayByIndex(false, Ordered(rows, id));
  }

  // ------------------------------------------------------------------ one instance's order

  lemma {:induction false} OrderedIs(rows: seq<Row>, id: Identity)
    ensures Sorting.Sorted(Ordered(rows, id), RowRank)
    ensures forall r :: r in Ordered(rows, id) <==> r in rows && r.identity == id
  {
    var p := IsOf(id);
    Sorting.SortSorts(Sorting.Filter(rows, p), RowRank);
    Sorting.SortKeeps(Sorting.Filter(rows, p), RowRank);
    forall r ensures r in Ordered(rows, id) <==> r in rows && r.identity == id {
      Sorting.FilterHolds(rows, p, r);
    }
  }

  ghost predicate Distinct(rs: seq<Row>) { forall i, j :: 0 <= i < j < |rs| ==> rs[i] != rs[j] }

  lemma {:induction false} FilterDistinct(rs: seq<Row>, p: Row -> bool)
    requires Distinct(rs)
    ensures Distinct(Sorting.Filter(rs, p))
  {
    if rs != [] {
      FilterDistinct(rs[..|rs| - 1], p);
      Sorting.FilterIn(rs[..|rs| - 1], p);
    }
  }

  lemma {:induction false} InsertDistinct(x: Row, rs: seq<Row>)
    requires Distinct(rs) && x !in rs
    ensures Distinct(Sorting.Insert(x, rs, RowRank))
    ensures forall r :: r in Sorting.Insert(x, rs, RowRank) <==> r in rs || r == x
  {
    if rs == [] || RowRank(rs[|rs| - 1]) <= RowRank(x) {
    } else {
      var last, r := rs[|rs| - 1], Sorting.Insert(x, rs[..|rs| - 1], RowRank);
      InsertDistinct(x, rs[..|rs| - 1]);
      assert rs == rs[..|rs| - 1] + [last];
      forall i | 0 <= i < |r| ensures r[i] != last {
        assert r[i] in r;
      }
    }
  }

  lemma {:induction false} SortDistinct(rs: seq<Row>)
    requires Distinct(rs)
    ensures Distinct(Sorting.Sort(rs, RowRank))
  {
    if rs != [] {
      SortDistinct(rs[..|rs| - 1]);
      Sorting.SortKeeps(rs[..|rs| - 1], RowRank);
      InsertDistinct(rs[|rs| - 1], Sorting.Sort(rs[..|rs| - 1], RowRank));
    }
  }

  lemma {:induction false} OrderedDistinct(rows: seq<Row>, id: Identity)
    requires DistinctKeys(rows)
    ensures Distinct(Ordered(rows, id))
  {
    FilterDistinct(rows, IsOf(id));
    SortDistinct(RowsOf(rows, id));
  }

  // No row of the instance lies strictly between two neighbours of its order, nor before the first.
  lemma {:induction false} NothingBetweenNeighbours(rows: seq<Row>, id: Identity, j: nat)
    requires j < |Ordered(rows, id)|
    ensures !Between(rows, id, if j == 0 then -1 else Ordered(rows, id)[j - 1].When().Rank(),
                     Ordered(rows, id)[j].When().Rank())
  {
    var rs := Ordered(rows, id);
    OrderedIs(rows, id);
    forall k | 0 <= k < |rows| && rows[k].identity == id
      ensures (j > 0 && rows[k].When().Rank() <= rs[j - 1].When().Rank())
              || rs[j].When().Rank() <= rows[k].When().Rank()
    {
      assert rows[k] in rs;
      var q :| 0 <= q < |rs| && rs[q] == rows[k];
      if q < j {
        assert RowRank(rs[q]) <= RowRank(rs[j - 1]);
      } else {
        assert RowRank(rs[j]) <= RowRank(rs[q]);
      }
    }
  }

  lemma {:induction false} PlaceOf(rows: seq<Row>, id: Identity, j: nat) returns (a: nat)
    requires j < |Ordered(rows, id)|
    ensures a < |rows| && rows[a] == Ordered(rows, id)[j] && rows[a].identity == id
  {
    OrderedIs(rows, id);
    assert Ordered(rows, id)[j] in Ordered(rows, id);
    a :| 0 <= a < |rows| && rows[a] == Ordered(rows, id)[j];
  }

  // With a state between any two resolves, none but the first of the order can be stray.
  lemma {:induction false} ApartStraysOnlyTheFirst(rows: seq<Row>, id: Identity, j: nat)
    requires DistinctKeys(rows) && ResolvesApart(rows)
    requires 0 < j < |Ordered(rows, id)|
    ensures !Stray(Ordered(rows, id), j)
  {
    OrderedIs(rows, id);
    OrderedDistinct(rows, id);
    NothingBetweenNeighbours(rows, id, j);
    var a := PlaceOf(rows, id, j - 1);
    var b := PlaceOf(rows, id, j);
    assert RowRank(rows[a]) <= RowRank(rows[b]);
    assert a != b;
    assert Stray(Ordered(rows, id), j) ==> ResolvePair(rows, a, b);
  }

  // The gate and the fold meet here: in a log the gate kept, no resolve is stray.
  lemma {:induction false} SoundHasNoStray(rows: seq<Row>, id: Identity, j: nat)
    requires DistinctKeys(rows) && Alternating(rows)
    requires j < |Ordered(rows, id)|
    ensures !Stray(Ordered(rows, id), j)
  {
    if j > 0 {
      ApartStraysOnlyTheFirst(rows, id, j);
    } else {
      var b := PlaceOf(rows, id, 0);
      NothingBetweenNeighbours(rows, id, 0);
    }
  }

  // The resolve at a place of the order that is not stray ends a state before it and after every
  // other resolve before it.
  lemma {:induction false} EndsWhatIsBefore(rows: seq<Row>, id: Identity, i: nat, j: nat)
    requires i < j < |Ordered(rows, id)| && Ordered(rows, id)[j].to == Normal && !Stray(Ordered(rows, id), j)
    requires Ordered(rows, id)[i].to == Normal || i == 0
    ensures var rs := Ordered(rows, id);
            Between(rows, id, if rs[i].to == Normal then rs[i].When().Rank() else -1, rs[j].When().Rank())
  {
    var rs := Ordered(rows, id);
    OrderedIs(rows, id);
    var k := PlaceOf(rows, id, j - 1);
    assert RowRank(rs[j - 1]) <= RowRank(rs[j]);
    assert i < j - 1 ==> RowRank(rs[i]) <= RowRank(rs[j - 1]);
    assert rs[j - 1].to != Normal && rows[k] == rs[j - 1];
  }

  lemma {:induction false} InTheOrder(rows: seq<Row>, a: nat) returns (i: nat)
    requires a < |rows|
    ensures i < |Ordered(rows, rows[a].identity)| && Ordered(rows, rows[a].identity)[i] == rows[a]
  {
    var rs := Ordered(rows, rows[a].identity);
    OrderedIs(rows, rows[a].identity);
    assert rows[a] in rs;
    i :| 0 <= i < |rs| && rs[i] == rows[a];
  }

  ghost predicate NoneStray(rows: seq<Row>, id: Identity) {
    forall j :: 0 <= j < |Ordered(rows, id)| ==> !Stray(Ordered(rows, id), j)
  }

  lemma {:induction false} NotStrayFollowsAState(rows: seq<Row>, a: nat)
    requires a < |rows| && rows[a].to == Normal && NoneStray(rows, rows[a].identity)
    ensures Between(rows, rows[a].identity, -1, rows[a].When().Rank())
  {
    var id := rows[a].identity;
    var j := InTheOrder(rows, a);
    assert !Stray(Ordered(rows, id), j);
    EndsWhatIsBefore(rows, id, 0, j);
  }

  lemma {:induction false} InOrderOrTied(rs: seq<Row>, i: nat, j: nat)
    requires Sorting.Sorted(rs, RowRank) && i < |rs| && j < |rs| && i != j && RowRank(rs[i]) <= RowRank(rs[j])
    ensures i < j || RowRank(rs[i - 1]) == RowRank(rs[i])
  {
    if j < i {
      assert RowRank(rs[j]) <= RowRank(rs[i]);
      assert j < i - 1 ==> RowRank(rs[j]) <= RowRank(rs[i - 1]);
      assert RowRank(rs[i - 1]) <= RowRank(rs[i]);
    }
  }

  lemma {:induction false} NotStrayApart(rows: seq<Row>, a: int, b: int)
    requires DistinctKeys(rows) && ResolvePair(rows, a, b) && NoneStray(rows, rows[a].identity)
    ensures Between(rows, rows[a].identity, rows[a].When().Rank(), rows[b].When().Rank())
  {
    var id := rows[a].identity;
    var rs := Ordered(rows, id);
    OrderedIs(rows, id);
    var i := InTheOrder(rows, a);
    var j := InTheOrder(rows, b);
    assert rows[a].TransitionKey() != rows[b].TransitionKey();
    assert !Stray(rs, i) && !Stray(rs, j);
    InOrderOrTied(rs, i, j);
    EndsWhatIsBefore(rows, id, i, j);
  }

  // Over any rows: resolves alternate with states exactly when no instance has a stray resolve.
  lemma {:induction false} AlternatesIffNoneStray(rows: seq<Row>)
    requires DistinctKeys(rows)
    ensures Alternating(rows) <==> forall id :: NoneStray(rows, id)
  {
    if Alternating(rows) {
      forall id, j | 0 <= j < |Ordered(rows, id)| ensures !Stray(Ordered(rows, id), j) {
        SoundHasNoStray(rows, id, j);
      }
    }
    if forall id :: NoneStray(rows, id) {
      forall a | 0 <= a < |rows| && rows[a].to == Normal
        ensures Between(rows, rows[a].identity, -1, rows[a].When().Rank())
      {
        NotStrayFollowsAState(rows, a);
      }
      forall a, b | ResolvePair(rows, a, b)
        ensures Between(rows, rows[a].identity, rows[a].When().Rank(), rows[b].When().Rank())
      {
        NotStrayApart(rows, a, b);
      }
    }
  }

  predicate NothingMoved(log: seq<Entry>) { forall i :: 0 <= i < |log| ==> log[i].Transition? }

  lemma {:induction false} AllKept(rows: seq<Row>, p: Row -> bool)
    requires forall i :: 0 <= i < |rows| ==> p(rows[i])
    ensures Sorting.Filter(rows, p) == rows
  {
    if rows != [] {
      AllKept(rows[..|rows| - 1], p);
      assert rows == rows[..|rows| - 1] + [rows[|rows| - 1]];
    }
  }

  lemma {:induction false} NothingMovedServesAll(log: seq<Entry>)
    requires NothingMoved(log)
    ensures Served(log) == Rows(log)
  {
    AllKept(Rows(log), NotIn(MovedKeys(log)));
  }

  lemma {:induction false} DeliveriesMoveNothing(ds: seq<Delivery>)
    ensures NothingMoved(DeliverAll([], ds))
  {
    if ds != [] {
      DeliveriesMoveNothing(ds[..|ds| - 1]);
      TakeAllMovesNothing(DeliverAll([], ds[..|ds| - 1]), Judged(ds[|ds| - 1]));
    }
  }

  lemma {:induction false} TakeAllMovesNothing(log: seq<Entry>, batch: seq<Arrival>)
    requires NothingMoved(log)
    ensures NothingMoved(TakeAll(log, batch))
  {
    if batch != [] {
      TakeAllMovesNothing(log, batch[..|batch| - 1]);
    }
  }

  ghost predicate EachResolveClosesOne(rows: seq<Row>, id: Identity) {
    ResolvesIn(EpisodesOf(rows, id)) == Resolves(Ordered(rows, id))
  }

  // Over every run of any writers before anything expires: every resolve kept closes exactly one
  // episode, in every instance, if and only if resolves alternate with states in the log.
  lemma {:induction false} EveryResolveClosesOneIff(ds: seq<Delivery>)
    ensures var log := DeliverAll([], ds);
            (forall id :: EachResolveClosesOne(Served(log), id)) <==> Alternating(Rows(log))
  {
    var log := DeliverAll([], ds);
    DeliversAllJudged([], ds);
    TakeAllKeepsKeys([], AllJudged(ds));
    DeliveriesMoveNothing(ds);
    NothingMovedServesAll(log);
    AlternatesIffNoneStray(Rows(log));
    forall id ensures EachResolveClosesOne(Rows(log), id) <==> NoneStray(Rows(log), id) {
      ResolvesCloseIff(Rows(log), id);
    }
  }

  // So where every source flags its resolves, as the reader and the detections do, the resolves kept
  // of an instance and those that close an episode are the same list.
  lemma {:induction false} EveryResolveClosesOne(ds: seq<Delivery>, id: Identity)
    requires forall i :: 0 <= i < |ds| ==> FlagsEveryResolve(ds[i].batch)
    ensures var rows := Served(DeliverAll([], ds));
            ResolvesIn(EpisodesOf(rows, id)) == Resolves(Ordered(rows, id))
  {
    EveryRunAlternates(ds);
    EveryResolveClosesOneIff(ds);
    assert EachResolveClosesOne(Served(DeliverAll([], ds)), id);
  }

  lemma {:induction false} DeliveredAlone(a: Arrival)
    requires !a.requiresOpen
    ensures Deliver([], Delivery([a], 1)) == [Transition(a.row)]
  {
    AloneInOrder(a);
    TakesAlone([], a);
    assert [a][..1] == [a];
  }

  lemma {:induction false} OneDelivered(d: Delivery)
    ensures DeliverAll([], [d]) == Deliver([], d)
  {
    assert [d][..0] == [];
  }

  lemma {:induction false} ServedAlone(r: Row)
    ensures Served([Transition(r)]) == [r]
  {
    assert [] + [Transition(r)] == [Transition(r)] && [] + [r] == [r];
    TakeRows([], r);
    NothingMovedServesAll([Transition(r)]);
  }

  lemma {:induction false} RecordedAlone(a: Arrival)
    requires !a.requiresOpen
    ensures DeliverAll([], [Delivery([a], 1)]) == [Transition(a.row)] && Served([Transition(a.row)]) == [a.row]
  {
    DeliveredAlone(a);
    OneDelivered(Delivery([a], 1));
    ServedAlone(a.row);
  }

  lemma {:induction false} AloneIsStray(resolved: Row)
    requires resolved.to == Normal
    ensures FoldFrom([], [resolved]) == []
  {
    assert [resolved][1..] == [];
  }

  // Rows of one instance in order of time stay as they are when grouped and sorted.
  lemma {:induction false} OrderedAsGiven(rows: seq<Row>, id: Identity)
    requires forall i :: 0 <= i < |rows| ==> rows[i].identity == id
    requires forall i, j :: 0 <= i < j < |rows| ==> rows[i].When().Rank() <= rows[j].When().Rank()
    ensures Ordered(rows, id) == rows
  {
    AllKept(rows, IsOf(id));
    Sorting.SortOfSorted(rows, RowRank);
  }

  // The backfill flags nothing: an annotation that an alert went back to normal, handed over before
  // anything is recorded of its instance, is kept and served, and closes nothing.
  lemma {:induction false} BackfillCanStrayAResolve(id: Identity, state: string, prev: Kind, at: Second,
                                                    networks: seq<string>)
    requires prev != Normal
    ensures var a := FromAnnotation(id, state, Normal, prev, Some(at), networks);
            && a.Some? && IsResolve(a.value.row, id)
            && var served := Served(DeliverAll([], [Delivery([a.value], 1)]));
               served == [a.value.row] && EpisodesOf(served, id) == []
  {
    var a := FromAnnotation(id, state, Normal, prev, Some(at), networks).value;
    RecordedAlone(a);
    OrderedAsGiven([a.row], id);
    AloneIsStray(a.row);
  }

  lemma {:induction false} FilterKeys(rs: seq<Row>, p: Row -> bool)
    requires DistinctKeys(rs)
    ensures DistinctKeys(Sorting.Filter(rs, p))
  {
    if rs != [] {
      FilterKeys(rs[..|rs| - 1], p);
      Sorting.FilterIn(rs[..|rs| - 1], p);
    }
  }

  // ------------------------------------------------------------------ which resolves close one

  // The resolves that find a stretch open, in the order the fold meets them.
  function Closing(isOpen: bool, rs: seq<Row>): seq<Row>
    decreases |rs|
  {
    if rs == [] then []
    else if rs[0].to != Normal then Closing(true, rs[1..])
    else (if isOpen then [rs[0]] else []) + Closing(false, rs[1..])
  }

  lemma {:induction false} FoldClosesThese(open: seq<Row>, rs: seq<Row>)
    ensures ResolvesIn(FoldFrom(open, rs)) == Closing(open != [], rs)
    decreases |rs|
  {
    if rs != [] {
      FoldClosesThese(if rs[0].to != Normal then open + [rs[0]] else [], rs[1..]);
      if rs[0].to == Normal && open != [] {
        assert FoldFrom(open, rs)[1..] == FoldFrom([], rs[1..]);
      }
    }
  }

  // Whether the resolve at `j` finds a stretch open.
  predicate FindsOpen(isOpen: bool, rs: seq<Row>, j: nat)
    requires j < |rs|
  {
    if j == 0 then isOpen else rs[j - 1].to != Normal
  }

  lemma {:induction false} ClosingIs(isOpen: bool, rs: seq<Row>, p: Row -> bool)
    requires forall j :: 0 <= j < |rs| && rs[j].to == Normal ==> (p(rs[j]) <==> FindsOpen(isOpen, rs, j))
    ensures Closing(isOpen, rs) == Sorting.Filter(Resolves(rs), p)
    decreases |rs|
  {
    if rs != [] {
      var tail := rs[1..];
      forall j | 0 <= j < |tail| && tail[j].to == Normal
        ensures p(tail[j]) <==> FindsOpen(rs[0].to != Normal, tail, j)
      {
        assert tail[j] == rs[j + 1];
      }
      ClosingIs(rs[0].to != Normal, tail, p);
      HeadFirst(rs, (r: Row) => r.to == Normal);
      if rs[0].to == Normal {
        assert FindsOpen(isOpen, rs, 0) <==> isOpen;
        var all := Resolves(rs);
        assert all == [rs[0]] + Resolves(tail);
        assert all[1..] == Resolves(tail);
        HeadFirst(all, p);
      } else {
        assert Resolves(rs) == Resolves(tail);
      }
    }
  }

  predicate IsState(r: Row, id: Identity) { r.identity == id && r.to != Normal }

  predicate IsResolve(r: Row, id: Identity) { r.identity == id && r.to == Normal }

  // Of the resolves of its time the row is the one recorded first.
  ghost predicate FirstOfItsTime(rows: seq<Row>, id: Identity, r: Row) {
    exists b :: 0 <= b < |rows| && rows[b] == r
      && forall q :: 0 <= q < b && IsResolve(rows[q], id) ==> rows[q].at != r.at
  }

  // Among these rows there is a state of the instance that the resolve can end: one before it and
  // after every resolve before it. Of two resolves of one time the one recorded first is before.
  ghost predicate EndsAState(rows: seq<Row>, id: Identity, r: Row) {
    && FirstOfItsTime(rows, id, r)
    && exists k :: 0 <= k < |rows| && IsState(rows[k], id) && rows[k].When().Rank() < r.When().Rank()
         && forall q :: 0 <= q < |rows| && IsResolve(rows[q], id) && rows[q].When().Rank() < r.When().Rank()
              ==> rows[q].When().Rank() < rows[k].When().Rank()
  }

  ghost function Ends(rows: seq<Row>, id: Identity): Row -> bool { (r: Row) => EndsAState(rows, id, r) }

  // Two rows of one time stand in an instance's order as they were recorded.
  lemma {:induction false} OrderedIsStable(rows: seq<Row>, id: Identity, a: nat, b: nat) returns (i: nat, j: nat)
    requires a < b < |rows| && rows[a].identity == id && rows[b].identity == id
    requires rows[a].When().Rank() == rows[b].When().Rank()
    ensures i < j < |Ordered(rows, id)| && Ordered(rows, id)[i] == rows[a] && Ordered(rows, id)[j] == rows[b]
  {
    var c, d := Sorting.FilterInOrder(rows, IsOf(id), a, b);
    i, j := Sorting.SortIsStable(RowsOf(rows, id), RowRank, c, d);
  }

  lemma {:induction false} NoLaterThanTheOneBefore(rows: seq<Row>, id: Identity, j: nat, q: nat)
    requires 0 < j < |Ordered(rows, id)| && q < |rows| && rows[q].identity == id
    requires rows[q].When().Rank() < Ordered(rows, id)[j].When().Rank()
    ensures rows[q].When().Rank() <= Ordered(rows, id)[j - 1].When().Rank()
  {
    var rs := Ordered(rows, id);
    OrderedIs(rows, id);
    assert rows[q] in rs;
    var i :| 0 <= i < |rs| && rs[i] == rows[q];
    assert j <= i ==> RowRank(rs[j]) <= RowRank(rs[i]);
    assert i < j ==> RowRank(rs[i]) <= RowRank(rs[j - 1]);
  }

  lemma {:induction false} TiesKeepPlaces(rows: seq<Row>, id: Identity, a: nat, b: nat, i: nat, j: nat)
    requires DistinctKeys(rows) && a < b < |rows|
    requires i < |Ordered(rows, id)| && j < |Ordered(rows, id)|
    requires rows[a] == Ordered(rows, id)[i] && rows[b] == Ordered(rows, id)[j]
    requires rows[a].When().Rank() == rows[b].When().Rank()
    ensures i < j
  {
    OrderedIs(rows, id);
    OrderedDistinct(rows, id);
    assert Ordered(rows, id)[i] in Ordered(rows, id) && Ordered(rows, id)[j] in Ordered(rows, id);
    var c, d := OrderedIsStable(rows, id, a, b);
    assert c == i && d == j;
  }

  // A resolve recorded before another of its time stands before it, with nothing but that time between.
  lemma {:induction false} TieBefore(rows: seq<Row>, id: Identity, q: nat, b: nat, j: nat)
    requires DistinctKeys(rows) && q < b < |rows| && IsResolve(rows[q], id) && IsResolve(rows[b], id)
    requires j < |Ordered(rows, id)| && Ordered(rows, id)[j] == rows[b]
    ensures rows[q].at == rows[b].at ==> 0 < j && RowRank(Ordered(rows, id)[j - 1]) == RowRank(rows[b])
  {
    if rows[q].at == rows[b].at {
      var rs := Ordered(rows, id);
      var c := InTheOrder(rows, q);
      OrderedIs(rows, id);
      TiesKeepPlaces(rows, id, q, b, c, j);
      assert c < j - 1 ==> RowRank(rs[c]) <= RowRank(rs[j - 1]);
      assert RowRank(rs[j - 1]) <= RowRank(rs[j]);
    }
  }

  lemma {:induction false} NotStrayIsFirst(rows: seq<Row>, id: Identity, j: nat)
    requires DistinctKeys(rows)
    requires j < |Ordered(rows, id)| && Ordered(rows, id)[j].to == Normal && !Stray(Ordered(rows, id), j)
    ensures FirstOfItsTime(rows, id, Ordered(rows, id)[j])
  {
    var b := PlaceOf(rows, id, j);
    forall q | 0 <= q < b && IsResolve(rows[q], id) ensures rows[q].at != rows[b].at {
      TieBefore(rows, id, q, b, j);
    }
  }

  lemma {:induction false} NotStrayEnds(rows: seq<Row>, id: Identity, j: nat)
    requires DistinctKeys(rows)
    requires j < |Ordered(rows, id)| && Ordered(rows, id)[j].to == Normal && !Stray(Ordered(rows, id), j)
    ensures EndsAState(rows, id, Ordered(rows, id)[j])
  {
    var rs := Ordered(rows, id);
    OrderedIs(rows, id);
    NotStrayIsFirst(rows, id, j);
    var k := PlaceOf(rows, id, j - 1);
    assert RowRank(rs[j - 1]) <= RowRank(rs[j]);
    forall q | 0 <= q < |rows| && IsResolve(rows[q], id) && rows[q].When().Rank() < rs[j].When().Rank()
      ensures rows[q].When().Rank() < rows[k].When().Rank()
    {
      NoLaterThanTheOneBefore(rows, id, j, q);
      assert rows[q].When().Rank() != rows[k].When().Rank();
    }
    assert IsState(rows[k], id) && rows[k].When().Rank() < rs[j].When().Rank();
  }

  lemma {:induction false} SecondOfItsTime(rows: seq<Row>, id: Identity, j: nat)
    requires DistinctKeys(rows) && 0 < j < |Ordered(rows, id)|
    requires IsResolve(Ordered(rows, id)[j - 1], id) && IsResolve(Ordered(rows, id)[j], id)
    requires Ordered(rows, id)[j - 1].at == Ordered(rows, id)[j].at
    ensures !FirstOfItsTime(rows, id, Ordered(rows, id)[j])
  {
    var rs := Ordered(rows, id);
    OrderedDistinct(rows, id);
    var a := PlaceOf(rows, id, j - 1);
    forall b | 0 <= b < |rows| && rows[b] == rs[j] ensures a < b {
      if b < a {
        TiesKeepPlaces(rows, id, b, a, j, j - 1);
      }
    }
  }

  lemma {:induction false} StrayEndsNone(rows: seq<Row>, id: Identity, j: nat)
    requires DistinctKeys(rows)
    requires j < |Ordered(rows, id)| && Stray(Ordered(rows, id), j)
    ensures !EndsAState(rows, id, Ordered(rows, id)[j])
  {
    var rs := Ordered(rows, id);
    OrderedIs(rows, id);
    NothingBetweenNeighbours(rows, id, j);
    if j > 0 {
      var a := PlaceOf(rows, id, j - 1);
      assert RowRank(rs[j - 1]) <= RowRank(rs[j]);
      assert IsResolve(rows[a], id) && IsResolve(rs[j], id);
      if rs[j - 1].at == rs[j].at {
        SecondOfItsTime(rows, id, j);
      }
    }
  }

  // The resolves that close an episode are exactly those with a state of the instance between
  // them and the resolve before, among the rows folded: each once, in order, and no others.
  lemma {:induction false} WhichResolvesClose(rows: seq<Row>, id: Identity)
    requires DistinctKeys(rows)
    ensures ResolvesIn(EpisodesOf(rows, id)) == Sorting.Filter(Resolves(Ordered(rows, id)), Ends(rows, id))
  {
    var rs := Ordered(rows, id);
    FoldClosesThese([], rs);
    forall j | 0 <= j < |rs| && rs[j].to == Normal ensures Ends(rows, id)(rs[j]) <==> FindsOpen(false, rs, j) {
      if Stray(rs, j) {
        StrayEndsNone(rows, id, j);
      } else {
        NotStrayEnds(rows, id, j);
      }
    }
    ClosingIs(false, rs, Ends(rows, id));
  }

  // ------------------------------------------------------------------ the shape of an instance's episodes

  ghost predicate Closed(e: Episode) { e.resolve.Some? }

  // What holds of one instance's episodes: in time order, each begun strictly after the one
  // before it was resolved, and only the last possibly open.
  ghost predicate InTimeOrder(es: seq<Episode>) {
    && (forall k :: 0 <= k < |es| ==> es[k].states != [])
    && (forall k, i :: 0 <= k < |es| && 0 <= i < |es[k].states| ==> es[k].StartedAt() <= es[k].states[i].at)
    && (forall k, i :: 0 <= k < |es| && Closed(es[k]) && 0 <= i < |es[k].states| ==>
          es[k].states[i].at <= es[k].resolve.value.at)
    && (forall k :: 0 <= k < |es| - 1 ==> Closed(es[k]))
    && (forall k, l :: 0 <= k < l < |es| ==> es[k].resolve.value.at < es[l].StartedAt())
  }

  lemma {:induction false} FoldStarts(open: seq<Row>, rs: seq<Row>, k: nat)
    requires k < |FoldFrom(open, rs)|
    ensures FoldFrom(open, rs)[k].states != []
    ensures var r := FoldFrom(open, rs)[k].states[0];
            if open != [] && k == 0 then r == open[0] else r in rs && r.to != Normal
    decreases |rs|
  {
    if rs != [] {
      if rs[0].to != Normal {
        FoldStarts(open + [rs[0]], rs[1..], k);
      } else if open == [] {
        FoldStarts([], rs[1..], k);
      } else if k > 0 {
        FoldStarts([], rs[1..], k - 1);
      }
    }
  }

  lemma {:induction false} EarlierFirst(e: Episode, es: seq<Episode>)
    requires InTimeOrder(es) && e.states != [] && Closed(e)
    requires forall i :: 0 <= i < |e.states| ==> e.StartedAt() <= e.states[i].at <= e.resolve.value.at
    requires forall k :: 0 <= k < |es| ==> e.resolve.value.at < es[k].StartedAt()
    ensures InTimeOrder([e] + es)
  {
    var all := [e] + es;
    assert forall k :: 1 <= k < |all| ==> all[k] == es[k - 1];
  }

  lemma {:induction false} FoldInTimeOrder(open: seq<Row>, rs: seq<Row>)
    requires Sorting.Sorted(rs, RowRank)
    requires Sorting.Sorted(open, RowRank) && forall i :: 0 <= i < |open| ==> open[i].to != Normal
    requires forall i, j :: 0 <= i < |open| && 0 <= j < |rs| ==> RowRank(open[i]) <= RowRank(rs[j])
    ensures InTimeOrder(FoldFrom(open, rs))
    decreases |rs|
  {
    if rs != [] {
      var es := FoldFrom([], rs[1..]);
      if rs[0].to != Normal {
        FoldInTimeOrder(open + [rs[0]], rs[1..]);
      } else {
        FoldInTimeOrder([], rs[1..]);
        if open != [] {
          forall k | 0 <= k < |es| ensures rs[0].at < es[k].StartedAt() {
            FoldStarts([], rs[1..], k);
            assert RowRank(rs[0]) <= RowRank(es[k].states[0]);
          }
          assert RowRank(open[0]) <= RowRank(rs[0]);
          EarlierFirst(Episode(open, Some(rs[0])), es);
        }
      }
    }
  }

  // Over any rows at all.
  lemma {:induction false} EpisodesInTimeOrder(rows: seq<Row>, id: Identity)
    ensures InTimeOrder(EpisodesOf(rows, id))
    ensures StatesIn(EpisodesOf(rows, id)) == NonNormal(Ordered(rows, id))
  {
    OrderedIs(rows, id);
    FoldInTimeOrder([], Ordered(rows, id));
    StatesPartitioned([], Ordered(rows, id));
  }

  datatype EpisodeId = EpisodeId(identity: Identity, started: nat)

  // The second an id is taken over is read back from the text kept; where none is read it is zero.
  function IdAt(id: Identity, started: nat): EpisodeId {
    Calendar.EpochUndoesIso(started);
    var read := Calendar.Epoch(Calendar.Iso(started));
    EpisodeId(id, if read.Some? then read.value else 0)
  }

  function IdOf(id: Identity, e: Episode): EpisodeId
    requires e.states != []
  {
    IdAt(id, e.StartedAt())
  }

  predicate ReadBack(t: nat) { Calendar.FIRST_SECOND <= t < Calendar.PAST_LAST }

  // Over all seconds: two starts make one id exactly when they are the same or neither is read
  // back, before 2000 or from year 10000 on.
  lemma {:induction false} OneIdIff(id: Identity, a: nat, b: nat)
    ensures IdAt(id, a) == IdAt(id, b) <==> a == b || (!ReadBack(a) && !ReadBack(b))
  {
    Calendar.EpochUndoesIso(a);
    Calendar.EpochUndoesIso(b);
  }

  // At both ends: ten and thirty seconds into 1970, and two seconds of the first hours of 10000.
  lemma {:induction false} IdsCanBeShared(id: Identity)
    ensures IdAt(id, 10) == IdAt(id, 30) == EpisodeId(id, 0)
    ensures IdAt(id, 253402304399) == IdAt(id, 253402304499) == EpisodeId(id, 0)
  {
    Calendar.EpochUndoesIso(10);
    Calendar.EpochUndoesIso(253402304399);
    OneIdIff(id, 10, 30);
    OneIdIff(id, 253402304399, 253402304499);
  }

  // Two episodes of an instance share an id exactly when both began before 2000.
  lemma {:induction false} IdsDiffer(rows: seq<Row>, id: Identity, k: nat, l: nat)
    requires k < l < |EpisodesOf(rows, id)|
    ensures InTimeOrder(EpisodesOf(rows, id))
    ensures var es := EpisodesOf(rows, id);
            IdOf(id, es[k]) == IdOf(id, es[l]) <==> es[l].StartedAt() < Calendar.FIRST_SECOND
  {
    EpisodesInTimeOrder(rows, id);
    var es := EpisodesOf(rows, id);
    assert Closed(es[k]);
    assert es[k].StartedAt() <= es[k].resolve.value.at < es[l].StartedAt();
    OneIdIff(id, es[k].StartedAt(), es[l].StartedAt());
  }

  // ------------------------------------------------------------------ the order of the rows

  datatype Span = Span(start: Option<nat>, resolve: Option<nat>)

  function SpanOf(e: Episode): Span {
    Span(if e.states == [] then None else Some(e.StartedAt()), e.ResolvedAt())
  }

  lemma {:induction false} SpansFollowMarks(open: seq<Row>, rs: seq<Row>, open': seq<Row>, rs': seq<Row>)
    requires Sorting.Map(rs, RowRank) == Sorting.Map(rs', RowRank)
    requires (open == []) == (open' == []) && (open != [] ==> open[0].at == open'[0].at)
    ensures Sorting.Map(FoldFrom(open, rs), SpanOf) == Sorting.Map(FoldFrom(open', rs'), SpanOf)
    decreases |rs|
  {
    assert |rs| == |rs'|;
    if rs != [] {
      assert RowRank(rs[0]) == RowRank(rs'[0]);
      assert rs[0].When() == rs'[0].When();
      forall i | 0 <= i < |rs[1..]| ensures RowRank(rs[1..][i]) == RowRank(rs'[1..][i]) {
        assert Sorting.Map(rs, RowRank)[i + 1] == Sorting.Map(rs', RowRank)[i + 1];
      }
      assert Sorting.Map(rs[1..], RowRank) == Sorting.Map(rs'[1..], RowRank);
      if rs[0].to != Normal {
        SpansFollowMarks(open + [rs[0]], rs[1..], open' + [rs'[0]], rs'[1..]);
      } else {
        SpansFollowMarks([], rs[1..], [], rs'[1..]);
        MapHead(FoldFrom(open, rs), SpanOf);
        MapHead(FoldFrom(open', rs'), SpanOf);
      }
    }
  }

  lemma {:induction false} MapHead<T, U>(s: seq<T>, f: T -> U)
    ensures s != [] ==> Sorting.Map(s, f) == [f(s[0])] + Sorting.Map(s[1..], f)
  {
  }

  // When an instance's episodes began and ended does not depend on the order of the rows.
  lemma {:induction false} OrderOfRowsIsNoMatter(rows: seq<Row>, shuffled: seq<Row>, id: Identity)
    requires multiset(rows) == multiset(shuffled)
    ensures Sorting.Map(EpisodesOf(rows, id), SpanOf) == Sorting.Map(EpisodesOf(shuffled, id), SpanOf)
  {
    var p := IsOf(id);
    Sorting.FilterPermutes(rows, shuffled, p);
    Sorting.SortKeysUnique(Sorting.Filter(rows, p), Sorting.Filter(shuffled, p), RowRank);
    SpansFollowMarks([], Ordered(rows, id), [], Ordered(shuffled, id));
  }
}
