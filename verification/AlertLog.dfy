// The alert history's append-only log: its rows, the transition key, the gate that admits a
// reader's resolve, and `record`, the one writer every source goes through.
module AlertLog {
  import opened Wrappers
  import Calendar
  import Sorting

  datatype Kind = Pending | Condition | NoData | Error | Normal | UnknownState

  // What an instance's digest is taken over. The digest is injective on it.
  datatype Identity = Identity(store: string, rule: string, labels: map<string, string>)

  // What a transition's digest is taken over: the instance, the state in lower case and
  // trimmed, and the second it began. The kind is not part of it.
  datatype Key = Key(identity: Identity, word: string, at: nat)

  // A second written with four digits of year. Calendar.IsoOrderIff proves that comparing texts
  // compares seconds exactly up to there, so a row's second stands for its text.
  type Second = t: nat | t < Calendar.PAST_LAST

  // A transition.
  datatype Row = Row(identity: Identity, word: string, at: Second, to: Kind, networks: seq<string>) {
    function TransitionKey(): Key { Key(identity, word, at) }
    function When(): Mark { Mark(at, to == Normal) }
  }

  // A row as a source hands it over. The flag is popped before the row is kept.
  datatype Arrival = Arrival(row: Row, requiresOpen: bool)

  // Grafana's order of one instance's states: by second, a resolve after the state it ends.
  datatype Mark = Mark(at: nat, normal: bool) {
    function Rank(): int { 2 * at + if normal then 1 else 0 }
  }

  datatype ArchiveName = ArchiveName(network: string, first: nat, last: nat, count: nat)

  datatype Entry =
    | Transition(row: Row)
    | Moved(keys: seq<Key>, archived: ArchiveName)

  function RankOf(a: Arrival): real { a.row.When().Rank() as real }

  function Keys(log: seq<Entry>): set<Key> {
    set i | 0 <= i < |log| && log[i].Transition? :: log[i].row.TransitionKey()
  }

  predicate IsRowOf(e: Entry, id: Identity) { e.Transition? && e.row.identity == id }

  // An instance's latest recorded state, in Grafana's order and not in the order recorded.
  function Latest(log: seq<Entry>, id: Identity): (m: Option<Mark>)
    ensures m.None? <==> forall i :: 0 <= i < |log| ==> !IsRowOf(log[i], id)
    ensures forall i :: 0 <= i < |log| && IsRowOf(log[i], id) ==> log[i].row.When().Rank() <= m.value.Rank()
    ensures m.Some? ==> exists i :: 0 <= i < |log| && IsRowOf(log[i], id) && log[i].row.When() == m.value
  {
    if log == [] then None
    else
      var e, before := log[|log| - 1], Latest(log[..|log| - 1], id);
      assert before.Some? ==>
          exists i :: 0 <= i < |log| && IsRowOf(log[i], id) && log[i].row.When() == before.value by {
        if before.Some? {
          var i :| 0 <= i < |log| - 1 && IsRowOf(log[..|log| - 1][i], id)
                   && log[..|log| - 1][i].row.When() == before.value;
          assert IsRowOf(log[i], id) && log[i].row.When() == before.value;
        }
      }
      assert forall i :: 0 <= i < |log| - 1 ==> log[i] == log[..|log| - 1][i];
      if IsRowOf(e, id) && (before.None? || e.row.When().Rank() >= before.value.Rank())
      then Some(e.row.When())
      else before
  }

  // The gate: a resolve is kept only after a recorded state it can end.
  predicate Admits(log: seq<Entry>, row: Row) {
    var last := Latest(log, row.identity);
    last.Some? && !last.value.normal && last.value.at <= row.at
  }

  predicate Held(log: seq<Entry>, a: Arrival) { a.row.TransitionKey() in Keys(log) }

  predicate Unopened(log: seq<Entry>, a: Arrival) {
    !Held(log, a) && a.requiresOpen && !Admits(log, a.row)
  }

  // One arrival: held, refused as unopened, or appended.
  function Take(log: seq<Entry>, a: Arrival): seq<Entry> {
    if Held(log, a) || Unopened(log, a) then log else log + [Transition(a.row)]
  }

  function TakeAll(log: seq<Entry>, batch: seq<Arrival>): seq<Entry> {
    if batch == [] then log else Take(TakeAll(log, batch[..|batch| - 1]), batch[|batch| - 1])
  }

  function InOrder(batch: seq<Arrival>): seq<Arrival> { Sorting.Sort(batch, RankOf) }

  // What `record` leaves when nothing fails.
  function Recorded(log: seq<Entry>, batch: seq<Arrival>): seq<Entry> { TakeAll(log, InOrder(batch)) }

  datatype Outcome = Outcome(ok: bool, added: nat, held: nat, unopened: nat)

  // The store and its one writer, which holds the store's lock from the read to the last append.
  class Store {
    var log: seq<Entry>

    constructor ()
      ensures log == []
    {
      log := [];
    }

    // `appends` is how many rows the store keeps before an append raises.
    method Record(batch: seq<Arrival>, readable: bool, appends: nat) returns (out: Outcome, ghost done: nat)
      modifies this
      ensures done <= |batch| == |InOrder(batch)|
      ensures log == TakeAll(old(log), InOrder(batch)[..done])
      ensures out.added == |log| - |old(log)| <= appends
      ensures out.added + out.held + out.unopened == done
      ensures out.held == HeldIn(old(log), InOrder(batch)[..done])
      ensures out.ok ==> done == |batch| && log == Recorded(old(log), batch)
      ensures !readable ==> !out.ok && log == old(log)
      ensures readable && !out.ok ==> out.added == appends && done < |batch|
    {
      Sorting.SortSorts(batch, RankOf);
      done := 0;
      if !readable {
        return Outcome(false, 0, 0, 0), 0;
      }
      var keys, last := ReadState(log);
      var rows := InOrder(batch);
      var added, held, unopened := 0, 0, 0;
      for i := 0 to |rows|
        invariant done == i == added + held + unopened
        invariant held == HeldIn(old(log), rows[..i])
        invariant log == TakeAll(old(log), rows[..i])
        invariant |log| == |old(log)| + added && added <= appends
        invariant Tracks(log, keys, last)
      {
        var a := rows[i];
        TakesNext(old(log), rows, i);
        HeldNext(old(log), rows, i);
        TracksDecides(log, keys, last, a);
        if a.row.TransitionKey() in keys {
          held, done := held + 1, done + 1;
          continue;
        }
        if a.requiresOpen {
          if a.row.identity !in last || last[a.row.identity].normal || last[a.row.identity].at > a.row.at {
            unopened, done := unopened + 1, done + 1;
            continue;
          }
        }
        if added == appends {
          return Outcome(false, added, held, unopened), done;
        }
        NoteTracks(log, keys, last, a.row);
        log := log + [Transition(a.row)];
        keys := keys + {a.row.TransitionKey()};
        last := Note(last, a.row);
        added, done := added + 1, done + 1;
      }
      assert rows[..|rows|] == rows;
      return Outcome(true, added, held, unopened), done;
    }
  }

  // How many of some rows, taken in turn, the log held already when their turn came.
  function HeldIn(log: seq<Entry>, rows: seq<Arrival>): nat {
    if rows == [] then 0
    else
      var init, last := rows[..|rows| - 1], rows[|rows| - 1];
      HeldIn(log, init) + if IsRecorded(TakeAll(log, init), last.row) then 1 else 0
  }

  // ------------------------------------------------------------------ the gate in the rows' own terms

  // A transition of this instance, in this state and of this second, is in the log.
  predicate IsRecorded(log: seq<Entry>, row: Row) {
    exists i :: 0 <= i < |log| && log[i].Transition?
      && log[i].row.identity == row.identity && log[i].row.word == row.word && log[i].row.at == row.at
  }

  // The instance's last row, by its second and a resolve after the state it ends, is a state no later
  // than this.
  predicate LastIsState(log: seq<Entry>, id: Identity, at: nat) {
    exists i :: 0 <= i < |log| && log[i].Transition? && log[i].row.identity == id && log[i].row.to != Normal
      && log[i].row.at <= at
      && forall j :: 0 <= j < |log| && log[j].Transition? && log[j].row.identity == id ==>
           log[j].row.at < log[i].row.at || (log[j].row.at == log[i].row.at && log[j].row.to != Normal)
  }

  lemma {:induction false} HeldIff(log: seq<Entry>, a: Arrival)
    ensures Held(log, a) <==> IsRecorded(log, a.row)
  {
  }

  lemma {:induction false} AdmitsIff(log: seq<Entry>, row: Row)
    ensures Admits(log, row) <==> LastIsState(log, row.identity, row.at)
  {
    var last := Latest(log, row.identity);
    if Admits(log, row) {
      var i :| 0 <= i < |log| && IsRowOf(log[i], row.identity) && log[i].row.When() == last.value;
      assert log[i].row.to != Normal && log[i].row.at <= row.at;
      assert forall j :: 0 <= j < |log| && IsRowOf(log[j], row.identity) ==>
        log[j].row.When().Rank() <= log[i].row.When().Rank();
    }
    if LastIsState(log, row.identity, row.at) {
      var i :| 0 <= i < |log| && log[i].Transition? && log[i].row.identity == row.identity && log[i].row.to != Normal
        && log[i].row.at <= row.at
        && forall j :: 0 <= j < |log| && log[j].Transition? && log[j].row.identity == row.identity ==>
             log[j].row.at < log[i].row.at || (log[j].row.at == log[i].row.at && log[j].row.to != Normal);
      assert IsRowOf(log[i], row.identity);
      var k :| 0 <= k < |log| && IsRowOf(log[k], row.identity) && log[k].row.When() == last.value;
    }
  }

  // What becomes of one row, flag and all: it is kept unless its transition is recorded already, or it
  // is flagged and the last row of its instance is no state it can end.
  lemma {:induction false} TakeIs(log: seq<Entry>, a: Arrival)
    ensures Take(log, a)
         == if IsRecorded(log, a.row) || (a.requiresOpen && !LastIsState(log, a.row.identity, a.row.at)) then log
            else log + [Transition(a.row)]
  {
    HeldIff(log, a);
    AdmitsIff(log, a.row);
  }

  // A batch is taken by second, of one second the states before the resolves, and otherwise as it came.
  lemma {:induction false} InOrderIs(batch: seq<Arrival>)
    ensures multiset(InOrder(batch)) == multiset(batch)
    ensures forall i, j :: 0 <= i < j < |InOrder(batch)| ==>
              var r, s := InOrder(batch)[i].row, InOrder(batch)[j].row;
              r.at < s.at || (r.at == s.at && (r.to == Normal ==> s.to == Normal))
  {
    Sorting.SortSorts(batch, RankOf);
    forall i, j | 0 <= i < j < |InOrder(batch)| ensures RankOf(InOrder(batch)[i]) <= RankOf(InOrder(batch)[j]) {
    }
  }

  lemma {:induction false} TiesAsTheyCame(batch: seq<Arrival>, i: nat, j: nat) returns (p: nat, q: nat)
    requires i < j < |batch| && batch[i].row.at == batch[j].row.at
    requires batch[i].row.to == Normal <==> batch[j].row.to == Normal
    ensures p < q < |InOrder(batch)| && InOrder(batch)[p] == batch[i] && InOrder(batch)[q] == batch[j]
  {
    p, q := Sorting.SortIsStable(batch, RankOf, i, j);
  }

  lemma {:induction false} HeldNext(log: seq<Entry>, rows: seq<Arrival>, i: nat)
    requires i < |rows|
    ensures HeldIn(log, rows[..i + 1])
         == HeldIn(log, rows[..i]) + if Held(TakeAll(log, rows[..i]), rows[i]) then 1 else 0
  {
    assert rows[..i + 1][..i] == rows[..i];
    HeldIff(TakeAll(log, rows[..i]), rows[i]);
  }

  lemma {:induction false} TakesNext(log: seq<Entry>, rows: seq<Arrival>, i: nat)
    requires i < |rows|
    ensures TakeAll(log, rows[..i + 1]) == Take(TakeAll(log, rows[..i]), rows[i])
  {
    assert rows[..i + 1][..i] == rows[..i];
  }

  function Note(last: map<Identity, Mark>, row: Row): map<Identity, Mark> {
    if row.identity in last && row.When().Rank() < last[row.identity].Rank() then last
    else last[row.identity := row.When()]
  }

  // The keys and the latest states `record` works from are those of the log.
  ghost predicate Tracks(log: seq<Entry>, keys: set<Key>, last: map<Identity, Mark>) {
    && keys == Keys(log)
    && forall id :: Latest(log, id) == if id in last then Some(last[id]) else None
  }

  // What `record` tests in its own keys and states is what the log says.
  lemma {:induction false} TracksDecides(log: seq<Entry>, keys: set<Key>, last: map<Identity, Mark>, a: Arrival)
    requires Tracks(log, keys, last)
    ensures a.row.TransitionKey() in keys <==> Held(log, a)
    ensures Admits(log, a.row)
       <==> a.row.identity in last && !last[a.row.identity].normal && last[a.row.identity].at <= a.row.at
  {
    assert Latest(log, a.row.identity) == if a.row.identity in last then Some(last[a.row.identity]) else None;
  }

  lemma {:induction false} NoteTracks(log: seq<Entry>, keys: set<Key>, last: map<Identity, Mark>, row: Row)
    requires Tracks(log, keys, last)
    ensures Tracks(log + [Transition(row)], keys + {row.TransitionKey()}, Note(last, row))
  {
    KeysSnoc(log, Transition(row));
    forall id ensures Latest(log + [Transition(row)], id)
                   == if id in Note(last, row) then Some(Note(last, row)[id]) else None {
      LatestSnoc(log, Transition(row), id);
    }
  }

  lemma {:induction false} LatestSnoc(log: seq<Entry>, e: Entry, id: Identity)
    ensures Latest(log + [e], id)
         == if IsRowOf(e, id) && (Latest(log, id).None? || e.row.When().Rank() >= Latest(log, id).value.Rank())
            then Some(e.row.When()) else Latest(log, id)
  {
    assert (log + [e])[..|log|] == log;
  }

  // The first pass of `record`: the keys held, and each instance's latest state, over the rows read.
  method ReadState(got: seq<Entry>) returns (keys: set<Key>, last: map<Identity, Mark>)
    ensures Tracks(got, keys, last)
  {
    keys, last := {}, map[];
    for i := 0 to |got|
      invariant Tracks(got[..i], keys, last)
    {
      assert got[..i + 1] == got[..i] + [got[i]];
      if got[i].Transition? {
        NoteTracks(got[..i], keys, last, got[i].row);
        keys := keys + {got[i].row.TransitionKey()};
        last := Note(last, got[i].row);
      } else {
        KeysSnoc(got[..i], got[i]);
        forall id ensures Latest(got[..i + 1], id) == Latest(got[..i], id) {
          LatestSnoc(got[..i], got[i], id);
        }
      }
    }
    assert got[..|got|] == got;
  }

  lemma {:induction false} KeysSnoc(log: seq<Entry>, e: Entry)
    ensures Keys(log + [e]) == Keys(log) + if e.Transition? then {e.row.TransitionKey()} else {}
  {
    var t := log + [e];
    forall k | k in Keys(log) ensures k in Keys(t) {
      var i :| 0 <= i < |log| && log[i].Transition? && log[i].row.TransitionKey() == k;
      assert t[i] == log[i];
    }
    if e.Transition? {
      assert t[|log|] == e;
    }
  }
}
