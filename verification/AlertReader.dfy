// The alerts reader's after-store step: it records a configuration's value unless the keys in
// it are the keys it recorded last.
module AlertReader {
  import opened AlertLog
  import opened AlertGate
  import Calendar
  import Sorting

  predicate OfStore(keys: set<Key>, name: string) {
    forall k :: k in keys ==> k.identity.store == name
  }

  lemma {:induction false} OthersUntouched(log: seq<Entry>, rows: seq<Arrival>, id: Identity)
    requires forall i :: 0 <= i < |rows| ==> rows[i].row.identity != id
    ensures Latest(TakeAll(log, rows), id) == Latest(log, id)
    ensures Keys(log) <= Keys(TakeAll(log, rows))
  {
    if rows != [] {
      var before := TakeAll(log, rows[..|rows| - 1]);
      OthersUntouched(log, rows[..|rows| - 1], id);
      LatestSnoc(before, Transition(rows[|rows| - 1].row), id);
      KeysSnoc(before, Transition(rows[|rows| - 1].row));
    }
  }

  // Recording one configuration spoils nothing of what is remembered of another.
  lemma {:induction false} OtherStoresRemembered(log: seq<Entry>, batch: seq<Arrival>, done: nat, name: string,
                                                 other: string, seen: set<Key>)
    requires OfStore(SeenKeys(batch), name) && OfStore(seen, other) && name != other
    requires done <= |InOrder(batch)| && Settles(log, seen)
    ensures Settles(TakeAll(log, InOrder(batch)[..done]), seen)
  {
    var rows := InOrder(batch)[..done];
    Sorting.SortKeeps(batch, RankOf);
    forall k | k in seen
      ensures k in Keys(TakeAll(log, rows)) || !AdmitsKey(TakeAll(log, rows), k)
      ensures k in Keys(log) ==> k in Keys(TakeAll(log, rows))
    {
      forall i | 0 <= i < |rows| ensures rows[i].row.identity != k.identity {
        assert rows[i] in InOrder(batch);
        assert rows[i] in batch;
        assert rows[i].row.TransitionKey() in SeenKeys(batch);
      }
      OthersUntouched(log, rows, k.identity);
    }
  }

  // One process's reader. The only writer of its store while its promises are read.
  class Reader {
    const store: Store
    var lastSeen: map<string, set<Key>>
    // The configurations whose last call of `record` did not fail part way.
    ghost var whole: set<string>

    ghost predicate Valid()
      reads this, store
    {
      forall name :: name in lastSeen ==>
        OfStore(lastSeen[name], name) && (name in whole ==> Settles(store.log, lastSeen[name]))
    }

    constructor (store: Store)
      ensures Valid() && this.store == store && lastSeen == map[] && whole == {}
    {
      this.store := store;
      lastSeen, whole := map[], {};
    }

    // `done` is how many of the ordered rows were judged before the store failed.
    method AfterRead(name: string, batch: seq<Arrival>, readable: bool, appends: nat)
        returns (added: nat, skipped: bool, ghost done: nat)
      requires Valid() && FlagsOnlyResolves(batch) && FlagsByWord(batch) && OfStore(SeenKeys(batch), name)
      modifies this, store
      ensures Valid()
      ensures skipped <==> name in old(lastSeen) && old(lastSeen)[name] == SeenKeys(batch)
      ensures skipped ==> store.log == old(store.log) && lastSeen == old(lastSeen) && whole == old(whole) && added == 0
      // After a call that judged all of its value, a skip loses nothing; after one that failed part
      // way, exactly when each row is held or would be refused.
      ensures skipped && name in old(whole) ==> store.log == Recorded(old(store.log), batch)
      ensures skipped ==>
                (store.log == Recorded(old(store.log), batch)
                 <==> forall i :: 0 <= i < |batch| ==> Settled(old(store.log), batch[i]))
      // What is not skipped is recorded, and remembered only when all of it was judged.
      ensures !skipped ==> |old(store.log)| <= |store.log| <= |old(store.log)| + appends
      ensures !skipped ==> done <= |InOrder(batch)| && store.log == TakeAll(old(store.log), InOrder(batch)[..done])
      ensures !skipped && name in whole ==>
                store.log == Recorded(old(store.log), batch) && lastSeen == old(lastSeen)[name := SeenKeys(batch)]
                && added == |store.log| - |old(store.log)|
      ensures !skipped && name !in whole ==> lastSeen == old(lastSeen) && added == 0
      ensures !skipped && name !in whole && readable ==> done < |batch| && |store.log| == |old(store.log)| + appends
      ensures readable && !skipped && |store.log| < |old(store.log)| + appends ==> name in whole
    {
      added, done := 0, 0;
      var seen := SeenKeys(batch);
      skipped := name in lastSeen && lastSeen[name] == seen;
      if skipped {
        NeedlessIffSettled(store.log, batch);
        if name in whole {
          SkipLosesNothing(store.log, seen, batch);
        }
        return;
      }
      ghost var before := store.log;
      var out;
      out, done := store.Record(batch, readable, appends);
      TakeAllGrows(before, InOrder(batch)[..done]);
      forall other | other in lastSeen && other in whole && other != name
        ensures Settles(store.log, lastSeen[other])
      {
        OtherStoresRemembered(before, batch, done, name, other, lastSeen[other]);
      }
      if out.ok {
        RecordingSettles(before, batch);
        lastSeen := lastSeen[name := seen];
        whole := whole + {name};
        added := out.added;
      } else {
        whole := whole - {name};
      }
    }
  }

  // ------------------------------------------------------------------ a memo left behind

  // An instance the Alertmanager still holds, from the first second of 2000, and the same one read
  // as normal five seconds later.
  function StillHeld(id: Identity): Arrival {
    Arrival(Row(id, "alertmanager: active", Calendar.FIRST_SECOND, Condition, []), false)
  }

  function ReadNormal(id: Identity): Arrival {
    Arrival(Row(id, "normal", Calendar.FIRST_SECOND + 5, Normal, []), true)
  }

  lemma {:induction false} BothInOrder(id: Identity)
    ensures InOrder([StillHeld(id), ReadNormal(id)]) == [StillHeld(id), ReadNormal(id)]
    ensures InOrder([ReadNormal(id)]) == [ReadNormal(id)]
  {
    Sorting.SortOfSorted([StillHeld(id), ReadNormal(id)], RankOf);
    Sorting.SortOfSorted([ReadNormal(id)], RankOf);
  }

  lemma {:induction false} ResolveAfterState(id: Identity)
    ensures var log := [Transition(StillHeld(id).row)];
            TakeAll([], [StillHeld(id)]) == log && TakeAll([], [ReadNormal(id)]) == []
            && TakeAll(log, [ReadNormal(id)]) == log + [Transition(ReadNormal(id).row)]
  {
    var held := StillHeld(id);
    TakesAlone([], held);
    TakesAlone([], ReadNormal(id));
    KeysSnoc([], Transition(held.row));
    LatestSnoc([], Transition(held.row), id);
    assert [] + [Transition(held.row)] == [Transition(held.row)];
    TakesAlone([Transition(held.row)], ReadNormal(id));
  }

  function Alone(id: Identity): seq<Arrival> { [ReadNormal(id)] }

  function Both(id: Identity): seq<Arrival> { [StillHeld(id), ReadNormal(id)] }

  lemma {:induction false} AsTheReaderFlags(id: Identity)
    ensures FlagsByWord(Alone(id)) && FlagsByWord(Both(id)) && FlagsOnlyResolves(Alone(id))
              && FlagsOnlyResolves(Both(id))
    ensures OfStore(SeenKeys(Alone(id)), id.store) && OfStore(SeenKeys(Both(id)), id.store)
    ensures SeenKeys(Both(id)) != SeenKeys(Alone(id))
  {
    assert "alertmanager: active"[0] == 'a' && "normal"[0] == 'n';
    assert Both(id)[0].row.TransitionKey() in SeenKeys(Both(id));
    assert forall k :: k in SeenKeys(Alone(id)) ==> k.word == "normal";
  }

  lemma {:induction false} BothRecorded(id: Identity)
    ensures TakeAll([], InOrder(Both(id))[..0]) == []
    ensures TakeAll([], InOrder(Both(id))[..1]) == [Transition(StillHeld(id).row)]
    ensures Recorded([], Both(id)) == [Transition(StillHeld(id).row), Transition(ReadNormal(id).row)]
  {
    BothInOrder(id);
    ResolveAfterState(id);
    assert Both(id)[..1] == [StillHeld(id)];
    TakesNext([], Both(id), 1);
    TakesAlone([Transition(StillHeld(id).row)], ReadNormal(id));
    assert Both(id)[..2] == Both(id);
  }

  // Three values: the resolve alone, then with the state it ends, then alone again. The first is
  // refused whole and remembered. Of the second one row is kept before the store fails, so the first
  // stays remembered. The third has the first one's keys, and is skipped although recording it would
  // by now add the resolve.
  lemma {:induction false} StaleAfterAFailedCall(id: Identity)
    ensures FlagsByWord(Alone(id)) && FlagsByWord(Both(id)) && FlagsOnlyResolves(Alone(id))
              && FlagsOnlyResolves(Both(id))
    ensures SeenKeys(Both(id)) != SeenKeys(Alone(id))
    ensures Recorded([], Alone(id)) == []
    ensures TakeAll([], InOrder(Both(id))[..1]) == [Transition(StillHeld(id).row)]
    ensures Recorded([Transition(StillHeld(id).row)], Alone(id))
         == [Transition(StillHeld(id).row), Transition(ReadNormal(id).row)]
  {
    AsTheReaderFlags(id);
    BothInOrder(id);
    BothRecorded(id);
    ResolveAfterState(id);
  }

  // The three calls of the reader, as they run.
  method StaleRun(id: Identity) returns (reader: Reader, skipped: bool)
    ensures skipped && reader.store.log != Recorded(reader.store.log, Alone(id))
  {
    var store := new Store();
    reader := new Reader(store);
    AsTheReaderFlags(id);
    StaleAfterAFailedCall(id);
    BothRecorded(id);
    BothInOrder(id);
    var added;
    ghost var done;
    added, skipped, done := reader.AfterRead(id.store, Alone(id), true, 1);
    assert store.log == [];
    added, skipped, done := reader.AfterRead(id.store, Both(id), true, 1);
    assert done == 1 && store.log == [Transition(StillHeld(id).row)];
    added, skipped, done := reader.AfterRead(id.store, Alone(id), true, 1);
  }
}
