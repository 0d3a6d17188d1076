// The alerts reader's after-store step for the rule log: each configuration's definitions are
// judged against the log unless they are the ones this process judged last.
module RuleReader {
  import opened Wrappers
  import opened RuleLog

  // A configuration's last good value: without definitions, with some of them, or with all.
  datatype Value = NoDefinitions | Partial | Complete(defs: Definitions)

  // What a cut-short read kept is what judging the first of its rules gives.
  lemma {:induction false} CutAtARule(held: map<string, Row>, store: string, defs: Definitions, uids: seq<string>,
                                      k: nat)
      returns (m: nat)
    requires k <= |Verdicts(held, store, defs, uids)|
    ensures m <= |uids| && Verdicts(held, store, defs, uids)[..k] == Verdicts(held, store, defs, uids[..m])
  {
    var all := Verdicts(held, store, defs, uids);
    if k == |all| {
      m := |uids|;
      assert uids[..m] == uids && all[..k] == all;
    } else {
      var init := uids[..|uids| - 1];
      m := CutAtARule(held, store, defs, init, k);
      assert all[..k] == Verdicts(held, store, defs, init)[..k];
      assert uids[..m] == init[..m];
    }
  }

  // A read that failed part way changes what the log says of its store exactly when it kept a row.
  lemma {:induction false} FailedReadMovesIffKept(rows: seq<Row>, r: Read)
    requires Honest(rows) && IsRead(rows, r)
    ensures Known(rows + RowsFor(rows, r)[..r.kept], r.store) == Known(rows, r.store) <==> r.kept == 0
  {
    var held, uids := Latest(rows, r.store), r.listed + r.gone;
    var kept := RowsFor(rows, r)[..r.kept];
    if r.kept == 0 {
      assert rows + kept == rows;
    } else {
      TakenOnce(r.listed, r.gone, r.defs.Keys, held.Keys);
      var m := CutAtARule(held, r.store, r.defs, uids, r.kept);
      NoVerdictsIff(held, r.store, r.defs, uids[..m]);
      var u :| u in uids[..m] && Verdict(held, r.store, r.defs, u) != [];
      OneMoves(rows, r, uids[..m], u);
    }
  }

  lemma {:induction false} OneMoves(rows: seq<Row>, r: Read, some: seq<string>, u: string)
    requires Honest(rows) && "" !in r.defs && Once(some) && u in some
    requires Verdict(Latest(rows, r.store), r.store, r.defs, u) != []
    ensures Known(rows + Verdicts(Latest(rows, r.store), r.store, r.defs, some), r.store) != Known(rows, r.store)
  {
    var held := Latest(rows, r.store);
    var after := rows + Verdicts(held, r.store, r.defs, some);
    VerdictsLatest(rows, r.store, r.defs, some, u);
    VerdictFollows(rows, held, r.store, r.defs, u);
    NoVerdictIffSame(rows, r.store, r.defs, u);
    assert SameOf(Known(after, r.store), r.defs, u);
    assert !SameOf(Known(rows, r.store), r.defs, u);
  }

  // One process's reader, the only writer of its log while its promises are read.
  class Reader {
    const log: Log
    var lastSeen: map<string, Definitions>
    // The configurations whose last call of `record` did not fail.
    ghost var whole: set<string>

    ghost predicate Valid()
      reads this, log
    {
      && Honest(log.rows)
      && forall name :: name in lastSeen && name in whole ==> Known(log.rows, name) == lastSeen[name]
    }

    constructor (log: Log)
      requires Honest(log.rows)
      ensures Valid() && this.log == log && lastSeen == map[] && whole == {}
    {
      this.log := log;
      lastSeen, whole := map[], {};
    }

    // `kept` is how many of the rows the read calls for the log kept.
    method AfterRead(name: string, value: Value, listed: seq<string>, gone: seq<string>, readable: bool, appends: nat)
        returns (added: nat, skipped: bool, ghost kept: nat)
      requires Valid()
      requires value.Complete? ==> "" !in value.defs && Lists(listed, value.defs.Keys)
                                   && Lists(gone, Latest(log.rows, name).Keys - value.defs.Keys)
      modifies this, log
      ensures Valid()
      // A partial value, and one without definitions, is never judged.
      ensures !value.Complete? ==> log.rows == old(log.rows) && lastSeen == old(lastSeen) && added == 0
      ensures skipped <==> value.Complete? && name in old(lastSeen) && old(lastSeen)[name] == value.defs
      ensures skipped ==> log.rows == old(log.rows) && lastSeen == old(lastSeen) && whole == old(whole) && added == 0
      // At a skip the log says these definitions exactly when recording them would add no row; after a
      // call that judged all of them, it does.
      ensures skipped ==> (Known(log.rows, name) == value.defs
                           <==> Verdicts(Latest(old(log.rows), name), name, value.defs, listed + gone) == [])
      ensures value.Complete? && name in whole ==> Known(log.rows, name) == value.defs
      // What is not skipped is recorded, and remembered only when all of it was.
      ensures value.Complete? && !skipped ==>
                var owed := Verdicts(Latest(old(log.rows), name), name, value.defs, listed + gone);
                kept <= |owed| && kept <= appends && log.rows == old(log.rows) + owed[..kept]
                && if name in whole then lastSeen == old(lastSeen)[name := value.defs] && added == kept == |owed|
                   else lastSeen == old(lastSeen) && added == 0
                        && kept == (if readable then appends else 0) && (readable ==> kept < |owed|)
      // What the log says of the other configurations never moves.
      ensures forall other :: other != name ==> Known(log.rows, other) == Known(old(log.rows), other)
      ensures old(log.rows) <= log.rows
    {
      added, skipped, kept := 0, false, 0;
      if !value.Complete? {
        return;
      }
      if name in lastSeen && lastSeen[name] == value.defs {
        AddsNothingIffKnown(log.rows, name, value.defs, listed, gone);
        skipped := true;
        return;
      }
      ghost var before := log.rows;
      var ok, n := log.Record(name, value.defs, listed, gone, readable, appends);
      kept := n;
      ghost var r := Read(name, value.defs, listed, gone, n);
      assert log.rows == before + RowsFor(before, r)[..n];
      ReadKeepsHonest(before, r);
      forall other | other != name ensures Known(log.rows, other) == Known(before, other) {
        OtherStoresKept(before, r, other);
      }
      if ok {
        assert RowsFor(before, r)[..n] == RowsFor(before, r);
        WholeReadIsKnown(before, name, value.defs, listed, gone);
        lastSeen := lastSeen[name := value.defs];
        whole := whole + {name};
        added := n;
      } else {
        whole := whole - {name};
      }
    }
  }

  const GRAFANA := "grafana"

  function FirstRead(u: string, a: State): Read { Read(GRAFANA, map[u := a], [u], [], 1) }

  function CutRead(u: string, v: string, b: State): Read { Read(GRAFANA, map[u := b, v := b], [u, v], [], 1) }

  function BaselineOf(u: string, a: State): Row { Row(GRAFANA, u, Baseline, None, Some(a)) }

  lemma {:induction false} FirstReadKeepsOne(u: string, a: State)
    requires u != ""
    ensures RowsFor([], FirstRead(u, a)) == [BaselineOf(u, a)]
    ensures IsRead([], FirstRead(u, a)) && Whole([], FirstRead(u, a))
  {
    var held: map<string, Row> := map[];
    var defs := FirstRead(u, a).defs;
    VerdictsSnoc(held, GRAFANA, defs, [], u);
    assert [] + [u] == [u] && [u] + [] == [u];
    assert Judged(held, GRAFANA, u, a) == [BaselineOf(u, a)];
  }

  lemma {:induction false} OneIsHonest(u: string, a: State)
    requires u != ""
    ensures Honest([BaselineOf(u, a)]) && Latest([BaselineOf(u, a)], GRAFANA) == map[u := BaselineOf(u, a)]
  {
    assert [] + [BaselineOf(u, a)] == [BaselineOf(u, a)];
    assert Honest([]);
    LatestSnoc([], BaselineOf(u, a), GRAFANA);
  }

  lemma {:induction false} CutReadOwesTwo(u: string, v: string, a: State, b: State)
    requires u != "" && v != "" && u != v && a != b
    ensures IsRead([BaselineOf(u, a)], CutRead(u, v, b))
    ensures var owed := RowsFor([BaselineOf(u, a)], CutRead(u, v, b));
            |owed| == 2 && owed[0].uid == u && owed[0].store == GRAFANA
  {
    OneIsHonest(u, a);
    var held, defs := map[u := BaselineOf(u, a)], CutRead(u, v, b).defs;
    VerdictsSnoc(held, GRAFANA, defs, [], u);
    VerdictsSnoc(held, GRAFANA, defs, [u], v);
    assert [] + [u] == [u] && [u] + [v] == [u, v] && [u, v] + [] == [u, v];
    assert |Verdict(held, GRAFANA, defs, u)| == 1 && |Verdict(held, GRAFANA, defs, v)| == 1;
  }

  // What the memo then skips the log does not say. One rule is known at state `a`; a read that finds it
  // and another at `b` keeps one row and fails; and the log no longer says the first definitions.
  lemma {:induction false} StaleAfterAFailedRead(u: string, v: string, a: State, b: State)
    requires u != "" && v != "" && u != v && a != b
    ensures var first, cut := FirstRead(u, a), CutRead(u, v, b);
            var log := RowsFor([], first);
            && IsRead([], first) && Whole([], first) && IsRead(log, cut) && !Whole(log, cut)
            && Known(log, GRAFANA) == first.defs
            && Known(log + RowsFor(log, cut)[..1], GRAFANA) != first.defs
            && Latest(log + RowsFor(log, cut)[..1], GRAFANA).Keys == {u}
  {
    FirstReadKeepsOne(u, a);
    OneIsHonest(u, a);
    CutReadOwesTwo(u, v, a, b);
    FailedReadMovesIffKept([BaselineOf(u, a)], CutRead(u, v, b));
    assert Known([BaselineOf(u, a)], GRAFANA) == map[u := a];
    CutReadKeepsOne(u, v, a, b);
  }

  lemma {:induction false} CutReadKeepsOne(u: string, v: string, a: State, b: State)
    requires u != "" && v != "" && u != v && a != b
    ensures var log := [BaselineOf(u, a)];
            var owed := RowsFor(log, CutRead(u, v, b));
            |owed| == 2 && Latest(log + owed[..1], GRAFANA).Keys == {u}
  {
    OneIsHonest(u, a);
    CutReadOwesTwo(u, v, a, b);
    var log, owed := [BaselineOf(u, a)], RowsFor([BaselineOf(u, a)], CutRead(u, v, b));
    assert owed[..1] == [owed[0]];
    LatestSnoc(log, owed[0], GRAFANA);
  }

  // The three reads on the reader itself: the first definitions again are skipped, and the log says
  // otherwise.
  method StaleRun(u: string, v: string, a: State, b: State) returns (reader: Reader, skipped: bool)
    requires u != "" && v != "" && u != v && a != b
    ensures skipped && Known(reader.log.rows, GRAFANA) != map[u := a]
  {
    var log := new Log();
    reader := new Reader(log);
    StaleAfterAFailedRead(u, v, a, b);
    FirstReadKeepsOne(u, a);
    CutReadOwesTwo(u, v, a, b);
    OneIsHonest(u, a);
    var first, cut := FirstRead(u, a), CutRead(u, v, b);
    var added;
    ghost var kept;
    added, skipped, kept := reader.AfterRead(GRAFANA, Complete(first.defs), [u], [], true, 1);
    assert log.rows == [BaselineOf(u, a)];
    added, skipped, kept := reader.AfterRead(GRAFANA, Complete(cut.defs), [u, v], [], true, 1);
    assert kept == 1 && log.rows == [BaselineOf(u, a)] + RowsFor([BaselineOf(u, a)], cut)[..1];
    added, skipped, kept := reader.AfterRead(GRAFANA, Complete(first.defs), [u], [], true, 1);
  }
}
