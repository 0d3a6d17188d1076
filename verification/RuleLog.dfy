// The alert rule log: every change of a rule's definition as an appended row, judged against what
// replaying the log says was last known.
module RuleLog {
  import opened Wrappers

  // A rule's version (none when the ruler gave none) and the hash of its definition.
  datatype State = State(version: Option<int>, hash: string)

  datatype Change = Baseline | Added | Changed | Removed

  // A row: the rule, what happened to it, and the state it left and came to. A removed rule
  // comes to none, and a first or an added one leaves none.
  datatype Row = Row(store: string, uid: string, change: Change, before: Option<State>, after: Option<State>)

  type Definitions = map<string, State>

  // ------------------------------------------------------------------ replaying

  // Each rule's newest row for a store.
  function Latest(rows: seq<Row>, store: string): map<string, Row> {
    if rows == [] then map[]
    else
      var r := rows[|rows| - 1];
      if r.store == store && r.uid != "" then Latest(rows[..|rows| - 1], store)[r.uid := r]
      else Latest(rows[..|rows| - 1], store)
  }

  method Replay(rows: seq<Row>, store: string) returns (out: map<string, Row>)
    ensures out == Latest(rows, store)
  {
    out := map[];
    for i := 0 to |rows|
      invariant out == Latest(rows[..i], store)
    {
      assert rows[..i + 1][..i] == rows[..i];
      if rows[i].store == store && rows[i].uid != "" {
        out := out[rows[i].uid := rows[i]];
      }
    }
    assert rows[..|rows|] == rows;
  }

  // What the log says a store's rules are: those whose newest row is not a removal.
  function Known(rows: seq<Row>, store: string): Definitions {
    var last := Latest(rows, store);
    map uid | uid in last && last[uid].after.Some? :: last[uid].after.value
  }

  // ------------------------------------------------------------------ judging

  function Judged(held: map<string, Row>, store: string, uid: string, cur: State): seq<Row> {
    if held == map[] then [Row(store, uid, Baseline, None, Some(cur))]
    else if uid !in held || held[uid].change == Removed then [Row(store, uid, Added, None, Some(cur))]
    else if held[uid].after == Some(cur) then []
    else [Row(store, uid, Changed, held[uid].after, Some(cur))]
  }

  function Gone(held: map<string, Row>, store: string, uid: string): seq<Row>
    requires uid in held
  {
    if held[uid].change == Removed then [] else [Row(store, uid, Removed, held[uid].after, None)]
  }

  // What a read says of one rule, listed or no more.
  function Verdict(held: map<string, Row>, store: string, defs: Definitions, uid: string): seq<Row> {
    if uid in defs then Judged(held, store, uid, defs[uid])
    else if uid in held then Gone(held, store, uid)
    else []
  }

  // The rows a read adds, over the rules in the order they are taken.
  function Verdicts(held: map<string, Row>, store: string, defs: Definitions, uids: seq<string>): seq<Row> {
    if uids == [] then []
    else Verdicts(held, store, defs, uids[..|uids| - 1]) + Verdict(held, store, defs, uids[|uids| - 1])
  }

  // A listing of a set of ids, each once: `sorted` gives one, and nothing here rests on which.
  ghost predicate Lists(uids: seq<string>, ids: set<string>) {
    && (forall i, j :: 0 <= i < j < |uids| ==> uids[i] != uids[j])
    && (forall id :: id in uids <==> id in ids)
  }

  lemma {:induction false} VerdictsSnoc(held: map<string, Row>, store: string, defs: Definitions, uids: seq<string>,
                                        u: string)
    ensures Verdicts(held, store, defs, uids + [u]) == Verdicts(held, store, defs, uids) + Verdict(held, store, defs, u)
  {
    assert (uids + [u])[..|uids|] == uids;
  }

  method JudgeListed(held: map<string, Row>, store: string, defs: Definitions, listed: seq<string>)
      returns (out: seq<Row>)
    requires forall i :: 0 <= i < |listed| ==> listed[i] in defs
    ensures out == Verdicts(held, store, defs, listed)
  {
    out := [];
    for i := 0 to |listed|
      invariant out == Verdicts(held, store, defs, listed[..i])
    {
      assert listed[..i + 1] == listed[..i] + [listed[i]];
      VerdictsSnoc(held, store, defs, listed[..i], listed[i]);
      out := out + Judged(held, store, listed[i], defs[listed[i]]);
    }
    assert listed[..|listed|] == listed;
  }

  lemma {:induction false} GoneNext(held: map<string, Row>, store: string, defs: Definitions, listed: seq<string>,
                                    gone: seq<string>, i: nat)
    requires i < |gone| && gone[i] in held && gone[i] !in defs
    ensures Verdicts(held, store, defs, listed + gone[..i + 1])
         == Verdicts(held, store, defs, listed + gone[..i]) + Gone(held, store, gone[i])
  {
    assert listed + gone[..i + 1] == listed + gone[..i] + [gone[i]];
    VerdictsSnoc(held, store, defs, listed + gone[..i], gone[i]);
  }

  method JudgeGone(held: map<string, Row>, store: string, defs: Definitions, listed: seq<string>, gone: seq<string>,
                   judged: seq<Row>) returns (out: seq<Row>)
    requires forall i :: 0 <= i < |gone| ==> gone[i] in held && gone[i] !in defs
    requires judged == Verdicts(held, store, defs, listed)
    ensures out == Verdicts(held, store, defs, listed + gone)
  {
    out := judged;
    assert listed + gone[..0] == listed;
    for i := 0 to |gone|
      invariant out == Verdicts(held, store, defs, listed + gone[..i])
    {
      GoneNext(held, store, defs, listed, gone, i);
      out := out + Gone(held, store, gone[i]);
    }
    assert gone[..|gone|] == gone;
  }

  // `changes`: the listed rules first, then, unless nothing was held, the ones listed no more.
  method Changes(held: map<string, Row>, store: string, defs: Definitions, listed: seq<string>, gone: seq<string>)
      returns (out: seq<Row>)
    requires Lists(listed, defs.Keys) && Lists(gone, held.Keys - defs.Keys)
    ensures out == Verdicts(held, store, defs, listed + gone)
  {
    assert forall i :: 0 <= i < |listed| ==> listed[i] in listed;
    assert forall i :: 0 <= i < |gone| ==> gone[i] in gone;
    assert gone != [] ==> gone[0] in held;
    out := JudgeListed(held, store, defs, listed);
    if held == map[] {
      assert listed + gone == listed;
      return;
    }
    out := JudgeGone(held, store, defs, listed, gone, out);
  }

  // The log and its writer, which holds the log's lock from the read to the last append.
  class Log {
    var rows: seq<Row>

    constructor ()
      ensures rows == []
    {
      rows := [];
    }

    // `appends` is how many rows the log keeps before an append raises.
    method Record(store: string, defs: Definitions, listed: seq<string>, gone: seq<string>, readable: bool,
                  appends: nat)
        returns (ok: bool, added: nat)
      requires Lists(listed, defs.Keys) && Lists(gone, Latest(rows, store).Keys - defs.Keys)
      modifies this
      ensures added <= |Verdicts(Latest(old(rows), store), store, defs, listed + gone)|
      ensures rows == old(rows) + Verdicts(Latest(old(rows), store), store, defs, listed + gone)[..added]
      ensures ok ==> added == |Verdicts(Latest(old(rows), store), store, defs, listed + gone)|
      ensures added <= appends && (!ok ==> added == if readable then appends else 0)
      ensures !ok && readable ==> added < |Verdicts(Latest(old(rows), store), store, defs, listed + gone)|
    {
      added := 0;
      if !readable {
        return false, 0;
      }
      var held := Replay(rows, store);
      var out := Changes(held, store, defs, listed, gone);
      while added < |out|
        invariant added <= |out| && added <= appends
        invariant rows == old(rows) + out[..added]
      {
        if added == appends {
          return false, added;
        }
        rows := rows + [out[added]];
        added := added + 1;
      }
      return true, added;
    }
  }

  // ------------------------------------------------------------------ what every row follows from

  // A row follows what was held of its rule: first seen or added, then changed or removed from
  // the state the row before came to, then added again.
  ghost predicate Follows(held: map<string, Row>, r: Row) {
    && r.uid != ""
    && (r.after.None? <==> r.change == Removed)
    && (if r.uid !in held then r.change in {Baseline, Added} && r.before.None?
        else if held[r.uid].change == Removed then r.change == Added && r.before.None?
        else r.change in {Changed, Removed} && r.before == held[r.uid].after && r.before != r.after)
    && (r.change == Baseline ==> r.uid !in held)
  }

  ghost predicate Honest(rows: seq<Row>) {
    rows == []
    || (Honest(rows[..|rows| - 1]) && Follows(Latest(rows[..|rows| - 1], rows[|rows| - 1].store), rows[|rows| - 1]))
  }

  lemma {:induction false} LatestSnoc(rows: seq<Row>, r: Row, store: string)
    ensures Latest(rows + [r], store)
         == if r.store == store && r.uid != "" then Latest(rows, store)[r.uid := r] else Latest(rows, store)
    ensures Honest(rows + [r]) <==> Honest(rows) && Follows(Latest(rows, r.store), r)
  {
    assert (rows + [r])[..|rows|] == rows;
  }

  lemma {:induction false} HonestLatest(rows: seq<Row>, store: string)
    requires Honest(rows)
    ensures forall u :: u in Latest(rows, store) ==>
              var r := Latest(rows, store)[u];
              r.uid == u && r.store == store && u != "" && (r.after.None? <==> r.change == Removed)
  {
    if rows != [] {
      HonestLatest(rows[..|rows| - 1], store);
    }
  }

  ghost predicate Once(uids: seq<string>) { forall i, j :: 0 <= i < j < |uids| ==> uids[i] != uids[j] }

  lemma {:induction false} VerdictFollows(rows: seq<Row>, held: map<string, Row>, store: string, defs: Definitions,
                                          u: string)
    requires "" !in defs && Honest(rows) && held == Latest(rows, store) && Verdict(held, store, defs, u) != []
    ensures Verdict(held, store, defs, u) == [Verdict(held, store, defs, u)[0]]
    ensures Follows(held, Verdict(held, store, defs, u)[0])
    ensures Verdict(held, store, defs, u)[0].store == store && Verdict(held, store, defs, u)[0].uid == u
  {
    HonestLatest(rows, store);
  }

  // One verdict's rows, if any, become its rule's newest.
  lemma {:induction false} VerdictMoves(rows: seq<Row>, before: seq<Row>, store: string, defs: Definitions, u: string)
    requires "" !in defs && Honest(rows)
    ensures var more := Verdict(Latest(rows, store), store, defs, u);
            && Latest(before + more, store)
               == (if more == [] then Latest(before, store) else Latest(before, store)[u := more[0]])
            && (Honest(before) && (more != [] ==> Follows(Latest(before, store), more[0])) ==> Honest(before + more))
  {
    var more := Verdict(Latest(rows, store), store, defs, u);
    if more != [] {
      VerdictFollows(rows, Latest(rows, store), store, defs, u);
      LatestSnoc(before, more[0], store);
    } else {
      assert before + more == before;
    }
  }

  // A rule's newest row: the verdict's if it was judged and changed, else what was held.
  ghost predicate NewestOf(held: map<string, Row>, now: map<string, Row>, verdict: seq<Row>, judged: bool, u: string) {
    if judged && verdict != [] then u in now && now[u] == verdict[0]
    else (u in now <==> u in held) && (u in now ==> now[u] == held[u])
  }

  lemma {:induction false} NewestOn(held: map<string, Row>, before: map<string, Row>, after: map<string, Row>,
                                    verdict: seq<Row>, judged: bool, u: string, last: string, more: seq<Row>)
    requires NewestOf(held, before, verdict, judged, u)
    requires after == if more == [] then before else before[last := more[0]]
    requires u == last ==> more == verdict && !judged
    ensures NewestOf(held, after, verdict, judged || u == last, u)
  {
  }

  lemma {:induction false} LatestOnVerdict(rows: seq<Row>, before: seq<Row>, store: string, defs: Definitions,
                                           u: string, last: string, judged: bool)
    requires "" !in defs && Honest(rows) && (u == last ==> !judged)
    requires var held := Latest(rows, store);
             NewestOf(held, Latest(before, store), Verdict(held, store, defs, u), judged, u)
    ensures var held := Latest(rows, store);
            NewestOf(held, Latest(before + Verdict(held, store, defs, last), store), Verdict(held, store, defs, u),
                     judged || u == last, u)
  {
    var held := Latest(rows, store);
    var more := Verdict(held, store, defs, last);
    VerdictMoves(rows, before, store, defs, last);
    NewestOn(held, Latest(before, store), Latest(before + more, store), Verdict(held, store, defs, u), judged, u, last,
             more);
  }

  lemma {:induction false} OnceInit(uids: seq<string>, u: string)
    requires Once(uids) && uids != []
    ensures var init, last := uids[..|uids| - 1], uids[|uids| - 1];
            Once(init) && last !in init && (u in uids <==> u in init || u == last)
  {
    assert uids == uids[..|uids| - 1] + [uids[|uids| - 1]];
  }

  // What a rule's newest row is once some of the rules have been judged.
  lemma {:induction false} VerdictsLatest(rows: seq<Row>, store: string, defs: Definitions, uids: seq<string>,
                                          u: string)
    requires "" !in defs && Honest(rows) && Once(uids)
    ensures var held := Latest(rows, store);
            NewestOf(held, Latest(rows + Verdicts(held, store, defs, uids), store), Verdict(held, store, defs, u),
                     u in uids, u)
  {
    var held := Latest(rows, store);
    if uids == [] {
      assert rows + [] == rows;
    } else {
      var init, last := uids[..|uids| - 1], uids[|uids| - 1];
      OnceInit(uids, u);
      VerdictsLatest(rows, store, defs, init, u);
      var before, more := rows + Verdicts(held, store, defs, init), Verdict(held, store, defs, last);
      assert rows + Verdicts(held, store, defs, uids) == before + more;
      LatestOnVerdict(rows, before, store, defs, u, last, u in init);
    }
  }

  // However many of a read's rows the log kept, each of them follows.
  lemma {:induction false} VerdictsHonest(rows: seq<Row>, store: string, defs: Definitions, uids: seq<string>)
    requires "" !in defs && Honest(rows) && Once(uids)
    ensures Honest(rows + Verdicts(Latest(rows, store), store, defs, uids))
  {
    var held := Latest(rows, store);
    if uids == [] {
      assert rows + [] == rows;
    } else {
      var init, last := uids[..|uids| - 1], uids[|uids| - 1];
      assert uids == init + [last];
      assert last !in init;
      VerdictsHonest(rows, store, defs, init);
      VerdictsLatest(rows, store, defs, init, last);
      var before, more := rows + Verdicts(held, store, defs, init), Verdict(held, store, defs, last);
      assert rows + Verdicts(held, store, defs, uids) == before + more;
      if more != [] {
        VerdictFollows(rows, held, store, defs, last);
        FollowsStill(held, Latest(before, store), more[0]);
      }
      VerdictMoves(rows, before, store, defs, last);
    }
  }

  lemma {:induction false} FollowsStill(held: map<string, Row>, now: map<string, Row>, r: Row)
    requires Follows(held, r) && (r.uid in now <==> r.uid in held) && (r.uid in now ==> now[r.uid] == held[r.uid])
    ensures Follows(now, r)
  {
  }

  lemma {:induction false} HonestPrefix(rows: seq<Row>, k: nat)
    requires Honest(rows) && k <= |rows|
    ensures Honest(rows[..k])
    decreases |rows|
  {
    if k < |rows| {
      assert rows[..|rows| - 1][..k] == rows[..k];
      HonestPrefix(rows[..|rows| - 1], k);
    } else {
      assert rows[..k] == rows;
    }
  }

  predicate SameOf(known: Definitions, defs: Definitions, u: string) {
    (u in known <==> u in defs) && (u in defs ==> known[u] == defs[u])
  }

  lemma {:induction false} SameIffAll(known: Definitions, defs: Definitions)
    ensures known == defs <==> forall u :: SameOf(known, defs, u)
  {
    if forall u :: SameOf(known, defs, u) {
      forall u ensures u in known <==> u in defs
        ensures u in defs ==> u in known && known[u] == defs[u] {
        assert SameOf(known, defs, u);
      }
    }
  }

  // Once a rule has been judged, the log says of it what the read does.
  lemma {:induction false} JudgedIsKnown(rows: seq<Row>, store: string, defs: Definitions, uids: seq<string>, u: string)
    requires Honest(rows) && "" !in defs && Once(uids)
    requires u in uids <==> u in defs || u in Latest(rows, store)
    ensures SameOf(Known(rows + Verdicts(Latest(rows, store), store, defs, uids), store), defs, u)
  {
    HonestLatest(rows, store);
    VerdictsLatest(rows, store, defs, uids, u);
  }

  // A whole read leaves a log that replays to exactly its definitions, whatever the log was,
  // a part of a failed read included.
  lemma {:induction false} WholeReadIsKnown(rows: seq<Row>, store: string, defs: Definitions, listed: seq<string>,
                                            gone: seq<string>)
    requires Honest(rows) && "" !in defs
    requires Lists(listed, defs.Keys) && Lists(gone, Latest(rows, store).Keys - defs.Keys)
    ensures Known(rows + Verdicts(Latest(rows, store), store, defs, listed + gone), store) == defs
  {
    var held, uids := Latest(rows, store), listed + gone;
    TakenOnce(listed, gone, defs.Keys, held.Keys);
    forall u ensures SameOf(Known(rows + Verdicts(held, store, defs, uids), store), defs, u) {
      JudgedIsKnown(rows, store, defs, uids, u);
    }
    SameIffAll(Known(rows + Verdicts(held, store, defs, uids), store), defs);
  }

  lemma {:induction false} TakenOnce(listed: seq<string>, gone: seq<string>, defined: set<string>, held: set<string>)
    requires Lists(listed, defined) && Lists(gone, held - defined)
    ensures Once(listed + gone) && forall u :: u in listed + gone <==> u in defined + held
  {
    forall i, j | 0 <= i < j < |listed + gone| ensures (listed + gone)[i] != (listed + gone)[j] {
      if i < |listed| <= j {
        assert listed[i] in listed && gone[j - |listed|] in gone;
      }
    }
  }

  lemma {:induction false} NoVerdictsIff(held: map<string, Row>, store: string, defs: Definitions, uids: seq<string>)
    ensures Verdicts(held, store, defs, uids) == [] <==> forall u :: u in uids ==> Verdict(held, store, defs, u) == []
  {
    if uids != [] {
      NoVerdictsIff(held, store, defs, uids[..|uids| - 1]);
      assert uids == uids[..|uids| - 1] + [uids[|uids| - 1]];
    }
  }

  lemma {:induction false} NoVerdictIffSame(rows: seq<Row>, store: string, defs: Definitions, u: string)
    requires Honest(rows)
    ensures (u in defs || u in Latest(rows, store)) ==>
              (Verdict(Latest(rows, store), store, defs, u) == [] <==> SameOf(Known(rows, store), defs, u))
    ensures u !in defs && u !in Latest(rows, store) ==> SameOf(Known(rows, store), defs, u)
  {
    HonestLatest(rows, store);
  }

  // A read adds no row exactly when its definitions are what the log says already.
  lemma {:induction false} AddsNothingIffKnown(rows: seq<Row>, store: string, defs: Definitions, listed: seq<string>,
                                               gone: seq<string>)
    requires Honest(rows)
    requires Lists(listed, defs.Keys) && Lists(gone, Latest(rows, store).Keys - defs.Keys)
    ensures Verdicts(Latest(rows, store), store, defs, listed + gone) == [] <==> Known(rows, store) == defs
  {
    var held, known := Latest(rows, store), Known(rows, store);
    TakenOnce(listed, gone, defs.Keys, held.Keys);
    NoVerdictsIff(held, store, defs, listed + gone);
    SameIffAll(known, defs);
    forall u ensures u in listed + gone ==> (Verdict(held, store, defs, u) == [] <==> SameOf(known, defs, u))
      ensures u !in listed + gone ==> SameOf(known, defs, u) {
      NoVerdictIffSame(rows, store, defs, u);
    }
  }

  // ------------------------------------------------------------------ runs

  // One read judged: the store, its definitions, the order its rules were taken in, and how many
  // of the rows it called for the log kept.
  datatype Read = Read(store: string, defs: Definitions, listed: seq<string>, gone: seq<string>, kept: nat)

  ghost function RowsFor(rows: seq<Row>, r: Read): seq<Row> {
    Verdicts(Latest(rows, r.store), r.store, r.defs, r.listed + r.gone)
  }

  ghost predicate IsRead(rows: seq<Row>, r: Read) {
    && "" !in r.defs && Lists(r.listed, r.defs.Keys) && Lists(r.gone, Latest(rows, r.store).Keys - r.defs.Keys)
    && r.kept <= |RowsFor(rows, r)|
  }

  ghost predicate Whole(rows: seq<Row>, r: Read) { r.kept == |RowsFor(rows, r)| }

  // The log after a run of reads from the empty log, of any stores, whole and failed.
  ghost predicate Runs(judged: seq<Read>, logs: seq<seq<Row>>) {
    && |logs| == |judged| + 1 && logs[0] == []
    && forall i :: 0 <= i < |judged| ==>
         IsRead(logs[i], judged[i]) && logs[i + 1] == logs[i] + RowsFor(logs[i], judged[i])[..judged[i].kept]
  }

  lemma {:induction false} ReadKeepsHonest(rows: seq<Row>, r: Read)
    requires Honest(rows) && IsRead(rows, r)
    ensures Honest(rows + RowsFor(rows, r)[..r.kept])
  {
    TakenOnce(r.listed, r.gone, r.defs.Keys, Latest(rows, r.store).Keys);
    VerdictsHonest(rows, r.store, r.defs, r.listed + r.gone);
    HonestPrefix(rows + RowsFor(rows, r), |rows| + r.kept);
    assert (rows + RowsFor(rows, r))[..|rows| + r.kept] == rows + RowsFor(rows, r)[..r.kept];
  }

  lemma {:induction false} RunsStayHonest(judged: seq<Read>, logs: seq<seq<Row>>, i: nat)
    requires Runs(judged, logs) && i <= |judged|
    ensures Honest(logs[i])
  {
    if i > 0 {
      RunsStayHonest(judged, logs, i - 1);
      ReadKeepsHonest(logs[i - 1], judged[i - 1]);
    }
  }

  lemma {:induction false} OtherRowKept(rows: seq<Row>, r: Row, other: string)
    requires r.store != other
    ensures Latest(rows + [r], other) == Latest(rows, other)
  {
    assert (rows + [r])[..|rows|] == rows;
  }

  lemma {:induction false} OtherRowsKept(rows: seq<Row>, more: seq<Row>, other: string)
    requires forall i :: 0 <= i < |more| ==> more[i].store != other
    ensures Latest(rows + more, other) == Latest(rows, other)
    decreases |more|
  {
    if more == [] {
      assert rows + more == rows;
    } else {
      var init, last := more[..|more| - 1], more[|more| - 1];
      OtherRowsKept(rows, init, other);
      assert rows + more == (rows + init) + [last];
      OtherRowKept(rows + init, last, other);
    }
  }

  lemma {:induction false} VerdictsAreOf(held: map<string, Row>, store: string, defs: Definitions, uids: seq<string>)
    ensures forall i :: 0 <= i < |Verdicts(held, store, defs, uids)|
              ==> Verdicts(held, store, defs, uids)[i].store == store
  {
    if uids != [] {
      VerdictsAreOf(held, store, defs, uids[..|uids| - 1]);
    }
  }

  // A read of one store, whole or cut short, leaves what is held of every other.
  lemma {:induction false} OtherStoresKept(rows: seq<Row>, r: Read, other: string)
    requires IsRead(rows, r) && other != r.store
    ensures Latest(rows + RowsFor(rows, r)[..r.kept], other) == Latest(rows, other)
  {
    VerdictsAreOf(Latest(rows, r.store), r.store, r.defs, r.listed + r.gone);
    var more := RowsFor(rows, r)[..r.kept];
    assert forall i :: 0 <= i < |more| ==> more[i] == RowsFor(rows, r)[i];
    OtherRowsKept(rows, more, other);
  }

  // Over every run, whatever reads of a store failed before and whatever other stores are read
  // after: replaying the log gives exactly the definitions of the store's last read, if it was whole.
  lemma {:induction false} LastReadIsKnown(judged: seq<Read>, logs: seq<seq<Row>>, i: nat, j: nat)
    requires Runs(judged, logs) && i < j <= |judged|
    requires Whole(logs[i], judged[i])
    requires forall k :: i < k < j ==> judged[k].store != judged[i].store
    ensures Known(logs[j], judged[i].store) == judged[i].defs
    decreases j
  {
    var r := judged[i];
    if j == i + 1 {
      RunsStayHonest(judged, logs, i);
      assert RowsFor(logs[i], r)[..r.kept] == RowsFor(logs[i], r);
      WholeReadIsKnown(logs[i], r.store, r.defs, r.listed, r.gone);
    } else {
      LastReadIsKnown(judged, logs, i, j - 1);
      OtherStoresKept(logs[j - 1], judged[j - 1], r.store);
    }
  }

  // So reading the same definitions again adds no row: the reader's memo may skip it.
  lemma {:induction false} SameReadAddsNothing(judged: seq<Read>, logs: seq<seq<Row>>, i: nat, j: nat, again: Read)
    requires Runs(judged, logs) && i < j <= |judged| && Whole(logs[i], judged[i])
    requires forall k :: i < k < j ==> judged[k].store != judged[i].store
    requires again.store == judged[i].store && again.defs == judged[i].defs && IsRead(logs[j], again)
    ensures RowsFor(logs[j], again) == []
  {
    LastReadIsKnown(judged, logs, i, j);
    RunsStayHonest(judged, logs, j);
    AddsNothingIffKnown(logs[j], again.store, again.defs, again.listed, again.gone);
  }

  // ------------------------------------------------------------------ first rows

  lemma {:induction false} NothingHeldIff(rows: seq<Row>, store: string)
    ensures Latest(rows, store) == map[]
       <==> forall i :: 0 <= i < |rows| ==> rows[i].store != store || rows[i].uid == ""
  {
    if rows != [] {
      var init, last := rows[..|rows| - 1], rows[|rows| - 1];
      NothingHeldIff(init, store);
      assert forall i :: 0 <= i < |init| ==> init[i] == rows[i];
      if last.store == store && last.uid != "" {
        assert last.uid in Latest(rows, store);
      }
    }
  }

  lemma {:induction false} HonestNames(rows: seq<Row>)
    requires Honest(rows)
    ensures forall i :: 0 <= i < |rows| ==> rows[i].uid != ""
  {
    if rows != [] {
      HonestNames(rows[..|rows| - 1]);
      assert forall i :: 0 <= i < |rows| - 1 ==> rows[..|rows| - 1][i] == rows[i];
    }
  }

  // What a row that leaves no state may be: all of a read's are baselines, or none is.
  ghost predicate FirstsAre(rows: seq<Row>, store: string, baseline: bool) {
    forall i :: 0 <= i < |rows| ==>
      && rows[i].store == store && (rows[i].change == Baseline ==> baseline)
      && (rows[i].before.None? && rows[i].change != Removed ==> rows[i].change == if baseline then Baseline else Added)
  }

  lemma {:induction false} VerdictFirsts(rows: seq<Row>, store: string, defs: Definitions, u: string)
    requires Honest(rows)
    ensures var held := Latest(rows, store); FirstsAre(Verdict(held, store, defs, u), store, held == map[])
  {
    HonestLatest(rows, store);
  }

  lemma {:induction false} VerdictsFirsts(rows: seq<Row>, store: string, defs: Definitions, uids: seq<string>)
    requires Honest(rows)
    ensures var held := Latest(rows, store); FirstsAre(Verdicts(held, store, defs, uids), store, held == map[])
  {
    if uids != [] {
      VerdictsFirsts(rows, store, defs, uids[..|uids| - 1]);
      VerdictFirsts(rows, store, defs, uids[|uids| - 1]);
    }
  }

  // Over every run: a row for a rule that comes from no state is a baseline exactly when, before the read
  // that wrote it, the log held no row of its configuration, and an addition exactly when it held one.
  // No other row is a baseline.
  lemma {:induction false} FirstRowsAreBaselines(judged: seq<Read>, logs: seq<seq<Row>>, i: nat, k: nat)
    requires Runs(judged, logs) && i < |judged| && |logs[i]| <= k < |logs[i + 1]|
    ensures var r, known := logs[i + 1][k], exists q :: 0 <= q < |logs[i]| && logs[i][q].store == judged[i].store;
            && r.store == judged[i].store
            && (r.change == Baseline ==> !known)
            && (r.before.None? && r.after.Some? ==> r.change == if known then Added else Baseline)
  {
    var rows, read := logs[i], judged[i];
    RunsStayHonest(judged, logs, i);
    RunsStayHonest(judged, logs, i + 1);
    HonestNames(rows);
    NothingHeldIff(rows, read.store);
    VerdictsFirsts(rows, read.store, read.defs, read.listed + read.gone);
    var r := logs[i + 1][k];
    assert r == RowsFor(rows, read)[k - |rows|];
    RowFollows(logs[i + 1], k);
  }

  lemma {:induction false} RowFollows(rows: seq<Row>, k: nat)
    requires Honest(rows) && k < |rows|
    ensures rows[k].after.None? <==> rows[k].change == Removed
    decreases |rows|
  {
    if k < |rows| - 1 {
      RowFollows(rows[..|rows| - 1], k);
    }
  }

  // ------------------------------------------------------------------ one rule's rows

  function Of(rows: seq<Row>, store: string, uid: string): seq<Row> {
    if rows == [] then []
    else Of(rows[..|rows| - 1], store, uid)
         + if rows[|rows| - 1].store == store && rows[|rows| - 1].uid == uid then [rows[|rows| - 1]] else []
  }

  // What may come next in a rule's life.
  ghost predicate Next(h: seq<Row>, r: Row) {
    if h == [] then r.change in {Baseline, Added} && r.before.None? && r.after.Some?
    else if h[|h| - 1].change == Removed then r.change == Added && r.before.None? && r.after.Some?
    else r.change in {Changed, Removed} && r.before == h[|h| - 1].after
         && (r.change == Removed <==> r.after.None?) && r.before != r.after
  }

  // (baseline or added) changed* (removed added changed*)* with removed, or not, at the end; each
  // changed or removed row leaving the very state the row before came to.
  ghost predicate LifeOfARule(h: seq<Row>) { forall k :: 0 <= k < |h| ==> Next(h[..k], h[k]) }

  lemma {:induction false} LifeSnoc(h: seq<Row>, r: Row)
    requires LifeOfARule(h) && Next(h, r)
    ensures LifeOfARule(h + [r])
  {
    assert forall k :: 0 <= k <= |h| ==> (h + [r])[..k] == h[..k];
    assert h[..|h|] == h;
  }

  // The row held of a rule is the last of its rows.
  ghost predicate Newest(held: map<string, Row>, h: seq<Row>, uid: string) {
    if h == [] then uid !in held else uid in held && held[uid] == h[|h| - 1]
  }

  lemma {:induction false} FollowsIsNext(held: map<string, Row>, h: seq<Row>, r: Row)
    requires Follows(held, r) && Newest(held, h, r.uid)
    ensures Next(h, r)
  {
  }

  lemma {:induction false} HonestRulesLives(rows: seq<Row>, store: string, uid: string)
    requires Honest(rows) && uid != ""
    ensures LifeOfARule(Of(rows, store, uid)) && Newest(Latest(rows, store), Of(rows, store, uid), uid)
  {
    if rows != [] {
      var init, last := rows[..|rows| - 1], rows[|rows| - 1];
      var h := Of(init, store, uid);
      HonestRulesLives(init, store, uid);
      assert rows == init + [last];
      LatestSnoc(init, last, store);
      if last.store == store && last.uid == uid {
        FollowsIsNext(Latest(init, store), h, last);
        LifeSnoc(h, last);
        assert Of(rows, store, uid) == h + [last];
      } else {
        assert Of(rows, store, uid) == h;
      }
    }
  }

  // Over every run, every rule's rows are one such life.
  lemma {:induction false} EveryRuleLives(judged: seq<Read>, logs: seq<seq<Row>>, i: nat, store: string, uid: string)
    requires Runs(judged, logs) && i <= |judged| && uid != ""
    ensures LifeOfARule(Of(logs[i], store, uid))
  {
    RunsStayHonest(judged, logs, i);
    HonestRulesLives(logs[i], store, uid);
  }
}
