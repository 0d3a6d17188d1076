// What retention does to episodes: over every run of recorders and of processes that expire, which
// served resolves still close an episode, and when one can be left closing nothing.
module AlertRetention {
  import opened Wrappers
  import opened AlertLog
  import opened AlertGate
  import opened AlertEpisodes
  import opened AlertExpiry
  import Calendar
  import Sorting

  // A run in which every source flags its resolves, as the reader and the detections do. The
  // backfill flags none, so a run of its deliveries is outside it.
  ghost predicate Flagged(steps: seq<Step>) {
    forall i :: 0 <= i < |steps| && steps[i].Records? ==> FlagsEveryResolve(steps[i].delivery.batch)
  }

  lemma {:induction false} MarkerAddsNoRow(log: seq<Entry>, e: Entry)
    requires e.Moved?
    ensures Rows(log + [e]) == Rows(log)
  {
    assert (log + [e])[..|log|] == log;
  }

  lemma {:induction false} MarkKeepsRows(s: State, p: nat)
    requires Enabled(s, MarksMoved(p))
    ensures Rows(Do(s, MarksMoved(p)).log) == Rows(s.log)
  {
    var g := s.plans[p].groups[0];
    MarkerAddsNoRow(s.log, Moved(Sorting.Map(g.rows, KeyOfRow), NameOf(g)));
  }

  // Each row of each delivery fits at its turn.
  ghost predicate Fitting(s: State, steps: seq<Step>)
    decreases |steps|
  {
    steps == []
    || (&& Enabled(s, steps[0])
        && (steps[0].Records? ==> FitThroughout(s.log, Judged(steps[0].delivery)))
        && Fitting(Do(s, steps[0]), steps[1..]))
  }

  // The log is sound after each row of each delivery.
  ghost predicate StaysSound(s: State, steps: seq<Step>)
    decreases |steps|
  {
    steps == []
    || (&& Enabled(s, steps[0])
        && (steps[0].Records? ==> SoundThroughout(s.log, Judged(steps[0].delivery)))
        && StaysSound(Do(s, steps[0]), steps[1..]))
  }

  lemma {:induction false} OtherStepsAddNoRow(s: State, step: Step)
    requires Enabled(s, step) && !step.Records?
    ensures Rows(Do(s, step).log) == Rows(s.log)
  {
    if step.MarksMoved? {
      MarkKeepsRows(s, step.process);
    }
  }

  // Over every run of any sources beside processes that expire: the log is sound after every row
  // exactly when each resolve that was kept fitted at its turn.
  lemma {:induction false} RunSoundIffFitting(s: State, steps: seq<Step>, t: State)
    requires Sound(s.log) && Runs(s, steps, t)
    ensures StaysSound(s, steps) <==> Fitting(s, steps)
    ensures Fitting(s, steps) ==> Sound(t.log)
    decreases |steps|
  {
    if steps != [] {
      var u := Do(s, steps[0]);
      if steps[0].Records? {
        var rows := Judged(steps[0].delivery);
        SoundIffFitting(s.log, rows);
        assert rows[..|rows|] == rows;
      } else {
        OtherStepsAddNoRow(s, steps[0]);
      }
      if Sound(u.log) {
        RunSoundIffFitting(u, steps[1..], t);
      }
    }
  }

  lemma {:induction false} FlaggedIsFitting(s: State, steps: seq<Step>, t: State)
    requires Sound(s.log) && Runs(s, steps, t) && Flagged(steps)
    ensures Fitting(s, steps)
    decreases |steps|
  {
    if steps != [] {
      if steps[0].Records? {
        JudgedAreFlagged(steps[0].delivery);
        FlaggedFitThroughout(s.log, Judged(steps[0].delivery));
        DeliverKeepsSound(s.log, steps[0].delivery);
      } else {
        OtherStepsAddNoRow(s, steps[0]);
      }
      assert forall i :: 0 <= i < |steps[1..]| ==> steps[1..][i] == steps[i + 1];
      FlaggedIsFitting(Do(s, steps[0]), steps[1..], t);
    }
  }

  // So where every source flags its resolves the log is always sound.
  lemma {:induction false} RunKeepsSound(s: State, steps: seq<Step>, t: State)
    requires Sound(s.log) && Runs(s, steps, t) && Flagged(steps)
    ensures StaysSound(s, steps) && Sound(t.log)
  {
    FlaggedIsFitting(s, steps, t);
    RunSoundIffFitting(s, steps, t);
  }

  // ------------------------------------------------------------------ which resolves close one

  lemma {:induction false} ServedKeysDiffer(log: seq<Entry>)
    requires DistinctKeys(Rows(log))
    ensures DistinctKeys(Served(log))
  {
    FilterKeys(Rows(log), NotIn(MovedKeys(log)));
  }

  // Over every run of any sources, flagged or not, whatever has been moved by then: the resolves that
  // close an episode are exactly those with a served state of the instance between them and the served
  // resolve before.
  lemma {:induction false} ServedResolvesThatClose(steps: seq<Step>, t: State, id: Identity)
    requires Runs(EMPTY, steps, t)
    ensures var served := Served(t.log);
            ResolvesIn(EpisodesOf(served, id)) == Sorting.Filter(Resolves(Ordered(served, id)), Ends(served, id))
  {
    NeverRecordedAgain(steps, t);
    ServedKeysDiffer(t.log);
    WhichResolvesClose(Served(t.log), id);
  }

  lemma {:induction false} FilterTwice(rs: seq<Row>, p: Row -> bool, q: Row -> bool, both: Row -> bool)
    requires forall i :: 0 <= i < |rs| ==> (both(rs[i]) <==> p(rs[i]) && q(rs[i]))
    ensures Sorting.Filter(Sorting.Filter(rs, p), q) == Sorting.Filter(rs, both)
  {
    if rs != [] {
      var init, last := rs[..|rs| - 1], rs[|rs| - 1];
      FilterTwice(init, p, q, both);
      Sorting.FilterSnoc(Sorting.Filter(init, p), last, q);
      assert Sorting.Filter(init, p) + [] == Sorting.Filter(init, p);
    }
  }

  function Stays(now: real, retention: map<string, int>, network: string): Row -> bool {
    (r: Row) => !DueHere(now, retention, network)(r)
  }

  // The marker of what is due in a network takes exactly that from what is served.
  lemma {:induction false} MarkerTakesWhatIsDue(log: seq<Entry>, now: real, retention: map<string, int>,
                                                network: string, e: Entry)
    requires DistinctKeys(Rows(log)) && e.Moved?
    requires e.keys == Sorting.Map(DueIn(log, now, retention, network).rows, KeyOfRow)
    ensures Served(log + [e]) == Sorting.Filter(Served(log), Stays(now, retention, network))
  {
    var due, p := DueIn(log, now, retention, network).rows, NotIn(MovedKeys(log));
    var gone := set j | 0 <= j < |e.keys| :: e.keys[j];
    MarkerAddsNoRow(log, e);
    MovedKeysSnoc(log, e);
    forall i | 0 <= i < |Rows(log)| && p(Rows(log)[i])
      ensures Rows(log)[i].TransitionKey() in gone <==> DueHere(now, retention, network)(Rows(log)[i])
    {
      NamedIffDue(log, now, retention, network, Rows(log)[i]);
    }
    FilterTwice(Rows(log), p, Stays(now, retention, network), NotIn(MovedKeys(log + [e])));
  }

  lemma {:induction false} NamedIffDue(log: seq<Entry>, now: real, retention: map<string, int>, network: string, r: Row)
    requires DistinctKeys(Rows(log)) && r in Rows(log) && r.TransitionKey() !in MovedKeys(log)
    ensures var due := DueIn(log, now, retention, network).rows;
            DueHere(now, retention, network)(r)
            <==> exists j :: 0 <= j < |due| && Sorting.Map(due, KeyOfRow)[j] == r.TransitionKey()
  {
    var due, p := DueIn(log, now, retention, network).rows, DueHere(now, retention, network);
    Sorting.FilterHolds(Rows(log), NotIn(MovedKeys(log)), r);
    Sorting.FilterHolds(Served(log), p, r);
    Sorting.FilterIn(Served(log), p);
    DueInLog(log, now, retention, network);
    if r in due {
      var j :| 0 <= j < |due| && due[j] == r;
      assert Sorting.Map(due, KeyOfRow)[j] == r.TransitionKey();
    }
    forall j | 0 <= j < |due| && Sorting.Map(due, KeyOfRow)[j] == r.TransitionKey() ensures due[j] == r {
      SameKeySameRow(Rows(log), due[j], r);
    }
  }

  lemma {:induction false} FilterKeepsAllIff(rs: seq<Row>, p: Row -> bool)
    ensures Sorting.Filter(rs, p) == rs <==> forall r :: r in rs ==> p(r)
  {
    Sorting.FilterIn(rs, p);
    if forall r :: r in rs ==> p(r) {
      AllKept(rs, p);
    }
  }

  // What a move will do can be told before it: it leaves every served resolve of an instance closing
  // an episode exactly when each resolve that is not due keeps, of the rows that are not due, a state
  // of the instance between it and the resolve before.
  lemma {:induction false} MoveStrandsNoneIff(log: seq<Entry>, now: real, retention: map<string, int>, network: string,
                                              e: Entry, id: Identity)
    requires DistinctKeys(Rows(log)) && e.Moved?
    requires e.keys == Sorting.Map(DueIn(log, now, retention, network).rows, KeyOfRow)
    ensures var rest := Sorting.Filter(Served(log), Stays(now, retention, network));
            EachResolveClosesOne(Served(log + [e]), id)
            <==> forall r :: r in rest && IsResolve(r, id) ==> EndsAState(rest, id, r)
  {
    var rest := Sorting.Filter(Served(log), Stays(now, retention, network));
    MarkerTakesWhatIsDue(log, now, retention, network, e);
    ServedKeysDiffer(log);
    FilterKeys(Served(log), Stays(now, retention, network));
    WhichResolvesClose(rest, id);
    var resolves := Resolves(Ordered(rest, id));
    FilterKeepsAllIff(resolves, Ends(rest, id));
    OrderedIs(rest, id);
    forall r ensures r in resolves <==> r in rest && IsResolve(r, id) {
      Sorting.FilterHolds(Ordered(rest, id), (x: Row) => x.to == Normal, r);
    }
  }

  // ------------------------------------------------------------------ equal networks

  // The instance's rows all name the same networks, and none is timed before 2000.
  ghost predicate Alike(rows: seq<Row>, id: Identity, networks: seq<string>) {
    forall i :: 0 <= i < |rows| && rows[i].identity == id
      ==> rows[i].networks == networks && rows[i].at >= Calendar.FIRST_SECOND
  }

  // Then being due is being before one cut: what is due at a time takes everything earlier along.
  lemma {:induction false} EarlierIsDueToo(early: Row, late: Row, now: real, retention: map<string, int>)
    requires early.networks == late.networks && Calendar.FIRST_SECOND <= early.at <= late.at
    requires Due(late, now, retention)
    ensures Due(early, now, retention)
  {
  }

  // For a state that is gone, so is every resolve of its instance before it; or both are to go.
  ghost predicate TakesAlong(rows: seq<Row>, id: Identity, k: Row, also: seq<Row>, gone: set<Key>) {
    IsState(k, id) ==>
      forall q :: 0 <= q < |rows| && IsResolve(rows[q], id) && rows[q].When().Rank() < k.When().Rank()
        ==> rows[q] in also || rows[q].TransitionKey() in gone
  }

  ghost predicate PlanTakesAlong(s: State, id: Identity, plan: Plan) {
    forall g, i :: 0 <= g < |plan.groups| && 0 <= i < |plan.groups[g].rows|
      ==> TakesAlong(Rows(s.log), id, plan.groups[g].rows[i], plan.groups[g].rows, MovedKeys(s.log))
  }

  ghost predicate GoneTogether(s: State, id: Identity) {
    && (forall i :: 0 <= i < |Rows(s.log)| && Rows(s.log)[i].TransitionKey() in MovedKeys(s.log)
          ==> TakesAlong(Rows(s.log), id, Rows(s.log)[i], [], MovedKeys(s.log)))
    && (forall p :: p in s.plans ==> PlanTakesAlong(s, id, s.plans[p]))
  }

  // The row is no resolve of the instance, or is not kept, or the gate would let it in, flagged or not.
  predicate InTurn(log: seq<Entry>, a: Arrival, id: Identity) {
    IsResolve(a.row, id) && !Settled(log, a) ==> Admits(log, a.row)
  }

  predicate AllInTurn(log: seq<Entry>, rows: seq<Arrival>, id: Identity) {
    forall k :: 0 <= k < |rows| ==> InTurn(TakeAll(log, rows[..k]), rows[k], id)
  }

  lemma {:induction false} FirstInTurn(log: seq<Entry>, rows: seq<Arrival>, id: Identity)
    requires rows != [] && AllInTurn(log, rows, id)
    ensures AllInTurn(log, rows[..|rows| - 1], id) && InTurn(TakeAll(log, rows[..|rows| - 1]), rows[|rows| - 1], id)
  {
    var init := rows[..|rows| - 1];
    assert forall k :: 0 <= k < |init| ==> init[..k] == rows[..k] && init[k] == rows[k];
  }

  // A run in which each resolve kept of the instance came on the gate's terms, whoever wrote it.
  predicate RunInTurn(s: State, steps: seq<Step>, id: Identity)
    decreases |steps|
  {
    steps == []
    || (&& Enabled(s, steps[0])
        && (steps[0].Records? ==> AllInTurn(s.log, Judged(steps[0].delivery), id))
        && RunInTurn(Do(s, steps[0]), steps[1..], id))
  }

  lemma {:induction false} FlaggedIsInTurn(s: State, steps: seq<Step>, t: State, id: Identity)
    requires Runs(s, steps, t) && Flagged(steps)
    ensures RunInTurn(s, steps, id)
    decreases |steps|
  {
    if steps != [] {
      if steps[0].Records? {
        JudgedAreFlagged(steps[0].delivery);
      }
      assert forall i :: 0 <= i < |steps[1..]| ==> steps[1..][i] == steps[i + 1];
      FlaggedIsInTurn(Do(s, steps[0]), steps[1..], t, id);
    }
  }

  // Between two resolves of the instance there is a state.
  ghost predicate ApartOf(rows: seq<Row>, id: Identity) {
    forall i, j :: ResolvePair(rows, i, j) && rows[i].identity == id ==>
      Between(rows, id, rows[i].When().Rank(), rows[j].When().Rank())
  }

  lemma {:induction false} TakeKeepsApart(log: seq<Entry>, a: Arrival, id: Identity)
    requires ApartOf(Rows(log), id) && InTurn(log, a, id)
    ensures ApartOf(Rows(Take(log, a)), id)
  {
    if Take(log, a) != log {
      TakeRows(log, a.row);
      var rows, t := Rows(log), Rows(log) + [a.row];
      if IsResolve(a.row, id) {
        AdmittedAfterAll(log, a.row);
      }
      forall i, j | ResolvePair(t, i, j) && t[i].identity == id
        ensures Between(t, id, t[i].When().Rank(), t[j].When().Rank())
      {
        assert i < |rows| && j < |rows| ==> ResolvePair(rows, i, j);
        BetweenStays(rows, a.row, id, t[i].When().Rank(), t[j].When().Rank());
      }
    }
  }

  lemma {:induction false} TakeAllKeepsApart(log: seq<Entry>, rows: seq<Arrival>, id: Identity)
    requires ApartOf(Rows(log), id) && AllInTurn(log, rows, id)
    ensures ApartOf(Rows(TakeAll(log, rows)), id)
  {
    if rows != [] {
      FirstInTurn(log, rows, id);
      TakeAllKeepsApart(log, rows[..|rows| - 1], id);
      TakeKeepsApart(TakeAll(log, rows[..|rows| - 1]), rows[|rows| - 1], id);
    }
  }

  // A resolve kept later is later than every row there is, so it is before none of them.
  lemma {:induction false} TakeTakesAlong(log: seq<Entry>, a: Arrival, id: Identity, k: Row, also: seq<Row>)
    requires InTurn(log, a, id) && k in Rows(log)
    requires TakesAlong(Rows(log), id, k, also, MovedKeys(log))
    ensures TakesAlong(Rows(Take(log, a)), id, k, also, MovedKeys(Take(log, a)))
  {
    TakesAlone(log, a);
    TakeAllKeepsMovedKeys(log, [a]);
    if Take(log, a) != log {
      TakeRows(log, a.row);
      var rows := Rows(log);
      var i :| 0 <= i < |rows| && rows[i] == k;
      if IsResolve(a.row, id) {
        AdmittedAfterAll(log, a.row);
      }
    }
  }

  lemma {:induction false} TakeAllTakesAlong(log: seq<Entry>, batch: seq<Arrival>, id: Identity, k: Row, also: seq<Row>)
    requires AllInTurn(log, batch, id) && k in Rows(log)
    requires TakesAlong(Rows(log), id, k, also, MovedKeys(log))
    ensures k in Rows(TakeAll(log, batch))
    ensures TakesAlong(Rows(TakeAll(log, batch)), id, k, also, MovedKeys(TakeAll(log, batch)))
    decreases |batch|
  {
    if batch != [] {
      var init, last := batch[..|batch| - 1], batch[|batch| - 1];
      FirstInTurn(log, batch, id);
      TakeAllTakesAlong(log, init, id, k, also);
      var mid := TakeAll(log, init);
      TakeTakesAlong(mid, last, id, k, also);
      if Take(mid, last) != mid {
        TakeRows(mid, last.row);
      }
    }
  }

  lemma {:induction false} GoneMore(rows: seq<Row>, id: Identity, k: Row, also: seq<Row>, gone: set<Key>,
                                    more: set<Key>)
    requires TakesAlong(rows, id, k, also, gone) && gone <= more
    ensures TakesAlong(rows, id, k, also, more)
  {
  }

  // A key a marker names is the key of a row in the log.
  lemma {:induction false} MovedIsInLog(s: State, k: Row, key: Key)
    requires AlertExpiry.Inv(s) && key in MovedKeys(s.log) && k.TransitionKey() == key
    ensures exists r :: r in Rows(s.log) && r.TransitionKey() == key
  {
    var e, j :| 0 <= e < |s.log| && s.log[e].Moved? && 0 <= j < |s.log[e].keys| && s.log[e].keys[j] == key;
    assert MarkerHonest(s.puts, s.log[e]);
    var i :| 0 <= i < |s.puts| && s.puts[i].name == s.log[e].archived
             && Sorting.Map(s.puts[i].rows, KeyOfRow) == s.log[e].keys;
    assert InLog(s.puts[i].rows, s.log);
    assert s.puts[i].rows[j] in Rows(s.log) && s.puts[i].rows[j].TransitionKey() == key;
  }

  lemma {:induction false} SameKeySameRow(rows: seq<Row>, a: Row, b: Row)
    requires DistinctKeys(rows) && a in rows && b in rows && a.TransitionKey() == b.TransitionKey()
    ensures a == b
  {
    var i :| 0 <= i < |rows| && rows[i] == a;
    var j :| 0 <= j < |rows| && rows[j] == b;
  }

  lemma {:induction false} RecordKeepsTogether(s: State, d: Delivery, id: Identity)
    requires AlertExpiry.Inv(s) && GoneTogether(s, id) && AllInTurn(s.log, Judged(d), id)
    ensures GoneTogether(Do(s, Records(d)), id)
  {
    var t := Do(s, Records(d));
    var batch := Judged(d);
    AlertExpiry.StepKeepsInv(s, Records(d));
    LogGrows(s, Records(d));
    TakeAllKeepsMovedKeys(s.log, batch);
    forall i | 0 <= i < |Rows(t.log)| && Rows(t.log)[i].TransitionKey() in MovedKeys(t.log)
      ensures TakesAlong(Rows(t.log), id, Rows(t.log)[i], [], MovedKeys(t.log))
    {
      var k := Rows(t.log)[i];
      MovedIsInLog(s, k, k.TransitionKey());
      var r :| r in Rows(s.log) && r.TransitionKey() == k.TransitionKey();
      SameKeySameRow(Rows(t.log), r, k);
      var a :| 0 <= a < |Rows(s.log)| && Rows(s.log)[a] == r;
      TakeAllTakesAlong(s.log, batch, id, k, []);
    }
    forall p | p in t.plans ensures PlanTakesAlong(t, id, t.plans[p]) {
      PlanStaysTogether(s, batch, id, s.plans[p], t);
    }
  }

  lemma {:induction false} PlanStaysTogether(s: State, batch: seq<Arrival>, id: Identity, plan: Plan, t: State)
    requires PlanHonest(s, plan) && PlanTakesAlong(s, id, plan) && AllInTurn(s.log, batch, id)
    requires t.log == TakeAll(s.log, batch)
    ensures PlanTakesAlong(t, id, plan)
  {
    forall g, i | 0 <= g < |plan.groups| && 0 <= i < |plan.groups[g].rows|
      ensures TakesAlong(Rows(t.log), id, plan.groups[g].rows[i], plan.groups[g].rows, MovedKeys(t.log))
    {
      assert InLog(plan.groups[g].rows, s.log);
      TakeAllTakesAlong(s.log, batch, id, plan.groups[g].rows[i], plan.groups[g].rows);
    }
  }

  // What is due is taken with everything of the instance before it that is still served.
  lemma {:induction false} DueTakesAlong(log: seq<Entry>, id: Identity, networks: seq<string>, now: real,
                                         retention: map<string, int>, network: string, i: nat)
    requires Alike(Rows(log), id, networks) && i < |DueIn(log, now, retention, network).rows|
    ensures var rows := DueIn(log, now, retention, network).rows;
            TakesAlong(Rows(log), id, rows[i], rows, MovedKeys(log))
  {
    var due, p := DueIn(log, now, retention, network).rows, DueHere(now, retention, network);
    var k := due[i];
    Sorting.FilterIn(Served(log), p);
    Sorting.FilterIn(Rows(log), NotIn(MovedKeys(log)));
    assert k in Served(log) && k in Rows(log);
    if IsState(k, id) {
      var all := Rows(log);
      var a :| 0 <= a < |all| && all[a] == k;
      forall q | 0 <= q < |all| && IsResolve(all[q], id) && all[q].When().Rank() < k.When().Rank()
        ensures all[q] in due || all[q].TransitionKey() in MovedKeys(log)
      {
        EarlierIsDueToo(all[q], k, now, retention);
        Sorting.FilterHolds(all, NotIn(MovedKeys(log)), all[q]);
        Sorting.FilterHolds(Served(log), p, all[q]);
      }
    }
  }

  lemma {:induction false} BeginKeepsTogether(s: State, step: Step, id: Identity, networks: seq<string>)
    requires GoneTogether(s, id) && Alike(Rows(s.log), id, networks) && step.Begins? && Enabled(s, step)
    ensures GoneTogether(Do(s, step), id)
  {
    var t := Do(s, step);
    var plan := t.plans[step.process];
    forall g, i | 0 <= g < |plan.groups| && 0 <= i < |plan.groups[g].rows|
      ensures TakesAlong(Rows(t.log), id, plan.groups[g].rows[i], plan.groups[g].rows, MovedKeys(t.log))
    {
      assert plan.groups[g] == DueIn(s.log, step.now, step.retention, step.networks[g]);
      DueTakesAlong(s.log, id, networks, step.now, step.retention, step.networks[g], i);
    }
    assert PlanTakesAlong(t, id, plan);
    forall p | p in t.plans ensures PlanTakesAlong(t, id, t.plans[p]) {
      if p != step.process {
        assert PlanTakesAlong(s, id, s.plans[p]);
      }
    }
  }

  // A plan with some of its groups done.
  lemma {:induction false} RestTakesAlong(s: State, t: State, id: Identity, plan: Plan, rest: Plan)
    requires PlanTakesAlong(s, id, plan) && Rows(t.log) == Rows(s.log) && MovedKeys(s.log) <= MovedKeys(t.log)
    requires rest.groups == plan.groups || (plan.groups != [] && rest.groups == plan.groups[1..])
    ensures PlanTakesAlong(t, id, rest)
  {
    forall g, i | 0 <= g < |rest.groups| && 0 <= i < |rest.groups[g].rows|
      ensures TakesAlong(Rows(t.log), id, rest.groups[g].rows[i], rest.groups[g].rows, MovedKeys(t.log))
    {
      var h := if rest.groups == plan.groups then g else g + 1;
      assert plan.groups[h] == rest.groups[g];
      GoneMore(Rows(s.log), id, plan.groups[h].rows[i], plan.groups[h].rows, MovedKeys(s.log), MovedKeys(t.log));
    }
  }

  // A marker's keys are gone together with those they take along.
  lemma {:induction false} MarkedTakesAlong(s: State, t: State, id: Identity, g: Group, k: Row)
    requires DistinctKeys(Rows(s.log)) && InLog(g.rows, s.log) && k in Rows(s.log) && Rows(t.log) == Rows(s.log)
    requires forall i :: 0 <= i < |g.rows| ==> TakesAlong(Rows(s.log), id, g.rows[i], g.rows, MovedKeys(s.log))
    requires MovedKeys(t.log) == MovedKeys(s.log) + set j | 0 <= j < |g.rows| :: g.rows[j].TransitionKey()
    requires k.TransitionKey() in MovedKeys(t.log) && k.TransitionKey() !in MovedKeys(s.log)
    ensures TakesAlong(Rows(t.log), id, k, [], MovedKeys(t.log))
  {
    var j :| 0 <= j < |g.rows| && g.rows[j].TransitionKey() == k.TransitionKey();
    SameKeySameRow(Rows(s.log), g.rows[j], k);
    assert TakesAlong(Rows(s.log), id, g.rows[j], g.rows, MovedKeys(s.log));
  }

  lemma {:induction false} MarkMovesKeys(s: State, p: nat)
    requires Enabled(s, MarksMoved(p))
    ensures var g := s.plans[p].groups[0];
            MovedKeys(Do(s, MarksMoved(p)).log) == MovedKeys(s.log)
                + set j | 0 <= j < |g.rows| :: g.rows[j].TransitionKey()
  {
    var g := s.plans[p].groups[0];
    var keys := Sorting.Map(g.rows, KeyOfRow);
    MovedKeysSnoc(s.log, Moved(keys, NameOf(g)));
    assert forall j :: 0 <= j < |g.rows| ==> keys[j] == g.rows[j].TransitionKey();
  }

  lemma {:induction false} MarkKeepsTogether(s: State, p: nat, id: Identity)
    requires AlertExpiry.Inv(s) && GoneTogether(s, id) && Enabled(s, MarksMoved(p))
    ensures GoneTogether(Do(s, MarksMoved(p)), id)
  {
    var t, g := Do(s, MarksMoved(p)), s.plans[p].groups[0];
    MarkKeepsRows(s, p);
    MarkMovesKeys(s, p);
    assert PlanHonest(s, s.plans[p]) && InLog(g.rows, s.log);
    assert PlanTakesAlong(s, id, s.plans[p]);
    forall i | 0 <= i < |Rows(t.log)| && Rows(t.log)[i].TransitionKey() in MovedKeys(t.log)
      ensures TakesAlong(Rows(t.log), id, Rows(t.log)[i], [], MovedKeys(t.log))
    {
      if Rows(s.log)[i].TransitionKey() in MovedKeys(s.log) {
        GoneMore(Rows(s.log), id, Rows(s.log)[i], [], MovedKeys(s.log), MovedKeys(t.log));
      } else {
        MarkedTakesAlong(s, t, id, g, Rows(s.log)[i]);
      }
    }
    forall q | q in t.plans ensures PlanTakesAlong(t, id, t.plans[q]) {
      RestTakesAlong(s, t, id, s.plans[q], t.plans[q]);
    }
  }

  lemma {:induction false} StepKeepsTogether(s: State, step: Step, id: Identity, networks: seq<string>)
    requires AlertExpiry.Inv(s) && GoneTogether(s, id) && Enabled(s, step) && Alike(Rows(s.log), id, networks)
    requires step.Records? ==> AllInTurn(s.log, Judged(step.delivery), id)
    ensures GoneTogether(Do(s, step), id)
  {
    match step
    case Records(d) => RecordKeepsTogether(s, d, id);
    case Begins(_, _, _, _) => BeginKeepsTogether(s, step, id, networks);
    case MarksMoved(p) => MarkKeepsTogether(s, p, id);
    case _ =>
      var t := Do(s, step);
      forall q | q in t.plans ensures PlanTakesAlong(t, id, t.plans[q]) {
        RestTakesAlong(s, t, id, s.plans[q], t.plans[q]);
      }
  }

  lemma {:induction false} AlikeBefore(rows: seq<Row>, more: seq<Row>, id: Identity, networks: seq<string>)
    requires Alike(more, id, networks) && rows <= more
    ensures Alike(rows, id, networks)
  {
    assert forall i :: 0 <= i < |rows| ==> rows[i] == more[i];
  }

  lemma {:induction false} StepKeepsApart(s: State, step: Step, id: Identity)
    requires ApartOf(Rows(s.log), id) && Enabled(s, step)
    requires step.Records? ==> AllInTurn(s.log, Judged(step.delivery), id)
    ensures ApartOf(Rows(Do(s, step).log), id)
  {
    if step.Records? {
      TakeAllKeepsApart(s.log, Judged(step.delivery), id);
    } else {
      OtherStepsAddNoRow(s, step);
    }
  }

  lemma {:induction false} RunKeepsTogether(s: State, steps: seq<Step>, t: State, id: Identity, networks: seq<string>)
    requires AlertExpiry.Inv(s) && GoneTogether(s, id) && ApartOf(Rows(s.log), id)
    requires Runs(s, steps, t) && RunInTurn(s, steps, id) && Alike(Rows(t.log), id, networks)
    ensures AlertExpiry.Inv(t) && GoneTogether(t, id) && ApartOf(Rows(t.log), id)
    decreases |steps|
  {
    if steps != [] {
      var u := Do(s, steps[0]);
      AlertExpiry.StepKeepsInv(s, steps[0]);
      LogGrows(s, steps[0]);
      AlertExpiry.RunKeepsInv(u, steps[1..], t);
      AlikeBefore(Rows(s.log), Rows(t.log), id, networks);
      StepKeepsTogether(s, steps[0], id, networks);
      StepKeepsApart(s, steps[0], id);
      RunKeepsTogether(u, steps[1..], t, id, networks);
    }
  }

  // A state between two served resolves is served: it could not go without the earlier of them.
  lemma {:induction false} BetweenServed(s: State, id: Identity, a: nat, b: nat)
    requires AlertExpiry.Inv(s) && GoneTogether(s, id) && ApartOf(Rows(s.log), id)
    requires a < |Served(s.log)| && b < |Served(s.log)|
    requires IsResolve(Served(s.log)[a], id) && IsResolve(Served(s.log)[b], id)
    requires Served(s.log)[a].When().Rank() <= Served(s.log)[b].When().Rank() && Served(s.log)[a] != Served(s.log)[b]
    ensures Between(Served(s.log), id, Served(s.log)[a].When().Rank(), Served(s.log)[b].When().Rank())
  {
    var rows, served, p := Rows(s.log), Served(s.log), NotIn(MovedKeys(s.log));
    Sorting.FilterIn(rows, p);
    var i :| 0 <= i < |rows| && rows[i] == served[a];
    var j :| 0 <= j < |rows| && rows[j] == served[b];
    assert ResolvePair(rows, i, j);
    var k :| 0 <= k < |rows| && rows[k].identity == id && rows[k].to != Normal
             && rows[i].When().Rank() < rows[k].When().Rank() < rows[j].When().Rank();
    assert p(served[a]);
    assert rows[k].TransitionKey() in MovedKeys(s.log) ==> TakesAlong(rows, id, rows[k], [], MovedKeys(s.log));
    assert IsState(rows[k], id) && IsResolve(rows[i], id);
    Sorting.FilterHolds(rows, p, rows[k]);
    var q :| 0 <= q < |served| && served[q] == rows[k];
  }

  lemma {:induction false} StrayIsFirst(s: State, id: Identity, j: nat)
    requires AlertExpiry.Inv(s) && GoneTogether(s, id) && ApartOf(Rows(s.log), id)
    requires j < |Ordered(Served(s.log), id)| && Stray(Ordered(Served(s.log), id), j)
    ensures j == 0
  {
    var served, rs := Served(s.log), Ordered(Served(s.log), id);
    ServedKeysDiffer(s.log);
    OrderedDistinct(served, id);
    OrderedIs(served, id);
    NothingBetweenNeighbours(served, id, j);
    if j > 0 {
      var a := PlaceOf(served, id, j - 1);
      var b := PlaceOf(served, id, j);
      assert RowRank(rs[j - 1]) <= RowRank(rs[j]);
      BetweenServed(s, id, a, b);
    }
  }

  // Over every run, at any clocks and under any settings, whoever writes: of an instance whose rows all
  // name the same networks, and whose resolves were kept on the gate's terms, at most the first served
  // row is a resolve that closes nothing.
  lemma {:induction false} OnlyTheFirstIsStranded(steps: seq<Step>, t: State, id: Identity, networks: seq<string>,
                                                  j: nat)
    requires Runs(EMPTY, steps, t) && RunInTurn(EMPTY, steps, id) && Alike(Rows(t.log), id, networks)
    requires j < |Ordered(Served(t.log), id)| && Stray(Ordered(Served(t.log), id), j)
    ensures j == 0
  {
    StartInv();
    RunKeepsTogether(EMPTY, steps, t, id, networks);
    StrayIsFirst(t, id, j);
  }

  // ------------------------------------------------------------------ only what was due

  // The days a network keeps its rows: what it says, ninety when it says nothing or zero, and never less
  // than one.
  function DaysKept(retention: map<string, int>, network: string): int {
    if network !in retention || retention[network] == 0 then 90
    else if retention[network] > 0 then retention[network]
    else 1
  }

  // A row's second can be read, and lies further back than each of its networks keeps rows; a row of no
  // network is the unnamed one's.
  predicate PastRetention(r: Row, now: real, retention: map<string, int>) {
    && r.at >= 946684800
    && (r.networks == [] ==> now - r.at as real > (DaysKept(retention, "") * 86400) as real)
    && forall n :: n in r.networks ==> now - r.at as real > (DaysKept(retention, n) * 86400) as real
  }

  lemma {:induction false} DueIff(r: Row, now: real, retention: map<string, int>)
    ensures Due(r, now, retention) <==> PastRetention(r, now, retention)
  {
    forall n ensures Retention(retention, n) == DaysKept(retention, n) {
    }
    var nets, days := Networks(r), Longest(retention, Networks(r));
    var n :| n in nets && Retention(retention, n) == days;
    assert forall m :: m in nets ==> DaysKept(retention, m) <= days;
  }

  // A move plans for a network exactly the served rows past retention whose first network it is.
  lemma {:induction false} PlannedIff(log: seq<Entry>, now: real, retention: map<string, int>, network: string, r: Row)
    ensures r in DueIn(log, now, retention, network).rows
       <==> r in Served(log) && PastRetention(r, now, retention)
            && network == if r.networks == [] then "" else r.networks[0]
  {
    Sorting.FilterHolds(Served(log), DueHere(now, retention, network), r);
    DueIff(r, now, retention);
  }

  ghost predicate WasDue(past: seq<Step>, r: Row) {
    exists i :: 0 <= i < |past| && past[i].Begins? && PastRetention(r, past[i].now, past[i].retention)
  }

  ghost predicate PlansWereDue(s: State, past: seq<Step>) {
    forall p, g, i :: p in s.plans && 0 <= g < |s.plans[p].groups| && 0 <= i < |s.plans[p].groups[g].rows| ==>
      WasDue(past, s.plans[p].groups[g].rows[i])
  }

  ghost predicate MovedWereDue(s: State, past: seq<Step>) {
    forall r :: r in Rows(s.log) && r.TransitionKey() in MovedKeys(s.log) ==> WasDue(past, r)
  }

  lemma {:induction false} WasDueStays(past: seq<Step>, step: Step, r: Row)
    requires WasDue(past, r)
    ensures WasDue(past + [step], r)
  {
    var i :| 0 <= i < |past| && past[i].Begins? && PastRetention(r, past[i].now, past[i].retention);
    assert (past + [step])[i] == past[i];
  }

  lemma {:induction false} PlannedWasDue(s: State, step: Step, past: seq<Step>, g: nat, i: nat)
    requires step.Begins? && Enabled(s, step) && g < |Do(s, step).plans[step.process].groups|
    requires i < |Do(s, step).plans[step.process].groups[g].rows|
    ensures WasDue(past + [step], Do(s, step).plans[step.process].groups[g].rows[i])
  {
    var group := Do(s, step).plans[step.process].groups[g];
    assert group == DueIn(s.log, step.now, step.retention, step.networks[g]);
    Sorting.FilterIn(Served(s.log), DueHere(step.now, step.retention, step.networks[g]));
    DueIff(group.rows[i], step.now, step.retention);
    assert (past + [step])[|past|] == step;
  }

  lemma {:induction false} StepKeepsPlansDue(s: State, step: Step, past: seq<Step>)
    requires Enabled(s, step) && PlansWereDue(s, past)
    ensures PlansWereDue(Do(s, step), past + [step])
  {
    var t := Do(s, step);
    forall p, g, i | p in t.plans && 0 <= g < |t.plans[p].groups| && 0 <= i < |t.plans[p].groups[g].rows|
      ensures WasDue(past + [step], t.plans[p].groups[g].rows[i])
    {
      if step.Begins? && p == step.process {
        PlannedWasDue(s, step, past, g, i);
      } else {
        var h := if t.plans[p].groups == s.plans[p].groups then g else g + 1;
        assert t.plans[p].groups[g] == s.plans[p].groups[h];
        WasDueStays(past, step, s.plans[p].groups[h].rows[i]);
      }
    }
  }

  // A row whose key is marked now was in the plan, or was marked before.
  lemma {:induction false} MarkedWasDue(s: State, step: Step, past: seq<Step>, r: Row)
    requires AlertExpiry.Inv(s) && step.MarksMoved? && Enabled(s, step)
    requires PlansWereDue(s, past) && MovedWereDue(s, past)
    requires r in Rows(s.log) && r.TransitionKey() in MovedKeys(Do(s, step).log)
    ensures WasDue(past, r)
  {
    var g := s.plans[step.process].groups[0];
    MarkMovesKeys(s, step.process);
    if r.TransitionKey() !in MovedKeys(s.log) {
      var j :| 0 <= j < |g.rows| && g.rows[j].TransitionKey() == r.TransitionKey();
      assert PlanHonest(s, s.plans[step.process]) && InLog(g.rows, s.log);
      SameKeySameRow(Rows(s.log), g.rows[j], r);
    }
  }

  lemma {:induction false} StepKeepsMovedDue(s: State, step: Step, past: seq<Step>)
    requires AlertExpiry.Inv(s) && Enabled(s, step) && PlansWereDue(s, past) && MovedWereDue(s, past)
    ensures MovedWereDue(Do(s, step), past + [step])
  {
    var t := Do(s, step);
    AlertExpiry.StepKeepsInv(s, step);
    LogGrows(s, step);
    forall r | r in Rows(t.log) && r.TransitionKey() in MovedKeys(t.log) ensures WasDue(past + [step], r) {
      if step.MarksMoved? {
        MarkKeepsRows(s, step.process);
        MarkedWasDue(s, step, past, r);
      } else {
        if step.Records? {
          TakeAllKeepsMovedKeys(s.log, Judged(step.delivery));
        }
        MovedIsInLog(s, r, r.TransitionKey());
        var q :| q in Rows(s.log) && q.TransitionKey() == r.TransitionKey();
        SameKeySameRow(Rows(t.log), q, r);
      }
      WasDueStays(past, step, r);
    }
  }

  lemma {:induction false} RunKeepsDue(s: State, steps: seq<Step>, t: State, past: seq<Step>)
    requires AlertExpiry.Inv(s) && Runs(s, steps, t) && PlansWereDue(s, past) && MovedWereDue(s, past)
    ensures MovedWereDue(t, past + steps)
    decreases |steps|
  {
    if steps == [] {
      assert past + steps == past;
    } else {
      AlertExpiry.StepKeepsInv(s, steps[0]);
      StepKeepsPlansDue(s, steps[0], past);
      StepKeepsMovedDue(s, steps[0], past);
      RunKeepsDue(Do(s, steps[0]), steps[1..], t, past + [steps[0]]);
      assert past + [steps[0]] + steps[1..] == past + steps;
    }
  }

  // Over every run: a row stops being served only once some process began a move at a time when the row
  // was further back than every one of its networks kept rows.
  lemma {:induction false} MovesOnlyWhatWasDue(steps: seq<Step>, t: State, r: Row)
    requires Runs(EMPTY, steps, t) && r in Rows(t.log) && r !in Served(t.log)
    ensures WasDue(steps, r)
  {
    StartInv();
    RunKeepsDue(EMPTY, steps, t, []);
    assert [] + steps == steps;
    Sorting.FilterHolds(Rows(t.log), NotIn(MovedKeys(t.log)), r);
  }

  // ------------------------------------------------------------------ runs that strand a resolve

  // A source handing over one row, its flag set on a resolve.
  function Sole(r: Row): Delivery { Delivery([Arrival(r, r.to == Normal)], 1) }

  function LogOf(rows: seq<Row>): seq<Entry> {
    if rows == [] then [] else LogOf(rows[..|rows| - 1]) + [Transition(rows[|rows| - 1])]
  }

  // The row is new, and a resolve is admitted, when the ones before it are recorded.
  ghost predicate RecordableAfter(rows: seq<Row>, r: Row) {
    r.TransitionKey() !in Keys(LogOf(rows)) && (r.to == Normal ==> Admits(LogOf(rows), r))
  }

  // And so is each row when its turn comes.
  ghost predicate Recordable(rows: seq<Row>) {
    forall k :: 0 <= k < |rows| ==> RecordableAfter(rows[..k], rows[k])
  }

  lemma {:induction false} RecordableSnoc(rows: seq<Row>, r: Row)
    ensures Recordable(rows + [r]) <==> Recordable(rows) && RecordableAfter(rows, r)
  {
    var all := rows + [r];
    assert forall k :: 0 <= k < |rows| ==> all[..k] == rows[..k] && all[k] == rows[k];
    assert all[..|rows|] == rows && all[|rows|] == r;
    if Recordable(all) {
      assert RecordableAfter(all[..|rows|], all[|rows|]);
      forall k | 0 <= k < |rows| ensures RecordableAfter(rows[..k], rows[k]) {
        assert RecordableAfter(all[..k], all[k]);
      }
    }
  }

  lemma {:induction false} DeliversSole(log: seq<Entry>, r: Row)
    requires r.TransitionKey() !in Keys(log) && (r.to == Normal ==> Admits(log, r))
    ensures Deliver(log, Sole(r)) == log + [Transition(r)]
  {
    var a := Arrival(r, r.to == Normal);
    AloneInOrder(a);
    assert [a][..1] == [a];
    TakesAlone(log, a);
  }

  function Kept(rows: seq<Row>): State { EMPTY.(log := LogOf(rows)) }

  lemma {:induction false} KeepsOne(rows: seq<Row>, r: Row)
    requires RecordableAfter(rows, r)
    ensures Runs(Kept(rows), [Records(Sole(r))], Kept(rows + [r]))
  {
    assert (rows + [r])[..|rows|] == rows;
    DeliversSole(LogOf(rows), r);
    RunsOne(Kept(rows), Records(Sole(r)));
  }

  lemma {:induction false} FlaggedSole(steps: seq<Step>, r: Row)
    requires Flagged(steps)
    ensures Flagged(steps + [Records(Sole(r))])
  {
  }

  lemma {:induction false} RecordRows(rows: seq<Row>) returns (steps: seq<Step>)
    requires Recordable(rows)
    ensures Runs(EMPTY, steps, Kept(rows)) && Flagged(steps)
  {
    steps := [];
    if rows != [] {
      var init, last := rows[..|rows| - 1], rows[|rows| - 1];
      assert rows == init + [last];
      RecordableSnoc(init, last);
      steps := RecordRows(init);
      KeepsOne(init, last);
      RunsOn(EMPTY, steps, Kept(init), [Records(Sole(last))], Kept(rows));
      FlaggedSole(steps, last);
      steps := steps + [Records(Sole(last))];
    }
  }

  lemma {:induction false} LogOfRows(rows: seq<Row>)
    ensures Rows(LogOf(rows)) == rows && MovedKeys(LogOf(rows)) == {} && Served(LogOf(rows)) == rows
  {
    if rows != [] {
      var init, last := rows[..|rows| - 1], rows[|rows| - 1];
      LogOfRows(init);
      TakeRows(LogOf(init), last);
      MovedKeysSnoc(LogOf(init), Transition(last));
    }
    AllKept(rows, NotIn({}));
  }

  lemma {:induction false} GoneIs(log: seq<Entry>, key: Key, name: ArchiveName)
    requires MovedKeys(log) == {}
    ensures MovedKeys(log + [Moved([key], name)]) == {key}
  {
    var e := Moved([key], name);
    MovedKeysSnoc(log, e);
    assert (log + [e])[|log|].keys[0] == key;
    assert key in MovedKeys(log + [e]);
    assert forall k :: k in MovedKeys(log + [e]) ==> k == key;
  }

  lemma {:induction false} ServedOnceMoved(rows: seq<Row>, r: Row, name: ArchiveName)
    ensures Served(LogOf(rows) + [Moved([r.TransitionKey()], name)]) == Sorting.Filter(rows, NotIn({r.TransitionKey()}))
  {
    LogOfRows(rows);
    MarkerAddsNoRow(LogOf(rows), Moved([r.TransitionKey()], name));
    GoneIs(LogOf(rows), r.TransitionKey(), name);
  }

  lemma {:induction false} DueRecorded(rows: seq<Row>, r: Row, now: real, retention: map<string, int>, network: string)
    requires Sorting.Filter(rows, DueHere(now, retention, network)) == [r]
    ensures DueAlone(LogOf(rows), now, retention, network, r)
  {
    LogOfRows(rows);
  }

  lemma {:induction false} FlaggedOn(steps: seq<Step>, p: nat, now: real, retention: map<string, int>, network: string)
    requires Flagged(steps)
    ensures Flagged(steps + Moving(p, now, retention, network))
  {
  }

  // Rows recorded in turn, and then the one that is due in a network moved.
  lemma {:induction false} RecordsAndMovesOne(rows: seq<Row>, r: Row, now: real, retention: map<string, int>,
                                              network: string)
      returns (steps: seq<Step>, t: State)
    requires Recordable(rows) && Sorting.Filter(rows, DueHere(now, retention, network)) == [r]
    ensures Runs(EMPTY, steps, t) && Flagged(steps)
    ensures Served(t.log) == Sorting.Filter(rows, NotIn({r.TransitionKey()}))
  {
    var s := Kept(rows);
    var more := Moving(0, now, retention, network);
    steps := RecordRows(rows);
    DueRecorded(rows, r, now, retention, network);
    t := MovesOne(s, 0, r, now, retention, network);
    RunsOn(EMPTY, steps, s, more, t);
    FlaggedOn(steps, 0, now, retention, network);
    steps := steps + more;
    ServedOnceMoved(rows, r, OnlyName(network, r));
  }

  lemma {:induction false} FilterTwo(a: Row, b: Row, p: Row -> bool)
    ensures Sorting.Filter([a, b], p) == (if p(a) then [a] else []) + (if p(b) then [b] else [])
  {
    Sorting.FilterSnoc([], a, p);
    Sorting.FilterSnoc([a], b, p);
    assert [] + [a] == [a] && [a] + [b] == [a, b];
  }

  lemma {:induction false} FilterFour(a: Row, b: Row, c: Row, d: Row, p: Row -> bool)
    ensures Sorting.Filter([a, b, c, d], p)
         == (if p(a) then [a] else []) + (if p(b) then [b] else []) + (if p(c) then [c] else [])
            + (if p(d) then [d] else [])
  {
    FilterTwo(a, b, p);
    FilterTwo(c, d, p);
    Sorting.FilterAppend([a, b], [c, d], p);
    assert [a, b] + [c, d] == [a, b, c, d];
  }

  lemma {:induction false} ResolveAdmitted(rows: seq<Row>, state: Row, r: Row)
    requires state.to != Normal && r.to == Normal && state.identity == r.identity && state.at <= r.at
    requires forall i :: 0 <= i < |rows| && rows[i].identity == state.identity
               ==> rows[i].When().Rank() <= state.When().Rank()
    ensures Latest(LogOf(rows + [state]), r.identity) == Some(state.When())
    ensures Admits(LogOf(rows + [state]), r)
  {
    assert (rows + [state])[..|rows|] == rows;
    LatestSnoc(LogOf(rows), Transition(state), r.identity);
    if Latest(LogOf(rows), r.identity).Some? {
      LogOfRows(rows);
      LatestIsARow(rows, r.identity);
    }
  }

  lemma {:induction false} LatestIsARow(rows: seq<Row>, id: Identity)
    requires Latest(LogOf(rows), id).Some?
    ensures exists i :: 0 <= i < |rows| && rows[i].identity == id && rows[i].When() == Latest(LogOf(rows), id).value
  {
    var init, last := rows[..|rows| - 1], rows[|rows| - 1];
    LatestSnoc(LogOf(init), Transition(last), id);
    if Latest(LogOf(rows), id) == Some(last.When()) && last.identity == id {
      assert rows[|rows| - 1].When() == Latest(LogOf(rows), id).value;
    } else {
      LatestIsARow(init, id);
    }
  }

  lemma {:induction false} KeysOfRows(rows: seq<Row>, key: Key)
    ensures key in Keys(LogOf(rows)) <==> exists i :: 0 <= i < |rows| && rows[i].TransitionKey() == key
  {
    if rows != [] {
      var init, last := rows[..|rows| - 1], rows[|rows| - 1];
      KeysOfRows(init, key);
      KeysSnoc(LogOf(init), Transition(last));
      assert rows == init + [last];
    }
  }

  function Fires(id: Identity, at: Second, networks: seq<string>): Row { Row(id, "alerting", at, Condition, networks) }

  function Resolved(id: Identity, at: Second, networks: seq<string>): Row { Row(id, "normal", at, Normal, networks) }

  lemma {:induction false} OneMoreState(rows: seq<Row>, r: Row)
    requires Recordable(rows) && r.to != Normal
    requires forall i :: 0 <= i < |rows| ==> rows[i].at < r.at
    ensures Recordable(rows + [r])
  {
    RecordableSnoc(rows, r);
    KeysOfRows(rows, r.TransitionKey());
  }

  lemma {:induction false} OneMoreResolve(rows: seq<Row>, state: Row, r: Row)
    requires Recordable(rows + [state]) && state.to != Normal && r.to == Normal
    requires state.identity == r.identity && state.at < r.at
    requires forall i :: 0 <= i < |rows| ==> rows[i].at < state.at
    ensures Recordable(rows + [state] + [r])
  {
    var all := rows + [state];
    RecordableSnoc(all, r);
    KeysOfRows(all, r.TransitionKey());
    ResolveAdmitted(rows, state, r);
  }

  lemma {:induction false} TwoRecordable(f: Row, n: Row)
    requires f.identity == n.identity && f.to != Normal && n.to == Normal && f.at < n.at
    ensures Recordable([f, n])
  {
    OneMoreState([], f);
    OneMoreResolve([], f, n);
    assert [] + [f] + [n] == [f, n];
  }

  lemma {:induction false} TwoMore(rows: seq<Row>, g: Row, m: Row)
    requires Recordable(rows) && forall i :: 0 <= i < |rows| ==> rows[i].at < g.at
    requires g.identity == m.identity && g.to != Normal && m.to == Normal && g.at < m.at
    ensures Recordable(rows + [g] + [m])
  {
    OneMoreState(rows, g);
    OneMoreResolve(rows, g, m);
  }

  lemma {:induction false} InARow(f: Row, n: Row, g: Row, m: Row, rows: seq<Row>)
    requires rows == [f, n, g, m]
    ensures [f, n] + [g] + [m] == rows
  {
  }

  lemma {:induction false} FourRecordable(f: Row, n: Row, g: Row, m: Row, two: seq<Row>, rows: seq<Row>)
    requires f.identity == n.identity == g.identity == m.identity
    requires f.to != Normal && n.to == Normal && g.to != Normal && m.to == Normal && f.at < n.at < g.at < m.at
    requires two == [f, n] && rows == two + [g] + [m]
    ensures Recordable(rows)
  {
    TwoRecordable(f, n);
    assert two[0].at < g.at && two[1].at < g.at;
    TwoMore(two, g, m);
  }

  // A row of one network is due when it is older than that network keeps rows.
  lemma {:induction false} DueOfOne(r: Row, now: real, retention: map<string, int>, network: string)
    requires Networks(r) == [network] && r.at >= Calendar.FIRST_SECOND
    ensures Due(r, now, retention) <==> now - r.at as real > (Retention(retention, network) * Calendar.DAY) as real
  {
    assert Longest(retention, [network]) == Retention(retention, network);
  }

  lemma {:induction false} FirstOfTwoIsDue(f: Row, n: Row, now: real)
    requires f.networks == [] && n.networks == [] && f.at == Calendar.FIRST_SECOND && n.at == f.at + 10
    requires now == (f.at + 90 * Calendar.DAY + 5) as real
    ensures Sorting.Filter([f, n], DueHere(now, map[], "")) == [f]
  {
    DueOfOne(f, now, map[], "");
    DueOfOne(n, now, map[], "");
    FilterTwo(f, n, DueHere(now, map[], ""));
  }

  lemma {:induction false} AllButTheFirst(f: Row, n: Row)
    requires f.at < n.at
    ensures Sorting.Filter([f, n], NotIn({f.TransitionKey()})) == [n]
  {
    FilterTwo(f, n, NotIn({f.TransitionKey()}));
  }

  lemma {:induction false} FirstOfTwoGoes(f: Row, n: Row, now: real) returns (steps: seq<Step>, t: State)
    requires f.identity == n.identity && f.to != Normal && n.to == Normal && f.networks == [] && n.networks == []
    requires f.at == Calendar.FIRST_SECOND && n.at == f.at + 10 && now == (f.at + 90 * Calendar.DAY + 5) as real
    ensures Runs(EMPTY, steps, t) && Flagged(steps) && Served(t.log) == [n]
  {
    TwoRecordable(f, n);
    FirstOfTwoIsDue(f, n, now);
    steps, t := RecordsAndMovesOne([f, n], f, now, map[], "");
    AllButTheFirst(f, n);
  }

  // Retention can move the state that began an episode and leave its resolve, which then closes
  // nothing: fired at the first second of 2000, resolved ten seconds later, and moved between the
  // ninetieth days of the two.
  lemma {:induction false} ExpiryCanStrandAResolve(id: Identity) returns (steps: seq<Step>, t: State, resolved: Row)
    ensures Runs(EMPTY, steps, t) && Flagged(steps)
    ensures Served(t.log) == [resolved] && IsResolve(resolved, id) && resolved.at >= Calendar.FIRST_SECOND
    ensures EpisodesOf(Served(t.log), id) == []
  {
    var at := Calendar.FIRST_SECOND;
    resolved := Resolved(id, at + 10, []);
    steps, t := FirstOfTwoGoes(Fires(id, at, []), resolved, (at + 90 * Calendar.DAY + 5) as real);
    OrderedAsGiven([resolved], id);
    AloneIsStray(resolved);
  }

  lemma {:induction false} ThirdOfFourIsDue(f: Row, n: Row, g: Row, m: Row, now: real, retention: map<string, int>)
    requires f.networks == ["b"] && n.networks == ["b"] && g.networks == ["a"] && m.networks == ["b"]
    requires Calendar.FIRST_SECOND < f.at && f.at < n.at < g.at < m.at <= Calendar.FIRST_SECOND + 4
    requires now == (Calendar.FIRST_SECOND + 2 * Calendar.DAY) as real && retention == map["a" := 1, "b" := 365]
    ensures Sorting.Filter([f, n, g, m], DueHere(now, retention, "a")) == [g]
  {
    DueOfOne(f, now, retention, "b");
    DueOfOne(n, now, retention, "b");
    DueOfOne(g, now, retention, "a");
    DueOfOne(m, now, retention, "b");
    FilterFour(f, n, g, m, DueHere(now, retention, "a"));
  }

  lemma {:induction false} AllButTheThird(f: Row, n: Row, g: Row, m: Row)
    requires f.at < n.at < g.at < m.at
    ensures Sorting.Filter([f, n, g, m], NotIn({g.TransitionKey()})) == [f, n, m]
  {
    FilterFour(f, n, g, m, NotIn({g.TransitionKey()}));
  }

  lemma {:induction false} ThirdOfFourGoes(f: Row, n: Row, g: Row, m: Row, now: real, retention: map<string, int>)
      returns (steps: seq<Step>, t: State)
    requires f.identity == n.identity == g.identity == m.identity
    requires f.to != Normal && n.to == Normal && g.to != Normal && m.to == Normal
    requires f.networks == ["b"] && n.networks == ["b"] && g.networks == ["a"] && m.networks == ["b"]
    requires Calendar.FIRST_SECOND < f.at && f.at < n.at < g.at < m.at <= Calendar.FIRST_SECOND + 4
    requires now == (Calendar.FIRST_SECOND + 2 * Calendar.DAY) as real && retention == map["a" := 1, "b" := 365]
    ensures Runs(EMPTY, steps, t) && Flagged(steps) && Served(t.log) == [f, n, m]
  {
    InARow(f, n, g, m, [f, n, g, m]);
    FourRecordable(f, n, g, m, [f, n], [f, n, g, m]);
    ThirdOfFourIsDue(f, n, g, m, now, retention);
    steps, t := RecordsAndMovesOne([f, n, g, m], g, now, retention, "a");
    AllButTheThird(f, n, g, m);
  }

  // Where an instance's rows name different networks, a later resolve can be left closing nothing
  // too: two episodes, and of the second one the state is of a network that keeps rows a day only.
  lemma {:induction false} ExpiryCanStrandALaterResolve(id: Identity)
      returns (steps: seq<Step>, t: State, fired: Row, resolved: Row, later: Row)
    ensures Runs(EMPTY, steps, t) && Flagged(steps)
    ensures Served(t.log) == [fired, resolved, later]
    ensures IsState(fired, id) && IsResolve(resolved, id) && IsResolve(later, id) && fired.at >= Calendar.FIRST_SECOND
    ensures Ordered(Served(t.log), id) == Served(t.log) && Stray(Ordered(Served(t.log), id), 2)
    ensures ResolvesIn(EpisodesOf(Served(t.log), id)) == [resolved]
  {
    var at := Calendar.FIRST_SECOND;
    fired, resolved, later := Fires(id, at + 1, ["b"]), Resolved(id, at + 2, ["b"]), Resolved(id, at + 4, ["b"]);
    steps, t := ThirdOfFourGoes(fired, resolved, Fires(id, at + 3, ["a"]), later, (at + 2 * Calendar.DAY) as real,
                                map["a" := 1, "b" := 365]);
    OrderedAsGiven([fired, resolved, later], id);
    SecondIsStray(fired, resolved, later);
  }

  lemma {:induction false} SecondIsStray(fired: Row, resolved: Row, later: Row)
    requires fired.to != Normal && resolved.to == Normal && later.to == Normal
    ensures ResolvesIn(FoldFrom([], [fired, resolved, later])) == [resolved]
  {
    FoldClosesThese([], [fired, resolved, later]);
    assert [fired, resolved, later][1..] == [resolved, later] && [resolved, later][1..] == [later]
        && [later][1..] == [];
    assert Closing(false, [later]) == [];
    assert Closing(true, [resolved, later]) == [resolved];
  }
}
