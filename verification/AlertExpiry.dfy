// `expire` beside `record`: the read outside the lock, the put, the marker under the lock, as
// separate steps of any number of processes, each of which may die between two of its steps.
module AlertExpiry {
  import opened Wrappers
  import opened AlertLog
  import opened AlertGate
  import opened AlertEpisodes
  import opened Calendar
  import Sorting

  // One network's due rows, in the order they were recorded.
  datatype Group = Group(network: string, rows: seq<Row>)

  // What an expiring process has yet to do. `put` says that the first group's put returned.
  datatype Plan = Plan(groups: seq<Group>, put: bool)

  datatype Put = Put(name: ArchiveName, rows: seq<Row>)

  // `puts` is the history of the puts that returned, `reached` of those the archive stored, whether
  // they returned or raised; `archive` is what the objects hold now.
  datatype State = State(log: seq<Entry>, archive: map<ArchiveName, seq<Row>>, puts: seq<Put>,
                         reached: seq<Put>, plans: map<nat, Plan>)

  const EMPTY := State([], map[], [], [], map[])

  datatype Step =
    | Records(delivery: Delivery)
    | Begins(process: nat, now: real, retention: map<string, int>, networks: seq<string>)
    // No archive is configured, or the put raised: with the object stored all the same, or not.
    | NotArchived(process: nat, stored: bool)
    | PutReturns(process: nat)
    | MarksMoved(process: nat)
    | Dies(process: nat)

  const RETENTION_DAYS := 90

  // A network's retention in days: its own setting or the default, never under one.
  function Retention(retention: map<string, int>, network: string): nat {
    var days := if network in retention && retention[network] != 0 then retention[network] else RETENTION_DAYS;
    if days < 1 then 1 else days
  }

  function Networks(r: Row): seq<string> { if r.networks == [] then [""] else r.networks }

  function Longest(retention: map<string, int>, nets: seq<string>): (days: nat)
    requires nets != []
    ensures forall n :: n in nets ==> Retention(retention, n) <= days
    ensures exists n :: n in nets && Retention(retention, n) == days
  {
    var first := Retention(retention, nets[0]);
    if |nets| == 1 then first
    else
      var rest := Longest(retention, nets[1..]);
      if first < rest then rest else first
  }

  // Due by Grafana's time. A time before 2000 is no time, so such a row is never due.
  predicate Due(r: Row, now: real, retention: map<string, int>) {
    r.at >= FIRST_SECOND && now - r.at as real > (Longest(retention, Networks(r)) * DAY) as real
  }

  function DueHere(now: real, retention: map<string, int>, network: string): Row -> bool {
    (r: Row) => Due(r, now, retention) && Networks(r)[0] == network
  }

  function DueIn(log: seq<Entry>, now: real, retention: map<string, int>, network: string): Group {
    Group(network, Sorting.Filter(Served(log), DueHere(now, retention, network)))
  }

  function NameOf(g: Group): ArchiveName
    requires g.rows != []
  {
    ArchiveName(if g.network == "" then "Default" else g.network,
                g.rows[0].at, g.rows[|g.rows| - 1].at, |g.rows|)
  }

  function KeyOfRow(r: Row): Key { r.TransitionKey() }

  predicate HasWork(s: State, p: nat) { p in s.plans && s.plans[p].groups != [] && s.plans[p].groups[0].rows != [] }

  predicate Enabled(s: State, step: Step) {
    match step
    case Records(_) => true
    case Begins(p, now, retention, networks) =>
      p !in s.plans && forall i :: 0 <= i < |networks| ==> DueIn(s.log, now, retention, networks[i]).rows != []
    case NotArchived(p, _) => HasWork(s, p) && !s.plans[p].put
    case PutReturns(p) => HasWork(s, p) && !s.plans[p].put
    case MarksMoved(p) => HasWork(s, p) && s.plans[p].put
    case Dies(p) => p in s.plans
  }

  // The object of this name holds these rows, whatever it held.
  function Stores(s: State, g: Group): State
    requires g.rows != []
  {
    s.(archive := s.archive[NameOf(g) := g.rows], reached := s.reached + [Put(NameOf(g), g.rows)])
  }

  function Do(s: State, step: Step): State
    requires Enabled(s, step)
  {
    match step
    case Records(d) => s.(log := Deliver(s.log, d))
    case Begins(p, now, retention, networks) =>
      var groups := Sorting.Map(networks, (n: string) => DueIn(s.log, now, retention, n));
      s.(plans := s.plans[p := Plan(groups, false)])
    case NotArchived(p, stored) =>
      var g := s.plans[p].groups[0];
      (if stored then Stores(s, g) else s).(plans := s.plans[p := Plan(s.plans[p].groups[1..], false)])
    case PutReturns(p) =>
      var g := s.plans[p].groups[0];
      Stores(s, g).(
         puts := s.puts + [Put(NameOf(g), g.rows)],
         plans := s.plans[p := Plan(s.plans[p].groups, true)])
    case MarksMoved(p) =>
      var g := s.plans[p].groups[0];
      s.(log := s.log + [Moved(Sorting.Map(g.rows, KeyOfRow), NameOf(g))],
         plans := s.plans[p := Plan(s.plans[p].groups[1..], false)])
    case Dies(p) => s.(plans := s.plans - {p})
  }

  ghost predicate Runs(s: State, steps: seq<Step>, t: State)
    decreases |steps|
  {
    if steps == [] then s == t
    else Enabled(s, steps[0]) && Runs(Do(s, steps[0]), steps[1..], t)
  }

  // ------------------------------------------------------------------ what every step keeps

  ghost predicate InLog(rows: seq<Row>, log: seq<Entry>) {
    forall i :: 0 <= i < |rows| ==> rows[i] in Rows(log)
  }

  ghost predicate PutOf(puts: seq<Put>, name: ArchiveName, rows: seq<Row>) {
    exists i :: 0 <= i < |puts| && puts[i] == Put(name, rows)
  }

  ghost predicate PlanHonest(s: State, plan: Plan) {
    && (forall i :: 0 <= i < |plan.groups| ==> plan.groups[i].rows != [] && InLog(plan.groups[i].rows, s.log))
    && (plan.put ==> plan.groups != [] && PutOf(s.puts, NameOf(plan.groups[0]), plan.groups[0].rows))
  }

  // A marker names what one put held: it was written after that put returned.
  ghost predicate MarkerHonest(puts: seq<Put>, e: Entry) {
    e.Moved? ==> exists i :: 0 <= i < |puts| && puts[i].name == e.archived
                             && Sorting.Map(puts[i].rows, KeyOfRow) == e.keys
  }

  ghost predicate Inv(s: State) {
    && DistinctKeys(Rows(s.log))
    && (forall p :: p in s.plans ==> PlanHonest(s, s.plans[p]))
    && (forall i :: 0 <= i < |s.log| ==> MarkerHonest(s.puts, s.log[i]))
    && (forall i :: 0 <= i < |s.puts| ==> InLog(s.puts[i].rows, s.log))
  }

  lemma {:induction false} RowsGrow(log: seq<Entry>, more: seq<Entry>)
    ensures Rows(log) <= Rows(log + more)
  {
    if more == [] {
      assert log + more == log;
    } else {
      assert (log + more)[..|log + more| - 1] == log + more[..|more| - 1];
      RowsGrow(log, more[..|more| - 1]);
    }
  }

  lemma {:induction false} LogGrows(s: State, step: Step)
    requires Enabled(s, step)
    ensures s.log <= Do(s, step).log && Rows(s.log) <= Rows(Do(s, step).log)
  {
    if step.Records? {
      TakeAllGrows(s.log, Judged(step.delivery));
    }
    RowsGrow(s.log, Do(s, step).log[|s.log|..]);
    assert s.log + Do(s, step).log[|s.log|..] == Do(s, step).log;
  }

  lemma {:induction false} TakeAllAppendsRows(log: seq<Entry>, batch: seq<Arrival>)
    ensures log <= TakeAll(log, batch)
    ensures forall i :: |log| <= i < |TakeAll(log, batch)| ==> TakeAll(log, batch)[i].Transition?
  {
    if batch != [] {
      TakeAllAppendsRows(log, batch[..|batch| - 1]);
    }
  }

  lemma {:induction false} InLogStays(rows: seq<Row>, log: seq<Entry>, more: seq<Entry>)
    requires InLog(rows, log) && Rows(log) <= Rows(more)
    ensures InLog(rows, more)
  {
    forall i | 0 <= i < |rows| ensures rows[i] in Rows(more) {
      var k :| 0 <= k < |Rows(log)| && Rows(log)[k] == rows[i];
      assert Rows(more)[k] == rows[i];
    }
  }

  lemma {:induction false} DueInLog(log: seq<Entry>, now: real, retention: map<string, int>, network: string)
    ensures InLog(DueIn(log, now, retention, network).rows, log)
  {
    var g := DueIn(log, now, retention, network);
    Sorting.FilterIn(Served(log), DueHere(now, retention, network));
    Sorting.FilterIn(Rows(log), NotIn(MovedKeys(log)));
    forall i | 0 <= i < |g.rows| ensures g.rows[i] in Rows(log) {
      assert g.rows[i] in Served(log);
    }
  }

  lemma {:induction false} PutOfStays(puts: seq<Put>, more: seq<Put>, name: ArchiveName, rows: seq<Row>)
    requires PutOf(puts, name, rows) && puts <= more
    ensures PutOf(more, name, rows)
  {
    var i :| 0 <= i < |puts| && puts[i] == Put(name, rows);
    assert more[i] == puts[i];
  }

  lemma {:induction false} MarkerStays(puts: seq<Put>, more: seq<Put>, e: Entry)
    requires MarkerHonest(puts, e) && puts <= more
    ensures MarkerHonest(more, e)
  {
    if e.Moved? {
      var i :| 0 <= i < |puts| && puts[i].name == e.archived && Sorting.Map(puts[i].rows, KeyOfRow) == e.keys;
      assert more[i] == puts[i];
    }
  }

  lemma {:induction false} PlanStays(s: State, t: State, plan: Plan)
    requires PlanHonest(s, plan) && s.puts <= t.puts && Rows(s.log) <= Rows(t.log)
    ensures PlanHonest(t, plan)
  {
    forall i | 0 <= i < |plan.groups| ensures InLog(plan.groups[i].rows, t.log) {
      InLogStays(plan.groups[i].rows, s.log, t.log);
    }
    if plan.put {
      PutOfStays(s.puts, t.puts, NameOf(plan.groups[0]), plan.groups[0].rows);
    }
  }

  lemma {:induction false} StepKeepsKeys(s: State, step: Step)
    requires Inv(s) && Enabled(s, step)
    ensures DistinctKeys(Rows(Do(s, step).log))
  {
    match step
    case Records(d) => TakeAllKeepsKeys(s.log, Judged(d));
    case MarksMoved(p) =>
      var t := Do(s, step);
      assert t.log[..|s.log|] == s.log;
    case _ =>
  }

  lemma {:induction false} StepKeepsPlans(s: State, step: Step, p: nat)
    requires Inv(s) && Enabled(s, step) && p in Do(s, step).plans
    ensures PlanHonest(Do(s, step), Do(s, step).plans[p])
  {
    var t := Do(s, step);
    LogGrows(s, step);
    if p in s.plans {
      PlanStays(s, t, s.plans[p]);
    }
    match step
    case Begins(q, now, retention, networks) =>
      if p == q {
        forall i | 0 <= i < |networks| ensures InLog(t.plans[p].groups[i].rows, t.log) {
          DueInLog(s.log, now, retention, networks[i]);
        }
      }
    case PutReturns(q) =>
      var g := s.plans[q].groups[0];
      assert t.puts[|s.puts|] == Put(NameOf(g), g.rows);
    case _ =>
  }

  lemma {:induction false} StepKeepsMarkers(s: State, step: Step, i: nat)
    requires Inv(s) && Enabled(s, step) && i < |Do(s, step).log|
    ensures MarkerHonest(Do(s, step).puts, Do(s, step).log[i])
  {
    var t := Do(s, step);
    LogGrows(s, step);
    if i < |s.log| {
      assert t.log[i] == s.log[i];
      MarkerStays(s.puts, t.puts, s.log[i]);
    } else {
      match step
      case Records(d) => TakeAllAppendsRows(s.log, Judged(d));
      case MarksMoved(p) =>
        var g := s.plans[p].groups[0];
        assert PlanHonest(s, s.plans[p]);
        var k :| 0 <= k < |s.puts| && s.puts[k] == Put(NameOf(g), g.rows);
    }
  }

  lemma {:induction false} StepKeepsInv(s: State, step: Step)
    requires Inv(s) && Enabled(s, step)
    ensures Inv(Do(s, step))
  {
    var t := Do(s, step);
    LogGrows(s, step);
    StepKeepsKeys(s, step);
    forall p | p in t.plans ensures PlanHonest(t, t.plans[p]) {
      StepKeepsPlans(s, step, p);
    }
    forall i | 0 <= i < |t.log| ensures MarkerHonest(t.puts, t.log[i]) {
      StepKeepsMarkers(s, step, i);
    }
    forall i | 0 <= i < |t.puts| ensures InLog(t.puts[i].rows, t.log) {
      if i < |s.puts| {
        InLogStays(s.puts[i].rows, s.log, t.log);
      } else {
        assert PlanHonest(s, s.plans[step.process]);
      }
    }
  }

  lemma {:induction false} RunKeepsInv(s: State, steps: seq<Step>, t: State)
    requires Inv(s) && Runs(s, steps, t)
    ensures Inv(t) && Rows(s.log) <= Rows(t.log)
    decreases |steps|
  {
    if steps != [] {
      StepKeepsInv(s, steps[0]);
      LogGrows(s, steps[0]);
      RunKeepsInv(Do(s, steps[0]), steps[1..], t);
    }
  }

  // ------------------------------------------------------------------ what runs guarantee

  lemma {:induction false} StartInv()
    ensures Inv(EMPTY)
  {
  }

  // However recording and expiring interleave, and wherever a process dies: no transition is
  // ever in the log twice, moved ones included, so none is recorded again after it moved.
  lemma {:induction false} NeverRecordedAgain(steps: seq<Step>, t: State)
    requires Runs(EMPTY, steps, t)
    ensures DistinctKeys(Rows(t.log))
  {
    StartInv();
    RunKeepsInv(EMPTY, steps, t);
  }

  // A row named by a marker was in a put, whole, before the marker was written.
  lemma {:induction false} MovedWasPut(s: State, r: Row)
    requires Inv(s) && r in Rows(s.log) && r.TransitionKey() in MovedKeys(s.log)
    ensures exists i :: 0 <= i < |s.puts| && r in s.puts[i].rows
  {
    var e, j :| 0 <= e < |s.log| && s.log[e].Moved? && 0 <= j < |s.log[e].keys|
        && s.log[e].keys[j] == r.TransitionKey();
    assert MarkerHonest(s.puts, s.log[e]);
    var i :| 0 <= i < |s.puts| && s.puts[i].name == s.log[e].archived
             && Sorting.Map(s.puts[i].rows, KeyOfRow) == s.log[e].keys;
    var q := s.puts[i].rows[j];
    assert q.TransitionKey() == r.TransitionKey();
    assert InLog(s.puts[i].rows, s.log);
    var a :| 0 <= a < |Rows(s.log)| && Rows(s.log)[a] == q;
    var b :| 0 <= b < |Rows(s.log)| && Rows(s.log)[b] == r;
    assert a == b;
  }

  // A row ever recorded is, at the end of every run, served still or in a put that returned.
  lemma {:induction false} NothingIsLost(before: seq<Step>, s: State, after: seq<Step>, t: State, r: Row)
    requires Runs(EMPTY, before, s) && Runs(s, after, t)
    requires r in Rows(s.log)
    ensures r in Served(t.log)
         || (r.TransitionKey() in MovedKeys(t.log) && exists i :: 0 <= i < |t.puts| && r in t.puts[i].rows)
  {
    StartInv();
    RunKeepsInv(EMPTY, before, s);
    RunKeepsInv(s, after, t);
    var a :| 0 <= a < |Rows(s.log)| && Rows(s.log)[a] == r;
    assert Rows(t.log)[a] == r;
    Sorting.FilterHolds(Rows(t.log), NotIn(MovedKeys(t.log)), r);
    if r.TransitionKey() in MovedKeys(t.log) {
      MovedWasPut(t, r);
    }
  }

  lemma {:induction false} TakeAllKeepsMovedKeys(log: seq<Entry>, batch: seq<Arrival>)
    ensures MovedKeys(TakeAll(log, batch)) == MovedKeys(log)
  {
    if batch != [] {
      var mid := TakeAll(log, batch[..|batch| - 1]);
      TakeAllKeepsMovedKeys(log, batch[..|batch| - 1]);
      var next := Take(mid, batch[|batch| - 1]);
      assert forall i :: 0 <= i < |mid| ==> next[i] == mid[i];
      forall k | k in MovedKeys(mid) ensures k in MovedKeys(next) {
        var i, j :| 0 <= i < |mid| && mid[i].Moved? && 0 <= j < |mid[i].keys| && mid[i].keys[j] == k;
        assert next[i].keys[j] == k;
      }
      forall k | k in MovedKeys(next) ensures k in MovedKeys(mid) {
        var i, j :| 0 <= i < |next| && next[i].Moved? && 0 <= j < |next[i].keys| && next[i].keys[j] == k;
        assert mid[i].keys[j] == k;
      }
    }
  }

  // A row stops being served at a marker alone, and only after a put holding it returned.
  lemma {:induction false} StopsOnlyAfterItsPut(s: State, step: Step, r: Row)
    requires Inv(s) && Enabled(s, step)
    requires r in Served(s.log) && r !in Served(Do(s, step).log)
    ensures step.MarksMoved?
    ensures exists i :: 0 <= i < |s.puts| && r in s.puts[i].rows
  {
    var t := Do(s, step);
    LogGrows(s, step);
    StepKeepsInv(s, step);
    Sorting.FilterHolds(Rows(s.log), NotIn(MovedKeys(s.log)), r);
    Sorting.FilterHolds(Rows(t.log), NotIn(MovedKeys(t.log)), r);
    var a :| 0 <= a < |Rows(s.log)| && Rows(s.log)[a] == r;
    assert Rows(t.log)[a] == r;
    assert r.TransitionKey() in MovedKeys(t.log);
    if step.Records? {
      TakeAllKeepsMovedKeys(s.log, Judged(step.delivery));
    }
    MovedWasPut(t, r);
  }

  // ------------------------------------------------------------------ the archive's names

  ghost predicate LastPutWins(s: State) {
    && (forall n :: n in s.archive ==> PutOf(s.reached, n, s.archive[n]))
    && (forall i :: 0 <= i < |s.reached| ==> s.reached[i].name in s.archive)
    && (forall i :: 0 <= i < |s.puts| ==> PutOf(s.reached, s.puts[i].name, s.puts[i].rows))
  }

  lemma {:induction false} StoresKeepsLast(s: State, g: Group)
    requires LastPutWins(s) && g.rows != []
    ensures LastPutWins(Stores(s, g)) && PutOf(Stores(s, g).reached, NameOf(g), g.rows)
  {
    var u := Stores(s, g);
    assert u.reached[|s.reached|] == Put(NameOf(g), g.rows);
    forall n | n in u.archive ensures PutOf(u.reached, n, u.archive[n]) {
      if n != NameOf(g) {
        PutOfStays(s.reached, u.reached, n, s.archive[n]);
      }
    }
    forall i | 0 <= i < |s.puts| ensures PutOf(u.reached, s.puts[i].name, s.puts[i].rows) {
      PutOfStays(s.reached, u.reached, s.puts[i].name, s.puts[i].rows);
    }
  }

  lemma {:induction false} StepKeepsLast(s: State, step: Step)
    requires LastPutWins(s) && Enabled(s, step)
    ensures LastPutWins(Do(s, step))
  {
    if step.PutReturns? || (step.NotArchived? && step.stored) {
      StoresKeepsLast(s, s.plans[step.process].groups[0]);
    }
  }

  lemma {:induction false} RunKeepsArchive(s: State, steps: seq<Step>, t: State)
    requires LastPutWins(s) && Runs(s, steps, t)
    ensures LastPutWins(t)
    decreases |steps|
  {
    if steps != [] {
      StepKeepsLast(s, steps[0]);
      RunKeepsArchive(Do(s, steps[0]), steps[1..], t);
    }
  }

  // Every put in the history is in the archive whole, under its name.
  ghost predicate HeldWhole(puts: seq<Put>, archive: map<ArchiveName, seq<Row>>) {
    forall i :: 0 <= i < |puts| ==> puts[i].name in archive && archive[puts[i].name] == puts[i].rows
  }

  ghost predicate NamesDiffer(puts: seq<Put>) {
    forall i, j :: 0 <= i < |puts| && 0 <= j < |puts| && puts[i].name == puts[j].name ==> puts[i].rows == puts[j].rows
  }

  // An object is named by its first time, last time and count alone. At the end of a run the
  // archive holds whole all that ever reached it exactly when no two puts that reached it, returned
  // or not, shared a name and differed; and then it holds every put that returned.
  lemma {:induction false} ArchiveHoldsEveryPutIff(steps: seq<Step>, t: State)
    requires Runs(EMPTY, steps, t)
    ensures HeldWhole(t.reached, t.archive) <==> NamesDiffer(t.reached)
    ensures NamesDiffer(t.reached) ==> HeldWhole(t.puts, t.archive)
  {
    RunKeepsArchive(EMPTY, steps, t);
    if NamesDiffer(t.reached) {
      forall i | 0 <= i < |t.reached| ensures t.archive[t.reached[i].name] == t.reached[i].rows {
        assert PutOf(t.reached, t.reached[i].name, t.archive[t.reached[i].name]);
        var j :| 0 <= j < |t.reached| && t.reached[j] == Put(t.reached[i].name, t.archive[t.reached[i].name]);
      }
      forall i | 0 <= i < |t.puts| ensures t.puts[i].name in t.archive && t.archive[t.puts[i].name] == t.puts[i].rows {
        assert PutOf(t.reached, t.puts[i].name, t.puts[i].rows);
        var j :| 0 <= j < |t.reached| && t.reached[j] == Put(t.puts[i].name, t.puts[i].rows);
      }
    }
  }

  // Where names tell the puts apart nothing is lost at all: a row ever recorded is served still, or an
  // object holds it at the end of the run.
  lemma {:induction false} NothingIsLostWhereNamesDiffer(before: seq<Step>, s: State, after: seq<Step>, t: State,
                                                         r: Row)
    requires Runs(EMPTY, before, s) && Runs(s, after, t)
    requires r in Rows(s.log) && NamesDiffer(t.reached)
    ensures r in Served(t.log) || exists n :: n in t.archive && r in t.archive[n]
  {
    NothingIsLost(before, s, after, t, r);
    RunsOn(EMPTY, before, s, after, t);
    ArchiveHoldsEveryPutIff(before + after, t);
    if r !in Served(t.log) {
      var i :| 0 <= i < |t.puts| && r in t.puts[i].rows;
      assert r in t.archive[t.puts[i].name];
    }
  }

  // What the last put to reach a name held, if one did.
  function LastTo(reached: seq<Put>, n: ArchiveName): Option<seq<Row>> {
    if reached == [] then None
    else if reached[|reached| - 1].name == n then Some(reached[|reached| - 1].rows)
    else LastTo(reached[..|reached| - 1], n)
  }

  ghost predicate HoldsTheLast(s: State) {
    forall n :: LastTo(s.reached, n) == if n in s.archive then Some(s.archive[n]) else None
  }

  lemma {:induction false} StoresHoldsTheLast(s: State, g: Group)
    requires HoldsTheLast(s) && g.rows != []
    ensures HoldsTheLast(Stores(s, g))
  {
    assert Stores(s, g).reached[..|s.reached|] == s.reached;
  }

  lemma {:induction false} RunHoldsTheLast(s: State, steps: seq<Step>, t: State)
    requires HoldsTheLast(s) && Runs(s, steps, t)
    ensures HoldsTheLast(t)
    decreases |steps|
  {
    if steps != [] {
      if steps[0].PutReturns? || (steps[0].NotArchived? && steps[0].stored) {
        StoresHoldsTheLast(s, s.plans[steps[0].process].groups[0]);
      }
      RunHoldsTheLast(Do(s, steps[0]), steps[1..], t);
    }
  }

  // Of the puts that returned: the archive holds them whole exactly when the last put to reach each
  // one's name, returned or raised, held the same rows.
  lemma {:induction false} ArchiveHoldsReturnedPutsIff(steps: seq<Step>, t: State)
    requires Runs(EMPTY, steps, t)
    ensures HeldWhole(t.puts, t.archive)
       <==> forall i :: 0 <= i < |t.puts| ==> LastTo(t.reached, t.puts[i].name) == Some(t.puts[i].rows)
  {
    RunHoldsTheLast(EMPTY, steps, t);
    forall i | 0 <= i < |t.puts|
      ensures LastTo(t.reached, t.puts[i].name) == Some(t.puts[i].rows)
         <==> t.puts[i].name in t.archive && t.archive[t.puts[i].name] == t.puts[i].rows
    {
      var n := t.puts[i].name;
      assert LastTo(t.reached, n) == if n in t.archive then Some(t.archive[n]) else None;
    }
  }

  function SoleArrival(r: Row): Delivery { Delivery([Arrival(r, false)], 1) }

  lemma {:induction false} TakesNew(log: seq<Entry>, r: Row)
    requires r.TransitionKey() !in Keys(log)
    ensures Take(log, Arrival(r, false)) == log + [Transition(r)]
  {
  }

  lemma {:induction false} RecordsOne(log: seq<Entry>, r: Row)
    requires r.TransitionKey() !in Keys(log)
    ensures Deliver(log, SoleArrival(r)) == log + [Transition(r)]
  {
    var a := Arrival(r, false);
    AloneInOrder(a);
    assert [a][..1] == [a];
    TakesAlone(log, a);
    TakesNew(log, r);
  }

  // One process moving the one row that is due in a network: due, put, marked.
  function Only(network: string, r: Row): Group { Group(network, [r]) }

  function OnlyName(network: string, r: Row): ArchiveName { NameOf(Only(network, r)) }

  // The row is all that is due in the network.
  ghost predicate DueAlone(log: seq<Entry>, now: real, retention: map<string, int>, network: string, r: Row) {
    DueIn(log, now, retention, network) == Only(network, r)
  }

  lemma {:induction false} BeginsOne(s: State, p: nat, r: Row, now: real, retention: map<string, int>, network: string)
    requires p !in s.plans && DueAlone(s.log, now, retention, network, r)
    ensures Enabled(s, Begins(p, now, retention, [network]))
    ensures Do(s, Begins(p, now, retention, [network])) == s.(plans := s.plans[p := Plan([Only(network, r)], false)])
  {
    assert Do(s, Begins(p, now, retention, [network])).plans[p].groups == [Only(network, r)];
  }

  lemma {:induction false} PutsOne(s: State, p: nat, r: Row, network: string)
    requires p in s.plans && s.plans[p] == Plan([Only(network, r)], false)
    ensures Enabled(s, PutReturns(p))
    ensures Do(s, PutReturns(p)).log == s.log && Do(s, PutReturns(p)).archive == s.archive[OnlyName(network, r) := [r]]
    ensures Do(s, PutReturns(p)).plans == s.plans[p := Plan([Only(network, r)], true)]
  {
  }

  lemma {:induction false} MarksOne(s: State, p: nat, r: Row, network: string)
    requires p in s.plans && s.plans[p] == Plan([Only(network, r)], true)
    ensures Enabled(s, MarksMoved(p))
    ensures Do(s, MarksMoved(p)) == s.(log := s.log + [Moved([r.TransitionKey()], OnlyName(network, r))],
              plans := s.plans[p := Plan([], false)])
  {
    assert Sorting.Map([r], KeyOfRow) == [r.TransitionKey()];
    assert [Only(network, r)][1..] == [];
  }

  lemma {:induction false} RunsThree(s: State, a: Step, b: Step, c: Step)
    requires Enabled(s, a) && Enabled(Do(s, a), b) && Enabled(Do(Do(s, a), b), c)
    ensures Runs(s, [a, b, c], Do(Do(Do(s, a), b), c))
  {
    RunsOne(Do(Do(s, a), b), c);
    assert [a, b, c][1..] == [b, c] && [b, c][1..] == [c];
  }

  function Moving(p: nat, now: real, retention: map<string, int>, network: string): seq<Step> {
    [Begins(p, now, retention, [network]), PutReturns(p), MarksMoved(p)]
  }

  lemma {:induction false} MovesOne(s: State, p: nat, r: Row, now: real, retention: map<string, int>, network: string)
      returns (t: State)
    requires p !in s.plans && DueAlone(s.log, now, retention, network, r)
    ensures Runs(s, Moving(p, now, retention, network), t)
    ensures t.archive == s.archive[OnlyName(network, r) := [r]]
    ensures t.log == s.log + [Moved([r.TransitionKey()], OnlyName(network, r))]
    ensures t.plans.Keys == s.plans.Keys + {p}
  {
    var begin, put, mark := Begins(p, now, retention, [network]), PutReturns(p), MarksMoved(p);
    BeginsOne(s, p, r, now, retention, network);
    var s1 := Do(s, begin);
    PutsOne(s1, p, r, network);
    var s2 := Do(s1, put);
    MarksOne(s2, p, r, network);
    RunsThree(s, begin, put, mark);
    t := Do(s2, mark);
  }

  lemma {:induction false} StepThenRuns(s: State, step: Step, next: State, rest: seq<Step>, t: State)
    requires Enabled(s, step) && next == Do(s, step) && Runs(next, rest, t)
    ensures Runs(s, [step] + rest, t)
  {
    assert ([step] + rest)[1..] == rest;
  }

  lemma {:induction false} RunsOn(s: State, first: seq<Step>, u: State, rest: seq<Step>, t: State)
    requires Runs(s, first, u) && Runs(u, rest, t)
    ensures Runs(s, first + rest, t)
    decreases |first|
  {
    if first == [] {
      assert first + rest == rest;
    } else {
      var next := Do(s, first[0]);
      RunsOn(next, first[1..], u, rest, t);
      StepThenRuns(s, first[0], next, first[1..] + rest, t);
      assert [first[0]] + (first[1..] + rest) == first + rest;
    }
  }

  lemma {:induction false} RunsOne(s: State, step: Step)
    requires Enabled(s, step)
    ensures Runs(s, [step], Do(s, step))
  {
    assert [step][1..] == [];
  }

  lemma {:induction false} MovedKeysSnoc(log: seq<Entry>, e: Entry)
    ensures MovedKeys(log + [e]) == MovedKeys(log) + if e.Moved? then (set j | 0 <= j < |e.keys| :: e.keys[j]) else {}
  {
    var more := log + [e];
    forall k | k in MovedKeys(log) ensures k in MovedKeys(more) {
      var i, j :| 0 <= i < |log| && log[i].Moved? && 0 <= j < |log[i].keys| && log[i].keys[j] == k;
      assert more[i].keys[j] == k;
    }
    if e.Moved? {
      forall j | 0 <= j < |e.keys| ensures e.keys[j] in MovedKeys(more) {
        assert more[|log|].keys[j] == e.keys[j];
      }
    }
    forall k | k in MovedKeys(more) ensures k in MovedKeys(log) || (e.Moved? && k in e.keys) {
      var i, j :| 0 <= i < |more| && more[i].Moved? && 0 <= j < |more[i].keys| && more[i].keys[j] == k;
      if i < |log| {
        assert log[i].keys[j] == k;
      }
    }
  }

  lemma {:induction false} ServedSnoc(log: seq<Entry>, r: Row)
    requires r.TransitionKey() !in MovedKeys(log)
    ensures Served(log + [Transition(r)]) == Served(log) + [r]
  {
    TakeRows(log, r);
    MovedKeysSnoc(log, Transition(r));
    assert MovedKeys(log + [Transition(r)]) == MovedKeys(log);
    Sorting.FilterSnoc(Rows(log), r, NotIn(MovedKeys(log)));
  }

  lemma {:induction false} ServedAllMoved(log: seq<Entry>, r: Row, name: ArchiveName)
    requires Rows(log) == [r]
    ensures Served(log + [Moved([r.TransitionKey()], name)]) == []
    ensures Rows(log + [Moved([r.TransitionKey()], name)]) == [r]
  {
    var e := Moved([r.TransitionKey()], name);
    MovedKeysSnoc(log, e);
    assert (log + [e])[..|log|] == log;
    assert e.keys[0] == r.TransitionKey();
    var gone := MovedKeys(log + [e]);
    assert Rows(log + [e]) == [r];
    Sorting.FilterSnoc([], r, NotIn(gone));
    assert [] + [r] == [r];
  }

  // What one process leaves when it records the row and moves it while nothing else is served.
  lemma {:induction false} RecordsAndMoves(s: State, p: nat, r: Row, now: real) returns (steps: seq<Step>, t: State)
    requires Served(s.log) == [] && p !in s.plans && r.networks == [] && Due(r, now, map[])
    requires r.TransitionKey() !in Keys(s.log) && r.TransitionKey() !in MovedKeys(s.log)
    ensures Runs(s, steps, t)
    ensures t.archive == s.archive[OnlyName("", r) := [r]]
    ensures t.log == s.log + [Transition(r)] + [Moved([r.TransitionKey()], OnlyName("", r))]
    ensures t.plans.Keys == s.plans.Keys + {p}
  {
    var record := Records(SoleArrival(r));
    RecordsOne(s.log, r);
    RunsOne(s, record);
    ServedSnoc(s.log, r);
    assert [] + [r] == [r];
    AlertEpisodes.AllKept([r], DueHere(now, map[], ""));
    t := MovesOne(Do(s, record), p, r, now, map[], "");
    steps := [record] + Moving(p, now, map[], "");
    RunsOn(s, [record], Do(s, record), Moving(p, now, map[], ""), t);
  }

  lemma {:induction false} OldIsDue(r: Row, now: real)
    requires r.networks == [] && r.at == FIRST_SECOND && now == (FIRST_SECOND + 91 * DAY) as real
    ensures Due(r, now, map[])
  {
  }

  // Two transitions of one second moved at different times share an object's name, and the
  // second put takes the first one's place: the first row is then neither served nor archived.
  lemma {:induction false} AnObjectCanBeOverwritten(a: Identity, b: Identity)
      returns (steps: seq<Step>, t: State, lost: Row)
    requires a != b
    ensures Runs(EMPTY, steps, t)
    ensures lost in Rows(t.log) && lost !in Served(t.log)
    ensures forall n :: n in t.archive ==> lost !in t.archive[n]
  {
    var first := Row(a, "alerting", FIRST_SECOND, Condition, []);
    var second := Row(b, "alerting", FIRST_SECOND, Condition, []);
    var now := (FIRST_SECOND + 91 * DAY) as real;
    var name := ArchiveName("Default", FIRST_SECOND, FIRST_SECOND, 1);
    OldIsDue(first, now);
    OldIsDue(second, now);
    var log: seq<Entry>;
    steps, t, log := MovesBoth(first, second, now, name);
    lost := first;
    LostHere(log, second, t.log, first, name);
  }

  lemma {:induction false} MovesBoth(first: Row, second: Row, now: real, name: ArchiveName)
      returns (steps: seq<Step>, t: State, log: seq<Entry>)
    requires first.networks == [] && second.networks == [] && Due(first, now, map[]) && Due(second, now, map[])
    requires first.TransitionKey() != second.TransitionKey()
    requires name == OnlyName("", first) == OnlyName("", second)
    ensures Runs(EMPTY, steps, t) && t.archive == map[name := [second]]
    ensures Rows(log) == [first] && first.TransitionKey() in MovedKeys(log)
    ensures t.log == log + [Transition(second)] + [Moved([second.TransitionKey()], name)]
  {
    var early, s := RecordsAndMoves(EMPTY, 0, first, now);
    assert [] + [Transition(first)] == [Transition(first)];
    AfterOne(first, name);
    var late: seq<Step>;
    late, t := RecordsAndMoves(s, 1, second, now);
    RunsOn(EMPTY, early, s, late, t);
    steps, log := early + late, s.log;
  }

  lemma {:induction false} AfterOne(r: Row, name: ArchiveName)
    ensures var log := [Transition(r)] + [Moved([r.TransitionKey()], name)];
            && Rows(log) == [r] && Served(log) == []
            && Keys(log) == {r.TransitionKey()} && MovedKeys(log) == {r.TransitionKey()}
  {
    TakeRows([], r);
    assert [] + [Transition(r)] == [Transition(r)];
    ServedAllMoved([Transition(r)], r, name);
    KeysSnoc([], Transition(r));
    KeysSnoc([Transition(r)], Moved([r.TransitionKey()], name));
    MovedKeysSnoc([], Transition(r));
    MovedKeysSnoc([Transition(r)], Moved([r.TransitionKey()], name));
  }

  lemma {:induction false} LostHere(log: seq<Entry>, r: Row, after: seq<Entry>, lost: Row, name: ArchiveName)
    requires Rows(log) == [lost] && lost.TransitionKey() in MovedKeys(log)
    requires after == log + [Transition(r)] + [Moved([r.TransitionKey()], name)]
    ensures lost in Rows(after) && lost !in Served(after)
  {
    MovedKeysSnoc(log, Transition(r));
    MovedKeysSnoc(log + [Transition(r)], Moved([r.TransitionKey()], name));
    RowsGrow(log, [Transition(r)] + [Moved([r.TransitionKey()], name)]);
    assert log + ([Transition(r)] + [Moved([r.TransitionKey()], name)]) == after;
    assert Rows(after)[0] == lost;
    Sorting.FilterHolds(Rows(after), NotIn(MovedKeys(after)), lost);
  }
}
