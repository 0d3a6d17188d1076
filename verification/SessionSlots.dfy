// One device's SSH session slots across processes: a slot is a lock file the kernel frees when
// its holder closes it or dies. Each try at a slot is a step of its own, so claims of different
// processes interleave; inside one process a claim holds `_sessions_mu` from its first step to
// its last, and a drop needs it.
module SessionSlots {
  import opened Wrappers

  const RESERVED_FOR_PEOPLE := 1

  function Budget(lines: nat): nat {
    if lines < RESERVED_FOR_PEOPLE then 0 else lines - RESERVED_FOR_PEOPLE
  }

  // A claim under way: its budget, and the slot it tries next.
  datatype Scan = Scan(budget: nat, next: nat)

  // A counted session: whether it holds a line of the device now, and the slot it was given. The
  // source keeps the slot in `_slots` alone; here it is a record of the past no step reads.
  datatype Session = Session(live: bool, slot: nat)

  // A process: its counted sessions, the slots it holds and for which session, its session
  // counter and its claim under way.
  datatype Process = Process(sessions: map<nat, Session>, slots: map<nat, nat>, counter: nat, scan: Option<Scan>)

  // `locks` is the kernel's table: which process holds which slot's lock.
  datatype State = State(processes: map<nat, Process>, locks: map<nat, nat>)

  const START := State(map[], map[])

  datatype Step =
    | Spawns(p: nat)
    | Claims(p: nat, budget: nat)
    | TriesNext(p: nat)
    | LogsIn(p: nat, sid: nat)
    | Closes(p: nat, sid: nat)
    | Drops(p: nat, sid: nat)
    | Dies(p: nat)

  // A slot held for a session no longer counted, which a claim releases first.
  function Lost(a: Process): set<nat> { set n | n in a.slots && a.slots[n] !in a.sessions }

  function SlotsOf(a: Process, sid: nat): set<nat> { set n | n in a.slots && a.slots[n] == sid }

  function LocksOf(s: State, p: nat): set<nat> { set n | n in s.locks && s.locks[n] == p }

  predicate Enabled(s: State, step: Step) {
    match step
    case Spawns(p) => p !in s.processes
    case Claims(p, _) => p in s.processes && s.processes[p].scan.None?
    case TriesNext(p) => p in s.processes && s.processes[p].scan.Some?
    case LogsIn(p, sid) => p in s.processes && sid in s.processes[p].sessions
    // Closing may be asked again of a session long gone.
    case Closes(p, _) => p in s.processes
    // A drop follows the close, and waits for the process's claim under way.
    case Drops(p, sid) => p in s.processes && s.processes[p].scan.None?
                          && (sid in s.processes[p].sessions ==> !s.processes[p].sessions[sid].live)
    case Dies(p) => p in s.processes
  }

  // A claim goes on to the next slot, or ends past its budget.
  function Onward(scan: Scan): Option<Scan> {
    if scan.next >= scan.budget then None else Some(Scan(scan.budget, scan.next + 1))
  }

  // A process moves its claim under way on, or ends it with nothing.
  function Scanning(s: State, p: nat, scan: Option<Scan>): State
    requires p in s.processes
  {
    s.(processes := s.processes[p := s.processes[p].(scan := scan)])
  }

  // A process counts a session for the slot it has locked.
  function WithSlot(a: Process, n: nat): Process {
    var sid := a.counter + 1;
    Process(a.sessions[sid := Session(false, n)], a.slots[n := sid], sid, None)
  }

  function Granted(s: State, p: nat, n: nat): State
    requires p in s.processes
  {
    State(s.processes[p := WithSlot(s.processes[p], n)], s.locks[n := p])
  }

  // A session that holds a line, or no longer does.
  function Marked(s: State, p: nat, sid: nat, live: bool): State
    requires p in s.processes && sid in s.processes[p].sessions
  {
    var a := s.processes[p];
    s.(processes := s.processes[p := a.(sessions := a.sessions[sid := a.sessions[sid].(live := live)])])
  }

  function Do(s: State, step: Step): State
    requires Enabled(s, step)
  {
    match step
    case Spawns(p) => s.(processes := s.processes[p := Process(map[], map[], 0, None)])
    case Claims(p, budget) =>
      var a := s.processes[p];
      if |a.sessions| >= budget then s
      else State(s.processes[p := a.(slots := a.slots - Lost(a), scan := Some(Scan(budget, 0)))],
                 s.locks - Lost(a))
    case TriesNext(p) =>
      var scan := s.processes[p].scan.value;
      if scan.next >= scan.budget || scan.next in s.locks then Scanning(s, p, Onward(scan))
      else Granted(s, p, scan.next)
    case LogsIn(p, sid) => Marked(s, p, sid, true)
    case Closes(p, sid) => if sid in s.processes[p].sessions then Marked(s, p, sid, false) else s
    case Drops(p, sid) =>
      var a := s.processes[p];
      State(s.processes[p := a.(sessions := a.sessions - {sid}, slots := a.slots - SlotsOf(a, sid))],
            s.locks - SlotsOf(a, sid))
    case Dies(p) => State(s.processes - {p}, s.locks - LocksOf(s, p))
  }

  // A run in which no claim used a budget above the limit.
  ghost predicate Runs(s: State, steps: seq<Step>, limit: nat, t: State)
    decreases |steps|
  {
    if steps == [] then s == t
    else
      && Enabled(s, steps[0]) && (steps[0].Claims? ==> steps[0].budget <= limit)
      && Runs(Do(s, steps[0]), steps[1..], limit, t)
  }

  // ------------------------------------------------------------------ the invariant

  ghost predicate Mine(a: Process, p: nat, locks: map<nat, nat>, limit: nat) {
    // Each slot held is locked by this process, below the limit, for a session it counts.
    && (forall n :: n in a.slots ==> n in locks && locks[n] == p && n < limit)
    && (forall n :: n in a.slots ==> a.slots[n] in a.sessions && a.sessions[a.slots[n]].slot == n)
    // Each session counted holds its slot.
    && (forall sid :: sid in a.sessions ==>
          sid <= a.counter && a.sessions[sid].slot in a.slots && a.slots[a.sessions[sid].slot] == sid)
    && (a.scan.Some? ==> a.scan.value.budget <= limit)
  }

  // No lock outlives its session or its holder.
  ghost predicate NoneLeaked(s: State) {
    forall n :: n in s.locks ==> s.locks[n] in s.processes && n in s.processes[s.locks[n]].slots
  }

  ghost predicate Inv(s: State, limit: nat) {
    && (forall p :: p in s.processes ==> Mine(s.processes[p], p, s.locks, limit))
    && NoneLeaked(s)
  }

  lemma {:induction false} OthersKept(s: State, t: State, p: nat, limit: nat)
    requires Inv(s, limit)
    requires forall q :: q in t.processes && q != p ==> q in s.processes && t.processes[q] == s.processes[q]
    requires forall n :: n in s.locks && s.locks[n] != p ==> n in t.locks && t.locks[n] == s.locks[n]
    ensures forall q :: q in t.processes && q != p ==> Mine(t.processes[q], q, t.locks, limit)
  {
  }

  lemma {:induction false} NoneLost(a: Process, p: nat, locks: map<nat, nat>, limit: nat)
    requires Mine(a, p, locks, limit)
    ensures Lost(a) == {}
    ensures a.slots - Lost(a) == a.slots && locks - Lost(a) == locks
  {
  }

  lemma {:induction false} ClaimKeepsInv(s: State, p: nat, budget: nat, limit: nat)
    requires Inv(s, limit) && Enabled(s, Claims(p, budget)) && budget <= limit
    ensures Lost(s.processes[p]) == {}
    ensures Inv(Do(s, Claims(p, budget)), limit)
  {
    var a := s.processes[p];
    NoneLost(a, p, s.locks, limit);
    if |a.sessions| < budget {
      ScanKeepsInv(s, p, limit, Some(Scan(budget, 0)));
    }
  }

  lemma {:induction false} GrantKeepsMine(a: Process, p: nat, locks: map<nat, nat>, limit: nat, n: nat)
    requires Mine(a, p, locks, limit) && n !in locks && n < limit
    ensures Mine(WithSlot(a, n), p, locks[n := p], limit)
  {
    assert a.counter + 1 !in a.sessions;
    assert n !in a.slots;
  }

  lemma {:induction false} FreeKeepsMine(a: Process, p: nat, locks: map<nat, nat>, limit: nat, sid: nat)
    requires Mine(a, p, locks, limit)
    ensures Mine(a.(sessions := a.sessions - {sid}, slots := a.slots - SlotsOf(a, sid)), p,
                 locks - SlotsOf(a, sid), limit)
  {
  }

  lemma {:induction false} MarkKeepsMine(a: Process, p: nat, locks: map<nat, nat>, limit: nat, sid: nat, live: bool)
    requires Mine(a, p, locks, limit) && sid in a.sessions
    ensures Mine(a.(sessions := a.sessions[sid := a.sessions[sid].(live := live)]), p, locks, limit)
  {
  }

  // Replacing one process, with locks only added for it, leaks none.
  lemma {:induction false} ReplaceLeaksNone(s: State, p: nat, b: Process, locks: map<nat, nat>)
    requires NoneLeaked(s) && p in s.processes
    requires forall n :: n in s.locks ==> n in locks && locks[n] == s.locks[n]
    requires forall n :: n in locks && n !in s.locks ==> locks[n] == p && n in b.slots
    requires forall n :: n in s.processes[p].slots ==> n in b.slots
    ensures NoneLeaked(State(s.processes[p := b], locks))
  {
  }

  lemma {:induction false} ReplaceKeepsInv(s: State, p: nat, b: Process, locks: map<nat, nat>, limit: nat)
    requires Inv(s, limit) && p in s.processes && Mine(b, p, locks, limit)
    requires forall n :: n in s.locks ==> n in locks && locks[n] == s.locks[n]
    requires NoneLeaked(State(s.processes[p := b], locks))
    ensures Inv(State(s.processes[p := b], locks), limit)
  {
    OthersKept(s, State(s.processes[p := b], locks), p, limit);
  }

  lemma {:induction false} GrantLeaksNone(s: State, p: nat, n: nat)
    requires NoneLeaked(s) && p in s.processes && n !in s.locks
    ensures NoneLeaked(Granted(s, p, n))
  {
    ReplaceLeaksNone(s, p, WithSlot(s.processes[p], n), s.locks[n := p]);
  }

  lemma {:induction false} GrantKeepsInv(s: State, p: nat, limit: nat, n: nat)
    requires Inv(s, limit) && p in s.processes && n !in s.locks && n < limit
    ensures Inv(Granted(s, p, n), limit)
  {
    GrantKeepsMine(s.processes[p], p, s.locks, limit, n);
    GrantLeaksNone(s, p, n);
    ReplaceKeepsInv(s, p, WithSlot(s.processes[p], n), s.locks[n := p], limit);
  }

  lemma {:induction false} ScanKeepsInv(s: State, p: nat, limit: nat, scan: Option<Scan>)
    requires Inv(s, limit) && p in s.processes && (scan.Some? ==> scan.value.budget <= limit)
    ensures Inv(Scanning(s, p, scan), limit)
  {
    var b := s.processes[p].(scan := scan);
    assert Mine(s.processes[p], p, s.locks, limit);
    ReplaceLeaksNone(s, p, b, s.locks);
    ReplaceKeepsInv(s, p, b, s.locks, limit);
  }

  lemma {:induction false} ScanWithin(s: State, p: nat, limit: nat)
    requires Inv(s, limit) && p in s.processes && s.processes[p].scan.Some?
    ensures s.processes[p].scan.value.budget <= limit
  {
    assert Mine(s.processes[p], p, s.locks, limit);
  }

  lemma {:induction false} TryKeepsInv(s: State, p: nat, limit: nat)
    requires Inv(s, limit) && Enabled(s, TriesNext(p))
    ensures Inv(Do(s, TriesNext(p)), limit)
  {
    var scan := s.processes[p].scan.value;
    ScanWithin(s, p, limit);
    if scan.next >= scan.budget || scan.next in s.locks {
      ScanKeepsInv(s, p, limit, Onward(scan));
    } else {
      GrantKeepsInv(s, p, limit, scan.next);
    }
  }

  lemma {:induction false} DropKeepsInv(s: State, p: nat, sid: nat, limit: nat)
    requires Inv(s, limit) && Enabled(s, Drops(p, sid))
    ensures Inv(Do(s, Drops(p, sid)), limit)
  {
    var a, t := s.processes[p], Do(s, Drops(p, sid));
    assert Mine(a, p, s.locks, limit);
    FreeKeepsMine(a, p, s.locks, limit, sid);
    OthersKept(s, t, p, limit);
  }

  lemma {:induction false} MarkKeepsInv(s: State, p: nat, sid: nat, live: bool, limit: nat)
    requires Inv(s, limit) && p in s.processes && sid in s.processes[p].sessions
    ensures Inv(Marked(s, p, sid, live), limit)
  {
    assert Mine(s.processes[p], p, s.locks, limit);
    MarkKeepsMine(s.processes[p], p, s.locks, limit, sid, live);
  }

  lemma {:induction false} DeathLeaksNone(s: State, p: nat)
    requires NoneLeaked(s) && p in s.processes
    ensures NoneLeaked(Do(s, Dies(p)))
  {
  }

  lemma {:induction false} DeathKeepsInv(s: State, p: nat, limit: nat)
    requires Inv(s, limit) && Enabled(s, Dies(p))
    ensures Inv(Do(s, Dies(p)), limit)
  {
    DeathLeaksNone(s, p);
    OthersKept(s, Do(s, Dies(p)), p, limit);
  }

  lemma {:induction false} StepKeepsInv(s: State, step: Step, limit: nat)
    requires Inv(s, limit) && Enabled(s, step)
    requires step.Claims? ==> step.budget <= limit
    ensures Inv(Do(s, step), limit)
  {
    match step
    case Spawns(p) => OthersKept(s, Do(s, step), p, limit);
    case Claims(p, budget) => ClaimKeepsInv(s, p, budget, limit);
    case TriesNext(p) => TryKeepsInv(s, p, limit);
    case LogsIn(p, sid) => MarkKeepsInv(s, p, sid, true, limit);
    case Closes(p, sid) =>
      if sid in s.processes[p].sessions {
        MarkKeepsInv(s, p, sid, false, limit);
      }
    case Drops(p, sid) => DropKeepsInv(s, p, sid, limit);
    case Dies(p) => DeathKeepsInv(s, p, limit);
  }

  lemma {:induction false} RunKeepsInv(s: State, steps: seq<Step>, limit: nat, t: State)
    requires Inv(s, limit) && Runs(s, steps, limit, t)
    ensures Inv(t, limit)
    decreases |steps|
  {
    if steps != [] {
      StepKeepsInv(s, steps[0], limit);
      RunKeepsInv(Do(s, steps[0]), steps[1..], limit, t);
    }
  }

  // ------------------------------------------------------------------ the bound

  // The sessions counted by all processes together, and those of them that hold a line.
  function Counted(s: State): set<(nat, nat)> {
    set p, sid | p in s.processes && sid in s.processes[p].sessions :: (p, sid)
  }

  function Live(s: State): set<(nat, nat)> {
    set p, sid | p in s.processes && sid in s.processes[p].sessions && s.processes[p].sessions[sid].live :: (p, sid)
  }

  // The slot of a counted session.
  ghost function SlotOf(s: State, limit: nat, e: (nat, nat)): (n: nat)
    requires Inv(s, limit) && e in Counted(s)
    ensures n in s.processes[e.0].slots && s.processes[e.0].slots[n] == e.1 && n < limit
    ensures n in s.locks && s.locks[n] == e.0
  {
    assert Mine(s.processes[e.0], e.0, s.locks, limit);
    s.processes[e.0].sessions[e.1].slot
  }

  function Below(limit: nat): (r: set<nat>)
    ensures |r| == limit
    ensures forall n :: n in r <==> 0 <= n < limit
  {
    if limit == 0 then {} else Below(limit - 1) + {limit - 1}
  }

  lemma {:induction false} SlotsDiffer(s: State, limit: nat, e: (nat, nat), f: (nat, nat))
    requires Inv(s, limit) && e in Counted(s) && f in Counted(s)
    ensures SlotOf(s, limit, e) == SlotOf(s, limit, f) ==> e == f
  {
  }

  lemma {:induction false} OthersElsewhere(s: State, limit: nat, some: set<(nat, nat)>, slots: set<nat>, e: (nat, nat))
    requires Inv(s, limit) && some <= Counted(s) && e in some
    requires forall f :: f in some ==> SlotOf(s, limit, f) in slots
    ensures forall f :: f in some - {e} ==> SlotOf(s, limit, f) in slots - {SlotOf(s, limit, e)}
  {
    forall f | f in some - {e} ensures SlotOf(s, limit, f) in slots - {SlotOf(s, limit, e)} {
      SlotsDiffer(s, limit, e, f);
    }
  }

  // Sessions to slots is one to one, so no more sessions than slots left to give them.
  lemma {:induction false} NoMoreThanSlots(s: State, limit: nat, some: set<(nat, nat)>, slots: set<nat>)
    requires Inv(s, limit) && some <= Counted(s)
    requires forall e :: e in some ==> SlotOf(s, limit, e) in slots
    ensures |some| <= |slots|
    decreases |some|
  {
    if some != {} {
      var e :| e in some;
      var n := SlotOf(s, limit, e);
      OthersElsewhere(s, limit, some, slots, e);
      NoMoreThanSlots(s, limit, some - {e}, slots - {n});
    }
  }

  // Over every run of every set of processes, however their claims interleave, whatever they
  // close twice and wherever they die: all of them together never count, let alone hold, more
  // sessions than the greatest budget a claim used.
  lemma {:induction false} NeverMoreThanTheBudget(steps: seq<Step>, limit: nat, t: State)
    requires Runs(START, steps, limit, t)
    ensures |Live(t)| <= |Counted(t)| <= limit
  {
    RunKeepsInv(START, steps, limit, t);
    forall e | e in Counted(t) ensures SlotOf(t, limit, e) in Below(limit) {
    }
    NoMoreThanSlots(t, limit, Counted(t), Below(limit));
    assert Live(t) <= Counted(t);
    SubsetSmaller(Live(t), Counted(t));
  }

  lemma {:induction false} SubsetSmaller(a: set<(nat, nat)>, b: set<(nat, nat)>)
    requires a <= b
    ensures |a| <= |b|
  {
    assert b == a + (b - a);
  }

  // So a device with any line at all keeps one free for a person, and one with none is not opened.
  lemma {:induction false} ALineStaysFree(steps: seq<Step>, lines: nat, t: State)
    requires Runs(START, steps, Budget(lines), t)
    ensures |Live(t)| < lines || (lines == 0 && Counted(t) == {})
  {
    NeverMoreThanTheBudget(steps, Budget(lines), t);
  }

  // ------------------------------------------------------------------ and all the others can be used

  // One process with `k` sessions, each with a line and the slot below its number.
  function Sessions(k: nat): (r: map<nat, Session>)
    ensures |r| == k && forall sid :: sid in r <==> 1 <= sid <= k
    ensures forall sid :: sid in r ==> r[sid] == Session(true, sid - 1)
  {
    if k == 0 then map[] else Sessions(k - 1)[k := Session(true, k - 1)]
  }

  function Slots(k: nat): (r: map<nat, nat>)
    ensures forall n :: n in r <==> 0 <= n < k
    ensures forall n :: n in r ==> r[n] == n + 1
  {
    if k == 0 then map[] else Slots(k - 1)[k - 1 := k]
  }

  function Locks(k: nat): (r: map<nat, nat>)
    ensures forall n :: n in r <==> 0 <= n < k
    ensures forall n :: n in r ==> r[n] == 0
  {
    if k == 0 then map[] else Locks(k - 1)[k - 1 := 0]
  }

  function With(k: nat, scan: Option<Scan>): State {
    State(map[0 := Process(Sessions(k), Slots(k), k, scan)], Locks(k))
  }

  lemma {:induction false} RunsOn(s: State, first: seq<Step>, limit: nat, u: State, rest: seq<Step>, t: State)
    requires Runs(s, first, limit, u) && Runs(u, rest, limit, t)
    ensures Runs(s, first + rest, limit, t)
    decreases |first|
  {
    if first == [] {
      assert first + rest == rest;
    } else {
      assert (first + rest)[1..] == first[1..] + rest;
      RunsOn(Do(s, first[0]), first[1..], limit, u, rest, t);
    }
  }

  lemma {:induction false} Then(s: State, steps: seq<Step>, limit: nat, u: State, step: Step)
    requires Runs(s, steps, limit, u) && Enabled(u, step) && (step.Claims? ==> step.budget <= limit)
    ensures Runs(s, steps + [step], limit, Do(u, step))
  {
    assert [step][1..] == [];
    assert Runs(u, [step], limit, Do(u, step));
    RunsOn(s, steps, limit, u, [step], Do(u, step));
  }

  lemma {:induction false} ClaimScans(k: nat, budget: nat)
    requires k < budget
    ensures Enabled(With(k, None), Claims(0, budget))
    ensures Do(With(k, None), Claims(0, budget)) == With(k, Some(Scan(budget, 0)))
  {
    var a := With(k, None).processes[0];
    assert Lost(a) == {};
    assert a.slots - {} == a.slots && Locks(k) - {} == Locks(k);
  }

  lemma {:induction false} TryGoesOn(k: nat, budget: nat, n: nat)
    requires n < k < budget
    ensures Enabled(With(k, Some(Scan(budget, n))), TriesNext(0))
    ensures Do(With(k, Some(Scan(budget, n))), TriesNext(0)) == With(k, Some(Scan(budget, n + 1)))
  {
  }

  // The claim passes the slots held, one after another.
  lemma {:induction false} TriesUpTo(k: nat, budget: nat, n: nat) returns (steps: seq<Step>)
    requires n <= k < budget
    ensures Runs(With(k, None), steps, budget, With(k, Some(Scan(budget, n))))
  {
    if n == 0 {
      assert Runs(With(k, None), [], budget, With(k, None));
      ClaimScans(k, budget);
      Then(With(k, None), [], budget, With(k, None), Claims(0, budget));
      steps := [] + [Claims(0, budget)];
    } else {
      steps := TriesUpTo(k, budget, n - 1);
      TryGoesOn(k, budget, n - 1);
      Then(With(k, None), steps, budget, With(k, Some(Scan(budget, n - 1))), TriesNext(0));
      steps := steps + [TriesNext(0)];
    }
  }

  lemma {:induction false} GrantsTheNext(k: nat, budget: nat)
    requires k < budget
    ensures Enabled(With(k, Some(Scan(budget, k))), TriesNext(0))
    ensures var s := Do(With(k, Some(Scan(budget, k))), TriesNext(0));
            Enabled(s, LogsIn(0, k + 1)) && Do(s, LogsIn(0, k + 1)) == With(k + 1, None)
  {
    var a := Process(Sessions(k), Slots(k), k, Some(Scan(budget, k)));
    var b := WithSlot(a, k);
    assert Granted(With(k, Some(Scan(budget, k))), 0, k) == State(map[0 := b], Locks(k + 1));
    assert b.sessions[k + 1 := b.sessions[k + 1].(live := true)] == Sessions(k + 1);
    assert b.(sessions := Sessions(k + 1)) == Process(Sessions(k + 1), Slots(k + 1), k + 1, None);
  }

  lemma {:induction false} OpensOneMore(k: nat, budget: nat) returns (steps: seq<Step>)
    requires k < budget
    ensures Runs(With(k, None), steps, budget, With(k + 1, None))
  {
    steps := TriesUpTo(k, budget, k);
    GrantsTheNext(k, budget);
    var s := With(k, Some(Scan(budget, k)));
    Then(With(k, None), steps, budget, s, TriesNext(0));
    Then(With(k, None), steps + [TriesNext(0)], budget, Do(s, TriesNext(0)), LogsIn(0, k + 1));
    steps := steps + [TriesNext(0)] + [LogsIn(0, k + 1)];
  }

  lemma {:induction false} OpensUpTo(k: nat, budget: nat) returns (steps: seq<Step>)
    requires k <= budget
    ensures Runs(START, steps, budget, With(k, None))
  {
    if k == 0 {
      assert Runs(START, [], budget, START);
      Then(START, [], budget, START, Spawns(0));
      assert Do(START, Spawns(0)) == With(0, None);
      steps := [] + [Spawns(0)];
    } else {
      steps := OpensUpTo(k - 1, budget);
      var more := OpensOneMore(k - 1, budget);
      RunsOn(START, steps, budget, With(k - 1, None), more, With(k, None));
      steps := steps + more;
    }
  }

  lemma {:induction false} LiveIs(k: nat, e: (nat, nat))
    ensures e in Live(With(k, None)) <==> e.0 == 0 && 1 <= e.1 <= k
  {
  }

  lemma {:induction false} LiveGrows(k: nat, few: set<(nat, nat)>, more: set<(nat, nat)>)
    requires k > 0 && few == Live(With(k - 1, None)) && more == Live(With(k, None))
    ensures (0, k) !in few && forall e :: e in more <==> e in few || e == (0, k)
  {
    LiveIs(k - 1, (0, k));
    forall e ensures e in more <==> e in few || e == (0, k) {
      LiveIs(k, e);
      LiveIs(k - 1, e);
    }
  }

  lemma {:induction false} AllAreLive(k: nat)
    ensures |Live(With(k, None))| == k
  {
    var more := Live(With(k, None));
    if k > 0 {
      AllAreLive(k - 1);
      var few := Live(With(k - 1, None));
      LiveGrows(k, few, more);
      OneMore(few, more, (0, k));
    } else {
      forall e ensures e !in more {
        LiveIs(0, e);
      }
      NoneAtAll(more);
    }
  }

  lemma {:induction false} OneMore(few: set<(nat, nat)>, more: set<(nat, nat)>, e: (nat, nat))
    requires e !in few && forall f :: f in more <==> f in few || f == e
    ensures |more| == |few| + 1
  {
    assert more == few + {e};
  }

  lemma {:induction false} NoneAtAll(none: set<(nat, nat)>)
    requires forall e :: e !in none
    ensures |none| == 0
  {
    assert none == {};
  }

  lemma {:induction false} LineStays(a: Process, p: nat, locks: map<nat, nat>, limit: nat, s: State, step: Step,
                                     sid: nat)
    requires p in s.processes && a == s.processes[p] && Mine(a, p, locks, limit) && Enabled(s, step)
    requires sid in a.sessions && a.sessions[sid].live && step != Closes(p, sid) && step != Dies(p)
    ensures p in Do(s, step).processes
    ensures sid in Do(s, step).processes[p].sessions && Do(s, step).processes[p].sessions[sid].live
  {
    assert a.counter + 1 !in a.sessions;
  }

  // A session that holds a line stays counted until it is closed or its process dies.
  lemma {:induction false} NoLineIsForgotten(s: State, step: Step, limit: nat, p: nat, sid: nat)
    requires Inv(s, limit) && Enabled(s, step) && (p, sid) in Live(s) && step != Closes(p, sid) && step != Dies(p)
    ensures (p, sid) in Live(Do(s, step))
  {
    LineStays(s.processes[p], p, s.locks, limit, s, step, sid);
  }

  // A session closed and dropped gives its line and its slot back, and a claim at the budget takes none.
  lemma {:induction false} AClosedOneGoesBack(k: nat, budget: nat) returns (steps: seq<Step>, t: State)
    ensures Runs(With(k + 1, None), steps, budget, t)
    ensures t.locks == Locks(k) && t.processes == map[0 := Process(Sessions(k), Slots(k), k + 1, None)]
    ensures Do(With(k, None), Claims(0, k)) == With(k, None)
  {
    var s := With(k + 1, None);
    var closed := Do(s, Closes(0, k + 1));
    assert Runs(s, [], budget, s);
    Then(s, [], budget, s, Closes(0, k + 1));
    DropsTheLast(k, closed);
    Then(s, [] + [Closes(0, k + 1)], budget, closed, Drops(0, k + 1));
    steps := [] + [Closes(0, k + 1)] + [Drops(0, k + 1)];
    t := Do(closed, Drops(0, k + 1));
  }

  lemma {:induction false} DropsTheLast(k: nat, s: State)
    requires s == Do(With(k + 1, None), Closes(0, k + 1))
    ensures Enabled(s, Drops(0, k + 1))
    ensures Do(s, Drops(0, k + 1)) == State(map[0 := Process(Sessions(k), Slots(k), k + 1, None)], Locks(k))
  {
    var a := s.processes[0];
    assert SlotsOf(a, k + 1) == {k};
    TakesTheLast(k);
    var t := Do(s, Drops(0, k + 1));
    assert t.processes == map[0 := Process(Sessions(k), Slots(k), k + 1, None)];
  }

  lemma {:induction false} TakesTheLast(k: nat)
    ensures Sessions(k + 1)[k + 1 := Session(false, k)] - {k + 1} == Sessions(k)
    ensures Slots(k + 1) - {k} == Slots(k) && Locks(k + 1) - {k} == Locks(k)
  {
  }

  // A device with lines can have all of them but one in use at once, and one with none is never opened:
  // the bound is met as well as kept.
  lemma {:induction false} AllButOneCanBeUsed(lines: nat) returns (steps: seq<Step>, t: State)
    ensures Runs(START, steps, Budget(lines), t)
    ensures |Live(t)| == if lines == 0 then 0 else lines - 1
  {
    var k := if lines == 0 then 0 else lines - 1;
    steps := OpensUpTo(k, Budget(lines));
    t := With(k, None);
    AllAreLive(k);
  }

  // Every lock is some counted session's, and every counted session has its own: nothing is
  // leaked by a crash, a failed open or a second close.
  lemma {:induction false} LocksAreSessions(steps: seq<Step>, limit: nat, t: State, n: nat)
    requires Runs(START, steps, limit, t)
    ensures Inv(t, limit)
    ensures n in t.locks <==> exists e :: e in Counted(t) && SlotOf(t, limit, e) == n
  {
    RunKeepsInv(START, steps, limit, t);
    if n in t.locks {
      var p := t.locks[n];
      assert Mine(t.processes[p], p, t.locks, limit);
      var e := (p, t.processes[p].slots[n]);
      assert e in Counted(t);
      assert SlotOf(t, limit, e) == n;
    }
  }
}
