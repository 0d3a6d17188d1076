// One computation of Needs attention shared by every request, as the steps of threads that ask for
// it, of changes announced meanwhile and of the clock. Every read of the generation, every read
// of the clock and the start of a computation is a step of its own.
module SharedCache {
  import opened Wrappers

  const SHARED_SECONDS := 10.0

  // A computed page, known here by its network and by when its computation began: how many changes
  // had been announced then, and the time.
  datatype Value = Value(network: string, generation: nat, began: real)

  datatype Entry = Entry(generation: nat, at: real, value: Value)

  // Where a thread stands in `needs_attention_shared`. From Locked to its end it holds the lock.
  datatype Pc =
    | Away
    | Waiting(network: string)
    | Locked(network: string)
    | Judging(network: string, generation: nat)
    | Stamping(network: string, generation: nat, judged: real)
    | Starting(network: string, generation: nat, judged: real, at: real)
    | Computing(network: string, generation: nat, at: real, value: Value)

  // An answer given: to whom, the generation the request read, the value, and, when it came from
  // the cache, the time the request read.
  datatype Answer = Answer(network: string, generation: nat, value: Value, cachedAt: Option<real>)

  datatype Outcome = Running | Stored | Failed

  // A computation begun: for which network, the generation its request read, the time its request
  // judged the cache by, the stamp, and what became of it.
  datatype Computation = Computation(network: string, generation: nat, judged: real, at: real, outcome: Outcome)

  // `answers` and `begun` are histories; no step reads them.
  datatype State = State(generation: nat, clock: real, cache: map<string, Entry>, threads: map<nat, Pc>,
                         answers: seq<Answer>, begun: seq<Computation>)

  datatype Step =
    | Asks(t: nat, network: string)
    | Locks(t: nat)
    | ReadsGeneration(t: nat)
    | Judges(t: nat)
    | Stamps(t: nat)
    | Begins(t: nat)
    | Stores(t: nat)
    | Raises(t: nat)
    | Announces
    | Ticks(seconds: real)

  predicate Holds(pc: Pc) { !pc.Away? && !pc.Waiting? }

  function PcOf(s: State, t: nat): Pc { if t in s.threads then s.threads[t] else Away }

  predicate Enabled(s: State, step: Step) {
    match step
    case Asks(t, _) => PcOf(s, t).Away?
    case Locks(t) => PcOf(s, t).Waiting? && forall u :: u in s.threads ==> !Holds(s.threads[u])
    case ReadsGeneration(t) => PcOf(s, t).Locked?
    case Judges(t) => PcOf(s, t).Judging?
    case Stamps(t) => PcOf(s, t).Stamping?
    case Begins(t) => PcOf(s, t).Starting?
    case Stores(t) => PcOf(s, t).Computing?
    case Raises(t) => PcOf(s, t).Starting? || PcOf(s, t).Computing?
    case Announces => true
    case Ticks(seconds) => seconds >= 0.0
  }

  // The one computation under way is the last begun.
  function Ended(begun: seq<Computation>, outcome: Outcome): seq<Computation> {
    if begun == [] then [] else begun[|begun| - 1 := begun[|begun| - 1].(outcome := outcome)]
  }

  predicate Fresh(s: State, network: string, generation: nat) {
    network in s.cache && s.cache[network].generation == generation
    && s.clock - s.cache[network].at < SHARED_SECONDS
  }

  function Do(s: State, step: Step): State
    requires Enabled(s, step)
  {
    match step
    case Asks(t, network) => s.(threads := s.threads[t := Waiting(network)])
    case Locks(t) => s.(threads := s.threads[t := Locked(s.threads[t].network)])
    case ReadsGeneration(t) => s.(threads := s.threads[t := Judging(s.threads[t].network, s.generation)])
    case Judges(t) =>
      var pc := s.threads[t];
      if Fresh(s, pc.network, pc.generation) then
        s.(threads := s.threads[t := Away],
           answers := s.answers + [Answer(pc.network, pc.generation, s.cache[pc.network].value, Some(s.clock))])
      else s.(threads := s.threads[t := Stamping(pc.network, pc.generation, s.clock)])
    case Stamps(t) =>
      var pc := s.threads[t];
      s.(threads := s.threads[t := Starting(pc.network, pc.generation, pc.judged, s.clock)])
    case Begins(t) =>
      var pc := s.threads[t];
      s.(threads := s.threads[t := Computing(pc.network, pc.generation, pc.at,
                                             Value(pc.network, s.generation, s.clock))],
         begun := s.begun + [Computation(pc.network, pc.generation, pc.judged, pc.at, Running)])
    case Stores(t) =>
      var pc := s.threads[t];
      s.(threads := s.threads[t := Away],
         cache := s.cache[pc.network := Entry(pc.generation, pc.at, pc.value)],
         answers := s.answers + [Answer(pc.network, pc.generation, pc.value, None)],
         begun := Ended(s.begun, Stored))
    case Raises(t) =>
      s.(threads := s.threads[t := Away],
         begun := if s.threads[t].Computing? then Ended(s.begun, Failed) else s.begun)
    case Announces => s.(generation := s.generation + 1)
    case Ticks(seconds) => s.(clock := s.clock + seconds)
  }

  ghost predicate Runs(s: State, steps: seq<Step>, t: State)
    decreases |steps|
  {
    if steps == [] then s == t
    else Enabled(s, steps[0]) && Runs(Do(s, steps[0]), steps[1..], t)
  }

  // What an answer owes the request it is given to.
  ghost predicate Owed(a: Answer) {
    // It is this network's, and began after every change announced before the generation was read.
    && a.value.network == a.network
    && a.value.generation >= a.generation
    // From the cache, it began less than ten seconds before the request read the time.
    && (a.cachedAt.Some? ==> a.cachedAt.value - a.value.began < 10.0)
  }

  ghost predicate EntryHonest(network: string, e: Entry) {
    e.value.network == network && e.value.generation >= e.generation && e.value.began >= e.at
  }

  ghost predicate PcHonest(s: State, pc: Pc) {
    && (pc.Judging? || pc.Stamping? || pc.Starting? || pc.Computing? ==> pc.generation <= s.generation)
    && (pc.Starting? || pc.Computing? ==> pc.at <= s.clock)
    && (pc.Computing? ==> EntryHonest(pc.network, Entry(pc.generation, pc.at, pc.value)))
  }

  ghost predicate Inv(s: State) {
    && (forall n :: n in s.cache ==> EntryHonest(n, s.cache[n]))
    && (forall t :: t in s.threads ==> PcHonest(s, s.threads[t]))
    && (forall t, u :: t in s.threads && u in s.threads && Holds(s.threads[t]) && Holds(s.threads[u]) ==> t == u)
    && (forall i :: 0 <= i < |s.answers| ==> Owed(s.answers[i]))
  }

  lemma {:induction false} StepKeepsInv(s: State, step: Step)
    requires Inv(s) && Enabled(s, step)
    ensures Inv(Do(s, step))
  {
    var s' := Do(s, step);
    if step.Announces? || step.Ticks? {
      forall t | t in s'.threads ensures PcHonest(s', s'.threads[t]) {
        assert PcHonest(s, s.threads[t]);
      }
    } else {
      assert step.t in s.threads ==> PcHonest(s, s.threads[step.t]);
    }
  }

  lemma {:induction false} RunKeepsInv(s: State, steps: seq<Step>, t: State)
    requires Inv(s) && Runs(s, steps, t)
    ensures Inv(t)
    decreases |steps|
  {
    if steps != [] {
      StepKeepsInv(s, steps[0]);
      RunKeepsInv(Do(s, steps[0]), steps[1..], t);
    }
  }

  function Opening(clock: real): State { State(0, clock, map[], map[], [], []) }

  // Over every schedule of requests, announced changes, failures and clock ticks: no answer was
  // computed before a change announced before its request read the generation, no cached answer
  // is SHARED_SECONDS old, and no network is ever given another's.
  lemma {:induction false} EveryAnswerIsOwed(clock: real, steps: seq<Step>, t: State, i: nat)
    requires Runs(Opening(clock), steps, t) && i < |t.answers|
    ensures Owed(t.answers[i])
  {
    RunKeepsInv(Opening(clock), steps, t);
  }

  // And one computes at a time.
  lemma {:induction false} OneComputation(clock: real, steps: seq<Step>, s: State, t: nat, u: nat)
    requires Runs(Opening(clock), steps, s)
    requires t in s.threads && u in s.threads && (s.threads[t].Starting? || s.threads[t].Computing?)
    requires s.threads[u].Starting? || s.threads[u].Computing?
    ensures t == u
  {
    RunKeepsInv(Opening(clock), steps, s);
  }

  // ------------------------------------------------------------------ how often it computes

  // A later computation was due: a change was announced since the one before began, or that one was
  // too old when the later one's request judged it.
  ghost predicate DueAfter(earlier: Computation, later: Computation) {
    later.network == earlier.network && earlier.outcome.Stored? ==>
      later.generation > earlier.generation || later.judged - earlier.at >= SHARED_SECONDS
  }

  // In a history of computations each was due after all before it, and only the last may be running.
  ghost predicate Timeline(begun: seq<Computation>) {
    && (forall i, j :: 0 <= i < j < |begun| ==>
          DueAfter(begun[i], begun[j]) && begun[i].generation <= begun[j].generation && begun[i].at <= begun[j].at)
    && (forall i :: 0 <= i < |begun| - 1 ==> !begun[i].outcome.Running?)
  }

  ghost predicate UpTo(begun: seq<Computation>, generation: nat, at: real) {
    forall i :: 0 <= i < |begun| ==> begun[i].generation <= generation && begun[i].at <= at
  }

  ghost predicate NoneRuns(begun: seq<Computation>) { forall i :: 0 <= i < |begun| ==> !begun[i].outcome.Running? }

  // Each entry is a stored computation's, and none stored of its network is of a later generation
  // or stamp.
  ghost predicate FromHistory(begun: seq<Computation>, network: string, e: Entry) {
    exists i :: 0 <= i < |begun| && begun[i].outcome.Stored? && begun[i].network == network
      && begun[i].generation == e.generation && begun[i].at == e.at
  }

  ghost predicate Cached(begun: seq<Computation>, cache: map<string, Entry>) {
    && (forall n :: n in cache ==> FromHistory(begun, n, cache[n]))
    && forall i :: 0 <= i < |begun| && begun[i].outcome.Stored? ==>
         && begun[i].network in cache
         && begun[i].generation <= cache[begun[i].network].generation && begun[i].at <= cache[begun[i].network].at
  }

  // Nothing stored so far is fresh for a request that read this generation and judges at this time.
  ghost predicate NothingFresh(begun: seq<Computation>, network: string, generation: nat, judged: real) {
    forall i :: 0 <= i < |begun| && begun[i].outcome.Stored? && begun[i].network == network ==>
      generation > begun[i].generation || judged - begun[i].at >= SHARED_SECONDS
  }

  // A thread inside the lock read the generation since every computation so far read its own; past
  // the judge it found nothing fresh; and what it computes is the last begun.
  ghost predicate WorkHonest(begun: seq<Computation>, clock: real, pc: Pc) {
    && (pc.Judging? || pc.Stamping? || pc.Starting? ==> UpTo(begun, pc.generation, clock) && NoneRuns(begun))
    && (pc.Locked? ==> NoneRuns(begun))
    && (pc.Stamping? || pc.Starting? ==> NothingFresh(begun, pc.network, pc.generation, pc.judged))
    && (pc.Starting? ==> UpTo(begun, pc.generation, pc.at) && pc.at <= clock)
    && (pc.Computing? ==>
          begun != [] && begun[|begun| - 1].outcome.Running? && begun[|begun| - 1].network == pc.network
          && begun[|begun| - 1].generation == pc.generation && begun[|begun| - 1].at == pc.at)
  }

  ghost predicate HistoryHonest(s: State) {
    && Timeline(s.begun) && Cached(s.begun, s.cache) && UpTo(s.begun, s.generation, s.clock)
    && ((forall t :: t in s.threads ==> !s.threads[t].Computing?) ==> NoneRuns(s.begun))
    && (forall t :: t in s.threads ==> WorkHonest(s.begun, s.clock, s.threads[t]))
  }

  lemma {:induction false} TimelineGrows(begun: seq<Computation>, c: Computation)
    requires Timeline(begun) && NoneRuns(begun) && UpTo(begun, c.generation, c.at)
    requires NothingFresh(begun, c.network, c.generation, c.judged)
    ensures Timeline(begun + [c])
  {
    assert forall i :: 0 <= i < |begun| ==> DueAfter(begun[i], c);
  }

  lemma {:induction false} CachedGrows(begun: seq<Computation>, cache: map<string, Entry>, c: Computation)
    requires Cached(begun, cache) && c.outcome.Running?
    ensures Cached(begun + [c], cache)
  {
    forall n | n in cache ensures FromHistory(begun + [c], n, cache[n]) {
      assert FromHistory(begun, n, cache[n]);
      var i :| 0 <= i < |begun| && begun[i].outcome.Stored? && begun[i].network == n
        && begun[i].generation == cache[n].generation && begun[i].at == cache[n].at;
      assert (begun + [c])[i] == begun[i];
    }
  }

  lemma {:induction false} TimelineEnds(begun: seq<Computation>, outcome: Outcome)
    requires Timeline(begun) && begun != [] && !outcome.Running?
    ensures Timeline(Ended(begun, outcome)) && NoneRuns(Ended(begun, outcome))
  {
    var after := Ended(begun, outcome);
    forall i, j | 0 <= i < j < |after|
      ensures DueAfter(after[i], after[j]) && after[i].generation <= after[j].generation && after[i].at <= after[j].at
    {
      assert DueAfter(begun[i], begun[j]);
      assert after[i] == begun[i];
    }
  }

  // Ending the last computation leaves what was stored before it as it was.
  lemma {:induction false} FromHistoryStays(begun: seq<Computation>, outcome: Outcome, n: string, e: Entry)
    requires begun != [] && begun[|begun| - 1].outcome.Running? && FromHistory(begun, n, e)
    ensures FromHistory(Ended(begun, outcome), n, e)
  {
    var i :| 0 <= i < |begun| && begun[i].outcome.Stored? && begun[i].network == n
      && begun[i].generation == e.generation && begun[i].at == e.at;
    assert Ended(begun, outcome)[i] == begun[i];
  }

  lemma {:induction false} CachedFails(begun: seq<Computation>, cache: map<string, Entry>)
    requires Cached(begun, cache) && begun != [] && begun[|begun| - 1].outcome.Running?
    ensures Cached(Ended(begun, Failed), cache)
  {
    forall n | n in cache ensures FromHistory(Ended(begun, Failed), n, cache[n]) {
      FromHistoryStays(begun, Failed, n, cache[n]);
    }
  }

  lemma {:induction false} CachedStores(begun: seq<Computation>, cache: map<string, Entry>, e: Entry)
    requires Timeline(begun) && Cached(begun, cache) && begun != [] && begun[|begun| - 1].outcome.Running?
    requires begun[|begun| - 1].generation == e.generation && begun[|begun| - 1].at == e.at
    ensures Cached(Ended(begun, Stored), cache[begun[|begun| - 1].network := e])
  {
    var last, after := begun[|begun| - 1], Ended(begun, Stored);
    assert after[|begun| - 1].outcome.Stored?;
    assert FromHistory(after, last.network, e);
    forall n | n in cache && n != last.network ensures FromHistory(after, n, cache[n]) {
      FromHistoryStays(begun, Stored, n, cache[n]);
    }
    forall i | 0 <= i < |after| && after[i].outcome.Stored?
      ensures after[i].network == last.network ==> after[i].generation <= e.generation && after[i].at <= e.at
    {
      assert i < |begun| - 1 ==> after[i] == begun[i];
    }
  }

  // Only the lock's holder is past Waiting, and of the others nothing is said.
  lemma {:induction false} OthersHonest(s: State, t: nat, u: nat, begun: seq<Computation>, clock: real)
    requires Inv(s) && t in s.threads && u in s.threads && u != t && Holds(s.threads[t])
    ensures !Holds(s.threads[u]) && WorkHonest(begun, clock, s.threads[u])
  {
  }

  lemma {:induction false} HolderHonest(s: State, t: nat, s': State)
    requires Inv(s) && t in s.threads && Holds(s.threads[t]) && t in s'.threads
               && s'.threads == s.threads[t := s'.threads[t]]
    requires WorkHonest(s'.begun, s'.clock, s'.threads[t])
    ensures forall u :: u in s'.threads ==> WorkHonest(s'.begun, s'.clock, s'.threads[u])
    ensures forall u :: u in s'.threads && u != t ==> !s'.threads[u].Computing?
  {
    forall u | u in s'.threads && u != t
      ensures WorkHonest(s'.begun, s'.clock, s'.threads[u]) && !s'.threads[u].Computing?
    {
      OthersHonest(s, t, u, s'.begun, s'.clock);
    }
  }

  lemma {:induction false} JudgesFindsNothing(s: State, t: nat)
    requires HistoryHonest(s) && Enabled(s, Judges(t)) && !Fresh(s, s.threads[t].network, s.threads[t].generation)
    ensures NothingFresh(s.begun, s.threads[t].network, s.threads[t].generation, s.clock)
  {
    var pc := s.threads[t];
    assert WorkHonest(s.begun, s.clock, pc);
    if pc.network in s.cache {
      assert FromHistory(s.begun, pc.network, s.cache[pc.network]);
    }
  }

  lemma {:induction false} JudgesKeepsHistory(s: State, t: nat)
    requires Inv(s) && HistoryHonest(s) && Enabled(s, Judges(t))
    ensures HistoryHonest(Do(s, Judges(t)))
  {
    assert WorkHonest(s.begun, s.clock, s.threads[t]);
    if !Fresh(s, s.threads[t].network, s.threads[t].generation) {
      JudgesFindsNothing(s, t);
    }
    HolderHonest(s, t, Do(s, Judges(t)));
  }

  lemma {:induction false} BeginsKeepsHistory(s: State, t: nat)
    requires Inv(s) && HistoryHonest(s) && Enabled(s, Begins(t))
    ensures HistoryHonest(Do(s, Begins(t)))
  {
    var s', pc := Do(s, Begins(t)), s.threads[t];
    assert WorkHonest(s.begun, s.clock, pc) && PcHonest(s, pc);
    var c := Computation(pc.network, pc.generation, pc.judged, pc.at, Running);
    TimelineGrows(s.begun, c);
    CachedGrows(s.begun, s.cache, c);
    HolderHonest(s, t, s');
    assert s'.threads[t].Computing?;
  }

  lemma {:induction false} StoresKeepsHistory(s: State, t: nat)
    requires Inv(s) && HistoryHonest(s) && Enabled(s, Stores(t))
    ensures HistoryHonest(Do(s, Stores(t)))
  {
    var s', pc := Do(s, Stores(t)), s.threads[t];
    assert WorkHonest(s.begun, s.clock, pc);
    TimelineEnds(s.begun, Stored);
    CachedStores(s.begun, s.cache, Entry(pc.generation, pc.at, pc.value));
    HolderHonest(s, t, s');
  }

  lemma {:induction false} RaisesKeepsHistory(s: State, t: nat)
    requires Inv(s) && HistoryHonest(s) && Enabled(s, Raises(t))
    ensures HistoryHonest(Do(s, Raises(t)))
  {
    var s', pc := Do(s, Raises(t)), s.threads[t];
    assert WorkHonest(s.begun, s.clock, pc);
    if pc.Computing? {
      TimelineEnds(s.begun, Failed);
      CachedFails(s.begun, s.cache);
    }
    HolderHonest(s, t, s');
  }

  lemma {:induction false} HolderMovesOn(s: State, step: Step)
    requires Inv(s) && HistoryHonest(s) && Enabled(s, step) && (step.ReadsGeneration? || step.Stamps?)
    ensures HistoryHonest(Do(s, step))
  {
    assert WorkHonest(s.begun, s.clock, s.threads[step.t]);
    HolderHonest(s, step.t, Do(s, step));
  }

  lemma {:induction false} TimeKeepsHistory(s: State, step: Step)
    requires HistoryHonest(s) && Enabled(s, step) && (step.Announces? || step.Ticks?)
    ensures HistoryHonest(Do(s, step))
  {
    var s' := Do(s, step);
    forall t | t in s'.threads ensures WorkHonest(s'.begun, s'.clock, s'.threads[t]) {
      assert WorkHonest(s.begun, s.clock, s.threads[t]);
    }
  }

  lemma {:induction false} EntersKeepsHistory(s: State, step: Step)
    requires Inv(s) && HistoryHonest(s) && Enabled(s, step) && (step.Asks? || step.Locks?)
    ensures HistoryHonest(Do(s, step))
  {
    var s' := Do(s, step);
    assert forall u :: u in s.threads && u != step.t ==> u in s'.threads && s'.threads[u] == s.threads[u];
    forall t | t in s'.threads ensures WorkHonest(s'.begun, s'.clock, s'.threads[t]) {
      if t != step.t {
        assert WorkHonest(s.begun, s.clock, s.threads[t]);
      }
    }
  }

  lemma {:induction false} StepKeepsHistory(s: State, step: Step)
    requires Inv(s) && HistoryHonest(s) && Enabled(s, step)
    ensures HistoryHonest(Do(s, step))
  {
    match step
    case Asks(_, _) => EntersKeepsHistory(s, step);
    case Locks(_) => EntersKeepsHistory(s, step);
    case ReadsGeneration(_) => HolderMovesOn(s, step);
    case Judges(t) => JudgesKeepsHistory(s, t);
    case Stamps(_) => HolderMovesOn(s, step);
    case Begins(t) => BeginsKeepsHistory(s, t);
    case Stores(t) => StoresKeepsHistory(s, t);
    case Raises(t) => RaisesKeepsHistory(s, t);
    case Announces => TimeKeepsHistory(s, step);
    case Ticks(_) => TimeKeepsHistory(s, step);
  }

  lemma {:induction false} RunKeepsHistory(s: State, steps: seq<Step>, t: State)
    requires Inv(s) && HistoryHonest(s) && Runs(s, steps, t)
    ensures Inv(t) && HistoryHonest(t)
    decreases |steps|
  {
    if steps != [] {
      StepKeepsInv(s, steps[0]);
      StepKeepsHistory(s, steps[0]);
      RunKeepsHistory(Do(s, steps[0]), steps[1..], t);
    }
  }

  // Over every schedule: a network's page is computed again, after a computation of it that was
  // stored, only if since that one's stamp a change was announced, or SHARED_SECONDS had passed
  // when the later request judged it. A computation that raised is owed another at once.
  lemma {:induction false} ComputesAgainOnlyWhenDue(clock: real, steps: seq<Step>, s: State, i: nat, j: nat)
    requires Runs(Opening(clock), steps, s) && i < j < |s.begun|
    requires s.begun[i].network == s.begun[j].network && s.begun[i].outcome.Stored?
    ensures s.begun[j].generation > s.begun[i].generation || s.begun[j].judged - s.begun[i].at >= SHARED_SECONDS
  {
    RunKeepsHistory(Opening(clock), steps, s);
    assert DueAfter(s.begun[i], s.begun[j]);
  }

  // Some computation of this network, of this generation and stamped less than SHARED_SECONDS ago,
  // was stored.
  ghost predicate StoredFresh(begun: seq<Computation>, network: string, generation: nat, now: real) {
    exists i :: 0 <= i < |begun| && begun[i].outcome.Stored? && begun[i].network == network
      && begun[i].generation == generation && now - begun[i].at < SHARED_SECONDS
  }

  // And a request is served without computing exactly when there is one.
  lemma {:induction false} ServedFromCacheIff(clock: real, steps: seq<Step>, s: State, t: nat)
    requires Runs(Opening(clock), steps, s) && Enabled(s, Judges(t))
    ensures Do(s, Judges(t)).threads[t].Away?
       <==> StoredFresh(s.begun, s.threads[t].network, s.threads[t].generation, s.clock)
  {
    RunKeepsHistory(Opening(clock), steps, s);
    var pc := s.threads[t];
    if Fresh(s, pc.network, pc.generation) {
      assert FromHistory(s.begun, pc.network, s.cache[pc.network]);
    } else {
      JudgesFindsNothing(s, t);
    }
  }

  lemma {:induction false} RunsOne(s: State, step: Step)
    requires Enabled(s, step)
    ensures Runs(s, [step], Do(s, step))
  {
    assert [step][1..] == [];
  }

  lemma {:induction false} RunsOn(s: State, first: seq<Step>, u: State, rest: seq<Step>, t: State)
    requires Runs(s, first, u) && Runs(u, rest, t)
    ensures Runs(s, first + rest, t)
    decreases |first|
  {
    if first == [] {
      assert first + rest == rest;
    } else {
      assert (first + rest)[1..] == first[1..] + rest;
      RunsOn(Do(s, first[0]), first[1..], u, rest, t);
    }
  }

  lemma {:induction false} Then(s: State, steps: seq<Step>, u: State, step: Step, t: State)
    requires Runs(s, steps, u) && Enabled(u, step) && t == Do(u, step)
    ensures Runs(s, steps + [step], t)
  {
    RunsOne(u, step);
    RunsOn(s, steps, u, [step], t);
  }

  // One request alone with the lock, from asking to computing.
  lemma {:induction false} GoesToCompute(s: State, t: nat, network: string) returns (steps: seq<Step>, u: State)
    requires t in s.threads && s.threads[t] == Waiting(network)
    requires forall v :: v in s.threads ==> !Holds(s.threads[v])
    requires !Fresh(s, network, s.generation)
    ensures Runs(s, steps, u) && forall i :: 0 <= i < |steps| ==> !steps[i].Announces? && !steps[i].Ticks?
    ensures var value := Value(network, s.generation, s.clock);
            u == s.(threads := s.threads[t := Computing(network, s.generation, s.clock, value)],
                    begun := s.begun + [Computation(network, s.generation, s.clock, s.clock, Running)])
  {
    var s1 := Do(s, Locks(t));
    var s2 := Do(s1, ReadsGeneration(t));
    var s3 := Do(s2, Judges(t));
    var s4 := Do(s3, Stamps(t));
    u := Do(s4, Begins(t));
    RunsOne(s, Locks(t));
    Then(s, [Locks(t)], s1, ReadsGeneration(t), s2);
    Then(s, [Locks(t)] + [ReadsGeneration(t)], s2, Judges(t), s3);
    Then(s, [Locks(t)] + [ReadsGeneration(t)] + [Judges(t)], s3, Stamps(t), s4);
    Then(s, [Locks(t)] + [ReadsGeneration(t)] + [Judges(t)] + [Stamps(t)], s4, Begins(t), u);
    steps := [Locks(t)] + [ReadsGeneration(t)] + [Judges(t)] + [Stamps(t)] + [Begins(t)];
    assert u.threads == s.threads[t := u.threads[t]];
  }

  // Two requests of one network, the first of them computing.
  lemma {:induction false} TwoAskOneComputes(clock: real, network: string) returns (steps: seq<Step>, one: State)
    ensures var value := Value(network, 0, clock);
            one == State(0, clock, map[], map[0 := Computing(network, 0, clock, value), 1 := Waiting(network)], [],
                         [Computation(network, 0, clock, clock, Running)])
    ensures Runs(Opening(clock), steps, one)
    ensures forall i :: 0 <= i < |steps| ==> !steps[i].Announces? && !steps[i].Ticks?
  {
    var o := Opening(clock);
    var asked := Do(Do(o, Asks(0, network)), Asks(1, network));
    RunsOne(o, Asks(0, network));
    Then(o, [Asks(0, network)], Do(o, Asks(0, network)), Asks(1, network), asked);
    var first;
    first, one := GoesToCompute(asked, 0, network);
    RunsOn(o, [Asks(0, network)] + [Asks(1, network)], asked, first, one);
    steps := [Asks(0, network)] + [Asks(1, network)] + first;
  }

  // The two other reasons to compute again: the first computation raised, with no time gone by and no
  // change announced.
  lemma {:induction false} ARaisedOneIsComputedAgain(clock: real, network: string) returns (steps: seq<Step>, s: State)
    ensures Runs(Opening(clock), steps, s) && forall i :: 0 <= i < |steps| ==> !steps[i].Announces? && !steps[i].Ticks?
    ensures |s.begun| == 2 && s.begun[0].outcome.Failed? && s.begun[1].outcome.Running?
    ensures s.begun[0].network == s.begun[1].network == network && s.answers == []
  {
    var one: State;
    steps, one := TwoAskOneComputes(clock, network);
    var raised := Do(one, Raises(0));
    Then(Opening(clock), steps, one, Raises(0), raised);
    var second;
    second, s := GoesToCompute(raised, 1, network);
    RunsOn(Opening(clock), steps + [Raises(0)], raised, second, s);
    steps := steps + [Raises(0)] + second;
  }

  // Or a change was announced while it computed: it is stored, and the next request computes again.
  lemma {:induction false} AChangeIsComputedAgain(clock: real, network: string) returns (steps: seq<Step>, s: State)
    ensures Runs(Opening(clock), steps, s) && forall i :: 0 <= i < |steps| ==> !steps[i].Ticks?
    ensures |s.begun| == 2 && s.begun[0].outcome.Stored? && s.begun[1].outcome.Running?
    ensures s.begun[0].network == s.begun[1].network == network && s.begun[0].generation < s.begun[1].generation
  {
    var one: State;
    steps, one := TwoAskOneComputes(clock, network);
    var changed := Do(one, Announces);
    Then(Opening(clock), steps, one, Announces, changed);
    var stored := Do(changed, Stores(0));
    Then(Opening(clock), steps + [Announces], changed, Stores(0), stored);
    var second;
    second, s := GoesToCompute(stored, 1, network);
    RunsOn(Opening(clock), steps + [Announces] + [Stores(0)], stored, second, s);
    steps := steps + [Announces] + [Stores(0)] + second;
  }

  // But a quick one with nothing announced serves every request that waited for it.
  lemma {:induction false} AQuickOneServesTheNext(clock: real, network: string, seconds: real)
      returns (steps: seq<Step>, s: State)
    requires 0.0 <= seconds < SHARED_SECONDS
    ensures Runs(Opening(clock), steps, s) && |s.begun| == 1 && |s.answers| == 2
    ensures s.answers[0].value == s.answers[1].value && s.answers[1].cachedAt == Some(clock + seconds)
  {
    var one: State;
    steps, one := TwoAskOneComputes(clock, network);
    var o := Opening(clock);
    var later := Do(one, Ticks(seconds));
    Then(o, steps, one, Ticks(seconds), later);
    var stored := Do(later, Stores(0));
    Then(o, steps + [Ticks(seconds)], later, Stores(0), stored);
    steps := steps + [Ticks(seconds)] + [Stores(0)];
    var locked := Do(stored, Locks(1));
    Then(o, steps, stored, Locks(1), locked);
    var read := Do(locked, ReadsGeneration(1));
    Then(o, steps + [Locks(1)], locked, ReadsGeneration(1), read);
    s := Do(read, Judges(1));
    Then(o, steps + [Locks(1)] + [ReadsGeneration(1)], read, Judges(1), s);
    steps := steps + [Locks(1)] + [ReadsGeneration(1)] + [Judges(1)];
  }

  // A burst is more than one computation when one is slow: two requests, no change announced, and
  // the first computation takes SHARED_SECONDS. Its entry is stamped before it began, so it is too
  // old by the time it is stored, and the second request computes again.
  lemma {:induction false} ASlowOneIsComputedAgain(clock: real, network: string) returns (steps: seq<Step>, s: State)
    ensures Runs(Opening(clock), steps, s) && forall i :: 0 <= i < |steps| ==> !steps[i].Announces?
    ensures |s.begun| == 2 && s.begun[0].outcome.Stored? && s.begun[1].outcome.Running?
    ensures s.begun[0].network == s.begun[1].network == network && s.begun[0].generation == s.begun[1].generation
  {
    var o := Opening(clock);
    var one: State;
    steps, one := TwoAskOneComputes(clock, network);
    var late := Do(one, Ticks(SHARED_SECONDS));
    Then(o, steps, one, Ticks(SHARED_SECONDS), late);
    var stored := Do(late, Stores(0));
    Then(o, steps + [Ticks(SHARED_SECONDS)], late, Stores(0), stored);
    var second;
    second, s := GoesToCompute(stored, 1, network);
    RunsOn(o, steps + [Ticks(SHARED_SECONDS)] + [Stores(0)], stored, second, s);
    steps := steps + [Ticks(SHARED_SECONDS)] + [Stores(0)] + second;
  }
}
