// `read_or_create_key`: processes racing to create one key file, as the file system's steps.
module KeyFile {
  import opened Wrappers

  type Bytes = seq<int>

  // Where a process stands. `node` is the file it writes or reads; `whole` is its own new key.
  datatype Pc =
    | Fresh
    | Absent
    | Refused
    | Writing(node: nat, whole: Bytes)
    | Linking(node: nat)
    | Unlinking(node: nat)
    | Opening
    | Reading(node: nat, got: Bytes)
    | Returned(bytes: Bytes)
    | Failed
    | Dead

  // `key` is the file the key's name is linked to. `contents` is each file's bytes now; a file is
  // never deleted here, only its temporary name.
  datatype State = State(key: Option<nat>, contents: map<nat, Bytes>, temps: set<nat>, processes: map<nat, Pc>)

  datatype Step =
    | Looks(p: nat)
    | IsRefused(p: nat)
    | MakesTemp(p: nat, node: nat, whole: Bytes)
    | Writes(p: nat)
    | Flushes(p: nat)
    | Links(p: nat)
    | Unlinks(p: nat)
    | Opens(p: nat)
    | Reads(p: nat, more: nat)
    | Raises(p: nat)
    | Dies(p: nat)

  function PcOf(s: State, p: nat): Pc { if p in s.processes then s.processes[p] else Fresh }

  predicate Enabled(s: State, step: Step) {
    match step
    case Looks(p) => PcOf(s, p).Fresh?
    case IsRefused(p) => PcOf(s, p).Absent?
    case MakesTemp(p, node, _) => PcOf(s, p).Absent? && node !in s.contents
    case Writes(p) =>
      PcOf(s, p).Writing? && PcOf(s, p).node in s.contents && |s.contents[PcOf(s, p).node]| < |PcOf(s, p).whole|
    case Flushes(p) =>
      PcOf(s, p).Writing? && PcOf(s, p).node in s.contents && |s.contents[PcOf(s, p).node]| >= |PcOf(s, p).whole|
    case Links(p) => PcOf(s, p).Linking?
    case Unlinks(p) => PcOf(s, p).Unlinking?
    case Opens(p) => PcOf(s, p).Opening? && s.key.Some?
    case Reads(p, more) => PcOf(s, p).Reading? && PcOf(s, p).node in s.contents && more > 0
    case Raises(p) => PcOf(s, p).Writing? || PcOf(s, p).Linking? || PcOf(s, p).Opening? || PcOf(s, p).Reading?
    case Dies(p) => true
  }

  function Do(s: State, step: Step): State
    requires Enabled(s, step)
  {
    match step
    case Looks(p) => s.(processes := s.processes[p := if s.key.Some? then Opening else Absent])
    case IsRefused(p) => s.(processes := s.processes[p := Refused])
    case MakesTemp(p, node, whole) =>
      s.(contents := s.contents[node := []], temps := s.temps + {node},
         processes := s.processes[p := Writing(node, whole)])
    case Writes(p) =>
      var pc := s.processes[p];
      var now := s.contents[pc.node];
      s.(contents := s.contents[pc.node := now + [pc.whole[|now|]]])
    case Flushes(p) => s.(processes := s.processes[p := Linking(s.processes[p].node)])
    // The link fails when the key exists; the process then discards its own.
    case Links(p) =>
      var node := s.processes[p].node;
      s.(key := if s.key.None? then Some(node) else s.key, processes := s.processes[p := Unlinking(node)])
    case Unlinks(p) =>
      s.(temps := s.temps - {s.processes[p].node}, processes := s.processes[p := Opening])
    case Opens(p) => s.(processes := s.processes[p := Reading(s.key.value, [])])
    // The file is read in pieces; at its end the process returns what it read.
    case Reads(p, more) =>
      var pc := s.processes[p];
      var all := s.contents[pc.node];
      if |pc.got| + more < |all| then
        s.(processes := s.processes[p := Reading(pc.node, pc.got + all[|pc.got|..|pc.got| + more])])
      else if |pc.got| <= |all| then s.(processes := s.processes[p := Returned(pc.got + all[|pc.got|..])])
      else s.(processes := s.processes[p := Returned(pc.got)])
    // A write, or a link for another reason than that the key exists, removes the temporary name
    // and raises; an open or a read raises as it is.
    case Raises(p) =>
      var pc := s.processes[p];
      s.(temps := if pc.Writing? || pc.Linking? then s.temps - {pc.node} else s.temps,
         processes := s.processes[p := Failed])
    case Dies(p) => s.(processes := s.processes[p := Dead])
  }

  // The file a process owns while it is being made.
  predicate Makes(pc: Pc, node: nat) { (pc.Writing? || pc.Linking?) && pc.node == node }

  ghost predicate PcHonest(s: State, p: nat) {
    match PcOf(s, p)
    case Writing(node, whole) => node in s.contents && s.contents[node] <= whole && s.key != Some(node)
    case Linking(node) => node in s.contents && s.key != Some(node)
    case Unlinking(node) => s.key.Some?
    case Opening => s.key.Some?
    case Reading(node, got) => s.key == Some(node) && node in s.contents && got <= s.contents[node]
    case Returned(bytes) => s.key.Some? && s.key.value in s.contents && bytes == s.contents[s.key.value]
    case _ => true
  }

  ghost predicate Inv(s: State) {
    && (s.key.Some? ==> s.key.value in s.contents)
    && (forall p :: PcHonest(s, p))
    && (forall p, q, n :: Makes(PcOf(s, p), n) && Makes(PcOf(s, q), n) ==> p == q)
  }

  ghost predicate Runs(s: State, steps: seq<Step>, t: State)
    decreases |steps|
  {
    if steps == [] then s == t
    else Enabled(s, steps[0]) && Runs(Do(s, steps[0]), steps[1..], t)
  }

  // Once linked, the key's name leads to the same file and that file never changes.
  ghost predicate KeyStands(s: State, t: State) {
    s.key.Some? ==> t.key == s.key && s.key.value in s.contents && s.key.value in t.contents
                    && t.contents[s.key.value] == s.contents[s.key.value]
  }

  lemma {:induction false} OthersHonest(s: State, step: Step, q: nat)
    requires Inv(s) && Enabled(s, step) && q != step.p
    ensures PcHonest(Do(s, step), q)
  {
    assert PcHonest(s, q) && PcHonest(s, step.p);
    var t := Do(s, step);
    assert PcOf(t, q) == PcOf(s, q);
    if step.Writes? && Makes(PcOf(s, q), s.processes[step.p].node) {
      assert Makes(PcOf(s, step.p), s.processes[step.p].node);
    }
    if step.Links? && Makes(PcOf(s, q), s.processes[step.p].node) {
      assert Makes(PcOf(s, step.p), s.processes[step.p].node);
    }
  }

  lemma {:induction false} OwnHonest(s: State, step: Step)
    requires Inv(s) && Enabled(s, step)
    ensures PcHonest(Do(s, step), step.p)
  {
    assert PcHonest(s, step.p);
  }

  lemma {:induction false} MakersDiffer(s: State, step: Step)
    requires Inv(s) && Enabled(s, step)
    ensures var t := Do(s, step); forall p, q, n :: Makes(PcOf(t, p), n) && Makes(PcOf(t, q), n) ==> p == q
  {
    var t := Do(s, step);
    forall p, n | Makes(PcOf(t, p), n)
      ensures Makes(PcOf(s, p), n) || (step.MakesTemp? && p == step.p && n == step.node)
    {
    }
    forall p, n | Makes(PcOf(s, p), n) ensures n in s.contents {
      assert PcHonest(s, p);
    }
  }

  lemma {:induction false} StepKeepsInv(s: State, step: Step)
    requires Inv(s) && Enabled(s, step)
    ensures Inv(Do(s, step)) && KeyStands(s, Do(s, step))
  {
    var t := Do(s, step);
    assert PcHonest(s, step.p);
    forall q ensures PcHonest(t, q) {
      if q == step.p {
        OwnHonest(s, step);
      } else {
        OthersHonest(s, step, q);
      }
    }
    MakersDiffer(s, step);
  }

  lemma {:induction false} RunKeepsInv(s: State, steps: seq<Step>, t: State)
    requires Inv(s) && Runs(s, steps, t)
    ensures Inv(t) && KeyStands(s, t)
    decreases |steps|
  {
    if steps != [] {
      StepKeepsInv(s, steps[0]);
      RunKeepsInv(Do(s, steps[0]), steps[1..], t);
    }
  }

  // A store with no key, or with one already.
  function Store(key: Option<Bytes>): State {
    if key.None? then State(None, map[], {}, map[]) else State(Some(0), map[0 := key.value], {}, map[])
  }

  // For every interleaving and every crash: all calls that return give the same bytes.
  lemma {:induction false} AllReturnTheSame(key: Option<Bytes>, before: seq<Step>, s: State, after: seq<Step>, t: State,
                                            p: nat, q: nat)
    requires Runs(Store(key), before, s) && Runs(s, after, t)
    requires PcOf(s, p).Returned? && PcOf(t, q).Returned?
    ensures PcOf(s, p).bytes == PcOf(t, q).bytes
    ensures key.Some? ==> PcOf(s, p).bytes == key.value
  {
    RunKeepsInv(Store(key), before, s);
    RunKeepsInv(s, after, t);
    assert PcHonest(s, p) && PcHonest(t, q);
  }

  // The key file never changes once it is linked.
  lemma {:induction false} KeyNeverChanges(key: Option<Bytes>, before: seq<Step>, s: State, after: seq<Step>, t: State)
    requires Runs(Store(key), before, s) && Runs(s, after, t)
    ensures KeyStands(s, t)
  {
    RunKeepsInv(Store(key), before, s);
    RunKeepsInv(s, after, t);
  }

  // ------------------------------------------------------------------ whole keys and refusals

  // What each process let past the refusal set out to write, as the steps say it.
  function Intended(steps: seq<Step>): set<Bytes> {
    set i | 0 <= i < |steps| && steps[i].MakesTemp? :: steps[i].whole
  }

  ghost predicate WholeInv(s: State, made: set<Bytes>) {
    && (s.key.Some? ==> s.key.value in s.contents && s.contents[s.key.value] in made)
    && (forall p :: PcOf(s, p).Writing? ==> PcOf(s, p).whole in made)
    && (forall p :: PcOf(s, p).Linking? ==> PcOf(s, p).node in s.contents && s.contents[PcOf(s, p).node] in made)
  }

  lemma {:induction false} StepKeepsWhole(s: State, step: Step, made: set<Bytes>)
    requires Inv(s) && WholeInv(s, made) && Enabled(s, step)
    requires step.MakesTemp? ==> step.whole in made
    ensures WholeInv(Do(s, step), made)
  {
    var t := Do(s, step);
    StepKeepsInv(s, step);
    forall p ensures PcOf(t, p).Writing? ==> PcOf(t, p).whole in made
      ensures PcOf(t, p).Linking? ==> PcOf(t, p).node in t.contents && t.contents[PcOf(t, p).node] in made
    {
      assert PcHonest(s, p) && PcHonest(s, step.p);
      if step.Writes? && p != step.p && PcOf(s, p).Linking? {
        assert forall n :: Makes(PcOf(s, p), n) ==> !Makes(PcOf(s, step.p), n);
        assert Makes(PcOf(s, p), PcOf(s, p).node);
      }
      if step.Flushes? && p == step.p {
        assert s.contents[PcOf(s, p).node] == PcOf(s, p).whole;
      }
    }
  }

  lemma {:induction false} RunKeepsWhole(s: State, steps: seq<Step>, t: State, made: set<Bytes>)
    requires Inv(s) && WholeInv(s, made) && Runs(s, steps, t)
    requires forall i :: 0 <= i < |steps| && steps[i].MakesTemp? ==> steps[i].whole in made
    ensures WholeInv(t, made)
    decreases |steps|
  {
    if steps != [] {
      assert steps[0].MakesTemp? ==> steps[0].whole in made;
      StepKeepsInv(s, steps[0]);
      StepKeepsWhole(s, steps[0], made);
      assert forall i :: 0 <= i < |steps[1..]| ==> steps[1..][i] == steps[i + 1];
      RunKeepsWhole(Do(s, steps[0]), steps[1..], t, made);
    }
  }

  // The bytes returned are always a whole key some process let past the refusal generated, or the
  // key that was there: never part of one, whoever died while writing.
  lemma {:induction false} ReturnedIsWhole(key: Option<Bytes>, steps: seq<Step>, t: State, p: nat)
    requires Runs(Store(key), steps, t) && PcOf(t, p).Returned?
    ensures PcOf(t, p).bytes in Intended(steps) || key == Some(PcOf(t, p).bytes)
  {
    var made := Intended(steps) + if key.Some? then {key.value} else {};
    RunKeepsInv(Store(key), steps, t);
    RunKeepsWhole(Store(key), steps, t, made);
    assert PcHonest(t, p);
  }

  // What one process did, in its order.
  function StepsOf(steps: seq<Step>, p: nat): seq<Step> {
    if steps == [] then [] else (if steps[0].p == p then [steps[0]] else []) + StepsOf(steps[1..], p)
  }

  // A process on its way to a refusal has done nothing else.
  ghost predicate OnlyRefused(pc: Pc, done: seq<Step>, p: nat) {
    match pc
    case Fresh => done == [Looks(p), IsRefused(p)]
    case Absent => done == [IsRefused(p)]
    case Refused => done == []
    case _ => false
  }

  lemma {:induction false} RefusedDidNothingElse(s: State, steps: seq<Step>, t: State, p: nat)
    requires Runs(s, steps, t) && PcOf(t, p).Refused?
    ensures OnlyRefused(PcOf(s, p), StepsOf(steps, p), p)
    decreases |steps|
  {
    if steps != [] {
      var next := Do(s, steps[0]);
      RefusedDidNothingElse(next, steps[1..], t, p);
      if steps[0].p != p {
        assert PcOf(next, p) == PcOf(s, p);
      }
    }
  }

  // Over every run, beside any others: a process that is refused looked, was refused and did no more.
  // So it made no temporary file, wrote nothing and linked no key.
  lemma {:induction false} RefusedLeavesNothing(key: Option<Bytes>, steps: seq<Step>, t: State, p: nat)
    requires Runs(Store(key), steps, t) && PcOf(t, p).Refused?
    ensures StepsOf(steps, p) == [Looks(p), IsRefused(p)]
    ensures forall i :: 0 <= i < |steps| && steps[i].p == p ==> steps[i] == Looks(p) || steps[i] == IsRefused(p)
  {
    RefusedDidNothingElse(Store(key), steps, t, p);
    forall i | 0 <= i < |steps| && steps[i].p == p ensures steps[i] == Looks(p) || steps[i] == IsRefused(p) {
      OwnStep(steps, p, i);
    }
  }

  lemma {:induction false} OwnStep(steps: seq<Step>, p: nat, i: nat)
    requires i < |steps| && steps[i].p == p
    ensures steps[i] in StepsOf(steps, p)
    decreases |steps|
  {
    if i > 0 {
      OwnStep(steps[1..], p, i - 1);
    }
  }

  // A process that has made nothing yet: it has not looked, found no key, or was refused.
  predicate MadeNothing(pc: Pc) { pc.Fresh? || pc.Absent? || pc.Refused? }

  lemma {:induction false} MakersShow(s: State, steps: seq<Step>, t: State, p: nat)
    requires Runs(s, steps, t) && MadeNothing(PcOf(t, p))
    ensures MadeNothing(PcOf(s, p))
    ensures forall i :: 0 <= i < |steps| && steps[i].p == p ==> !steps[i].MakesTemp?
    decreases |steps|
  {
    if steps != [] {
      var next := Do(s, steps[0]);
      MakersShow(next, steps[1..], t, p);
      assert steps[0].p != p ==> PcOf(next, p) == PcOf(s, p);
      forall i | 0 <= i < |steps| && steps[i].p == p ensures !steps[i].MakesTemp? {
        assert i > 0 ==> steps[i] == steps[1..][i - 1];
      }
    }
  }

  // And where no process got further than a refusal, there is no key and no file at all.
  lemma {:induction false} AllRefusedLeavesNothing(steps: seq<Step>, t: State)
    requires Runs(Store(None), steps, t) && forall p :: MadeNothing(PcOf(t, p))
    ensures t.key.None? && t.contents == map[] && t.temps == {}
  {
    forall i | 0 <= i < |steps| ensures !steps[i].MakesTemp? {
      MakersShow(Store(None), steps, t, steps[i].p);
    }
    NothingMade(Store(None), steps, t);
  }

  lemma {:induction false} NothingMade(s: State, steps: seq<Step>, t: State)
    requires Runs(s, steps, t) && s.key.None? && s.contents == map[] && s.temps == {}
    requires forall p :: MadeNothing(PcOf(s, p)) || PcOf(s, p).Dead?
    requires forall i :: 0 <= i < |steps| ==> !steps[i].MakesTemp?
    ensures t.key.None? && t.contents == map[] && t.temps == {}
    decreases |steps|
  {
    if steps != [] {
      assert !steps[0].MakesTemp?;
      var next := Do(s, steps[0]);
      assert forall i :: 0 <= i < |steps[1..]| ==> steps[1..][i] == steps[i + 1];
      assert PcOf(s, steps[0].p) != Opening;
      forall p ensures MadeNothing(PcOf(next, p)) || PcOf(next, p).Dead? {
        assert p == steps[0].p || PcOf(next, p) == PcOf(s, p);
      }
      NothingMade(next, steps[1..], t);
    }
  }

  // ------------------------------------------------------------------ what a process does with what it finds

  // A process that found a key: it opens it, reads it, returns it, raises or dies.
  predicate OnlyReads(pc: Pc) { pc.Opening? || pc.Reading? || pc.Returned? || pc.Failed? || pc.Dead? }

  lemma {:induction false} ReaderStays(s: State, steps: seq<Step>, t: State, p: nat)
    requires Runs(s, steps, t) && OnlyReads(PcOf(s, p))
    ensures OnlyReads(PcOf(t, p))
    ensures forall i :: 0 <= i < |steps| && steps[i].p == p ==>
              steps[i].Opens? || steps[i].Reads? || steps[i].Raises? || steps[i].Dies?
    decreases |steps|
  {
    if steps != [] {
      var next := Do(s, steps[0]);
      assert steps[0].p != p ==> PcOf(next, p) == PcOf(s, p);
      ReaderStays(next, steps[1..], t, p);
      forall i | 0 <= i < |steps| && steps[i].p == p
        ensures steps[i].Opens? || steps[i].Reads? || steps[i].Raises? || steps[i].Dies?
      {
        assert i > 0 ==> steps[i] == steps[1..][i - 1];
      }
    }
  }

  // A process that looks where there is a key never makes one and is never refused, whatever the others
  // do; where there is none it may be refused, and may make one.
  lemma {:induction false} LooksDecides(s: State, p: nat, after: seq<Step>, t: State, node: nat, whole: Bytes)
    requires Enabled(s, Looks(p)) && Runs(Do(s, Looks(p)), after, t)
    ensures s.key.Some? ==>
              && OnlyReads(PcOf(t, p))
              && forall i :: 0 <= i < |after| && after[i].p == p ==>
                   after[i].Opens? || after[i].Reads? || after[i].Raises? || after[i].Dies?
    ensures s.key.None? ==>
              && Enabled(Do(s, Looks(p)), IsRefused(p)) && !Enabled(Do(s, Looks(p)), Opens(p))
              && (node !in s.contents ==> Enabled(Do(s, Looks(p)), MakesTemp(p, node, whole)))
  {
    if s.key.Some? {
      ReaderStays(Do(s, Looks(p)), after, t, p);
    }
  }

  // So where there is a key from the start it is all that is ever there: no file is made and no key but it.
  lemma {:induction false} AnExistingKeyIsOnlyRead(key: Bytes, steps: seq<Step>, t: State)
    requires Runs(Store(Some(key)), steps, t)
    ensures t.key == Some(0) && t.contents == map[0 := key] && t.temps == {}
  {
    KeyThereStays(Store(Some(key)), steps, t);
  }

  lemma {:induction false} KeyThereStays(s: State, steps: seq<Step>, t: State)
    requires Runs(s, steps, t) && s.key.Some? && s.temps == {}
    requires forall p :: PcOf(s, p).Fresh? || OnlyReads(PcOf(s, p))
    ensures t.key == s.key && t.contents == s.contents && t.temps == {}
    decreases |steps|
  {
    if steps != [] {
      var next := Do(s, steps[0]);
      assert PcOf(s, steps[0].p).Fresh? || OnlyReads(PcOf(s, steps[0].p));
      forall p ensures PcOf(next, p).Fresh? || OnlyReads(PcOf(next, p)) {
        assert p != steps[0].p ==> PcOf(next, p) == PcOf(s, p);
      }
      KeyThereStays(next, steps[1..], t);
    }
  }

  // ------------------------------------------------------------------ temporary names

  predicate HasTemp(pc: Pc, node: nat) { (pc.Writing? || pc.Linking? || pc.Unlinking?) && pc.node == node }

  ghost predicate TempsHeld(s: State) { forall n :: n in s.temps ==> exists p :: HasTemp(PcOf(s, p), n) }

  lemma {:induction false} StepKeepsTemps(s: State, step: Step)
    requires Inv(s) && TempsHeld(s) && Enabled(s, step) && !step.Dies?
    ensures TempsHeld(Do(s, step))
  {
    var t := Do(s, step);
    forall n | n in t.temps ensures exists p :: HasTemp(PcOf(t, p), n) {
      if step.MakesTemp? && n == step.node {
        assert HasTemp(PcOf(t, step.p), n);
      } else {
        var p :| HasTemp(PcOf(s, p), n);
        assert p != step.p ==> PcOf(t, p) == PcOf(s, p);
        assert HasTemp(PcOf(t, p), n);
      }
    }
  }

  lemma {:induction false} RunKeepsTemps(s: State, steps: seq<Step>, t: State)
    requires Inv(s) && TempsHeld(s) && Runs(s, steps, t) && forall i :: 0 <= i < |steps| ==> !steps[i].Dies?
    ensures TempsHeld(t)
    decreases |steps|
  {
    if steps != [] {
      assert !steps[0].Dies?;
      StepKeepsInv(s, steps[0]);
      StepKeepsTemps(s, steps[0]);
      assert forall i :: 0 <= i < |steps[1..]| ==> steps[1..][i] == steps[i + 1];
      RunKeepsTemps(Do(s, steps[0]), steps[1..], t);
    }
  }

  // While no process dies, a temporary name is there only while the process that made it is at work on
  // it: one that raised, or lost, has removed its own.
  lemma {:induction false} NoTempOutlivesItsMaker(key: Option<Bytes>, steps: seq<Step>, t: State, node: nat)
    requires Runs(Store(key), steps, t) && forall i :: 0 <= i < |steps| ==> !steps[i].Dies?
    requires node in t.temps
    ensures exists p :: HasTemp(PcOf(t, p), node)
  {
    RunKeepsTemps(Store(key), steps, t);
  }

  // ------------------------------------------------------------------ one process alone

  lemma {:induction false} Then(s: State, steps: seq<Step>, u: State, step: Step)
    requires Runs(s, steps, u) && Enabled(u, step)
    ensures Runs(s, steps + [step], Do(u, step))
    decreases |steps|
  {
    if steps == [] {
      assert [] + [step] == [step] && [step][1..] == [];
    } else {
      Then(Do(s, steps[0]), steps[1..], u, step);
      assert (steps + [step])[1..] == steps[1..] + [step];
    }
  }

  ghost predicate OnlyBy(steps: seq<Step>, p: nat) { forall i :: 0 <= i < |steps| ==> steps[i].p == p }

  // A process with the first `n` bytes of its key written to a file of its own, where there is no key.
  function Written(s: State, p: nat, node: nat, whole: Bytes, n: nat): State
    requires n <= |whole|
  {
    s.(contents := s.contents[node := whole[..n]], temps := s.temps + {node},
       processes := s.processes[p := Writing(node, whole)])
  }

  lemma {:induction false} WritesUpTo(s: State, p: nat, node: nat, whole: Bytes, n: nat) returns (steps: seq<Step>)
    requires PcOf(s, p).Fresh? && s.key.None? && node !in s.contents && n <= |whole|
    ensures Runs(s, steps, Written(s, p, node, whole, n)) && OnlyBy(steps, p)
  {
    if n == 0 {
      var looked := Do(s, Looks(p));
      assert Runs(s, [], s);
      Then(s, [], s, Looks(p));
      Then(s, [] + [Looks(p)], looked, MakesTemp(p, node, whole));
      assert Do(looked, MakesTemp(p, node, whole)) == Written(s, p, node, whole, 0);
      steps := [] + [Looks(p)] + [MakesTemp(p, node, whole)];
    } else {
      steps := WritesUpTo(s, p, node, whole, n - 1);
      WritesOneMore(s, p, node, whole, n);
      Then(s, steps, Written(s, p, node, whole, n - 1), Writes(p));
      steps := steps + [Writes(p)];
    }
  }

  lemma {:induction false} WritesOneMore(s: State, p: nat, node: nat, whole: Bytes, n: nat)
    requires 0 < n <= |whole|
    ensures Enabled(Written(s, p, node, whole, n - 1), Writes(p))
    ensures Do(Written(s, p, node, whole, n - 1), Writes(p)) == Written(s, p, node, whole, n)
  {
    assert whole[..n - 1] + [whole[n - 1]] == whole[..n];
  }

  // With its key written, it links it, drops the temporary name, and is about to open it.
  lemma {:induction false} LinksIt(s: State, p: nat, node: nat, whole: Bytes) returns (steps: seq<Step>, u: State)
    requires PcOf(s, p).Fresh? && s.key.None? && node !in s.contents
    ensures Runs(s, steps, u) && OnlyBy(steps, p)
    ensures PcOf(u, p).Opening? && u.key == Some(node) && u.contents == s.contents[node := whole]
    ensures u.temps == s.temps - {node}
  {
    steps := WritesUpTo(s, p, node, whole, |whole|);
    var s0 := Written(s, p, node, whole, |whole|);
    assert whole[..|whole|] == whole;
    var s1 := Do(s0, Flushes(p));
    var s2 := Do(s1, Links(p));
    u := Do(s2, Unlinks(p));
    Then(s, steps, s0, Flushes(p));
    Then(s, steps + [Flushes(p)], s1, Links(p));
    Then(s, steps + [Flushes(p)] + [Links(p)], s2, Unlinks(p));
    steps := steps + [Flushes(p)] + [Links(p)] + [Unlinks(p)];
  }

  lemma {:induction false} OpensAndReads(s: State, p: nat) returns (t: State)
    requires PcOf(s, p).Opening? && s.key.Some? && s.key.value in s.contents
    ensures var all := s.contents[s.key.value];
            var steps := [] + [Opens(p)] + [Reads(p, |all| + 1)];
            Runs(s, steps, t) && PcOf(t, p) == Returned(all)
    ensures t.key == s.key && t.contents == s.contents && t.temps == s.temps
  {
    var all := s.contents[s.key.value];
    var reading := Do(s, Opens(p));
    t := Do(reading, Reads(p, |all| + 1));
    assert [] + all[0..] == all;
    assert Runs(s, [], s);
    Then(s, [], s, Opens(p));
    Then(s, [] + [Opens(p)], reading, Reads(p, |all| + 1));
  }

  lemma {:induction false} RunsOn(s: State, first: seq<Step>, u: State, rest: seq<Step>, t: State)
    requires Runs(s, first, u) && Runs(u, rest, t)
    ensures Runs(s, first + rest, t)
    decreases |first|
  {
    if first == [] {
      assert first + rest == rest;
    } else {
      assert (first + rest)[1..] == first[1..] + rest;
      RunsOn(Do(s, first[0]), first[1..], u, rest, t);
    }
  }

  // Whatever the others have done by then, and wherever they stand or died, a process can go through on
  // its own: with the key that is there, or with the one it makes itself, leaving no temporary name.
  lemma {:induction false} NobodyIsInTheWay(s: State, p: nat, node: nat, whole: Bytes)
      returns (steps: seq<Step>, t: State)
    requires Inv(s) && PcOf(s, p).Fresh? && node !in s.contents && node !in s.temps
    ensures Runs(s, steps, t) && OnlyBy(steps, p) && PcOf(t, p).Returned? && t.temps == s.temps
    ensures s.key.Some? ==> t.contents == s.contents && PcOf(t, p).bytes == s.contents[s.key.value]
    ensures s.key.None? ==> t.contents == s.contents[node := whole] && t.key == Some(node) && PcOf(t, p).bytes == whole
  {
    var u: State;
    if s.key.Some? {
      u := Do(s, Looks(p));
      assert Runs(s, [], s);
      Then(s, [], s, Looks(p));
      steps := [] + [Looks(p)];
    } else {
      steps, u := LinksIt(s, p, node, whole);
    }
    t := OpensAndReads(u, p);
    var rest := [] + [Opens(p)] + [Reads(p, |u.contents[u.key.value]| + 1)];
    RunsOn(s, steps, u, rest, t);
    steps := steps + rest;
  }

  // So one that dies, in the middle of its key or anywhere else, keeps no other from it.
  lemma {:induction false} ADeathHarmsNobody(key: Option<Bytes>, before: seq<Step>, s: State, dying: nat, p: nat,
                                             node: nat, whole: Bytes) returns (steps: seq<Step>, t: State)
    requires Runs(Store(key), before, s) && PcOf(s, p).Fresh? && p != dying && node !in s.contents && node !in s.temps
    ensures Runs(Store(key), before + [Dies(dying)] + steps, t) && OnlyBy(steps, p) && PcOf(t, p).Returned?
    ensures if s.key.Some? then s.key.value in s.contents && PcOf(t, p).bytes == s.contents[s.key.value]
            else PcOf(t, p).bytes == whole
  {
    RunKeepsInv(Store(key), before, s);
    var u := Do(s, Dies(dying));
    StepKeepsInv(s, Dies(dying));
    Then(Store(key), before, s, Dies(dying));
    steps, t := NobodyIsInTheWay(u, p, node, whole);
    RunsOn(Store(key), before + [Dies(dying)], u, steps, t);
  }
}
