// The three levels of locks around the pooled sessions: each pool's lock, each device's send
// lock, and `_sessions_mu`; the threads that take them, and the reaper, which takes a send lock
// and then a pool's, out of order, by tries that never wait.
module SessionLocks {
  import opened Wrappers

  datatype Lock = Pool(pool: nat) | Send(ip: nat) | Mu

  function Rank(l: Lock): nat {
    match l
    case Pool(_) => 0
    case Send(_) => 1
    case Mu => 2
  }

  // A pool's place for a device, and an idle session as the reaper's snapshot names it.
  datatype Place = Place(pool: nat, ip: nat)
  datatype Idle = Idle(at: Place, session: nat)

  // Where a thread stands: in `get_persistent_connection`, in `close_persistent_connection`, in a
  // call through a `LockedConnection`, in `reap_idle`, or opening or closing a session outside the
  // pools; `made` is a session it has opened and not yet put in the pool.
  datatype Pc =
    | Resting
    | GetWantsPool(k: Place) | GetWantsSend(k: Place) | GetInside(k: Place, made: Option<nat>)
    | GetWantsMu(k: Place, made: Option<nat>) | GetHasMu(k: Place, made: Option<nat>)
    | CloseWantsPool(k: Place) | CloseHasPool(k: Place) | CloseWantsSend(k: Place)
    | CloseInside(k: Place, wrapped: bool) | CloseWantsMu(k: Place, wrapped: bool) | CloseHasMu(k: Place, wrapped: bool)
    | CallWantsSend(ip: nat) | CallInside(ip: nat) | CallWantsMu(ip: nat) | CallHasMu(ip: nat)
    | ReapWantsMu | ReapHasMu | ReapLooks(left: seq<Idle>)
    | ReapHasSend(one: Idle, left: seq<Idle>) | ReapHasBoth(one: Idle, left: seq<Idle>)
    | ReapCloses(one: Idle, left: seq<Idle>) | ReapWantsDrop(one: Idle, left: seq<Idle>)
    | ReapDrops(one: Idle, left: seq<Idle>)
    | PlainWantsMu | PlainHasMu

  function Held(pc: Pc): set<Lock> {
    match pc
    case Resting => {}
    case GetWantsPool(k) => {}
    case GetWantsSend(k) => {Pool(k.pool)}
    case GetInside(k, made) => {Pool(k.pool), Send(k.ip)}
    case GetWantsMu(k, made) => {Pool(k.pool), Send(k.ip)}
    case GetHasMu(k, made) => {Pool(k.pool), Send(k.ip), Mu}
    case CloseWantsPool(k) => {}
    case CloseHasPool(k) => {Pool(k.pool)}
    case CloseWantsSend(k) => {Pool(k.pool)}
    case CloseInside(k, wrapped) => if wrapped then {Pool(k.pool), Send(k.ip)} else {Pool(k.pool)}
    case CloseWantsMu(k, wrapped) => if wrapped then {Pool(k.pool), Send(k.ip)} else {Pool(k.pool)}
    case CloseHasMu(k, wrapped) => if wrapped then {Pool(k.pool), Send(k.ip), Mu} else {Pool(k.pool), Mu}
    case CallWantsSend(ip) => {}
    case CallInside(ip) => {Send(ip)}
    case CallWantsMu(ip) => {Send(ip)}
    case CallHasMu(ip) => {Send(ip), Mu}
    case ReapWantsMu => {}
    case ReapHasMu => {Mu}
    case ReapLooks(_) => {}
    case ReapHasSend(one, _) => {Send(one.at.ip)}
    case ReapHasBoth(one, _) => {Send(one.at.ip), Pool(one.at.pool)}
    case ReapCloses(one, _) => {Send(one.at.ip)}
    case ReapWantsDrop(one, _) => {Send(one.at.ip)}
    case ReapDrops(one, _) => {Send(one.at.ip), Mu}
    case PlainWantsMu => {}
    case PlainHasMu => {Mu}
  }

  // The lock a thread waits for, if it waits.
  function Wants(pc: Pc): Option<Lock> {
    match pc
    case GetWantsPool(k) => Some(Pool(k.pool))
    case GetWantsSend(k) => Some(Send(k.ip))
    case GetWantsMu(k, made) => Some(Mu)
    case CloseWantsPool(k) => Some(Pool(k.pool))
    case CloseWantsSend(k) => Some(Send(k.ip))
    case CloseWantsMu(k, _) => Some(Mu)
    case CallWantsSend(ip) => Some(Send(ip))
    case CallWantsMu(ip) => Some(Mu)
    case ReapWantsMu => Some(Mu)
    case ReapWantsDrop(_, _) => Some(Mu)
    case PlainWantsMu => Some(Mu)
    case _ => None
  }

  // The pools' sessions, where each session was pooled when it was opened, and the sessions the
  // reaper has closed.
  datatype State = State(threads: map<nat, Pc>, pools: map<Place, nat>, home: map<nat, Place>, reaped: set<nat>)

  predicate Free(s: State, t: nat, l: Lock) {
    forall u :: u in s.threads && u != t ==> l !in Held(s.threads[u])
  }

  datatype Move =
    | Starts(pc: Pc)
    | Acquires
    | AsksMu
    | ReleasesMu
    // A session is opened in the place of a dead one; it is put in the pool, or given up.
    | Opens(session: nat)
    | Pools
    | GivesUp
    | Returns
    | Takes(wrapped: bool)
    | Snapshots(idle: seq<Idle>)
    | TriesSend
    | TriesPool
    | Unpools
    | Closes

  predicate IsStart(pc: Pc) {
    pc.GetWantsPool? || pc.CloseWantsPool? || pc.CallWantsSend? || pc.ReapWantsMu? || pc.PlainWantsMu?
  }

  // Where a wait ends.
  function Acquired(pc: Pc): Pc
    requires Wants(pc).Some?
  {
    match pc
    case GetWantsPool(k) => GetWantsSend(k)
    case GetWantsSend(k) => GetInside(k, None)
    case GetWantsMu(k, made) => GetHasMu(k, made)
    case CloseWantsPool(k) => CloseHasPool(k)
    case CloseWantsSend(k) => CloseInside(k, true)
    case CloseWantsMu(k, wrapped) => CloseHasMu(k, wrapped)
    case CallWantsSend(ip) => CallInside(ip)
    case CallWantsMu(ip) => CallHasMu(ip)
    case ReapWantsMu => ReapHasMu
    case ReapWantsDrop(one, left) => ReapDrops(one, left)
    case PlainWantsMu => PlainHasMu
  }

  predicate SnapshotOf(s: State, idle: seq<Idle>) {
    forall i :: 0 <= i < |idle| ==> idle[i].session in s.home && s.home[idle[i].session] == idle[i].at
  }

  function At(s: State, t: nat, pc: Pc): State { s.(threads := s.threads[t := pc]) }

  // One move of one thread, or none where the thread cannot make it.
  function After(s: State, t: nat, move: Move): Option<State>
    requires t in s.threads
  {
    var pc := s.threads[t];
    match move
    case Starts(first) => if pc.Resting? && IsStart(first) then Some(At(s, t, first)) else None
    case Acquires =>
      if Wants(pc).Some? && Free(s, t, Wants(pc).value) then Some(At(s, t, Acquired(pc))) else None
    case AsksMu =>
      (match pc
       case GetInside(k, made) => Some(At(s, t, GetWantsMu(k, made)))
       case CloseInside(k, wrapped) => Some(At(s, t, CloseWantsMu(k, wrapped)))
       case CallInside(ip) => Some(At(s, t, CallWantsMu(ip)))
       case _ => None)
    case ReleasesMu =>
      (match pc
       case GetHasMu(k, made) => Some(At(s, t, GetInside(k, made)))
       case CloseHasMu(k, wrapped) => Some(At(s, t, CloseInside(k, wrapped)))
       case CallHasMu(ip) => Some(At(s, t, CallInside(ip)))
       case ReapDrops(one, left) => Some(At(s, t, ReapLooks(left)))
       case PlainHasMu => Some(At(s, t, Resting))
       case _ => None)
    case Opens(session) =>
      if pc.GetInside? && session !in s.home
      then Some(At(s, t, GetInside(pc.k, Some(session))).(home := s.home[session := pc.k]))
      else None
    case Pools =>
      if pc.GetInside? && pc.made.Some?
      then Some(At(s, t, GetInside(pc.k, None)).(pools := s.pools[pc.k := pc.made.value]))
      else None
    case GivesUp =>
      if pc.GetInside? then Some(At(s, t, GetInside(pc.k, None))) else None
    case Returns =>
      if (pc.GetInside? && pc.made.None?) || pc.CloseInside? || pc.CallInside? || pc.CloseHasPool?
         || (pc.ReapLooks? && pc.left == [])
      then Some(At(s, t, Resting)) else None
    case Takes(wrapped) =>
      // The pool's session is popped and closed: through its wrapper, or bare.
      if pc.CloseHasPool? && pc.k in s.pools
      then Some(At(s, t, if wrapped then CloseWantsSend(pc.k) else CloseInside(pc.k, false))
                .(pools := s.pools - {pc.k}))
      else None
    case Snapshots(idle) =>
      if pc.ReapHasMu? && SnapshotOf(s, idle) then Some(At(s, t, ReapLooks(idle))) else None
    case TriesSend =>
      if pc.ReapLooks? && pc.left != []
      then Some(At(s, t, if Free(s, t, Send(pc.left[0].at.ip)) then ReapHasSend(pc.left[0], pc.left[1..])
                         else ReapLooks(pc.left[1..])))
      else None
    case TriesPool =>
      if pc.ReapHasSend?
      then Some(At(s, t, if Free(s, t, Pool(pc.one.at.pool)) then ReapHasBoth(pc.one, pc.left)
                         else ReapLooks(pc.left)))
      else None
    case Unpools =>
      if pc.ReapHasBoth?
      then Some(At(s, t, ReapCloses(pc.one, pc.left))
                .(pools := if pc.one.at in s.pools && s.pools[pc.one.at] == pc.one.session
                           then s.pools - {pc.one.at} else s.pools))
      else None
    case Closes =>
      if pc.ReapCloses?
      then Some(At(s, t, ReapWantsDrop(pc.one, pc.left)).(reaped := s.reaped + {pc.one.session}))
      else None
  }

  // ------------------------------------------------------------------ deadlock

  // Every wait goes up the order of the locks; the reaper's out-of-order takes are not waits.
  lemma {:induction false} WaitsGoUp(pc: Pc)
    ensures Wants(pc).Some? ==> forall h :: h in Held(pc) ==> Rank(h) < Rank(Wants(pc).value)
  {
  }

  predicate BlockedBy(s: State, t: nat, u: nat) {
    t in s.threads && u in s.threads && t != u
    && Wants(s.threads[t]).Some? && Wants(s.threads[t]).value in Held(s.threads[u])
  }

  function WantRank(s: State, t: nat): nat
    requires t in s.threads
  {
    if Wants(s.threads[t]).Some? then 1 + Rank(Wants(s.threads[t]).value) else 4
  }

  // In any set of threads, in any state at all, one of them waits for none of the others: there
  // is no circle of threads each waiting for the next.
  lemma {:induction false} SomeoneIsNotBlocked(s: State, among: set<nat>, t: nat) returns (free: nat)
    requires t in among && among <= s.threads.Keys
    ensures free in among && forall u :: u in among ==> !BlockedBy(s, free, u)
    decreases 5 - WantRank(s, t)
  {
    if u :| u in among && BlockedBy(s, t, u) {
      WaitsGoUp(s.threads[u]);
      free := SomeoneIsNotBlocked(s, among, u);
    } else {
      free := t;
    }
  }

  // A thread that waits for no other has a move, whatever it is doing.
  lemma {:induction false} UnblockedMoves(s: State, t: nat) returns (move: Move)
    requires t in s.threads && forall u :: u in s.threads ==> !BlockedBy(s, t, u)
    ensures After(s, t, move).Some?
  {
    var pc := s.threads[t];
    if Wants(pc).Some? {
      move := Acquires;
    } else {
      match pc
      case Resting => move := Starts(PlainWantsMu);
      case GetInside(_, made) => move := if made.Some? then Pools else Returns;
      case GetHasMu(_, _) => move := ReleasesMu;
      case CloseHasPool(_) => move := Returns;
      case CloseInside(_, _) => move := Returns;
      case CloseHasMu(_, _) => move := ReleasesMu;
      case CallInside(_) => move := Returns;
      case CallHasMu(_) => move := ReleasesMu;
      case ReapHasMu => move := Snapshots([]);
      case ReapLooks(left) => move := if left == [] then Returns else TriesSend;
      case ReapHasSend(_, _) => move := TriesPool;
      case ReapHasBoth(_, _) => move := Unpools;
      case ReapCloses(_, _) => move := Closes;
      case ReapDrops(_, _) => move := ReleasesMu;
      case PlainHasMu => move := ReleasesMu;
    }
  }

  // So in every state, of the threads at work one can move: the threads never deadlock.
  lemma {:induction false} NeverDeadlocked(s: State, t: nat) returns (who: nat, move: Move)
    requires t in s.threads && s.threads[t] != Resting
    ensures who in s.threads && s.threads[who] != Resting && After(s, who, move).Some?
  {
    var busy := set u | u in s.threads && s.threads[u] != Resting;
    who := SomeoneIsNotBlocked(s, busy, t);
    move := UnblockedMoves(s, who);
  }

  // ------------------------------------------------------------------ what every run keeps

  ghost predicate Exclusive(s: State) {
    forall t, u :: t in s.threads && u in s.threads && t != u ==> Held(s.threads[t]) !! Held(s.threads[u])
  }

  // A session the reaper has in hand, on its list or already closed.
  ghost predicate Listed(s: State, one: Idle) { one.session in s.home && s.home[one.session] == one.at }

  predicate Reaping(pc: Pc) {
    pc.ReapHasSend? || pc.ReapHasBoth? || pc.ReapCloses? || pc.ReapWantsDrop? || pc.ReapDrops?
  }

  predicate Opening(pc: Pc) { (pc.GetInside? || pc.GetWantsMu? || pc.GetHasMu?) && pc.made.Some? }

  ghost predicate ThreadHonest(s: State, pc: Pc) {
    && (pc.ReapLooks? || Reaping(pc) ==> SnapshotOf(s, pc.left))
    && (Reaping(pc) ==> Listed(s, pc.one))
    // Taken out of the pool before it is closed.
    && (pc.ReapCloses? ==> Unpooled(s, pc.one.session))
    // Opened for this place, and not closed by the reaper since.
    && (Opening(pc) ==> Listed(s, Idle(pc.k, pc.made.value)) && pc.made.value !in s.reaped)
  }

  ghost predicate Unpooled(s: State, session: nat) { forall k :: k in s.pools ==> s.pools[k] != session }

  ghost predicate Inv(s: State) {
    && Exclusive(s)
    && (forall k :: k in s.pools ==> s.pools[k] in s.home && s.home[s.pools[k]] == k)
    && (forall c :: c in s.reaped ==> c in s.home && Unpooled(s, c))
    && (forall t :: t in s.threads ==> ThreadHonest(s, s.threads[t]))
  }

  // Where a wait ends, the thread holds what it held and the lock it waited for.
  lemma {:induction false} WaitGives(pc: Pc)
    requires Wants(pc).Some?
    ensures Held(Acquired(pc)) == Held(pc) + {Wants(pc).value}
  {
  }

  lemma {:induction false} MuComesAndGoes(s: State, t: nat, move: Move)
    requires t in s.threads && After(s, t, move).Some? && (move.AsksMu? || move.ReleasesMu?)
    ensures Held(After(s, t, move).value.threads[t]) <= Held(s.threads[t])
  {
  }

  lemma {:induction false} ReaperTakes(s: State, t: nat, move: Move) returns (taken: Option<Lock>)
    requires t in s.threads && After(s, t, move).Some? && (move.TriesSend? || move.TriesPool?)
    ensures var a, b := s.threads[t], After(s, t, move).value.threads[t];
            if taken.None? then Held(b) <= Held(a) else Free(s, t, taken.value) && Held(b) <= Held(a) + {taken.value}
  {
    var pc := s.threads[t];
    var l := if move.TriesSend? then Send(pc.left[0].at.ip) else Pool(pc.one.at.pool);
    taken := if Free(s, t, l) then Some(l) else None;
  }

  lemma {:induction false} OthersLetGo(s: State, t: nat, move: Move)
    requires t in s.threads && After(s, t, move).Some?
    requires !move.Acquires? && !move.AsksMu? && !move.ReleasesMu? && !move.TriesSend? && !move.TriesPool?
    ensures Held(After(s, t, move).value.threads[t]) <= Held(s.threads[t])
  {
  }

  // A move lets locks go, or takes one that was free.
  lemma {:induction false} HeldChanges(s: State, t: nat, move: Move) returns (taken: Option<Lock>)
    requires t in s.threads && After(s, t, move).Some?
    ensures var a, b := s.threads[t], After(s, t, move).value.threads[t];
            if taken.None? then Held(b) <= Held(a) else Free(s, t, taken.value) && Held(b) <= Held(a) + {taken.value}
  {
    if move.Acquires? {
      taken := Wants(s.threads[t]);
      WaitGives(s.threads[t]);
    } else if move.TriesSend? || move.TriesPool? {
      taken := ReaperTakes(s, t, move);
    } else {
      taken := None;
      if move.AsksMu? || move.ReleasesMu? {
        MuComesAndGoes(s, t, move);
      } else {
        OthersLetGo(s, t, move);
      }
    }
  }

  lemma {:induction false} MoveKeepsExclusive(s: State, t: nat, move: Move)
    requires Exclusive(s) && t in s.threads && After(s, t, move).Some?
    ensures Exclusive(After(s, t, move).value)
  {
    var s' := After(s, t, move).value;
    var taken := HeldChanges(s, t, move);
    OthersStay(s, t, move);
    ExclusiveAfter(s, s', t, taken);
  }

  lemma {:induction false} OthersStay(s: State, t: nat, move: Move)
    requires t in s.threads && After(s, t, move).Some?
    ensures var s' := After(s, t, move).value;
            s'.threads == s.threads[t := s'.threads[t]] && s.reaped <= s'.reaped
    ensures forall c :: c in s.home
              ==> c in After(s, t, move).value.home && After(s, t, move).value.home[c] == s.home[c]
  {
  }

  lemma {:induction false} ExclusiveAfter(s: State, s': State, t: nat, taken: Option<Lock>)
    requires Exclusive(s) && t in s.threads && t in s'.threads && s'.threads == s.threads[t := s'.threads[t]]
    requires if taken.None? then Held(s'.threads[t]) <= Held(s.threads[t])
             else Free(s, t, taken.value) && Held(s'.threads[t]) <= Held(s.threads[t]) + {taken.value}
    ensures Exclusive(s')
  {
    forall u | u in s.threads && u != t ensures Held(s'.threads[t]) !! Held(s.threads[u]) {
      assert Held(s.threads[t]) !! Held(s.threads[u]);
    }
  }

  lemma {:induction false} SendHeld(s: State, t: nat, u: nat)
    requires Inv(s) && t in s.threads && u in s.threads && t != u
    requires Opening(s.threads[t]) && (s.threads[u].ReapHasBoth? || s.threads[u].ReapCloses?)
    ensures s.threads[t].made.value != s.threads[u].one.session
  {
    assert Held(s.threads[t]) !! Held(s.threads[u]);
    assert ThreadHonest(s, s.threads[t]) && ThreadHonest(s, s.threads[u]);
    assert Send(s.threads[u].one.at.ip) in Held(s.threads[u]);
    assert Send(s.threads[t].k.ip) in Held(s.threads[t]);
  }

  lemma {:induction false} MoveKeepsPools(s: State, t: nat, move: Move)
    requires Inv(s) && t in s.threads && After(s, t, move).Some?
    ensures var s' := After(s, t, move).value;
            && (forall k :: k in s'.pools ==> s'.pools[k] in s'.home && s'.home[s'.pools[k]] == k)
            && (forall c :: c in s'.reaped ==> c in s'.home && Unpooled(s', c))
  {
    assert ThreadHonest(s, s.threads[t]);
  }

  // What a move may do to the pools and to what is closed: pool one session, or close one.
  lemma {:induction false} PoolsAfter(s: State, t: nat, move: Move)
    requires t in s.threads && After(s, t, move).Some?
    ensures var pc, s' := s.threads[t], After(s, t, move).value;
            && (forall k :: k in s'.pools && !(k in s.pools && s.pools[k] == s'.pools[k]) ==>
                  move.Pools? && Opening(pc) && s'.pools[k] == pc.made.value)
            && (forall c :: c in s'.reaped && c !in s.reaped ==> move.Closes? && pc.ReapCloses? && c == pc.one.session)
  {
  }

  // What another thread stands on is left as it was, if the session pooled is not the one it is about to
  // close, nor the session closed the one it has opened.
  lemma {:induction false} StaysHonest(s: State, s': State, pc: Pc)
    requires ThreadHonest(s, pc) && forall c :: c in s.home ==> c in s'.home && s'.home[c] == s.home[c]
    requires pc.ReapCloses? ==> forall k :: k in s'.pools ==>
               (k in s.pools && s.pools[k] == s'.pools[k]) || s'.pools[k] != pc.one.session
    requires Opening(pc) ==> forall c :: c in s'.reaped ==> c in s.reaped || c != pc.made.value
    ensures ThreadHonest(s', pc)
  {
  }

  lemma {:induction false} OthersHonest(s: State, t: nat, move: Move, u: nat)
    requires Inv(s) && t in s.threads && After(s, t, move).Some? && u in s.threads && u != t
    ensures ThreadHonest(After(s, t, move).value, s.threads[u])
  {
    var s', pc := After(s, t, move).value, s.threads[u];
    OthersStay(s, t, move);
    PoolsAfter(s, t, move);
    if pc.ReapCloses? && Opening(s.threads[t]) {
      SendHeld(s, t, u);
    }
    if Opening(pc) && s.threads[t].ReapCloses? {
      SendHeld(s, u, t);
    }
    StaysHonest(s, s', pc);
  }

  lemma {:induction false} SnapshotStays(s: State, s': State, idle: seq<Idle>)
    requires SnapshotOf(s, idle)
    requires forall c :: c in s.home ==> c in s'.home && s'.home[c] == s.home[c]
    ensures SnapshotOf(s', idle)
    ensures idle != [] ==> Listed(s', idle[0]) && SnapshotOf(s', idle[1..])
  {
  }

  // What a reaper has in hand after a move it had in hand, or first on its list, before.
  lemma {:induction false} ReaperMoves(s: State, t: nat, move: Move)
    requires t in s.threads && After(s, t, move).Some?
    requires s.threads[t].ReapLooks? || Reaping(s.threads[t])
    ensures var pc, b := s.threads[t], After(s, t, move).value.threads[t];
            && (b.ReapLooks? || Reaping(b) || b.Resting?)
            && (b.Resting? || b.left == pc.left || (pc.left != [] && b.left == pc.left[1..]))
            && (Reaping(b) && Reaping(pc) ==> b.one == pc.one)
            && (Reaping(b) && !Reaping(pc) ==> pc.left != [] && b.one == pc.left[0])
            && (b.ReapCloses? ==> move.Unpools? && pc.ReapHasBoth?)
  {
  }

  lemma {:induction false} ReaperStaysHonest(s: State, t: nat, move: Move)
    requires Inv(s) && t in s.threads && After(s, t, move).Some?
    requires s.threads[t].ReapLooks? || Reaping(s.threads[t])
    ensures ThreadHonest(After(s, t, move).value, After(s, t, move).value.threads[t])
  {
    var s', pc := After(s, t, move).value, s.threads[t];
    assert ThreadHonest(s, pc);
    OthersStay(s, t, move);
    SnapshotStays(s, s', pc.left);
    ReaperMoves(s, t, move);
    if move.Unpools? {
      UnpoolsIt(s, t);
    }
  }

  lemma {:induction false} UnpoolsIt(s: State, t: nat)
    requires Inv(s) && t in s.threads && s.threads[t].ReapHasBoth?
    ensures Unpooled(After(s, t, Unpools).value, s.threads[t].one.session)
  {
    assert ThreadHonest(s, s.threads[t]);
  }

  // A session in hand was in hand before the move, or is opened by it.
  lemma {:induction false} OpenerMoves(s: State, t: nat, move: Move)
    requires t in s.threads && After(s, t, move).Some?
    requires Opening(After(s, t, move).value.threads[t])
    ensures var pc, s' := s.threads[t], After(s, t, move).value;
            && s'.reaped == s.reaped
            && (move.Opens? ==> pc.GetInside? && s'.threads[t] == GetInside(pc.k, Some(move.session))
                                && move.session !in s.home && s'.home == s.home[move.session := pc.k])
            && (!move.Opens?
               ==> Opening(pc) && s'.threads[t].k == pc.k && s'.threads[t].made == pc.made && s'.home == s.home)
  {
  }

  lemma {:induction false} OpenerStaysHonest(s: State, t: nat, move: Move)
    requires Inv(s) && t in s.threads && After(s, t, move).Some?
    requires Opening(After(s, t, move).value.threads[t])
    ensures ThreadHonest(After(s, t, move).value, After(s, t, move).value.threads[t])
  {
    assert ThreadHonest(s, s.threads[t]);
    OpenerMoves(s, t, move);
  }

  lemma {:induction false} OwnHonest(s: State, t: nat, move: Move)
    requires Inv(s) && t in s.threads && After(s, t, move).Some?
    ensures ThreadHonest(After(s, t, move).value, After(s, t, move).value.threads[t])
  {
    var s', pc := After(s, t, move).value, s.threads[t];
    if pc.ReapLooks? || Reaping(pc) {
      ReaperStaysHonest(s, t, move);
    } else if Opening(s'.threads[t]) {
      OpenerStaysHonest(s, t, move);
    } else if move.Snapshots? {
      SnapshotStays(s, s', move.idle);
    }
  }

  lemma {:induction false} MoveKeepsInv(s: State, t: nat, move: Move)
    requires Inv(s) && t in s.threads && After(s, t, move).Some?
    ensures Inv(After(s, t, move).value) && s.reaped <= After(s, t, move).value.reaped
  {
    MoveKeepsExclusive(s, t, move);
    MoveKeepsPools(s, t, move);
    OthersStay(s, t, move);
    OwnHonest(s, t, move);
    forall u | u in s.threads && u != t ensures ThreadHonest(After(s, t, move).value, s.threads[u]) {
      OthersHonest(s, t, move, u);
    }
  }

  datatype Turn = Turn(thread: nat, move: Move)

  ghost predicate Runs(s: State, turns: seq<Turn>, end: State)
    decreases |turns|
  {
    if turns == [] then s == end
    else
      && turns[0].thread in s.threads && After(s, turns[0].thread, turns[0].move).Some?
      && Runs(After(s, turns[0].thread, turns[0].move).value, turns[1..], end)
  }

  lemma {:induction false} RunKeepsInv(s: State, turns: seq<Turn>, end: State)
    requires Inv(s) && Runs(s, turns, end)
    ensures Inv(end) && s.reaped <= end.reaped
    decreases |turns|
  {
    if turns != [] {
      var next := After(s, turns[0].thread, turns[0].move).value;
      MoveKeepsInv(s, turns[0].thread, turns[0].move);
      RunKeepsInv(next, turns[1..], end);
    }
  }

  function Quiet(threads: set<nat>): State { State(map t | t in threads :: Resting, map[], map[], {}) }

  // Whatever the liveness check says of it: once the reaper has closed a session, no later
  // `get_persistent_connection` returns it, for it is in no pool and stays in none.
  lemma {:induction false} ReapedIsNeverHandedOut(threads: set<nat>, before: seq<Turn>, mid: State, after: seq<Turn>,
                                                  end: State, session: nat, t: nat)
    requires Runs(Quiet(threads), before, mid) && Runs(mid, after, end)
    requires session in mid.reaped
    requires t in end.threads && end.threads[t].GetInside? && end.threads[t].k in end.pools
    ensures end.pools[end.threads[t].k] != session
  {
    RunKeepsInv(Quiet(threads), before, mid);
    RunKeepsInv(mid, after, end);
    assert Unpooled(end, session);
  }

  // The device whose session a thread is using, or judging, or closing through its wrapper.
  function Using(pc: Pc): Option<nat> {
    match pc
    case GetInside(k, _) => Some(k.ip)
    case GetWantsMu(k, _) => Some(k.ip)
    case GetHasMu(k, _) => Some(k.ip)
    case CallInside(ip) => Some(ip)
    case CallWantsMu(ip) => Some(ip)
    case CallHasMu(ip) => Some(ip)
    case CloseInside(k, wrapped) => if wrapped then Some(k.ip) else None
    case CloseWantsMu(k, wrapped) => if wrapped then Some(k.ip) else None
    case CloseHasMu(k, wrapped) => if wrapped then Some(k.ip) else None
    case _ => None
  }

  lemma {:induction false} UsingHoldsSend(pc: Pc)
    ensures Using(pc).Some? ==> Send(Using(pc).value) in Held(pc)
    ensures Reaping(pc) ==> Send(pc.one.at.ip) in Held(pc)
  {
  }

  // From the moment the reaper has a device's session in hand until it lets it go, no other thread
  // holds the device's send lock: none is inside a call to it, none waits inside one for
  // `_sessions_mu`, and none judges, replaces or closes its pooled session.
  lemma {:induction false} NoCallWhileReaping(threads: set<nat>, turns: seq<Turn>, end: State, t: nat, u: nat)
    requires Runs(Quiet(threads), turns, end)
    requires t in end.threads && Reaping(end.threads[t]) && u in end.threads && u != t
    ensures Send(end.threads[t].one.at.ip) !in Held(end.threads[u])
    ensures Using(end.threads[u]) != Some(end.threads[t].one.at.ip)
  {
    RunKeepsInv(Quiet(threads), turns, end);
    assert Held(end.threads[t]) !! Held(end.threads[u]);
    UsingHoldsSend(end.threads[t]);
    UsingHoldsSend(end.threads[u]);
  }

  // ------------------------------------------------------------------ whole calls

  // A pool changes only under its own lock.
  lemma {:induction false} PoolsChangeUnderTheirLock(s: State, t: nat, move: Move, k: Place)
    requires t in s.threads && After(s, t, move).Some? && Pool(k.pool) !in Held(s.threads[t])
    ensures var s' := After(s, t, move).value;
            if k in s.pools then k in s'.pools && s'.pools[k] == s.pools[k] else k !in s'.pools
  {
  }

  ghost predicate AllRest(s: State) { forall u :: u in s.threads ==> s.threads[u].Resting? }

  // A run of one thread's moves.
  ghost predicate Goes(s: State, t: nat, moves: seq<Move>, end: State)
    decreases |moves|
  {
    if moves == [] then s == end
    else t in s.threads && After(s, t, moves[0]).Some? && Goes(After(s, t, moves[0]).value, t, moves[1..], end)
  }

  lemma {:induction false} GoesIsRun(s: State, t: nat, moves: seq<Move>, end: State) returns (turns: seq<Turn>)
    requires Goes(s, t, moves, end)
    ensures Runs(s, turns, end)
    decreases |moves|
  {
    turns := [];
    if moves != [] {
      turns := GoesIsRun(After(s, t, moves[0]).value, t, moves[1..], end);
      turns := [Turn(t, moves[0])] + turns;
    }
  }

  lemma {:induction false} GoesOne(s: State, t: nat, move: Move, next: State)
    requires t in s.threads && After(s, t, move) == Some(next)
    ensures Goes(s, t, [move], next)
  {
    assert [move][1..] == [];
  }

  lemma {:induction false} GoesFirst(s: State, t: nat, move: Move, next: State, rest: seq<Move>, end: State)
    requires t in s.threads && After(s, t, move) == Some(next) && Goes(next, t, rest, end)
    ensures Goes(s, t, [move] + rest, end)
  {
    assert ([move] + rest)[1..] == rest;
  }

  lemma {:induction false} GoesOn(s: State, t: nat, first: seq<Move>, u: State, rest: seq<Move>, end: State)
    requires Goes(s, t, first, u) && Goes(u, t, rest, end)
    ensures Goes(s, t, first + rest, end)
    decreases |first|
  {
    if first == [] {
      assert first + rest == rest;
    } else {
      var next := After(s, t, first[0]).value;
      GoesOn(next, t, first[1..], u, rest, end);
      GoesFirst(s, t, first[0], next, first[1..] + rest, end);
      assert [first[0]] + (first[1..] + rest) == first + rest;
    }
  }

  // The thread stands here, and every other where it stood.
  ghost predicate Stands(s: State, u: State, t: nat, pc: Pc) { t in s.threads && u.threads == s.threads[t := pc] }

  lemma {:induction false} StandsNext(s: State, u: State, t: nat, pc: Pc, next: Pc)
    requires Stands(s, u, t, pc)
    ensures Stands(s, At(u, t, next), t, next)
  {
    assert s.threads[t := pc][t := next] == s.threads[t := next];
  }

  lemma {:induction false} Waits(s: State, u: State, t: nat, pc: Pc) returns (v: State)
    requires AllRest(s) && Stands(s, u, t, pc) && Wants(pc).Some?
    ensures Goes(u, t, [Acquires], v) && v == At(u, t, Acquired(pc)) && Stands(s, v, t, Acquired(pc))
  {
    v := At(u, t, Acquired(pc));
    StandsNext(s, u, t, pc, Acquired(pc));
    assert Free(u, t, Wants(pc).value);
    GoesOne(u, t, Acquires, v);
  }

  lemma {:induction false} Moves(s: State, u: State, t: nat, pc: Pc, move: Move, next: Pc) returns (v: State)
    requires Stands(s, u, t, pc) && After(u, t, move) == Some(At(u, t, next))
    ensures Goes(u, t, [move], v) && v == At(u, t, next) && Stands(s, v, t, next)
  {
    v := At(u, t, next);
    StandsNext(s, u, t, pc, next);
    GoesOne(u, t, move, v);
  }

  ghost predicate SameButThreads(u: State, v: State) {
    u.pools == v.pools && u.home == v.home && u.reaped == v.reaped
  }

  lemma {:induction false} CloseBegins(s: State, t: nat, k: Place) returns (moves: seq<Move>, u: State)
    requires AllRest(s) && t in s.threads
    ensures Goes(s, t, moves, u) && Stands(s, u, t, CloseHasPool(k)) && SameButThreads(s, u)
  {
    assert s.threads == s.threads[t := Resting];
    var s1 := Moves(s, s, t, Resting, Starts(CloseWantsPool(k)), CloseWantsPool(k));
    u := Waits(s, s1, t, CloseWantsPool(k));
    GoesOn(s, t, [Starts(CloseWantsPool(k))], s1, [Acquires], u);
    moves := [Starts(CloseWantsPool(k))] + [Acquires];
  }

  lemma {:induction false} CloseTakes(s: State, u: State, t: nat, k: Place, wrapped: bool)
      returns (moves: seq<Move>, v: State)
    requires AllRest(s) && Stands(s, u, t, CloseHasPool(k)) && k in u.pools
    ensures Goes(u, t, moves, v) && Stands(s, v, t, CloseInside(k, wrapped))
    ensures SameButThreads(u.(pools := u.pools - {k}), v)
  {
    var gone := u.(pools := u.pools - {k});
    var next := if wrapped then CloseWantsSend(k) else CloseInside(k, false);
    var taken := At(gone, t, next);
    StandsNext(s, gone, t, CloseHasPool(k), next);
    GoesOne(u, t, Takes(wrapped), taken);
    moves, v := [Takes(wrapped)], taken;
    if wrapped {
      v := Waits(s, taken, t, CloseWantsSend(k));
      GoesOn(u, t, [Takes(wrapped)], taken, [Acquires], v);
      moves := [Takes(wrapped)] + [Acquires];
    }
  }

  lemma {:induction false} CloseEnds(s: State, u: State, t: nat, k: Place, wrapped: bool)
      returns (moves: seq<Move>, v: State)
    requires AllRest(s) && Stands(s, u, t, CloseInside(k, wrapped))
    ensures Goes(u, t, moves, v) && Stands(s, v, t, Resting) && SameButThreads(u, v)
  {
    var u1 := Moves(s, u, t, CloseInside(k, wrapped), AsksMu, CloseWantsMu(k, wrapped));
    var u2 := Waits(s, u1, t, CloseWantsMu(k, wrapped));
    var u3 := Moves(s, u2, t, CloseHasMu(k, wrapped), ReleasesMu, CloseInside(k, wrapped));
    v := Moves(s, u3, t, CloseInside(k, wrapped), Returns, Resting);
    GoesOn(u, t, [AsksMu], u1, [Acquires], u2);
    GoesOn(u, t, [AsksMu] + [Acquires], u2, [ReleasesMu], u3);
    GoesOn(u, t, [AsksMu] + [Acquires] + [ReleasesMu], u3, [Returns], v);
    moves := [AsksMu] + [Acquires] + [ReleasesMu] + [Returns];
  }

  lemma {:induction false} RestsAgain(s: State, v: State, t: nat)
    requires AllRest(s) && Stands(s, v, t, Resting)
    ensures v.threads == s.threads
  {
  }

  // With nobody else at work, a close takes the device's session out of its pool, closes it, through its
  // wrapper and the device's send lock or bare, uncounts it, and comes to its end.
  lemma {:induction false} ACloseGoesThrough(s: State, t: nat, k: Place, wrapped: bool)
      returns (turns: seq<Turn>, closing: State)
    requires AllRest(s) && t in s.threads && k in s.pools
    ensures Runs(s, turns, s.(pools := s.pools - {k}))
    ensures Stands(s, closing, t, CloseInside(k, wrapped)) && (wrapped <==> Send(k.ip) in Held(closing.threads[t]))
  {
    var first, u := CloseBegins(s, t, k);
    var second, third, v;
    second, closing := CloseTakes(s, u, t, k, wrapped);
    third, v := CloseEnds(s, closing, t, k, wrapped);
    RestsAgain(s, v, t);
    GoesOn(s, t, first, u, second, closing);
    GoesOn(s, t, first + second, closing, third, v);
    turns := GoesIsRun(s, t, first + second + third, v);
  }

  lemma {:induction false} ReapBegins(s: State, t: nat, one: Idle) returns (moves: seq<Move>, u: State)
    requires AllRest(s) && t in s.threads && SnapshotOf(s, [one])
    ensures Goes(s, t, moves, u) && Stands(s, u, t, ReapLooks([one])) && SameButThreads(s, u)
  {
    assert s.threads == s.threads[t := Resting];
    var s1 := Moves(s, s, t, Resting, Starts(ReapWantsMu), ReapWantsMu);
    var s2 := Waits(s, s1, t, ReapWantsMu);
    u := Moves(s, s2, t, ReapHasMu, Snapshots([one]), ReapLooks([one]));
    GoesOn(s, t, [Starts(ReapWantsMu)], s1, [Acquires], s2);
    GoesOn(s, t, [Starts(ReapWantsMu)] + [Acquires], s2, [Snapshots([one])], u);
    moves := [Starts(ReapWantsMu)] + [Acquires] + [Snapshots([one])];
  }

  lemma {:induction false} ReapTakes(s: State, u: State, t: nat, one: Idle) returns (moves: seq<Move>, v: State)
    requires AllRest(s) && Stands(s, u, t, ReapLooks([one]))
    ensures Goes(u, t, moves, v) && Stands(s, v, t, ReapHasBoth(one, [])) && SameButThreads(u, v)
  {
    assert [one][1..] == [];
    assert Free(u, t, Send(one.at.ip));
    var u1 := Moves(s, u, t, ReapLooks([one]), TriesSend, ReapHasSend(one, []));
    assert Free(u1, t, Pool(one.at.pool));
    v := Moves(s, u1, t, ReapHasSend(one, []), TriesPool, ReapHasBoth(one, []));
    GoesOn(u, t, [TriesSend], u1, [TriesPool], v);
    moves := [TriesSend] + [TriesPool];
  }

  lemma {:induction false} ReapClosesIt(s: State, u: State, t: nat, one: Idle) returns (moves: seq<Move>, v: State)
    requires AllRest(s) && Stands(s, u, t, ReapHasBoth(one, [])) && one.at in u.pools && u.pools[one.at] == one.session
    ensures Goes(u, t, moves, v) && Stands(s, v, t, ReapWantsDrop(one, []))
    ensures SameButThreads(u.(pools := u.pools - {one.at}, reaped := u.reaped + {one.session}), v)
  {
    var gone := u.(pools := u.pools - {one.at});
    var u1 := At(gone, t, ReapCloses(one, []));
    StandsNext(s, gone, t, ReapHasBoth(one, []), ReapCloses(one, []));
    GoesOne(u, t, Unpools, u1);
    var done := u1.(reaped := u1.reaped + {one.session});
    v := At(done, t, ReapWantsDrop(one, []));
    StandsNext(s, done, t, ReapCloses(one, []), ReapWantsDrop(one, []));
    GoesOne(u1, t, Closes, v);
    GoesOn(u, t, [Unpools], u1, [Closes], v);
    moves := [Unpools] + [Closes];
  }

  lemma {:induction false} ReapEnds(s: State, u: State, t: nat, one: Idle) returns (moves: seq<Move>, v: State)
    requires AllRest(s) && Stands(s, u, t, ReapWantsDrop(one, []))
    ensures Goes(u, t, moves, v) && Stands(s, v, t, Resting) && SameButThreads(u, v)
  {
    var u1 := Waits(s, u, t, ReapWantsDrop(one, []));
    var u2 := Moves(s, u1, t, ReapDrops(one, []), ReleasesMu, ReapLooks([]));
    v := Moves(s, u2, t, ReapLooks([]), Returns, Resting);
    GoesOn(u, t, [Acquires], u1, [ReleasesMu], u2);
    GoesOn(u, t, [Acquires] + [ReleasesMu], u2, [Returns], v);
    moves := [Acquires] + [ReleasesMu] + [Returns];
  }

  // With nobody else at work, the reaper takes an idle session out of its pool and closes it.
  lemma {:induction false} AReapGoesThrough(s: State, t: nat, k: Place) returns (turns: seq<Turn>)
    requires AllRest(s) && t in s.threads && k in s.pools && s.pools[k] in s.home && s.home[s.pools[k]] == k
    ensures Runs(s, turns, s.(pools := s.pools - {k}, reaped := s.reaped + {s.pools[k]}))
  {
    var one := Idle(k, s.pools[k]);
    var first, u := ReapBegins(s, t, one);
    var second, v := ReapTakes(s, u, t, one);
    var third, w := ReapClosesIt(s, v, t, one);
    var fourth, end := ReapEnds(s, w, t, one);
    RestsAgain(s, end, t);
    GoesOn(s, t, first, u, second, v);
    GoesOn(s, t, first + second, v, third, w);
    GoesOn(s, t, first + second + third, w, fourth, end);
    turns := GoesIsRun(s, t, first + second + third + fourth, end);
  }
}
