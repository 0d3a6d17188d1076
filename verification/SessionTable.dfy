// The dictionaries of one process, `_sessions`, `_slots` and the session counter, as `_claim`,
// `_take_slot`, `_free_slot` and `_drop` update them, with no other process between the steps.
module SessionTable {
  import opened Wrappers
  import opened SessionSlots

  // The kernel's lock table: which process holds which slot's lock.
  class Kernel {
    var locks: map<nat, nat>

    constructor ()
      ensures locks == map[]
    {
      locks := map[];
    }
  }

  class Table {
    const pid: nat
    const kernel: Kernel
    var sessions: map<nat, Session>
    var slots: map<nat, nat>
    var counter: nat

    function Me(): Process
      reads this
    {
      Process(sessions, slots, counter, None)
    }

    ghost predicate Valid(limit: nat)
      reads this, kernel
    {
      Mine(Me(), pid, kernel.locks, limit)
    }

    constructor (pid: nat, kernel: Kernel)
      ensures this.pid == pid && this.kernel == kernel && Me() == Process(map[], map[], 0, None)
    {
      this.pid, this.kernel := pid, kernel;
      sessions, slots, counter := map[], map[], 0;
    }

    // Releases each slot held for a session the predicate no longer wants, as both
    // `_take_slot`'s first loop and `_free_slot` do.
    method Release(gone: set<nat>)
      requires gone <= slots.Keys
      modifies this`slots, kernel
      ensures slots == old(slots) - gone && kernel.locks == old(kernel.locks) - gone
    {
      var left := gone;
      while left != {}
        invariant left <= gone
        invariant slots == old(slots) - (gone - left) && kernel.locks == old(kernel.locks) - (gone - left)
      {
        var n :| n in left;
        slots, kernel.locks := slots - {n}, kernel.locks - {n};
        left := left - {n};
        assert gone - left == (gone - (left + {n})) + {n};
      }
    }

    // The least slot below the budget nobody holds, locked for this process.
    method TakeSlot(budget: nat) returns (slot: Option<nat>)
      modifies this`slots, kernel
      ensures slots == old(slots) - Lost(old(Me()))
      ensures var free := old(kernel.locks) - Lost(old(Me()));
              match slot
              case None => kernel.locks == free && forall n :: 0 <= n < budget ==> n in free
              case Some(n) => n < budget && n !in free && kernel.locks == free[n := pid]
                              && forall m :: 0 <= m < n ==> m in free
    {
      Release(Lost(Me()));
      for n := 0 to budget
        invariant forall m :: 0 <= m < n ==> m in kernel.locks
        invariant kernel.locks == old(kernel.locks) - Lost(old(Me()))
        invariant slots == old(slots) - Lost(old(Me()))
      {
        if n !in kernel.locks {
          kernel.locks := kernel.locks[n := pid];
          return Some(n);
        }
      }
      return None;
    }

    // A session slot, or a refusal: granted exactly when this process counts fewer than the
    // budget and some slot below it is free, and then the least one; a refusal changes nothing.
    method Claim(budget: nat, ghost limit: nat) returns (sid: Option<nat>)
      requires Valid(limit) && budget <= limit
      modifies this, kernel
      ensures Valid(limit)
      ensures sid.Some? <==> |old(sessions)| < budget && exists n :: 0 <= n < budget && n !in old(kernel.locks)
      ensures sid.None? ==> Me() == old(Me()) && kernel.locks == old(kernel.locks)
      ensures sid.Some? ==> sid.value == counter == old(counter) + 1 && sid.value !in old(sessions)
      ensures sid.Some? ==>
                exists n :: 0 <= n < budget && n !in old(kernel.locks)
                  && (forall m :: 0 <= m < n ==> m in old(kernel.locks))
                  && kernel.locks == old(kernel.locks)[n := pid] && slots == old(slots)[n := sid.value]
                  && sessions == old(sessions)[sid.value := Session(false, n)]
    {
      if |sessions| >= budget {
        return None;
      }
      ghost var before, locks := Me(), kernel.locks;
      assert Lost(before) == {};
      assert slots - {} == slots && kernel.locks - {} == kernel.locks;
      var slot := TakeSlot(budget);
      if slot.None? {
        return None;
      }
      GrantKeepsMine(before, pid, locks, limit, slot.value);
      counter := counter + 1;
      slots := slots[slot.value := counter];
      sessions := sessions[counter := Session(false, slot.value)];
      assert Me() == WithSlot(before, slot.value) && kernel.locks == locks[slot.value := pid];
      return Some(counter);
    }

    // Uncounts the session and frees its slot; a session already dropped changes nothing.
    method Drop(sid: nat, ghost limit: nat)
      requires Valid(limit)
      modifies this, kernel
      ensures Valid(limit) && counter == old(counter)
      ensures sessions == old(sessions) - {sid} && slots == old(slots) - SlotsOf(old(Me()), sid)
      ensures kernel.locks == old(kernel.locks) - SlotsOf(old(Me()), sid)
      ensures sid !in old(sessions) ==> Me() == old(Me()) && kernel.locks == old(kernel.locks)
      ensures sid in old(sessions) ==> SlotsOf(old(Me()), sid) == {old(sessions)[sid].slot}
    {
      FreeKeepsMine(Me(), pid, kernel.locks, limit, sid);
      assert sid !in sessions ==> sessions - {sid} == sessions && SlotsOf(Me(), sid) == {};
      assert sid in sessions ==> SlotsOf(Me(), sid) == {sessions[sid].slot};
      assert slots - {} == slots && kernel.locks - {} == kernel.locks;
      sessions := sessions - {sid};
      Release(SlotsOf(Process(sessions, slots, counter, None), sid));
    }
  }
}
