/** Lock::Acquire and Lock::Release (threads/synch.cc) over a textbook semaphore,
    with a preemption possible after every statement. */
module Locks {
  import opened Base

  type Tid = nat

  /** Where a thread stands with respect to one lock. */
  datatype Phase =
    | Outside    // before the end of P, or after V
    | Taken      // P done, lockHolder not assigned yet
    | Held       // lockHolder assigned
    | Releasing  // lockHolder cleared, V not done yet

  ghost predicate LockInv(value: int, holder: Option<Tid>, phase: map<Tid, Phase>) {
    && (value == 0 || value == 1)
    && (value == 1 ==> forall t :: t in phase ==> phase[t].Outside?)
    && (value == 0 ==> exists t :: t in phase && !phase[t].Outside?)
    && (forall t, u :: t in phase && u in phase && !phase[t].Outside? && !phase[u].Outside? ==> t == u)
    && (forall t :: t in phase ==> (phase[t].Held? <==> holder == Some(t)))
    && (holder.Some? ==> holder.value in phase)
  }

  lemma FreshLock(phase: map<Tid, Phase>)
    requires forall t :: t in phase ==> phase[t].Outside?
    ensures LockInv(1, None, phase)
  {
  }

  /** P on the lock's semaphore. */
  lemma TakeKeeps(value: int, holder: Option<Tid>, phase: map<Tid, Phase>, t: Tid)
    requires LockInv(value, holder, phase) && t in phase && phase[t].Outside? && value > 0
    ensures LockInv(value - 1, holder, phase[t := Taken])
  {
    assert phase[t := Taken][t].Taken?;
  }

  /** lockHolder = currentThread. */
  lemma HoldKeeps(value: int, holder: Option<Tid>, phase: map<Tid, Phase>, t: Tid)
    requires LockInv(value, holder, phase) && t in phase && phase[t].Taken?
    ensures LockInv(value, Some(t), phase[t := Held])
  {
    assert phase[t := Held][t].Held?;
  }

  /** lockHolder = NULL. */
  lemma DropKeeps(value: int, holder: Option<Tid>, phase: map<Tid, Phase>, t: Tid)
    requires LockInv(value, holder, phase) && t in phase && phase[t].Held?
    ensures holder == Some(t)
    ensures LockInv(value, None, phase[t := Releasing])
  {
    assert phase[t := Releasing][t].Releasing?;
  }

  /** V on the lock's semaphore. */
  lemma GiveKeeps(value: int, holder: Option<Tid>, phase: map<Tid, Phase>, t: Tid)
    requires LockInv(value, holder, phase) && t in phase && phase[t].Releasing?
    ensures LockInv(value + 1, holder, phase[t := Outside])
  {
  }

  /** The lock's semaphore plus the threads between the end of P and the end of V
      make one: mutual exclusion as a count. */
  lemma ExactlyOne(value: int, holder: Option<Tid>, phase: map<Tid, Phase>)
    requires LockInv(value, holder, phase)
    ensures value + |set t | t in phase && !phase[t].Outside?| == 1
  {
    var inside := set t | t in phase && !phase[t].Outside?;
    if value == 0 {
      var t :| t in phase && !phase[t].Outside?;
      assert inside == {t};
    } else {
      assert inside == {};
    }
  }
}
