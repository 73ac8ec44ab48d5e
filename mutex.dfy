/**
 * The FIFO asynchronous mutex: a `locked` flag and a queue of waiting callers.
 * A waiter is identified by an id instead of the promise resolver the
 * program keeps. The pure part (MutexState, LockStep, ReleaseStep, Run)
 * states what one call does and what whole call sequences do; the class
 * Mutex is the object the service owns and updates in place.
 */
module Mutexes {
  import opened Optional

  type WaiterId = nat

  datatype MutexState = MutexState(locked: bool, queue: seq<WaiterId>)

  /** The state a new mutex starts in: unlocked, nobody waiting. */
  const Fresh := MutexState(false, [])

  /** Nobody waits on a free mutex. */
  predicate Inv(s: MutexState)
  {
    s.queue != [] ==> s.locked
  }

  /** `lock()`: the new state, and whether the caller holds the lock at once. */
  function LockStep(s: MutexState, id: WaiterId): (MutexState, bool)
  {
    if s.locked then (s.(queue := s.queue + [id]), false)
    else (s.(locked := true), true)
  }

  /** `release()`: the new state, and the waiter the lock is handed to, if any. */
  function ReleaseStep(s: MutexState): (MutexState, Option<WaiterId>)
  {
    if |s.queue| > 0 then (s.(queue := s.queue[1..]), Some(s.queue[0]))
    else (s.(locked := false), None)
  }

  /** One call on the mutex, by the caller `id` for `lock`. */
  datatype Op = Lock(id: WaiterId) | Release

  function Step(s: MutexState, op: Op): MutexState
  {
    match op
    case Lock(id) => LockStep(s, id).0
    case Release => ReleaseStep(s).0
  }

  /** The callers that `op` lets into the critical section: none or one. */
  function Granted(s: MutexState, op: Op): seq<WaiterId>
  {
    match op
    case Lock(id) => if LockStep(s, id).1 then [id] else []
    case Release => if ReleaseStep(s).1.Some? then [ReleaseStep(s).1.value] else []
  }

  /** Whether `op` ends a caller's hold on the lock. */
  function Ends(s: MutexState, op: Op): nat
  {
    if op.Release? && s.locked then 1 else 0
  }

  function Run(s: MutexState, ops: seq<Op>): MutexState
    decreases |ops|
  {
    if ops == [] then s else Run(Step(s, ops[0]), ops[1..])
  }

  /** The callers let in while `ops` run from `s`, in the order they are let in. */
  function Grants(s: MutexState, ops: seq<Op>): seq<WaiterId>
    decreases |ops|
  {
    if ops == [] then [] else Granted(s, ops[0]) + Grants(Step(s, ops[0]), ops[1..])
  }

  /** How many holds end while `ops` run from `s`. */
  function Releases(s: MutexState, ops: seq<Op>): nat
    decreases |ops|
  {
    if ops == [] then 0 else Ends(s, ops[0]) + Releases(Step(s, ops[0]), ops[1..])
  }

  /** The caller `op` adds to the line: the one calling `lock`, none for `release`. */
  function Caller(op: Op): seq<WaiterId>
  {
    if op.Lock? then [op.id] else []
  }

  /** The callers of `lock`, in call order. */
  function Callers(ops: seq<Op>): seq<WaiterId>
  {
    if ops == [] then []
    else Caller(ops[0]) + Callers(ops[1..])
  }

  /** Every call keeps the invariant. */
  lemma StepKeepsInv(s: MutexState, op: Op)
    requires Inv(s)
    ensures Inv(Step(s, op))
  {
  }

  lemma {:induction false} RunKeepsInv(s: MutexState, ops: seq<Op>)
    requires Inv(s)
    ensures Inv(Run(s, ops))
    decreases |ops|
  {
    if ops != [] {
      StepKeepsInv(s, ops[0]);
      RunKeepsInv(Step(s, ops[0]), ops[1..]);
    }
  }

  lemma Regroup<T>(x: seq<T>, y: seq<T>, z: seq<T>, p: seq<T>, q: seq<T>, r: seq<T>, t: seq<T>)
    requires x + y == p + q && q + z == r + t
    ensures x + (y + z) == (p + r) + t
  {
    calc {
      x + (y + z);
      (x + y) + z;
      (p + q) + z;
      p + (q + z);
      p + (r + t);
      (p + r) + t;
    }
  }

  /** One call: the earlier waiters and the new caller are the one let in and the new waiters. */
  lemma StepAccounting(s: MutexState, op: Op)
    requires Inv(s)
    ensures s.queue + Caller(op) == Granted(s, op) + Step(s, op).queue
  {
    if op.Release? && |s.queue| > 0 {
      assert s.queue == [s.queue[0]] + s.queue[1..];
    }
  }

  /**
   * Every caller is either already let in or still waiting, and the ones let
   * in, followed by the ones waiting, are exactly the earlier waiters followed
   * by the new callers, in order.
   */
  lemma {:induction false} QueueAccounting(s: MutexState, ops: seq<Op>)
    requires Inv(s)
    ensures s.queue + Callers(ops) == Grants(s, ops) + Run(s, ops).queue
    decreases |ops|
  {
    if ops != [] {
      var op, rest := ops[0], ops[1..];
      var s' := Step(s, op);
      StepKeepsInv(s, op);
      StepAccounting(s, op);
      QueueAccounting(s', rest);
      assert Callers(ops) == Caller(op) + Callers(rest);
      assert Grants(s, ops) == Granted(s, op) + Grants(s', rest);
      assert Run(s, ops) == Run(s', rest);
      Regroup(s.queue, Caller(op), Callers(rest), Granted(s, op), s'.queue, Grants(s', rest), Run(s', rest).queue);
    }
  }

  /**
   * FIFO: starting from a fresh mutex, the callers are let in exactly in the
   * order in which they called `lock`, and those not let in yet wait in that
   * same order; no caller is skipped.
   */
  lemma Fifo(ops: seq<Op>)
    ensures Callers(ops) == Grants(Fresh, ops) + Run(Fresh, ops).queue
  {
    QueueAccounting(Fresh, ops);
  }

  lemma {:induction false} HoldAccounting(s: MutexState, ops: seq<Op>)
    requires Inv(s)
    ensures (if s.locked then 1 else 0) + |Grants(s, ops)|
            == Releases(s, ops) + (if Run(s, ops).locked then 1 else 0)
    decreases |ops|
  {
    if ops != [] {
      StepKeepsInv(s, ops[0]);
      HoldAccounting(Step(s, ops[0]), ops[1..]);
    }
  }

  /**
   * Mutual exclusion: after any sequence of calls on a fresh mutex, the
   * callers let in minus the holds ended is one when the mutex is locked and
   * zero when it is free, so at most one caller holds it at any time.
   */
  lemma MutualExclusion(ops: seq<Op>)
    ensures Inv(Run(Fresh, ops))
    ensures |Grants(Fresh, ops)| == Releases(Fresh, ops) + (if Run(Fresh, ops).locked then 1 else 0)
  {
    RunKeepsInv(Fresh, ops);
    HoldAccounting(Fresh, ops);
  }

  class Mutex {
    var locked: bool
    var queue: seq<WaiterId>

    function State(): MutexState
      reads this
    {
      MutexState(locked, queue)
    }

    ghost predicate Valid()
      reads this
    {
      Inv(State())
    }

    /** A new mutex is unlocked with nobody waiting. */
    constructor ()
      ensures Valid() && State() == Fresh
    {
      queue := [];
      locked := false;
    }

    /** A caller on a free mutex is let in at once; otherwise it joins the end of the queue. */
    method Lock(id: WaiterId) returns (granted: bool)
      requires Valid()
      modifies this
      ensures Valid()
      ensures (State(), granted) == LockStep(old(State()), id)
      ensures !old(locked) ==> granted && locked && queue == old(queue)
      ensures old(locked) ==> !granted && locked && queue == old(queue) + [id]
    {
      if locked {
        queue := queue + [id];
        granted := false;
      } else {
        locked := true;
        granted := true;
      }
    }

    /**
     * Hands the lock to the longest-waiting caller, which leaves it locked,
     * or frees it when nobody waits; on a free mutex this changes nothing.
     */
    method Release() returns (next: Option<WaiterId>)
      requires Valid()
      modifies this
      ensures Valid()
      ensures (State(), next) == ReleaseStep(old(State()))
      ensures old(queue) != [] ==> next == Some(old(queue)[0]) && queue == old(queue)[1..] && locked
      ensures old(queue) == [] ==> next == None && !locked && queue == []
    {
      if |queue| > 0 {
        next := Some(queue[0]);
        queue := queue[1..];
      } else {
        locked := false;
        next := None;
      }
    }
  }
}
