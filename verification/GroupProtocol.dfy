/** The generation barrier of a controller group: one caller, one worker thread per controller, two
    condition variables. Every step is what one thread does between two lock operations
    (motor/src/runtime.cpp). */
module GroupProtocol {
  import opened Results
  import opened BatchPartition

  datatype Kind = Mit | PosVel

  /** Where a worker thread is; Asleep is blocked on the start condition. */
  datatype Phase =
    | Checking
    | Asleep
    | Sending(kind: Kind, batch: seq<Command>)
    | Finishing(failed: bool)
    | Notifying
    | Exited

  /** One batch a worker handed to its controller. */
  datatype Sent = Sent(kind: Kind, batch: seq<Command>, failed: bool)

  datatype Worker = Worker(seen: nat, phase: Phase, sent: seq<Sent>)

  /** Where the calling thread is: outside any call, about to wake the workers, checking or blocked
      on the done condition, or destroying the group. */
  datatype Caller = Ready | Waking | Waiting | Sleeping | Closing | Joining | Closed

  datatype Call = Call(kind: Kind, commands: seq<Command>)

  /** The shared state, the threads, the successful partitions so far, and which calls raised. */
  datatype Group = Group(generation: nat, kind: Kind, mit: seq<seq<Command>>, posVel: seq<seq<Command>>,
                         completed: nat, errors: seq<bool>, stopping: bool, workers: seq<Worker>, caller: Caller,
                         calls: seq<Call>, raised: seq<bool>)

  datatype Step =
    | Dispatch(call: Call)
    | WakeAll
    | CallerCheck
    | Stop
    | Join
    | WorkerCheck(i: nat)
    | WorkerSend(i: nat, fails: bool)
    | WorkerFinish(i: nat)
    | WorkerNotify(i: nat)
    | SpuriousWorker(i: nat)
    | SpuriousCaller

  function Batches(s: Group, kind: Kind): seq<seq<Command>> {
    if kind == Mit then s.mit else s.posVel
  }

  function WithBatches(s: Group, kind: Kind, batches: seq<seq<Command>>): Group {
    if kind == Mit then s.(mit := batches) else s.(posVel := batches)
  }

  predicate WorkerIs(s: Group, i: nat, phase: Phase) {
    i < |s.workers| && s.workers[i].phase == phase
  }

  predicate Enabled(s: Group, step: Step) {
    match step
    case Dispatch(_) => s.caller == Ready
    case WakeAll => s.caller == Waking || s.caller == Closing
    case CallerCheck => s.caller == Waiting
    case Stop => s.caller == Ready
    case Join => s.caller == Joining && forall i :: 0 <= i < |s.workers| ==> s.workers[i].phase == Exited
    case WorkerCheck(i) => WorkerIs(s, i, Checking)
    case WorkerSend(i, _) => i < |s.workers| && s.workers[i].phase.Sending?
    case WorkerFinish(i) => i < |s.workers| && s.workers[i].phase.Finishing?
    case WorkerNotify(i) => WorkerIs(s, i, Notifying)
    case SpuriousWorker(i) => WorkerIs(s, i, Asleep)
    case SpuriousCaller => s.caller == Sleeping
  }

  function WithWorker(s: Group, i: nat, w: Worker): Group
    requires i < |s.workers|
  {
    s.(workers := s.workers[i := w])
  }

  function Awakened(w: Worker): Worker {
    if w.phase == Asleep then w.(phase := Checking) else w
  }

  function AllAwake(workers: seq<Worker>): (awake: seq<Worker>)
    ensures |awake| == |workers|
  {
    seq(|workers|, i requires 0 <= i < |workers| => Awakened(workers[i]))
  }

  predicate AnyTrue(flags: seq<bool>) {
    exists i :: 0 <= i < |flags| && flags[i]
  }

  /** Fill the batches and open a new generation; a refused partition opens none. */
  function Dispatched(owns: Ownership, s: Group, call: Call): Group {
    var (batches, error) := Partition(owns, |s.workers|, call.commands);
    var filled := WithBatches(s, call.kind, batches);
    if error.Some? then filled
    else
      filled.(kind := call.kind, completed := 0, errors := seq(|s.workers|, _ => false),
              generation := s.generation + 1, caller := Waking, calls := s.calls + [call])
  }

  /** A worker at its start condition: leave, take the new generation, or sleep. */
  function Checked(s: Group, i: nat): Worker
    requires i < |s.workers| && i < |s.mit| && i < |s.posVel|
  {
    var w := s.workers[i];
    if s.stopping then w.(phase := Exited)
    else if s.generation != w.seen then w.(seen := s.generation, phase := Sending(s.kind, Batches(s, s.kind)[i]))
    else w.(phase := Asleep)
  }

  predicate Shaped(s: Group, n: nat) {
    |s.workers| == |s.mit| == |s.posVel| == |s.errors| == n > 0
  }

  function Next(owns: Ownership, s: Group, step: Step): Group
    requires Shaped(s, |s.workers|) && Enabled(s, step)
  {
    match step
    case Dispatch(call) => Dispatched(owns, s, call)
    case WakeAll => s.(workers := AllAwake(s.workers), caller := if s.caller == Waking then Waiting else Joining)
    case CallerCheck =>
      if s.completed == |s.workers| then s.(caller := Ready, raised := s.raised + [AnyTrue(s.errors)])
      else s.(caller := Sleeping)
    case Stop => s.(stopping := true, caller := Closing)
    case Join => s.(caller := Closed)
    case WorkerCheck(i) => WithWorker(s, i, Checked(s, i))
    case WorkerSend(i, fails) =>
      var w := s.workers[i];
      WithWorker(s, i, w.(phase := Finishing(fails), sent := w.sent + [Sent(w.phase.kind, w.phase.batch, fails)]))
    case WorkerFinish(i) =>
      var w := s.workers[i];
      WithWorker(s, i, w.(phase := Notifying)).(errors := s.errors[i := w.phase.failed], completed := s.completed + 1)
    case WorkerNotify(i) =>
      WithWorker(s, i, s.workers[i].(phase := Checking)).(caller := if s.caller == Sleeping then Waiting else s.caller)
    case SpuriousWorker(i) => WithWorker(s, i, s.workers[i].(phase := Checking))
    case SpuriousCaller => s.(caller := Waiting)
  }

  function Initial(n: nat): Group {
    Group(0, Mit, seq(n, _ => []), seq(n, _ => []), 0, seq(n, _ => false), false,
          seq(n, _ => Worker(0, Checking, [])), Ready, [], [])
  }

  // ---------- The invariant ----------

  /** A call is between opening its generation and returning. */
  predicate Active(caller: Caller) {
    caller == Waking || caller == Waiting || caller == Sleeping
  }

  predicate Idle(phase: Phase) {
    phase == Checking || phase == Asleep || phase == Notifying
  }

  /** The worker has finished the generation. */
  predicate Done(w: Worker, generation: nat) {
    w.seen == generation && Idle(w.phase)
  }

  /** What a worker has sent: its share of every call up to the generation it has seen, once each. */
  ghost predicate History(owns: Ownership, s: Group, i: nat)
    requires i < |s.workers|
  {
    var w := s.workers[i];
    && (if w.phase.Sending? then |w.sent| + 1 == w.seen else |w.sent| == w.seen)
    && w.seen <= |s.calls|
    && forall g :: 0 <= g < |w.sent| ==>
         && w.sent[g].kind == s.calls[g].kind
         && w.sent[g].batch == Share(owns, |s.workers|, s.calls[g].commands, i)
  }

  /** Where a worker can be. */
  ghost predicate Place(s: Group, i: nat)
    requires Shaped(s, |s.workers|) && i < |s.workers|
  {
    var w := s.workers[i];
    && (Active(s.caller) ==>
          || Done(w, s.generation)
          || (w.seen + 1 == s.generation && Idle(w.phase))
          || (w.seen == s.generation && (w.phase.Sending? || w.phase.Finishing?)))
    && (!Active(s.caller) ==>
          w.seen == s.generation && (Idle(w.phase) || (s.stopping && w.phase == Exited)))
    && (w.phase.Sending? ==> w.phase.kind == s.kind && w.phase.batch == Batches(s, s.kind)[i])
    && (w.phase.Finishing? ==> |w.sent| > 0 && w.phase.failed == w.sent[|w.sent| - 1].failed)
    && (Active(s.caller) && Done(w, s.generation) ==>
          |w.sent| > 0 && s.errors[i] == w.sent[|w.sent| - 1].failed)
  }

  /** No worker sleeps through a generation or through the end. */
  ghost predicate NoLostWakeUp(s: Group, i: nat)
    requires i < |s.workers|
  {
    s.workers[i].phase == Asleep ==>
      && (s.workers[i].seen != s.generation ==> s.caller == Waking)
      && (s.stopping ==> s.caller == Closing)
  }

  function CountDone(workers: seq<Worker>, generation: nat): (count: nat)
    ensures count <= |workers|
  {
    if |workers| == 0 then 0
    else CountDone(workers[..|workers| - 1], generation) + (if Done(workers[|workers| - 1], generation) then 1 else 0)
  }

  /** Some worker failed to send its batch of call g. */
  ghost predicate SomeFailed(s: Group, g: nat) {
    exists i :: 0 <= i < |s.workers| && g < |s.workers[i].sent| && s.workers[i].sent[g].failed
  }

  ghost predicate Barrier(owns: Ownership, s: Group) {
    && |s.calls| == s.generation && s.stopping == (s.caller == Closing || s.caller == Joining || s.caller == Closed)
    && (Active(s.caller) ==>
          && 0 < s.generation && s.kind == s.calls[s.generation - 1].kind
          && Batches(s, s.kind) == Shares(owns, |s.workers|, s.calls[s.generation - 1].commands)
          && s.completed == CountDone(s.workers, s.generation))
  }

  /** Every call that returned raised exactly if some worker failed to send its batch. */
  ghost predicate Outcomes(s: Group) {
    && |s.raised| == (if Active(s.caller) then s.generation - 1 else s.generation)
    && forall g: nat :: g < |s.raised| ==> s.raised[g] == SomeFailed(s, g)
  }

  /** The caller does not sleep through the last completion. */
  ghost predicate CallerWoken(s: Group) {
    s.caller == Sleeping && s.completed == |s.workers| ==> exists i :: WorkerIs(s, i, Notifying)
  }

  ghost predicate Invariant(owns: Ownership, s: Group, n: nat) {
    && Shaped(s, n) && Barrier(owns, s) && Outcomes(s) && CallerWoken(s)
    && forall i :: 0 <= i < n ==> History(owns, s, i) && Place(s, i) && NoLostWakeUp(s, i)
  }

  // ---------- Counting ----------

  lemma {:induction false} CountUpdate(workers: seq<Worker>, generation: nat, i: nat, w: Worker)
    requires i < |workers|
    ensures CountDone(workers[i := w], generation) + (if Done(workers[i], generation) then 1 else 0)
         == CountDone(workers, generation) + (if Done(w, generation) then 1 else 0)
  {
    var last := |workers| - 1;
    if i < last {
      CountUpdate(workers[..last], generation, i, w);
      assert workers[i := w][..last] == workers[..last][i := w];
    } else {
      assert workers[i := w][..last] == workers[..last];
    }
  }

  lemma {:induction false} CountSame(workers: seq<Worker>, workers': seq<Worker>, generation: nat)
    requires |workers| == |workers'|
    requires forall i :: 0 <= i < |workers| ==> Done(workers[i], generation) == Done(workers'[i], generation)
    ensures CountDone(workers, generation) == CountDone(workers', generation)
  {
    if |workers| > 0 {
      CountSame(workers[..|workers| - 1], workers'[..|workers| - 1], generation);
    }
  }

  lemma {:induction false} CountAll(workers: seq<Worker>, generation: nat)
    ensures CountDone(workers, generation) == |workers|
        <==> forall i :: 0 <= i < |workers| ==> Done(workers[i], generation)
  {
    var last := |workers| - 1;
    if |workers| > 0 {
      CountAll(workers[..last], generation);
      if CountDone(workers, generation) == |workers| {
        forall i | 0 <= i < |workers| ensures Done(workers[i], generation) {
          assert i < last ==> workers[..last][i] == workers[i];
        }
      }
      if forall i :: 0 <= i < |workers| ==> Done(workers[i], generation) {
        assert forall i :: 0 <= i < last ==> workers[..last][i] == workers[i];
      }
    }
  }

  lemma {:induction false} CountNone(workers: seq<Worker>, generation: nat)
    requires forall i :: 0 <= i < |workers| ==> workers[i].seen != generation
    ensures CountDone(workers, generation) == 0
  {
    if |workers| > 0 {
      CountNone(workers[..|workers| - 1], generation);
    }
  }

  // ---------- Every step keeps the invariant ----------

  lemma InitialInvariant(owns: Ownership, n: nat)
    requires n > 0
    ensures Invariant(owns, Initial(n), n)
  {
  }

  /** A refused partition changes nothing but the batches: it wakes nobody. */
  lemma RefusedWakesNobody(owns: Ownership, s: Group, call: Call)
    requires Partition(owns, |s.workers|, call.commands).1.Some?
    ensures var s' := Dispatched(owns, s, call);
            s' == s.(mit := s'.mit, posVel := s'.posVel)
  {
    hide Partition;
  }

  lemma DispatchKeeps(owns: Ownership, s: Group, n: nat, call: Call)
    requires Invariant(owns, s, n) && s.caller == Ready
    ensures Invariant(owns, Dispatched(owns, s, call), n)
  {
    hide GoodFrom, Share;
    var s' := Dispatched(owns, s, call);
    forall i | 0 <= i < n ensures s.workers[i].seen != s.generation + 1 {
      assert Place(s, i);
    }
    CountNone(s.workers, s.generation + 1);
    PartitionExact(owns, n, call.commands);
    assert |Partition(owns, n, call.commands).0| == n;
    forall g: nat | g < |s.raised| ensures SomeFailed(s', g) == SomeFailed(s, g) {
    }
    forall i | 0 <= i < n ensures History(owns, s', i) && Place(s', i) && NoLostWakeUp(s', i) {
      assert History(owns, s, i) && Place(s, i) && NoLostWakeUp(s, i);
    }
  }

  lemma WakeAllKeeps(owns: Ownership, s: Group, n: nat)
    requires Invariant(owns, s, n) && (s.caller == Waking || s.caller == Closing)
    ensures Invariant(owns, Next(owns, s, WakeAll), n)
  {
    hide Share, CountDone;
    var s' := Next(owns, s, WakeAll);
    forall i | 0 <= i < n ensures Done(s.workers[i], s.generation) == Done(s'.workers[i], s.generation) {
    }
    CountSame(s.workers, s'.workers, s.generation);
    forall i | 0 <= i < n ensures History(owns, s', i) && Place(s', i) && NoLostWakeUp(s', i) {
      assert History(owns, s, i) && Place(s, i) && NoLostWakeUp(s, i);
    }
    forall g: nat | g < |s.raised| ensures SomeFailed(s', g) == SomeFailed(s, g) {
      assert forall i :: 0 <= i < n ==> s'.workers[i].sent == s.workers[i].sent;
    }
  }

  lemma CallerCheckKeeps(owns: Ownership, s: Group, n: nat)
    requires Invariant(owns, s, n) && s.caller == Waiting
    ensures Invariant(owns, Next(owns, s, CallerCheck), n)
  {
    hide Share, CountDone;
    var s' := Next(owns, s, CallerCheck);
    CountAll(s.workers, s.generation);
    forall i | 0 <= i < n ensures History(owns, s', i) && Place(s', i) && NoLostWakeUp(s', i) {
      assert History(owns, s, i) && Place(s, i) && NoLostWakeUp(s, i);
    }
    forall g: nat | g < |s'.raised| ensures s'.raised[g] == SomeFailed(s', g) {
      if g < |s.raised| {
        assert s.raised[g] == SomeFailed(s, g);
      } else {
        LastCallOutcome(owns, s, n);
      }
    }
  }

  /** When every worker is done, the error slots say who failed to send. */
  lemma LastCallOutcome(owns: Ownership, s: Group, n: nat)
    requires Invariant(owns, s, n) && s.caller == Waiting && s.completed == n
    ensures AnyTrue(s.errors) == SomeFailed(s, s.generation - 1)
  {
    hide Share;
    CountAll(s.workers, s.generation);
    forall i | 0 <= i < n
      ensures |s.workers[i].sent| == s.generation && s.errors[i] == s.workers[i].sent[s.generation - 1].failed
    {
      assert Done(s.workers[i], s.generation) && Place(s, i) && History(owns, s, i);
    }
  }

  /** Steps of one worker: the others keep their places. */
  lemma WorkerKeeps(owns: Ownership, s: Group, s': Group, n: nat, i: nat)
    requires Invariant(owns, s, n) && i < n
    requires |s'.workers| == n == |s'.errors|
    requires s' == s.(workers := s.workers[i := s'.workers[i]], errors := s.errors[i := s'.errors[i]],
                      completed := s'.completed, caller := s'.caller)
    requires s'.caller == s.caller || (s.caller == Sleeping && s'.caller == Waiting)
    requires s.workers[i].sent <= s'.workers[i].sent && |s'.workers[i].sent| <= s.generation
    requires || |s'.workers[i].sent| == |s.workers[i].sent|
             || (Active(s.caller) && |s.workers[i].sent| + 1 == |s'.workers[i].sent| == s.generation)
    requires History(owns, s', i) && Place(s', i) && NoLostWakeUp(s', i) && CallerWoken(s')
    requires Active(s.caller) ==>
               s'.completed + (if Done(s.workers[i], s.generation) then 1 else 0)
               == s.completed + (if Done(s'.workers[i], s.generation) then 1 else 0)
    ensures Invariant(owns, s', n)
  {
    hide Share, CountDone;
    CountUpdate(s.workers, s.generation, i, s'.workers[i]);
    forall k | 0 <= k < n ensures History(owns, s', k) && Place(s', k) && NoLostWakeUp(s', k) {
      assert History(owns, s, k) && Place(s, k) && NoLostWakeUp(s, k);
    }
    forall g: nat | g < |s.raised| ensures SomeFailed(s', g) == SomeFailed(s, g) {
      SameOutcome(s, s', g, i);
    }
  }

  lemma SameOutcome(s: Group, s': Group, g: nat, i: nat)
    requires i < |s.workers| == |s'.workers| && s'.workers == s.workers[i := s'.workers[i]]
    requires s.workers[i].sent <= s'.workers[i].sent
    requires g < |s.workers[i].sent| || |s'.workers[i].sent| <= g
    ensures SomeFailed(s', g) == SomeFailed(s, g)
  {
    assert forall k :: 0 <= k < |s.workers| && k != i ==> s'.workers[k] == s.workers[k];
    if SomeFailed(s, g) {
      var k :| 0 <= k < |s.workers| && g < |s.workers[k].sent| && s.workers[k].sent[g].failed;
      assert g < |s'.workers[k].sent| && s'.workers[k].sent[g].failed;
    }
    if SomeFailed(s', g) {
      var k :| 0 <= k < |s.workers| && g < |s'.workers[k].sent| && s'.workers[k].sent[g].failed;
      assert g < |s.workers[k].sent| && s.workers[k].sent[g].failed;
    }
  }

  lemma WorkerCheckKeeps(owns: Ownership, s: Group, n: nat, i: nat)
    requires Invariant(owns, s, n) && WorkerIs(s, i, Checking)
    ensures Invariant(owns, Next(owns, s, WorkerCheck(i)), n)
  {
    hide Share, CountDone;
    var s' := Next(owns, s, WorkerCheck(i));
    assert History(owns, s, i) && Place(s, i) && NoLostWakeUp(s, i);
    NotifierStays(s, s', i);
    WorkerKeeps(owns, s, s', n, i);
  }

  /** Some other worker, or the same one, is still to notify. */
  lemma NotifierStays(s: Group, s': Group, i: nat)
    requires CallerWoken(s) && i < |s.workers| == |s'.workers| && s'.workers == s.workers[i := s'.workers[i]]
    requires s.workers[i].phase != Notifying || s'.workers[i].phase == Notifying || s'.caller != Sleeping
    requires s'.caller == Sleeping ==> s.caller == Sleeping
    requires s'.completed == s.completed
    ensures CallerWoken(s')
  {
    if s'.caller == Sleeping && s'.completed == |s'.workers| {
      var k :| WorkerIs(s, k, Notifying);
      assert WorkerIs(s', k, Notifying);
    }
  }

  lemma WorkerSendKeeps(owns: Ownership, s: Group, n: nat, i: nat, fails: bool)
    requires Invariant(owns, s, n) && i < n && s.workers[i].phase.Sending?
    ensures Invariant(owns, Next(owns, s, WorkerSend(i, fails)), n)
  {
    hide Share, CountDone;
    var s' := Next(owns, s, WorkerSend(i, fails));
    assert History(owns, s, i) && Place(s, i) && NoLostWakeUp(s, i);
    assert s.workers[i].phase.batch == Share(owns, n, s.calls[s.generation - 1].commands, i);
    NotifierStays(s, s', i);
    WorkerKeeps(owns, s, s', n, i);
  }

  lemma WorkerFinishKeeps(owns: Ownership, s: Group, n: nat, i: nat)
    requires Invariant(owns, s, n) && i < n && s.workers[i].phase.Finishing?
    ensures Invariant(owns, Next(owns, s, WorkerFinish(i)), n)
  {
    hide Share, CountDone;
    var s' := Next(owns, s, WorkerFinish(i));
    assert History(owns, s, i) && Place(s, i) && NoLostWakeUp(s, i);
    assert WorkerIs(s', i, Notifying);
    WorkerKeeps(owns, s, s', n, i);
  }

  lemma WorkerWakesKeeps(owns: Ownership, s: Group, n: nat, i: nat, step: Step)
    requires Invariant(owns, s, n) && i < n
    requires (step == WorkerNotify(i) || step == SpuriousWorker(i)) && Enabled(s, step)
    ensures Invariant(owns, Next(owns, s, step), n)
  {
    hide Share, CountDone;
    var s' := Next(owns, s, step);
    assert History(owns, s, i) && Place(s, i) && NoLostWakeUp(s, i);
    NotifierStays(s, s', i);
    WorkerKeeps(owns, s, s', n, i);
  }

  lemma CallerOnlyKeeps(owns: Ownership, s: Group, n: nat, step: Step)
    requires Invariant(owns, s, n) && Enabled(s, step) && (step.Stop? || step.Join? || step.SpuriousCaller?)
    ensures Invariant(owns, Next(owns, s, step), n)
  {
    hide Share, CountDone;
    var s' := Next(owns, s, step);
    forall i | 0 <= i < n ensures History(owns, s', i) && Place(s', i) && NoLostWakeUp(s', i) {
      assert History(owns, s, i) && Place(s, i) && NoLostWakeUp(s, i);
    }
    forall g: nat | g < |s.raised| ensures SomeFailed(s', g) == SomeFailed(s, g) {
    }
  }

  lemma NextKeeps(owns: Ownership, s: Group, n: nat, step: Step)
    requires Invariant(owns, s, n) && Enabled(s, step)
    ensures Invariant(owns, Next(owns, s, step), n)
  {
    hide Invariant, Next;
    InvariantShapes(owns, s, n);
    match step
    case Dispatch(call) =>
      DispatchKeeps(owns, s, n, call);
      NextDispatch(owns, s, call);
    case WakeAll => WakeAllKeeps(owns, s, n);
    case CallerCheck => CallerCheckKeeps(owns, s, n);
    case WorkerCheck(i) => WorkerCheckKeeps(owns, s, n, i);
    case WorkerSend(i, fails) => WorkerSendKeeps(owns, s, n, i, fails);
    case WorkerFinish(i) => WorkerFinishKeeps(owns, s, n, i);
    case WorkerNotify(i) => WorkerWakesKeeps(owns, s, n, i, step);
    case SpuriousWorker(i) => WorkerWakesKeeps(owns, s, n, i, step);
    case _ => CallerOnlyKeeps(owns, s, n, step);
  }

  lemma InvariantShapes(owns: Ownership, s: Group, n: nat)
    requires Invariant(owns, s, n)
    ensures Shaped(s, n)
  {
    hide Share;
  }

  lemma NextDispatch(owns: Ownership, s: Group, call: Call)
    requires Shaped(s, |s.workers|) && s.caller == Ready
    ensures Next(owns, s, Dispatch(call)) == Dispatched(owns, s, call)
  {
  }

  /** The group after a run; steps that are not enabled do not happen. */
  function Run(owns: Ownership, n: nat, steps: seq<Step>): (s: Group)
    requires n > 0
    ensures Invariant(owns, s, n)
    decreases |steps|
  {
    if |steps| == 0 then
      InitialInvariant(owns, n);
      Initial(n)
    else
      var before := Run(owns, n, steps[..|steps| - 1]);
      if Enabled(before, steps[|steps| - 1]) then
        NextKeeps(owns, before, n, steps[|steps| - 1]);
        Next(owns, before, steps[|steps| - 1])
      else before
  }

  // ---------- What a finished dispatch means ----------

  /** Worker i has processed every generation exactly once, in order, with exactly its share of that
      call's commands, and is back at its start condition or has left. */
  ghost predicate Complete(owns: Ownership, s: Group, i: nat)
    requires i < |s.workers| && |s.calls| == s.generation
  {
    var w := s.workers[i];
    && w.seen == s.generation == |w.sent| && (Idle(w.phase) || w.phase == Exited)
    && forall g :: 0 <= g < s.generation ==>
         && w.sent[g].kind == s.calls[g].kind
         && w.sent[g].batch == Share(owns, |s.workers|, s.calls[g].commands, i)
  }

  /** Over every interleaving: whenever no call is in progress every worker is complete, and each
      call that returned raised exactly if some share of it failed. */
  lemma FinishedCallsAreComplete(owns: Ownership, n: nat, steps: seq<Step>)
    requires n > 0
    ensures var s := Run(owns, n, steps);
            && |s.workers| == n && |s.calls| == s.generation
            && (!Active(s.caller) ==> |s.raised| == s.generation)
            && (!Active(s.caller) ==> forall i :: 0 <= i < n ==> Complete(owns, s, i))
            && (forall g: nat :: g < |s.raised| ==> s.raised[g] == SomeFailed(s, g))
  {
    hide Share, Next;
    var s := Run(owns, n, steps);
    if !Active(s.caller) {
      forall i | 0 <= i < n ensures Complete(owns, s, i) {
        assert History(owns, s, i) && Place(s, i);
      }
    }
  }

  /** A call opens a generation exactly if its batch can be split: it is then the next one to be carried out. Any other
      leaves the caller where it was, and no worker hears of it. */
  lemma CallOpensExactly(owns: Ownership, n: nat, steps: seq<Step>, call: Call)
    requires n > 0 && Run(owns, n, steps).caller == Ready
    ensures var s := Run(owns, n, steps);
            var s' := Next(owns, s, Dispatch(call));
            && s'.workers == s.workers && s'.raised == s.raised
            && (Splits(owns, n, call.commands) ==>
                  s'.calls == s.calls + [call] && s'.generation == s.generation + 1 && Active(s'.caller))
            && (!Splits(owns, n, call.commands) ==>
                  s'.calls == s.calls && s'.generation == s.generation && s'.caller == Ready)
  {
    hide Run, Invariant, Splits;
    RunShaped(owns, n, steps);
    DispatchOpens(owns, Run(owns, n, steps), call);
  }

  lemma RunShaped(owns: Ownership, n: nat, steps: seq<Step>)
    requires n > 0
    ensures var s := Run(owns, n, steps); Shaped(s, n) && |s.workers| == n
  {
    hide Run, Share;
    var s := Run(owns, n, steps);
    assert Invariant(owns, s, n);
  }

  lemma DispatchOpens(owns: Ownership, s: Group, call: Call)
    requires Shaped(s, |s.workers|) && s.caller == Ready
    ensures var s' := Next(owns, s, Dispatch(call));
            && s'.workers == s.workers && s'.raised == s.raised
            && (Splits(owns, |s.workers|, call.commands) ==>
                  s'.calls == s.calls + [call] && s'.generation == s.generation + 1 && Active(s'.caller))
            && (!Splits(owns, |s.workers|, call.commands) ==>
                  s'.calls == s.calls && s'.generation == s.generation && s'.caller == Ready)
  {
    hide Partition, Splits;
    PartitionAccepts(owns, |s.workers|, call.commands);
  }

  /** The group is destroyed only after every worker has left. */
  lemma {:induction false} ClosedAfterExit(owns: Ownership, n: nat, steps: seq<Step>)
    requires n > 0 && Run(owns, n, steps).caller == Closed
    ensures forall i :: 0 <= i < n ==> Run(owns, n, steps).workers[i].phase == Exited
    decreases |steps|
  {
    hide Next, Share;
    var before := Run(owns, n, steps[..|steps| - 1]);
    if before.caller == Closed {
      ClosedAfterExit(owns, n, steps[..|steps| - 1]);
    }
    if Enabled(before, steps[|steps| - 1]) {
      ExitedStay(owns, before, steps[|steps| - 1]);
    }
  }

  lemma ExitedStay(owns: Ownership, s: Group, step: Step)
    requires Shaped(s, |s.workers|) && Enabled(s, step) && Next(owns, s, step).caller == Closed
    requires s.caller == Closed ==> forall i :: 0 <= i < |s.workers| ==> s.workers[i].phase == Exited
    ensures forall i :: 0 <= i < |s.workers| ==> Next(owns, s, step).workers[i].phase == Exited
  {
    hide Partition;
  }

  // ---------- Every call returns ----------

  /** Steps the group takes by itself. */
  predicate Internal(step: Step) {
    step.WakeAll? || step.CallerCheck? || step.Join? || step.WorkerCheck? || step.WorkerSend? || step.WorkerFinish?
    || step.WorkerNotify?
  }

  /** While a call or the destruction is in progress some thread can always move. */
  lemma NeverStuck(owns: Ownership, s: Group, n: nat) returns (step: Step)
    requires Invariant(owns, s, n) && s.caller != Ready && s.caller != Closed
    ensures Internal(step) && Enabled(s, step)
  {
    hide Share, CountDone;
    if s.caller == Waking || s.caller == Closing {
      return WakeAll;
    }
    if s.caller == Waiting {
      return CallerCheck;
    }
    if exists i: nat :: i < n && s.workers[i].phase.Sending? {
      var i: nat :| i < n && s.workers[i].phase.Sending?;
      return WorkerSend(i, false);
    }
    if exists i: nat :: i < n && s.workers[i].phase.Finishing? {
      var i: nat :| i < n && s.workers[i].phase.Finishing?;
      return WorkerFinish(i);
    }
    if exists i: nat :: WorkerIs(s, i, Notifying) {
      var i: nat :| WorkerIs(s, i, Notifying);
      return WorkerNotify(i);
    }
    if exists i: nat :: WorkerIs(s, i, Checking) {
      var i: nat :| WorkerIs(s, i, Checking);
      return WorkerCheck(i);
    }
    forall i | 0 <= i < n
      ensures if s.caller == Sleeping then Done(s.workers[i], s.generation) else s.workers[i].phase == Exited
    {
      assert !WorkerIs(s, i, Checking) && !WorkerIs(s, i, Notifying);
      assert Place(s, i) && NoLostWakeUp(s, i);
    }
    CountAll(s.workers, s.generation);
    return Join;
  }

  /** How far a worker still has to go. */
  function WorkerWork(w: Worker, generation: nat): nat {
    match w.phase
    case Sending(_, _) => 6
    case Finishing(_) => 5
    case Notifying => if w.seen == generation then 4 else 9
    case Checking => if w.seen == generation then 1 else 7
    case Asleep => if w.seen == generation then 0 else 7
    case Exited => 0
  }

  function TotalWork(workers: seq<Worker>, generation: nat): nat {
    if |workers| == 0 then 0
    else TotalWork(workers[..|workers| - 1], generation) + WorkerWork(workers[|workers| - 1], generation)
  }

  /** How far the call in progress, or the destruction, still has to go. */
  function Work(s: Group): nat {
    TotalWork(s.workers, s.generation)
    + match s.caller
      case Waking => |s.workers| + 2
      case Closing => |s.workers| + 2
      case Waiting => 1
      case Joining => 1
      case _ => 0
  }

  lemma {:induction false} WorkUpdate(workers: seq<Worker>, generation: nat, i: nat, w: Worker)
    requires i < |workers|
    ensures TotalWork(workers[i := w], generation) + WorkerWork(workers[i], generation)
         == TotalWork(workers, generation) + WorkerWork(w, generation)
  {
    hide WorkerWork;
    var last := |workers| - 1;
    if i < last {
      WorkUpdate(workers[..last], generation, i, w);
      assert workers[i := w][..last] == workers[..last][i := w];
    } else {
      assert workers[i := w][..last] == workers[..last];
    }
  }

  lemma {:induction false} WorkAwake(workers: seq<Worker>, generation: nat)
    ensures TotalWork(AllAwake(workers), generation) <= TotalWork(workers, generation) + |workers|
  {
    if |workers| > 0 {
      WorkAwake(workers[..|workers| - 1], generation);
      assert AllAwake(workers)[..|workers| - 1] == AllAwake(workers[..|workers| - 1]);
    }
  }

  /** Every step the group takes by itself brings the call in progress closer to its end. So under
      any schedule a call returns after at most as many steps as there is work. */
  lemma InternalStepsProgress(owns: Ownership, s: Group, n: nat, step: Step)
    requires Invariant(owns, s, n) && Internal(step) && Enabled(s, step)
    ensures Work(Next(owns, s, step)) < Work(s)
  {
    hide Share, CountDone, TotalWork, History;
    var s' := Next(owns, s, step);
    match step
    case WakeAll => WorkAwake(s.workers, s.generation);
    case WorkerCheck(i) =>
      assert Place(s, i);
      WorkUpdate(s.workers, s.generation, i, s'.workers[i]);
    case WorkerSend(i, _) => WorkUpdate(s.workers, s.generation, i, s'.workers[i]);
    case WorkerFinish(i) =>
      assert Place(s, i);
      WorkUpdate(s.workers, s.generation, i, s'.workers[i]);
    case WorkerNotify(i) => WorkUpdate(s.workers, s.generation, i, s'.workers[i]);
    case _ =>
  }

  /** The steps the group takes by itself, one after another, as far as the given schedule goes. */
  function Settle(owns: Ownership, s: Group, n: nat, schedule: seq<Step>): Group
    requires Invariant(owns, s, n)
    decreases |schedule|
  {
    if |schedule| == 0 then s
    else if Internal(schedule[0]) && Enabled(s, schedule[0]) then
      NextKeeps(owns, s, n, schedule[0]);
      Settle(owns, Next(owns, s, schedule[0]), n, schedule[1..])
    else Settle(owns, s, n, schedule[1..])
  }

  /** From any state of a call there is a schedule on which it returns, and it is not longer than
      the work left. */
  lemma {:induction false} CallCanReturn(owns: Ownership, s: Group, n: nat) returns (schedule: seq<Step>)
    requires Invariant(owns, s, n)
    ensures |schedule| <= Work(s)
    ensures Settle(owns, s, n, schedule).caller == Ready || Settle(owns, s, n, schedule).caller == Closed
    decreases Work(s)
  {
    hide Invariant, Next, Work;
    if s.caller == Ready || s.caller == Closed {
      return [];
    }
    var step := NeverStuck(owns, s, n);
    InvariantShapes(owns, s, n);
    NextKeeps(owns, s, n, step);
    InternalStepsProgress(owns, s, n, step);
    var rest := CallCanReturn(owns, Next(owns, s, step), n);
    schedule := [step] + rest;
    assert schedule[1..] == rest;
  }
}
