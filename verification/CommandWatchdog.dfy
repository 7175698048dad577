/** The arm command mailbox and the watchdog over streamed commands
    (runtime/src/runtime_commands.cpp, runtime/src/runtime_worker.cpp, runtime/src/runtime_enable.cpp,
    runtime/src/runtime_gripper.cpp, runtime/src/runtime_gravity.cpp). */
module CommandWatchdog {

  /** A command slot; sent is the last generation transmitted from it. */
  datatype Mailbox = Mailbox(valid: bool, user: bool, streaming: bool, generation: nat, sent: nat)

  const EMPTY: Mailbox := Mailbox(false, false, true, 0, 0)

  /** The safety state: off stands for DISCONNECTED and READY, stopped for the protective states and FAULT. */
  datatype Phase = Off | Enabled | Running | Degraded | Partial | Stopped

  predicate Powered(phase: Phase) {
    phase == Enabled || Watched(phase)
  }

  /** The watchdog looks at commands in these states. */
  predicate Watched(phase: Phase) {
    phase == Running || phase == Degraded || phase == Partial
  }

  /** How a power batch ends: all motors off, some on, an abnormal state preserved, or a rollback that failed. */
  datatype Power = AllOff | SomeOn | Preserved | RollbackFailed

  /** One transmitted frame. */
  datatype Frame = Frame(generation: nat, at: nat, streaming: bool)

  datatype Sender = Sender(phase: Phase, generations: nat, mailbox: Mailbox, pending: Mailbox,
                           successful: bool, lastSuccess: nat, now: nat, frames: seq<Frame>)

  datatype Step =
    | Tick(elapsed: nat)
    | Enable
    | Disable
    | PowerBatch(power: Power)
    | Degrade
    | Stop
    | ClearFaults
    | Submit(streaming: bool)
    | SetPosition
    | StartGravity
    | FinishGravity
    | StartFollowing
    | SendGripper(sent: bool)
    | KeepAsHold
    | Cycle(trajectory: bool, sendOk: bool)

  function User(s: Sender, streaming: bool): Mailbox {
    Mailbox(true, true, streaming, s.generations + 1, 0)
  }

  /** The watchdog: the last new command is too old, and the current one only lives while renewed. */
  predicate Expired(s: Sender, timeout: nat) {
    Watched(s.phase) && s.successful && s.mailbox.user && s.mailbox.streaming && timeout <= s.now - s.lastSuccess
  }

  /** The newest submitted command moves into the mailbox. */
  function Consumed(s: Sender): Sender {
    if s.pending.valid then s.(mailbox := s.pending, pending := EMPTY) else s
  }

  /** A success leaves ENABLED for RUNNING. */
  function Succeeded(s: Sender): Sender {
    s.(successful := true, phase := if s.phase == Enabled then Running else s.phase)
  }

  /** A power batch leaves the mailboxes as they are. */
  function PowerChanged(phase: Phase, power: Power): Phase {
    match power
    case AllOff => if phase == Stopped then phase else Off
    case SomeOn => if phase == Stopped then phase else Partial
    case Preserved => phase
    case RollbackFailed => Stopped
  }

  /** A frame of the mailbox has gone out. Only a new generation moves the watchdog. */
  function Transmitted(s: Sender): Sender {
    var logged := s.(frames := s.frames + [Frame(s.mailbox.generation, s.now, s.mailbox.streaming)]);
    if !s.mailbox.user then logged
    else
      var counted := Succeeded(logged);
      if s.mailbox.sent < s.mailbox.generation
      then counted.(mailbox := s.mailbox.(sent := s.mailbox.generation), lastSuccess := s.now) else counted
  }

  /** One control cycle: the watchdog first, then a frame of the trajectory or of the mailbox. */
  function Cycled(s: Sender, trajectory: bool, sendOk: bool, timeout: nat): Sender {
    if Expired(s, timeout) then s.(phase := Stopped, mailbox := EMPTY, pending := EMPTY)
    else if !Powered(s.phase) then s
    else
      var loaded := if trajectory
                    then s.(generations := s.generations + 1, mailbox := User(s, false).(sent := s.mailbox.sent))
                    else Consumed(s);
      if loaded.mailbox.valid && sendOk then Transmitted(loaded) else loaded
  }

  function Next(s: Sender, step: Step, timeout: nat): Sender {
    var powered := Powered(s.phase);
    match step
    case Tick(elapsed) => s.(now := s.now + elapsed)
    case Enable =>
      if s.phase == Off || s.phase == Partial
      then s.(phase := Enabled, generations := s.generations + 1, successful := false, lastSuccess := 0,
              mailbox := Mailbox(true, false, false, s.generations + 1, 0))
      else s
    case Disable => s.(phase := Off, mailbox := EMPTY, pending := EMPTY, successful := false)
    case PowerBatch(power) => s.(phase := PowerChanged(s.phase, power))
    case Degrade => if s.phase == Running then s.(phase := Degraded) else s
    case Stop => s.(phase := Stopped, mailbox := EMPTY, pending := EMPTY)
    case ClearFaults => if s.phase == Stopped then s.(phase := Off) else s
    case Submit(streaming) =>
      if powered then s.(generations := s.generations + 1, pending := User(s, streaming)) else s
    case SetPosition =>
      if powered then s.(generations := s.generations + 1, mailbox := User(s, false), pending := EMPTY) else s
    case StartGravity =>
      if s.phase == Enabled || s.phase == Running
      then s.(mailbox := EMPTY, pending := EMPTY, successful := true, lastSuccess := s.now, phase := Running)
      else s
    case FinishGravity => if powered && !s.mailbox.valid then s.(mailbox := Mailbox(true, false, false, 0, 0)) else s
    case StartFollowing =>
      if (s.phase == Enabled || s.phase == Running) && s.mailbox.valid && !s.mailbox.streaming
      then s.(pending := EMPTY, successful := true, lastSuccess := s.now, phase := Running) else s
    case SendGripper(sent) =>
      if powered && sent
      then Succeeded(s.(lastSuccess := if s.successful then s.lastSuccess else s.now))
      else s
    case KeepAsHold => if s.mailbox.valid then s.(mailbox := s.mailbox.(user := true, streaming := false)) else s
    case Cycle(trajectory, sendOk) => Cycled(s, trajectory, sendOk, timeout)
  }

  class CommandSender {
    const timeout: nat
    var phase: Phase
    var generations: nat
    var mailbox: Mailbox
    var pending: Mailbox
    var successful: bool
    var lastSuccess: nat
    /** Everything transmitted so far. */
    ghost var frames: seq<Frame>

    constructor (timeout: nat)
      ensures this.timeout == timeout && Value(0) == Initial()
    {
      this.timeout := timeout;
      phase, generations, mailbox, pending, successful, lastSuccess := Off, 0, EMPTY, EMPTY, false, 0;
      frames := [];
    }

    ghost function Value(now: nat): Sender
      reads this
    {
      Sender(phase, generations, mailbox, pending, successful, lastSuccess, now, frames)
    }

    method SubmitCommand(streaming: bool, now: nat)
      modifies this
      ensures Value(now) == Next(old(Value(now)), Submit(streaming), timeout)
    {
      if Powered(phase) {
        generations := generations + 1;
        pending := Mailbox(true, true, streaming, generations, 0);
      }
    }

    /** The mailbox starts as a hold at the position fed back; what waits in the other slot stays there. */
    method EnableArm(now: nat)
      modifies this
      ensures Value(now) == Next(old(Value(now)), Enable, timeout)
    {
      if phase == Off || phase == Partial {
        generations := generations + 1;
        mailbox := Mailbox(true, false, false, generations, 0);
        phase, successful, lastSuccess := Enabled, false, 0;
      }
    }

    method FinishPowerBatch(power: Power, now: nat)
      modifies `phase
      ensures Value(now) == Next(old(Value(now)), PowerBatch(power), timeout)
    {
      match power
      case AllOff =>
        if phase != Stopped {
          phase := Off;
        }
      case SomeOn =>
        if phase != Stopped {
          phase := Partial;
        }
      case Preserved =>
      case RollbackFailed =>
        phase := Stopped;
    }

    method ConsumePending()
      modifies `mailbox, `pending
      ensures forall now :: Value(now) == Consumed(old(Value(now)))
    {
      if pending.valid {
        mailbox, pending := pending, EMPTY;
      }
    }

    /** A frame went out: note the success, and the time if its command was new. */
    method CommitSent(now: nat)
      modifies this
      ensures Value(now) == Transmitted(old(Value(now)))
    {
      frames := frames + [Frame(mailbox.generation, now, mailbox.streaming)];
      if mailbox.user {
        successful := true;
        if phase == Enabled {
          phase := Running;
        }
        if mailbox.generation > mailbox.sent {
          mailbox := mailbox.(sent := mailbox.generation);
          lastSuccess := now;
        }
      }
    }

    method RunCycle(trajectory: bool, sendOk: bool, now: nat)
      modifies this
      ensures Value(now) == Cycled(old(Value(now)), trajectory, sendOk, timeout)
    {
      hide Transmitted, Consumed;
      if Watched(phase) && successful && mailbox.user && mailbox.streaming && now - lastSuccess >= timeout {
        phase, mailbox, pending := Stopped, EMPTY, EMPTY;
        return;
      }
      if !Powered(phase) {
        return;
      }
      if trajectory {
        generations := generations + 1;
        mailbox := Mailbox(true, true, false, generations, mailbox.sent);
      } else {
        ConsumePending();
      }
      if mailbox.valid && sendOk {
        CommitSent(now);
      }
    }
  }

  function Initial(): Sender {
    Sender(Off, 0, EMPTY, EMPTY, false, 0, 0, [])
  }

  function Run(steps: seq<Step>, timeout: nat): Sender {
    if |steps| == 0 then Initial() else Next(Run(steps[..|steps| - 1], timeout), steps[|steps| - 1], timeout)
  }

  // ---------- The window of a streamed command ----------

  /** A frame lies within the window that the first frame of its command opened. */
  predicate WithinWindow(first: Frame, later: Frame, timeout: nat) {
    first.generation == later.generation && first.streaming && later.streaming ==> later.at - first.at < timeout
  }

  ghost predicate Windows(frames: seq<Frame>, timeout: nat) {
    forall i, k :: 0 <= i < k < |frames| ==> WithinWindow(frames[i], frames[k], timeout)
  }

  /** The watchdog counts from the first frame of the current command. */
  ghost predicate Counting(s: Sender) {
    s.mailbox.valid && s.mailbox.streaming ==>
      && s.mailbox.user
      && (s.mailbox.sent == 0 || (s.mailbox.sent == s.mailbox.generation && s.successful && s.phase != Enabled))
      && (forall i :: 0 <= i < |s.frames| && s.frames[i].generation == s.mailbox.generation ==>
            s.mailbox.sent == s.mailbox.generation && s.lastSuccess <= s.frames[i].at)
  }

  /** Generations are drawn in order, and a waiting command has never been sent. */
  ghost predicate Fresh(s: Sender) {
    && s.lastSuccess <= s.now
    && s.mailbox.generation <= s.generations && s.pending.generation <= s.generations
    && (s.mailbox.valid && s.mailbox.streaming ==> 0 < s.mailbox.generation)
    && (s.pending.valid ==>
          s.pending.user && s.pending.sent == 0 && 0 < s.pending.generation
          && (s.mailbox.valid ==> s.pending.generation != s.mailbox.generation))
    && (forall i :: 0 <= i < |s.frames| ==>
          && s.frames[i].generation <= s.generations && s.frames[i].at <= s.now
          && (s.pending.valid ==> s.frames[i].generation != s.pending.generation))
  }

  ghost predicate Invariant(s: Sender, timeout: nat) {
    Windows(s.frames, timeout) && Counting(s) && Fresh(s)
  }

  lemma ConsumedKeeps(s: Sender, timeout: nat)
    requires Invariant(s, timeout)
    ensures Invariant(Consumed(s), timeout)
  {
  }

  /** A frame of an unexpired mailbox stays within its window. */
  lemma TransmittedKeeps(s: Sender, timeout: nat)
    requires Invariant(s, timeout) && s.mailbox.valid && 0 < timeout
    requires Powered(s.phase)
    requires s.mailbox.streaming && 0 < s.mailbox.sent ==> s.now - s.lastSuccess < timeout
    ensures Invariant(Transmitted(s), timeout)
  {
    var frame := Frame(s.mailbox.generation, s.now, s.mailbox.streaming);
    forall i | 0 <= i < |s.frames| ensures WithinWindow(s.frames[i], frame, timeout) {
    }
    assert Transmitted(s).frames == s.frames + [frame];
  }

  lemma CycledKeeps(s: Sender, trajectory: bool, sendOk: bool, timeout: nat)
    requires Invariant(s, timeout) && 0 < timeout
    ensures Invariant(Cycled(s, trajectory, sendOk, timeout), timeout)
  {
    hide Transmitted;
    if !Expired(s, timeout) && Powered(s.phase) {
      if trajectory {
        var loaded := s.(generations := s.generations + 1, mailbox := User(s, false).(sent := s.mailbox.sent));
        assert Invariant(loaded, timeout);
        if sendOk {
          TransmittedKeeps(loaded, timeout);
        }
      } else {
        ConsumedKeeps(s, timeout);
        if Consumed(s).mailbox.valid && sendOk {
          TransmittedKeeps(Consumed(s), timeout);
        }
      }
    }
  }

  lemma NextKeeps(s: Sender, step: Step, timeout: nat)
    requires Invariant(s, timeout) && 0 < timeout
    ensures Invariant(Next(s, step, timeout), timeout)
  {
    hide Cycled, Windows;
    match step
    case Cycle(trajectory, sendOk) => CycledKeeps(s, trajectory, sendOk, timeout);
    case _ =>
  }

  lemma {:induction false} RunKeeps(steps: seq<Step>, timeout: nat)
    requires 0 < timeout
    ensures Invariant(Run(steps, timeout), timeout)
  {
    hide Next;
    if |steps| > 0 {
      RunKeeps(steps[..|steps| - 1], timeout);
      NextKeeps(Run(steps[..|steps| - 1], timeout), steps[|steps| - 1], timeout);
    }
  }

  /** Over every run no streamed command is transmitted, first or again, at or after the timeout
      since its own first transmission; repeating it never extends the window. */
  lemma StreamedCommandsExpire(steps: seq<Step>, timeout: nat, i: nat, k: nat)
    requires 0 < timeout && i < k < |Run(steps, timeout).frames|
    ensures WithinWindow(Run(steps, timeout).frames[i], Run(steps, timeout).frames[k], timeout)
  {
    RunKeeps(steps, timeout);
  }
}
