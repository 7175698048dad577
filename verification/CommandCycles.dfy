/** Which frame a control cycle sends, and when a streamed command dies (runtime/src/runtime_worker.cpp,
    runtime/src/runtime_commands.cpp). */
module CommandCycles {
  import opened CommandWatchdog

  /** A streamed command is watched and its time is up. */
  predicate Dead(s: Sender, timeout: nat) {
    && s.phase in {Running, Degraded, Partial} && s.successful && s.mailbox.user && s.mailbox.streaming
    && s.lastSuccess + timeout <= s.now
  }

  /** A cycle sends at this phase. */
  predicate Sends(s: Sender, trajectory: bool) {
    s.phase in {Enabled, Running, Degraded, Partial} && (trajectory || s.pending.valid || s.mailbox.valid)
  }

  /** The frame a cycle sends: a new one of the trajectory, else the newest command. */
  function NextFrame(s: Sender, trajectory: bool): Frame {
    if trajectory then Frame(s.generations + 1, s.now, false)
    else if s.pending.valid then Frame(s.pending.generation, s.now, s.pending.streaming)
    else Frame(s.mailbox.generation, s.now, s.mailbox.streaming)
  }

  /** A cycle kills a dead command and stops; otherwise it sends exactly one frame if there is one and it can be sent;
      a frame of a user leaves ENABLED for RUNNING. */
  lemma CycleSendsExactly(s: Sender, trajectory: bool, sendOk: bool, timeout: nat)
    requires s.lastSuccess <= s.now
    ensures var s' := Next(s, Cycle(trajectory, sendOk), timeout);
            var user := trajectory || (if s.pending.valid then s.pending.user else s.mailbox.user);
            && s'.frames == s.frames + (if !Dead(s, timeout) && Sends(s, trajectory) && sendOk
                                        then [NextFrame(s, trajectory)] else [])
            && s'.phase == (if Dead(s, timeout) then Stopped
                            else if s.phase == Enabled && Sends(s, trajectory) && sendOk && user then Running else s.phase)
            && (Dead(s, timeout) ==> !s'.mailbox.valid && !s'.pending.valid)
            && (!Dead(s, timeout) && Sends(s, trajectory) && !trajectory ==>
                  s'.mailbox.valid && !s'.pending.valid && s'.mailbox.generation == NextFrame(s, false).generation)
  {
  }

  // ---------- The life of a streamed command ----------

  /** The frame that opened the window of the streamed command in the mailbox is the one the watchdog counts from. */
  ghost predicate Opened(s: Sender) {
    s.mailbox.valid && s.mailbox.streaming && s.mailbox.sent != 0 ==>
      exists i :: 0 <= i < |s.frames| && s.frames[i] == Frame(s.mailbox.generation, s.lastSuccess, true)
  }

  lemma TransmittedOpens(s: Sender, timeout: nat)
    requires Invariant(s, timeout) && Opened(s) && s.mailbox.valid
    ensures Opened(Transmitted(s))
  {
    var s' := Transmitted(s);
    assert s'.frames[|s.frames|] == Frame(s.mailbox.generation, s.now, s.mailbox.streaming);
    if s.mailbox.streaming && s.mailbox.sent != 0 {
      var i :| 0 <= i < |s.frames| && s.frames[i] == Frame(s.mailbox.generation, s.lastSuccess, true);
      assert s'.frames[i] == s.frames[i];
    }
  }

  lemma OpenedNext(s: Sender, step: Step, timeout: nat)
    requires 0 < timeout && Invariant(s, timeout) && Opened(s)
    ensures Opened(Next(s, step, timeout))
  {
    hide Transmitted, Windows;
    match step
    case Cycle(trajectory, sendOk) =>
      if !Expired(s, timeout) && Powered(s.phase) {
        if trajectory {
          var loaded := s.(generations := s.generations + 1, mailbox := User(s, false).(sent := s.mailbox.sent));
          TrajectoryOpens(loaded);
        } else {
          ConsumedKeeps(s, timeout);
          if Consumed(s).mailbox.valid {
            TransmittedOpens(Consumed(s), timeout);
          }
        }
      }
    case _ =>
  }

  lemma TrajectoryOpens(s: Sender)
    requires !s.mailbox.streaming
    ensures Opened(Transmitted(s))
  {
  }

  lemma {:induction false} RunOpens(steps: seq<Step>, timeout: nat)
    requires 0 < timeout
    ensures Opened(Run(steps, timeout))
  {
    hide Next, Opened;
    if |steps| > 0 {
      RunOpens(steps[..|steps| - 1], timeout);
      RunKeeps(steps[..|steps| - 1], timeout);
      OpenedNext(Run(steps[..|steps| - 1], timeout), steps[|steps| - 1], timeout);
    } else {
      assert Opened(Initial()) by { NothingOpened(); }
    }
  }

  lemma NothingOpened()
    ensures Opened(Initial())
  {
  }

  /** Frame i is the first one of the streamed command that is still in the mailbox. */
  ghost predicate FirstOf(s: Sender, i: nat) {
    && s.mailbox.valid && s.mailbox.streaming
    && i < |s.frames| && s.frames[i].generation == s.mailbox.generation
    && forall k :: 0 <= k < i ==> s.frames[k].generation != s.mailbox.generation
  }

  /** Frames are logged in the order of time. */
  ghost predicate InOrder(s: Sender) {
    forall i, k :: 0 <= i < k < |s.frames| ==> s.frames[i].at <= s.frames[k].at
  }

  lemma {:induction false} FramesInOrder(steps: seq<Step>, timeout: nat)
    requires 0 < timeout
    ensures InOrder(Run(steps, timeout))
  {
    hide Next;
    if |steps| > 0 {
      var before := Run(steps[..|steps| - 1], timeout);
      FramesInOrder(steps[..|steps| - 1], timeout);
      RunKeeps(steps[..|steps| - 1], timeout);
      FramesGrow(before, steps[|steps| - 1], timeout);
    }
  }

  lemma FramesGrow(s: Sender, step: Step, timeout: nat)
    ensures var s' := Next(s, step, timeout);
            s'.frames == s.frames || (|s'.frames| == |s.frames| + 1 && s'.frames[..|s.frames|] == s.frames
                                      && s'.frames[|s.frames|].at == s.now)
  {
  }

  /** Over every run: a streamed command that was first sent at a time, and that no newer one replaces, is sent again by
      every cycle of a moving arm that comes before its timeout from then, and stops the arm in every later one. */
  lemma StreamedUntilTimeout(steps: seq<Step>, timeout: nat, i: nat)
    requires 0 < timeout && FirstOf(Run(steps, timeout), i)
    requires var s := Run(steps, timeout);
             !s.pending.valid && s.phase in {Running, Degraded, Partial}
    ensures var s := Run(steps, timeout);
            var s' := Next(s, Cycle(false, true), timeout);
            if s.now < s.frames[i].at + timeout
            then s'.frames == s.frames + [Frame(s.mailbox.generation, s.now, true)] && s'.phase == s.phase
            else s'.frames == s.frames && s'.phase == Stopped
  {
    hide Next, Run;
    RunKeeps(steps, timeout);
    RunOpens(steps, timeout);
    FramesInOrder(steps, timeout);
    var s := Run(steps, timeout);
    CycleSendsExactly(s, false, true, timeout);
    assert s.mailbox.sent == s.mailbox.generation && s.lastSuccess <= s.frames[i].at;
    var k :| 0 <= k < |s.frames| && s.frames[k] == Frame(s.mailbox.generation, s.lastSuccess, true);
    assert i <= k;
    assert s.frames[i].at == s.lastSuccess;
  }

  // ---------- From a submission to its frame ----------

  /** A command submitted to a powered runtime is the next one sent. */
  lemma SubmittedIsSent(s: Sender, streaming: bool, timeout: nat)
    requires s.lastSuccess <= s.now && s.phase in {Enabled, Running, Degraded, Partial} && !Dead(s, timeout)
    ensures var s' := Next(Next(s, Submit(streaming), timeout), Cycle(false, true), timeout);
            s'.frames == s.frames + [Frame(s.generations + 1, s.now, streaming)] && s'.phase != Enabled
  {
  }

  /** A position command takes effect at once and drops what waits. */
  lemma PositionIsSent(s: Sender, timeout: nat)
    requires s.lastSuccess <= s.now && s.phase in {Enabled, Running, Degraded, Partial}
    ensures var s' := Next(Next(s, SetPosition, timeout), Cycle(false, true), timeout);
            s'.frames == s.frames + [Frame(s.generations + 1, s.now, false)] && s'.phase != Enabled
  {
  }

  /** After enabling a hold is repeated, which is no command of a user and never expires. */
  lemma EnabledHolds(s: Sender, timeout: nat)
    requires s.lastSuccess <= s.now && s.phase in {Off, Partial} && !s.pending.valid
    ensures var s' := Next(Next(s, Enable, timeout), Cycle(false, true), timeout);
            && s'.frames == s.frames + [Frame(s.generations + 1, s.now, false)] && s'.phase == Enabled && !s'.successful
  {
  }

  // ---------- The other steps ----------

  /** The phase after a step that is not a cycle. */
  function PhaseAfter(s: Sender, step: Step): Phase
    requires !step.Cycle?
  {
    match step
    case Enable => if s.phase in {Off, Partial} then Enabled else s.phase
    case Disable => Off
    case PowerBatch(power) =>
      if power == RollbackFailed then Stopped
      else if power == Preserved || s.phase == Stopped then s.phase
      else if power == AllOff then Off else Partial
    case Degrade => if s.phase == Running then Degraded else s.phase
    case Stop => Stopped
    case ClearFaults => if s.phase == Stopped then Off else s.phase
    case SetPosition => s.phase
    case StartGravity => if s.phase in {Enabled, Running} then Running else s.phase
    case StartFollowing =>
      if s.phase in {Enabled, Running} && s.mailbox.valid && !s.mailbox.streaming then Running else s.phase
    case SendGripper(sent) => if s.phase == Enabled && sent then Running else s.phase
    case _ => s.phase
  }

  /** Whether the watchdog is armed, and since when it counts, after a step that is not a cycle: a new enabling and a
      disabling disarm it; a gripper command arms it once; compensation and following start it anew. */
  predicate ArmedAfter(s: Sender, step: Step, s': Sender)
    requires !step.Cycle?
  {
    match step
    case Enable => if s.phase in {Off, Partial} then !s'.successful && s'.lastSuccess == 0
                   else s'.successful == s.successful && s'.lastSuccess == s.lastSuccess
    case Disable => !s'.successful
    case StartGravity =>
      if s.phase in {Enabled, Running} then s'.successful && s'.lastSuccess == s.now
      else s'.successful == s.successful && s'.lastSuccess == s.lastSuccess
    case StartFollowing =>
      if s.phase in {Enabled, Running} && s.mailbox.valid && !s.mailbox.streaming
      then s'.successful && s'.lastSuccess == s.now
      else s'.successful == s.successful && s'.lastSuccess == s.lastSuccess
    case SendGripper(sent) =>
      if s.phase in {Enabled, Running, Degraded, Partial} && sent
      then s'.successful && s'.lastSuccess == if s.successful then s.lastSuccess else s.now
      else s'.successful == s.successful && s'.lastSuccess == s.lastSuccess
    case _ => s'.successful == s.successful && s'.lastSuccess == s.lastSuccess
  }

  /** Steps other than cycles send nothing, and change the phase and the watchdog exactly so. */
  lemma OtherStepsFollow(s: Sender, step: Step, timeout: nat)
    requires !step.Cycle?
    ensures var s' := Next(s, step, timeout);
            && s'.frames == s.frames && s'.phase == PhaseAfter(s, step) && ArmedAfter(s, step, s')
            && s'.now == s.now + if step.Tick? then step.elapsed else 0
  {
  }

  /** When compensation ends with nothing in the mailbox, a hold is sent that is no command of a user. */
  lemma GravityEndsInHold(s: Sender, timeout: nat)
    requires s.lastSuccess <= s.now && s.phase in {Enabled, Running, Degraded, Partial}
    requires !s.mailbox.valid && !s.pending.valid
    ensures var s' := Next(Next(s, FinishGravity, timeout), Cycle(false, true), timeout);
            |s'.frames| == |s.frames| + 1 && !s'.frames[|s.frames|].streaming && s'.phase == s.phase
  {
  }

  /** Kept as a hold, a command of any kind is sent on without end. */
  lemma KeptIsHeld(s: Sender, timeout: nat)
    requires s.lastSuccess <= s.now && s.phase in {Running, Degraded, Partial} && s.mailbox.valid && !s.pending.valid
    ensures var s' := Next(Next(s, KeepAsHold, timeout), Cycle(false, true), timeout);
            && s'.frames == s.frames + [Frame(s.mailbox.generation, s.now, false)] && s'.phase == s.phase
            && !Dead(s', timeout)
  {
  }
}
