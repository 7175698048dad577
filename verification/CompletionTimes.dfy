/** When a completed motion was started, announced, put into the slot and claimed, and when the state its completion
    rests on was read (dds/src/cyclone_service.cpp). */
module CompletionTimes {
  import opened Results
  import opened MotionEvents
  import opened MotionOutcomes

  /** Step n of the run announced motion m. */
  ghost predicate Announces(steps: seq<Step>, n: nat, m: nat) {
    Took(steps, n, Announce) && |Run(steps[..n]).motions| == m
  }

  /** Step n was the end of the execution that started the motion announced by step announced. */
  ghost predicate Starts(steps: seq<Step>, n: nat, announced: nat) {
    && Took(steps, n, FinishExecution(true)) && n < announced <= |steps|
    && Run(steps[..announced]).worker.Refreshed? && Run(steps[..announced]).worker.started == n
  }

  /** Step n put motion m into the slot. */
  ghost predicate Pends(steps: seq<Step>, n: nat, m: nat) {
    Took(steps, n, SetPending) && Run(steps[..n]).worker == Announced(m)
  }

  /** Step n claimed motion m as completed, on the strength of the state read by step c.since. */
  ghost predicate Completes(steps: seq<Step>, c: Claim, m: nat) {
    && Took(steps, c.since, ReadState(true)) && c.since < c.at
    && Took(steps, c.at, IoClaim) && Run(steps[..c.at]).io == IoClaiming(Completed, c.since)
    && Run(steps[..c.at]).slot == Some(m)
  }

  // ---------- What every run records ----------

  ghost predicate AnnouncedAt(steps: seq<Step>, s: Service) {
    && |s.times.announced| == |s.motions|
    && forall m: nat :: m < |s.motions| ==> Announces(steps, s.times.announced[m], m)
  }

  ghost predicate StartedAt(steps: seq<Step>, s: Service) {
    && |s.times.started| == |s.times.announced| == |s.motions|
    && (forall m: nat :: m < |s.motions| ==> Starts(steps, s.times.started[m], s.times.announced[m]))
    && (s.worker.Refreshed? ==> Took(steps, s.worker.started, FinishExecution(true)))
  }

  ghost predicate PendingAt(steps: seq<Step>, s: Service) {
    && |s.times.announced| == |s.motions|
    && (forall m: nat :: m in s.times.pending ==>
          && m < |s.motions| && s.times.announced[m] < s.times.pending[m] && Pends(steps, s.times.pending[m], m))
    && (forall m: nat :: s.slot == Some(m) ==> m in s.times.pending)
    && (s.worker.Announced? ==> s.worker.motion !in s.times.pending)
  }

  ghost predicate CompletedAt(steps: seq<Step>, s: Service) {
    && (s.io.IoClaiming? && s.io.kind == Completed ==> Took(steps, s.io.since, ReadState(true)))
    && (forall m: nat :: m in s.times.completed ==>
          && m in s.times.pending && s.times.pending[m] < s.times.completed[m].at
          && Completes(steps, s.times.completed[m], m))
    && (s.io.IoPublishing? && s.io.kind == Completed ==> s.io.motion in s.times.completed)
    && (forall m: nat :: Event(Completed, m) in s.events ==> m in s.times.completed)
  }

  ghost predicate Recorded(steps: seq<Step>, s: Service) {
    AnnouncedAt(steps, s) && StartedAt(steps, s) && PendingAt(steps, s) && CompletedAt(steps, s)
  }

  lemma PrefixKeeps(steps: seq<Step>, last: nat, n: nat, step: Step)
    requires last + 1 == |steps| && Took(steps[..last], n, step)
    ensures Took(steps, n, step) && steps[..last][..n] == steps[..n]
  {
    assert steps[..last][..n] == steps[..n];
  }

  lemma StartsLifted(steps: seq<Step>, last: nat, s: Service)
    requires last + 1 == |steps| && StartedAt(steps[..last], s)
    ensures StartedAt(steps, s)
  {
    hide Took, Run;
    var shorter := steps[..last];
    forall m: nat | m < |s.motions| ensures Starts(steps, s.times.started[m], s.times.announced[m]) {
      assert Starts(shorter, s.times.started[m], s.times.announced[m]);
      PrefixKeeps(steps, last, s.times.started[m], FinishExecution(true));
      assert shorter[..s.times.announced[m]] == steps[..s.times.announced[m]];
    }
    if s.worker.Refreshed? {
      PrefixKeeps(steps, last, s.worker.started, FinishExecution(true));
    }
  }

  /** What a run has recorded stays recorded when it goes on. */
  lemma Lifted(steps: seq<Step>, last: nat, s: Service)
    requires last + 1 == |steps| && Recorded(steps[..last], s)
    ensures Recorded(steps, s)
  {
    hide Took, Run, StartedAt;
    var shorter := steps[..last];
    forall m: nat | m < |s.motions| ensures Announces(steps, s.times.announced[m], m) {
      assert Announces(shorter, s.times.announced[m], m);
      PrefixKeeps(steps, last, s.times.announced[m], Announce);
    }
    StartsLifted(steps, last, s);
    forall m: nat | m in s.times.pending ensures Pends(steps, s.times.pending[m], m) {
      assert Pends(shorter, s.times.pending[m], m);
      PrefixKeeps(steps, last, s.times.pending[m], SetPending);
    }
    if s.io.IoClaiming? && s.io.kind == Completed {
      PrefixKeeps(steps, last, s.io.since, ReadState(true));
    }
    forall m: nat | m in s.times.completed ensures Completes(steps, s.times.completed[m], m) {
      var c := s.times.completed[m];
      assert Completes(shorter, c, m);
      PrefixKeeps(steps, last, c.since, ReadState(true));
      PrefixKeeps(steps, last, c.at, IoClaim);
    }
  }

  lemma AnnouncedNext(steps: seq<Step>, last: nat, s: Service)
    requires last + 1 == |steps| && s == Run(steps[..last]) && Took(steps, last, steps[last])
    requires AnnouncedAt(steps, s)
    ensures AnnouncedAt(steps, Next(s, steps[last], last))
  {
    hide Run;
    if steps[last] == Announce {
      assert Announces(steps, last, |s.motions|);
    }
  }

  lemma StartedNext(steps: seq<Step>, last: nat, s: Service)
    requires last + 1 == |steps| && s == Run(steps[..last]) && Took(steps, last, steps[last])
    requires StartedAt(steps, s) && StartedAt(steps[..last], s)
    ensures StartedAt(steps, Next(s, steps[last], last))
  {
    hide Run, Took;
    assert Enabled(s, steps[last]) by { TookIsEnabled(steps, last); }
    if steps[last] == Announce {
      TookBefore(steps[..last], s.worker.started, FinishExecution(true));
      assert Starts(steps, s.worker.started, last);
    }
  }

  lemma AnnouncedBefore(steps: seq<Step>, last: nat, s: Service, m: nat)
    requires last + 1 == |steps| && s == Run(steps[..last]) && AnnouncedAt(steps[..last], s) && m < |s.motions|
    ensures s.times.announced[m] < last
  {
    assert Announces(steps[..last], s.times.announced[m], m);
  }

  lemma PendingNext(steps: seq<Step>, last: nat, s: Service)
    requires last + 1 == |steps| && s == Run(steps[..last]) && Took(steps, last, steps[last])
    requires PendingAt(steps, s) && AnnouncedAt(steps[..last], s)
    ensures PendingAt(steps, Next(s, steps[last], last))
  {
    hide Run, Took, Announces;
    assert Enabled(s, steps[last]) by { TookIsEnabled(steps, last); }
    if steps[last] == SetPending {
      AnnouncedBefore(steps, last, s, s.worker.motion);
      assert Pends(steps, last, s.worker.motion);
    }
  }

  lemma TookIsEnabled(steps: seq<Step>, n: nat)
    requires n < |steps| && Took(steps, n, steps[n])
    ensures Enabled(Run(steps[..n]), steps[n])
  {
  }

  lemma TookBefore(steps: seq<Step>, n: nat, step: Step)
    requires Took(steps, n, step)
    ensures n < |steps|
  {
  }

  /** A claim records the completion it makes. */
  lemma CompletedByClaim(steps: seq<Step>, last: nat, s: Service)
    requires last + 1 == |steps| && s == Run(steps[..last]) && steps[last] == IoClaim && Took(steps, last, IoClaim)
    requires CompletedAt(steps, s) && Recorded(steps[..last], s) && s.io.IoClaiming?
    ensures CompletedAt(steps, Next(s, IoClaim, last))
  {
    hide Run, Took, Announces, AnnouncedAt, StartedAt;
    if s.slot.Some? && s.io.kind == Completed {
      var m := s.slot.value;
      TookBefore(steps[..last], s.io.since, ReadState(true));
      assert Pends(steps[..last], s.times.pending[m], m);
      TookBefore(steps[..last], s.times.pending[m], SetPending);
      assert Completes(steps, Claim(s.io.since, last), m);
    }
  }

  /** Every other step keeps what was recorded about completions. */
  lemma CompletedByOther(steps: seq<Step>, last: nat, s: Service)
    requires last + 1 == |steps| && s == Run(steps[..last]) && steps[last] != IoClaim && Took(steps, last, steps[last])
    requires CompletedAt(steps, s) && Recorded(steps[..last], s) && Enabled(s, steps[last])
    ensures CompletedAt(steps, Next(s, steps[last], last))
  {
    hide Run, Took, Announces, AnnouncedAt, StartedAt, Completes, Pends;
    var s' := Next(s, steps[last], last);
    assert s'.times.completed == s.times.completed;
    forall m: nat | m in s.times.completed
      ensures m in s'.times.pending && s'.times.pending[m] < s'.times.completed[m].at
    {
      assert PendingAt(steps[..last], s);
    }
  }

  lemma {:induction false} RunRecords(steps: seq<Step>)
    ensures Recorded(steps, Run(steps))
  {
    if |steps| == 0 {
    } else {
      hide Run, Next, Recorded, Enabled;
      var last := |steps| - 1;
      var s := Run(steps[..last]);
      RunRecords(steps[..last]);
      Lifted(steps, last, s);
      LastStep(steps);
      if Enabled(s, steps[last]) {
        assert Recorded(steps, Next(s, steps[last], last)) by {
          RecordedParts(steps, s);
          RecordedParts(steps[..last], s);
          AnnouncedNext(steps, last, s);
          StartedNext(steps, last, s);
          PendingNext(steps, last, s);
          TookIsEnabled(steps, last);
          if steps[last] == IoClaim {
            CompletedByClaim(steps, last, s);
          } else {
            CompletedByOther(steps, last, s);
          }
          RecordedWhole(steps, Next(s, steps[last], last));
        }
      }
    }
  }

  lemma LastStep(steps: seq<Step>)
    requires |steps| > 0
    ensures var last := |steps| - 1;
            var s := Run(steps[..last]);
            Run(steps) == (if Enabled(s, steps[last]) then Next(s, steps[last], last) else s)
  {
  }

  lemma RecordedParts(steps: seq<Step>, s: Service)
    requires Recorded(steps, s)
    ensures AnnouncedAt(steps, s) && StartedAt(steps, s) && PendingAt(steps, s) && CompletedAt(steps, s)
  {
  }

  lemma RecordedWhole(steps: seq<Step>, s: Service)
    requires AnnouncedAt(steps, s) && StartedAt(steps, s) && PendingAt(steps, s) && CompletedAt(steps, s)
    ensures Recorded(steps, s)
  {
  }

  // ---------- Stale completions ----------

  /** The completion of m rests on a state that was read before the runtime had started m. */
  predicate Stale(s: Service, m: nat) {
    m in s.times.completed && m < |s.times.started| && s.times.completed[m].since < s.times.started[m]
  }

  /** The completion of m rests on a state that was read before m was announced. */
  predicate ReadUnannounced(s: Service, m: nat) {
    m in s.times.completed && m < |s.times.announced| && s.times.completed[m].since < s.times.announced[m]
  }

  /** Motions announced before a step are those it finds. */
  lemma KnownIffAnnounced(steps: seq<Step>, n: nat, m: nat)
    requires n < |steps| && m < |Run(steps).motions|
    ensures |Run(steps).times.announced| == |Run(steps).motions|
    ensures Run(steps).times.announced[m] < n <==> m < |Run(steps[..n]).motions|
  {
    hide Run, Took;
    RunRecords(steps);
    var at := Run(steps).times.announced[m];
    assert Announces(steps, at, m);
    TookBefore(steps, at, Announce);
    if at < n {
      TookAnnounce(steps, at);
      assert steps[..n][..at + 1] == steps[..at + 1];
      RunExtends(steps[..n], at + 1);
    } else {
      assert steps[..at][..n] == steps[..n];
      RunExtends(steps[..at], n);
    }
  }

  lemma TookAnnounce(steps: seq<Step>, n: nat)
    requires Took(steps, n, Announce)
    ensures |Run(steps[..n + 1]).motions| == |Run(steps[..n]).motions| + 1
  {
    hide Run;
    assert steps[..n] + [Announce] == steps[..n + 1];
    RunAppend(steps[..n], Announce);
  }

  /** Over every run each COMPLETED event was claimed after its motion was started, announced and put into the slot,
      and after a read of an arrived state. */
  lemma CompletionOrder(steps: seq<Step>, m: nat)
    requires Event(Completed, m) in Run(steps).events
    ensures m in Run(steps).times.completed && m < |Run(steps).motions|
    ensures var times := Run(steps).times;
            && |times.started| == |times.announced| == |Run(steps).motions|
            && Starts(steps, times.started[m], times.announced[m]) && Announces(steps, times.announced[m], m)
            && Completes(steps, times.completed[m], m)
            && times.started[m] < times.announced[m] < times.completed[m].at
  {
    hide Run, Took;
    RunRecords(steps);
    var times := Run(steps).times;
    assert Starts(steps, times.started[m], times.announced[m]) && Announces(steps, times.announced[m], m);
    assert Completes(steps, times.completed[m], m);
  }

  /** A completion rests on a state older than its motion exactly if the execution that started the motion ended
      between the read and the claim. */
  lemma StaleExactly(steps: seq<Step>, m: nat)
    requires Event(Completed, m) in Run(steps).events
    ensures m in Run(steps).times.completed && m < |Run(steps).times.started| == |Run(steps).times.announced|
    ensures Stale(Run(steps), m)
       <==> exists n: nat :: Run(steps).times.completed[m].since < n < Run(steps).times.completed[m].at
                             && Starts(steps, n, Run(steps).times.announced[m])
  {
    hide Run, Took;
    CompletionOrder(steps, m);
    var times := Run(steps).times;
    if n: nat :| times.completed[m].since < n < times.completed[m].at && Starts(steps, n, times.announced[m]) {
      assert n == times.started[m];
    }
    NeverAtOnce(steps, times.completed[m].since, times.started[m]);
  }

  lemma NeverAtOnce(steps: seq<Step>, n: nat, k: nat)
    requires Took(steps, n, ReadState(true)) && Took(steps, k, FinishExecution(true))
    ensures n != k
  {
  }

  /** It was announced after the read exactly if the read did not know it yet; a motion started after the read is one
      of these. */
  lemma UnannouncedExactly(steps: seq<Step>, m: nat)
    requires Event(Completed, m) in Run(steps).events
    ensures m in Run(steps).times.completed && Run(steps).times.completed[m].since < |steps|
    ensures ReadUnannounced(Run(steps), m) <==> |Run(steps[..Run(steps).times.completed[m].since]).motions| <= m
    ensures Stale(Run(steps), m) ==> ReadUnannounced(Run(steps), m)
  {
    hide Run, Took;
    CompletionOrder(steps, m);
    var times := Run(steps).times;
    TookBefore(steps, times.completed[m].since, ReadState(true));
    KnownIffAnnounced(steps, times.completed[m].since, m);
    ReadIsNoAnnouncement(steps, times.completed[m].since, times.announced[m]);
  }

  lemma ReadIsNoAnnouncement(steps: seq<Step>, n: nat, k: nat)
    requires Took(steps, n, ReadState(true)) && Took(steps, k, Announce)
    ensures n != k
  {
  }

  /** A motion that was in the slot when the state was read is never completed by an older state. */
  lemma PendingAtReadIsFresh(steps: seq<Step>, m: nat)
    requires Event(Completed, m) in Run(steps).events
    ensures m in Run(steps).times.completed && Run(steps).times.completed[m].since < |steps|
    ensures Run(steps[..Run(steps).times.completed[m].since]).slot == Some(m) ==> !ReadUnannounced(Run(steps), m)
  {
    hide Run, Ends;
    CompletionOrder(steps, m);
    UnannouncedExactly(steps, m);
    var c := Run(steps).times.completed[m];
    RunKeeps(steps[..c.since]);
    assert Placed(Run(steps[..c.since]), m);
  }

  // ---------- A stale completion ----------

  /** Execute and accept a motion while the I/O thread holds a state it read before. */
  function StaleSteps(): seq<Step> {
    [IssueLease, TakeRequest(7), ReadState(true), FinishExecution(true), Announce, SetPending, IoClaim, IoPublish]
  }

  lemma StaleRunStarts()
    ensures var s := Run(StaleSteps()[..4]);
            && s.io == IoClaiming(Completed, 2) && s.worker == Refreshed(1, 7, 3) && s.lease == Some(1)
            && s.slot == None && s.motions == [] && s.events == [] && s.times == Times([], [], map[], map[])
  {
    var n := StaleSteps();
    assert [] + [n[0]] == n[..1] && n[..1] + [n[1]] == n[..2] && n[..2] + [n[2]] == n[..3] && n[..3] + [n[3]] == n[..4];
    EmptyRun();
    hide Run;
    RunAppend([], n[0]);
    RunAppend(n[..1], n[1]);
    RunAppend(n[..2], n[2]);
    RunAppend(n[..3], n[3]);
  }

  lemma StaleRunAccepts()
    ensures var s := Run(StaleSteps()[..6]);
            && s.times == Times([3], [4], map[0 := 5], map[]) && s.slot == Some(0) && s.motions == [Motion(1, 7)]
            && s.io == IoClaiming(Completed, 2)
  {
    hide Run;
    var n := StaleSteps();
    StaleRunStarts();
    assert n[..4] + [n[4]] == n[..5] && n[..5] + [n[5]] == n[..6];
    RunAppend(n[..4], n[4]);
    var s5 := Run(n[..5]);
    assert s5.times == Times([3], [4], map[], map[]) && s5.worker == Announced(0) && s5.motions == [Motion(1, 7)];
    RunAppend(n[..5], n[5]);
  }

  /** A motion is reported completed by a state that was read while it had not been started. */
  lemma StaleRun()
    ensures Event(Completed, 0) in Run(StaleSteps()).events && Stale(Run(StaleSteps()), 0)
  {
    hide Run;
    var n := StaleSteps();
    StaleRunAccepts();
    assert n[..6] + [n[6]] == n[..7] && n[..7] + [n[7]] == n;
    RunAppend(n[..6], n[6]);
    var s7 := Run(n[..7]);
    assert s7.times == Times([3], [4], map[0 := 5], map[0 := Claim(2, 6)]) && s7.io == IoPublishing(Completed, 0);
    RunAppend(n[..7], n[7]);
    assert Run(n).events == s7.events + [Event(Completed, 0)];
  }
}
