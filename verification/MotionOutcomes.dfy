/** Which accepted motions end, and which completions rest on a state older than the motion
    (dds/src/cyclone_service.cpp). */
module MotionOutcomes {
  import opened Results
  import opened MotionEvents

  /** Step n of the run happened, and was this one. */
  ghost predicate Took(steps: seq<Step>, n: nat, step: Step) {
    n < |steps| && steps[n] == step && Enabled(Run(steps[..n]), step)
  }

  // ---------- Runs and their continuations ----------

  lemma TookEarlier(shorter: seq<Step>, steps: seq<Step>, n: nat, step: Step)
    requires shorter <= steps && Took(shorter, n, step)
    ensures Took(steps, n, step) && shorter[..n] == steps[..n]
  {
    assert shorter[..n] == steps[..n];
  }

  /** What a longer run keeps of a shorter one. */
  ghost predicate Extends(s: Service, later: Service) {
    s.motions <= later.motions && s.superseded <= later.superseded
  }

  lemma NextExtends(s: Service, step: Step, at: nat)
    requires Enabled(s, step)
    ensures Extends(s, Next(s, step, at))
  {
  }

  lemma {:induction false} RunExtends(steps: seq<Step>, n: nat)
    requires n <= |steps|
    ensures Extends(Run(steps[..n]), Run(steps))
    decreases |steps|
  {
    hide Next, Enabled;
    if n == |steps| {
      assert steps[..n] == steps;
    } else {
      var last := |steps| - 1;
      assert steps[..last][..n] == steps[..n];
      RunExtends(steps[..last], n);
      if Enabled(Run(steps[..last]), steps[last]) {
        NextExtends(Run(steps[..last]), steps[last], last);
      }
    }
  }

  lemma ContinuationExtends(steps: seq<Step>, more: seq<Step>)
    ensures Extends(Run(steps), Run(steps + more))
  {
    assert (steps + more)[..|steps|] == steps;
    RunExtends(steps + more, |steps|);
  }

  // ---------- Motions that lose their slot ----------

  /** A motion is superseded exactly if another motion is put into the slot while it is still there. */
  lemma {:induction false} SupersededExactly(steps: seq<Step>, m: nat)
    ensures m in Run(steps).superseded
       <==> exists n: nat :: Took(steps, n, SetPending) && Run(steps[..n]).slot == Some(m)
  {
    hide Run, Enabled;
    if |steps| == 0 {
      assert Run([]).superseded == {} by { EmptyRun(); }
    } else {
      var last := |steps| - 1;
      var shorter := steps[..last];
      SupersededExactly(shorter, m);
      SupersededStep(steps, m);
      if n: nat :| Took(shorter, n, SetPending) && Run(shorter[..n]).slot == Some(m) {
        TookEarlier(shorter, steps, n, SetPending);
      }
      if n: nat :| Took(steps, n, SetPending) && Run(steps[..n]).slot == Some(m) && n < last {
        assert shorter[..n] == steps[..n];
        assert Took(shorter, n, SetPending);
      }
    }
  }

  lemma EmptyRun()
    ensures Run([]) == Initial()
  {
  }

  lemma SupersededNext(s: Service, step: Step, at: nat, m: nat)
    requires Enabled(s, step)
    ensures m in Next(s, step, at).superseded <==> m in s.superseded || (step == SetPending && s.slot == Some(m))
  {
  }

  lemma SupersededStep(steps: seq<Step>, m: nat)
    requires |steps| > 0
    ensures m in Run(steps).superseded
       <==> m in Run(steps[..|steps| - 1]).superseded
            || (Took(steps, |steps| - 1, SetPending) && Run(steps[..|steps| - 1]).slot == Some(m))
  {
    hide Next, Enabled;
    var last := |steps| - 1;
    if Enabled(Run(steps[..last]), steps[last]) {
      SupersededNext(Run(steps[..last]), steps[last], last, m);
    }
  }

  /** From then on it never ends. */
  lemma SupersededNeverEnds(steps: seq<Step>, more: seq<Step>, m: nat)
    requires m in Run(steps).superseded
    ensures Ends(Run(steps + more).events, m) == 0
  {
    hide Run, Ends;
    ContinuationExtends(steps, more);
    RunKeeps(steps + more);
    assert Placed(Run(steps + more), m);
  }

  // ---------- Motions that can still end ----------

  ghost predicate Ended(steps: seq<Step>, m: nat) {
    Ends(Run(steps).events, m) > 0
  }

  lemma PublishEnds(steps: seq<Step>, m: nat) returns (more: seq<Step>)
    requires Run(steps).io.IoPublishing? && Run(steps).io.motion == m && Run(steps).io.kind != Accepted
    ensures Ended(steps + more, m)
  {
    hide Run, Ends;
    more := [IoPublish];
    RunAppend(steps, IoPublish);
    EndsAppend(Run(steps).events, Event(Run(steps).io.kind, m), m);
  }

  lemma ClaimEnds(steps: seq<Step>, m: nat) returns (more: seq<Step>)
    requires Run(steps).io.IoClaiming? && Run(steps).io.kind != Accepted && Run(steps).slot == Some(m)
    requires Pending(Run(steps), m)
    ensures Ended(steps + more, m)
  {
    hide Run;
    RunAppend(steps, IoClaim);
    var rest := PublishEnds(steps + [IoClaim], m);
    more := [IoClaim] + rest;
    assert steps + more == (steps + [IoClaim]) + rest;
  }

  lemma ReadEnds(steps: seq<Step>, m: nat) returns (more: seq<Step>)
    requires Run(steps).io == IoIdle && Pending(Run(steps), m)
    ensures Ended(steps + more, m)
  {
    hide Run;
    RunAppend(steps, ReadState(true));
    var rest := ClaimEnds(steps + [ReadState(true)], m);
    more := [ReadState(true)] + rest;
    assert steps + more == (steps + [ReadState(true)]) + rest;
  }

  /** A motion in the slot under a request number can be completed, whatever the I/O thread is doing. */
  lemma PendingEnds(steps: seq<Step>, m: nat) returns (more: seq<Step>)
    requires Pending(Run(steps), m)
    ensures Ended(steps + more, m)
  {
    hide Run, Ends;
    RunKeeps(steps);
    var s := Run(steps);
    if s.io == IoIdle {
      more := ReadEnds(steps, m);
    } else if s.io.IoClaiming? {
      more := ClaimEnds(steps, m);
    } else {
      RunAppend(steps, IoPublish);
      var rest := ReadEnds(steps + [IoPublish], m);
      more := [IoPublish] + rest;
      assert steps + more == (steps + [IoPublish]) + rest;
    }
  }

  lemma WorkerEnds(steps: seq<Step>, m: nat) returns (more: seq<Step>)
    requires Run(steps).worker == WorkerPublishing(m)
    ensures Ended(steps + more, m)
  {
    hide Run, Ends;
    more := [WorkerPublish];
    RunAppend(steps, WorkerPublish);
    EndsAppend(Run(steps).events, Event(Cancelled, m), m);
  }

  lemma AnnouncedEnds(steps: seq<Step>, m: nat) returns (more: seq<Step>)
    requires Run(steps).worker == Announced(m) && m < |Run(steps).motions| && Run(steps).motions[m].request != 0
    ensures Ended(steps + more, m)
  {
    hide Run;
    RunAppend(steps, SetPending);
    var rest := PendingEnds(steps + [SetPending], m);
    more := [SetPending] + rest;
    assert steps + more == (steps + [SetPending]) + rest;
  }

  lemma EndingRun(steps: seq<Step>, m: nat) returns (more: seq<Step>)
    requires m < |Run(steps).motions| && Run(steps).motions[m].request != 0 && m !in Run(steps).superseded
    ensures Ended(steps + more, m)
  {
    hide Run, Ends;
    RunKeeps(steps);
    var s := Run(steps);
    assert Placed(s, m);
    if Ends(s.events, m) > 0 {
      more := [];
      assert steps + more == steps;
    } else if s.io.IoPublishing? && s.io.motion == m {
      more := PublishEnds(steps, m);
    } else if s.worker == WorkerPublishing(m) {
      more := WorkerEnds(steps, m);
    } else if s.worker == Announced(m) {
      more := AnnouncedEnds(steps, m);
    } else {
      more := PendingEnds(steps, m);
    }
  }

  /** After any run, an accepted motion has ended or can still end exactly if it was requested under a number
      other than zero and has not been superseded. */
  lemma CanEndExactly(steps: seq<Step>, m: nat)
    requires m < |Run(steps).motions|
    ensures (exists more :: Ended(steps + more, m))
       <==> Run(steps).motions[m].request != 0 && m !in Run(steps).superseded
  {
    hide Run, Ends;
    if Run(steps).motions[m].request != 0 && m !in Run(steps).superseded {
      var more := EndingRun(steps, m);
    } else {
      forall more ensures !Ended(steps + more, m) {
        ContinuationExtends(steps, more);
        if m in Run(steps).superseded {
          SupersededNeverEnds(steps, more, m);
        } else {
          ZeroRequestNeverEnds(steps + more, m);
        }
      }
    }
  }

  // ---------- Concrete losses ----------

  /** The worker accepts one motion under a request number and comes to rest. */
  function Accepting(request: nat): seq<Step> {
    [TakeRequest(request), FinishExecution(true), Announce, SetPending, CheckLease(false)]
  }

  /** At rest under the first lease with the last of so many motions in the slot. */
  ghost predicate RestsWith(s: Service, requests: seq<nat>) {
    && s.io == IoIdle && s.worker == WorkerIdle && s.lease == Some(1) && s.events == Announcements(|requests|)
    && |s.motions| == |requests| && (forall i :: 0 <= i < |requests| ==> s.motions[i] == Motion(1, requests[i]))
    && s.slot == if |requests| == 0 then None else Some(|requests| - 1)
  }

  function Announcements(n: nat): seq<Event> {
    seq(n, (m: nat) => Event(Accepted, m))
  }

  lemma AcceptingRests(steps: seq<Step>, requests: seq<nat>, request: nat)
    requires RestsWith(Run(steps), requests)
    ensures RestsWith(Run(steps + Accepting(request)), requests + [request])
    ensures |requests| > 0 ==> |requests| - 1 in Run(steps + Accepting(request)).superseded
  {
    hide Run;
    var n := Accepting(request);
    var s1, s2, s3, s4 := steps + [n[0]], steps + [n[0]] + [n[1]], steps + [n[0]] + [n[1]] + [n[2]],
      steps + [n[0]] + [n[1]] + [n[2]] + [n[3]];
    RunAppend(steps, n[0]);
    RunAppend(s1, n[1]);
    RunAppend(s2, n[2]);
    RunAppend(s3, n[3]);
    RunAppend(s4, n[4]);
    assert s4 + [n[4]] == steps + n;
    assert Announcements(|requests|) + [Event(Accepted, |requests|)] == Announcements(|requests| + 1);
  }

  lemma LeaseRests()
    ensures RestsWith(Run([IssueLease]), [])
  {
    hide Run;
    assert [] + [IssueLease] == [IssueLease];
    EmptyRun();
    RunAppend([], IssueLease);
    assert Announcements(0) == [];
  }

  lemma {:induction false} NoEnds(n: nat, m: nat)
    ensures Ends(Announcements(n), m) == 0
  {
    if n > 0 {
      NoEnds(n - 1, m);
      assert Announcements(n) == Announcements(n - 1) + [Event(Accepted, n - 1)];
      EndsAppend(Announcements(n - 1), Event(Accepted, n - 1), m);
    }
  }

  /** A run to rest that accepts a motion under request zero, which can never end. */
  lemma ZeroRequestRun()
    ensures var steps := [IssueLease] + Accepting(0);
            && RestsWith(Run(steps), [0]) && Ends(Run(steps).events, 0) == 0
            && forall more :: !Ended(steps + more, 0)
  {
    var steps := [IssueLease] + Accepting(0);
    LeaseRests();
    AcceptingRests([IssueLease], [], 0);
    hide Run, Ends;
    NoEnds(1, 0);
    CanEndExactly(steps, 0);
  }

  /** A run to rest that accepts two motions in a row: the first one, under request 7, can never end. */
  lemma SupersededRun()
    ensures var steps := [IssueLease] + Accepting(7) + Accepting(8);
            && RestsWith(Run(steps), [7, 8]) && Ends(Run(steps).events, 0) == 0
            && forall more :: !Ended(steps + more, 0)
  {
    var steps := [IssueLease] + Accepting(7) + Accepting(8);
    LeaseRests();
    AcceptingRests([IssueLease], [], 7);
    AcceptingRests([IssueLease] + Accepting(7), [7], 8);
    hide Run, Ends;
    assert [7] + [8] == [7, 8];
    NoEnds(2, 0);
    CanEndExactly(steps, 0);
  }
}
