/** Motor discovery on one controller: an all-or-nothing transaction over the motor table
    (motor/src/runtime.cpp). */
module Discovery {
  import opened Results

  const MAX_RETRIES: nat := 10

  datatype Policy = Required | Optional | Disabled

  datatype Candidate = Candidate(role: string, model: string, motorId: nat, feedbackId: nat, policy: Policy)

  /** What asking a candidate for feedback once leads to; a broken transport raises. */
  datatype Reply = Silent | WrongIdentity | Confirmed | Broken

  /** The reply of the i-th candidate on the a-th attempt. */
  type Replies = (nat, nat) -> Reply

  datatype DiscoveryError =
    | TimeoutNotPositive | TooManyRetries
    | EmptyRole | DuplicateRole | EmptyModel | DuplicateMotorId | DuplicateFeedbackId
    | AlreadyFinalized | TableNotEmpty | PollingFailed | TransportFailed | MissingRequired(missing: seq<nat>)

  /** What is reported about a candidate, and its motor, named by the candidate's index. */
  datatype Row = Row(candidate: Candidate, present: bool, motor: Option<nat>)

  // ---------- Candidates ----------

  predicate Active(candidates: seq<Candidate>, i: nat) {
    i < |candidates| && candidates[i].policy != Disabled
  }

  predicate IsRequired(candidates: seq<Candidate>, i: nat) {
    i < |candidates| && candidates[i].policy == Required
  }

  predicate RoleRepeated(candidates: seq<Candidate>, k: nat)
    requires k < |candidates|
  {
    exists i :: 0 <= i < k && candidates[i].role == candidates[k].role
  }

  predicate MotorIdRepeated(candidates: seq<Candidate>, k: nat)
    requires k < |candidates|
  {
    exists i: nat :: i < k && Active(candidates, i) && candidates[i].motorId == candidates[k].motorId
  }

  predicate FeedbackIdRepeated(candidates: seq<Candidate>, k: nat)
    requires k < |candidates|
  {
    exists i: nat :: i < k && Active(candidates, i) && candidates[i].feedbackId == candidates[k].feedbackId
  }

  function CandidateError(candidates: seq<Candidate>, k: nat): Option<DiscoveryError>
    requires k < |candidates|
  {
    var c := candidates[k];
    if c.role == "" then Some(EmptyRole)
    else if RoleRepeated(candidates, k) then Some(DuplicateRole)
    else if c.policy == Disabled then None
    else if c.model == "" then Some(EmptyModel)
    else if MotorIdRepeated(candidates, k) then Some(DuplicateMotorId)
    else if FeedbackIdRepeated(candidates, k) then Some(DuplicateFeedbackId)
    else None
  }

  function ValidationErrorFrom(candidates: seq<Candidate>, k: nat): (error: Option<DiscoveryError>)
    requires k <= |candidates|
    ensures error.None? ==> forall i :: k <= i < |candidates| ==> CandidateError(candidates, i).None?
    decreases |candidates| - k
  {
    if k == |candidates| then None
    else if CandidateError(candidates, k).Some? then CandidateError(candidates, k)
    else ValidationErrorFrom(candidates, k + 1)
  }

  /** Every candidate has a role of its own, and every active one a model and, among the active ones, a motor and a
      feedback number of its own. */
  ghost predicate Distinct(candidates: seq<Candidate>, n: nat)
    requires n <= |candidates|
  {
    && (forall i :: 0 <= i < n ==> candidates[i].role != "")
    && (forall i, k :: 0 <= i < k < n ==> candidates[i].role != candidates[k].role)
    && (forall i :: 0 <= i < n && candidates[i].policy != Disabled ==> candidates[i].model != "")
    && (forall i, k :: 0 <= i < k < n && candidates[i].policy != Disabled && candidates[k].policy != Disabled ==>
          candidates[i].motorId != candidates[k].motorId && candidates[i].feedbackId != candidates[k].feedbackId)
  }

  /** The candidates are valid exactly if they are distinct in this way. */
  lemma {:induction false} ValidExactly(candidates: seq<Candidate>, k: nat)
    requires k <= |candidates| && Distinct(candidates, k)
    ensures ValidationErrorFrom(candidates, k).None? <==> Distinct(candidates, |candidates|)
    decreases |candidates| - k
  {
    if k < |candidates| {
      NextDistinct(candidates, k);
      hide Distinct, CandidateError;
      if CandidateError(candidates, k).None? {
        ValidExactly(candidates, k + 1);
      } else {
        NotDistinct(candidates, k + 1);
      }
    }
  }

  lemma NextDistinct(candidates: seq<Candidate>, k: nat)
    requires k < |candidates| && Distinct(candidates, k)
    ensures CandidateError(candidates, k).None? <==> Distinct(candidates, k + 1)
  {
    assert MotorIdRepeated(candidates, k)
      <==> exists i: nat :: i < k && Active(candidates, i) && candidates[i].motorId == candidates[k].motorId;
    assert FeedbackIdRepeated(candidates, k)
      <==> exists i: nat :: i < k && Active(candidates, i) && candidates[i].feedbackId == candidates[k].feedbackId;
    assert forall i: nat :: i < k ==> (Active(candidates, i) <==> candidates[i].policy != Disabled);
  }

  lemma NotDistinct(candidates: seq<Candidate>, n: nat)
    requires n <= |candidates| && !Distinct(candidates, n)
    ensures !Distinct(candidates, |candidates|)
  {
  }

  method Validate(candidates: seq<Candidate>) returns (error: Option<DiscoveryError>)
    ensures error == ValidationErrorFrom(candidates, 0)
  {
    var roles: set<string>, motorIds: set<nat>, feedbackIds: set<nat> := {}, {}, {};
    for k := 0 to |candidates|
      invariant ValidationErrorFrom(candidates, k) == ValidationErrorFrom(candidates, 0)
      invariant roles == set i | 0 <= i < k :: candidates[i].role
      invariant motorIds == set i: nat | i < k && Active(candidates, i) :: candidates[i].motorId
      invariant feedbackIds == set i: nat | i < k && Active(candidates, i) :: candidates[i].feedbackId
    {
      var c := candidates[k];
      if c.role == "" {
        return Some(EmptyRole);
      }
      if c.role in roles {
        return Some(DuplicateRole);
      }
      roles := roles + {c.role};
      if c.policy == Disabled {
        continue;
      }
      if c.model == "" {
        return Some(EmptyModel);
      }
      if c.motorId in motorIds {
        return Some(DuplicateMotorId);
      }
      motorIds := motorIds + {c.motorId};
      if c.feedbackId in feedbackIds {
        return Some(DuplicateFeedbackId);
      }
      feedbackIds := feedbackIds + {c.feedbackId};
    }
    return None;
  }

  // ---------- Presence ----------

  /** The candidate has confirmed its identity on one of the first n attempts. */
  predicate ConfirmedBefore(candidates: seq<Candidate>, replies: Replies, i: nat, n: nat) {
    Active(candidates, i) && exists a: nat :: a < n && replies(i, a) == Confirmed
  }

  predicate PendingAt(candidates: seq<Candidate>, replies: Replies, i: nat, n: nat) {
    Active(candidates, i) && !ConfirmedBefore(candidates, replies, i, n)
  }

  /** On the a-th attempt the transport breaks under a candidate still waited for. */
  predicate BreaksAt(candidates: seq<Candidate>, replies: Replies, a: nat) {
    exists i: nat :: i < |candidates| && PendingAt(candidates, replies, i, a) && replies(i, a) == Broken
  }

  predicate BreaksBefore(candidates: seq<Candidate>, replies: Replies, n: nat) {
    exists a: nat :: a < n && BreaksAt(candidates, replies, a)
  }

  function ActiveOnes(candidates: seq<Candidate>): set<nat> {
    set i: nat | i < |candidates| && Active(candidates, i)
  }

  ghost function ConfirmedOnes(candidates: seq<Candidate>, replies: Replies, n: nat): set<nat> {
    set i: nat | i < |candidates| && ConfirmedBefore(candidates, replies, i, n)
  }

  /** The table that holds exactly the motors of the picked candidates. */
  ghost predicate TableIs(table: map<nat, nat>, candidates: seq<Candidate>, picked: set<nat>) {
    && (forall i :: i in picked ==>
          i < |candidates| && candidates[i].motorId in table && table[candidates[i].motorId] == i)
    && (forall id :: id in table ==> table[id] in picked && candidates[table[id]].motorId == id)
  }

  lemma TableAdd(table: map<nat, nat>, candidates: seq<Candidate>, picked: set<nat>, i: nat)
    requires TableIs(table, candidates, picked) && i < |candidates|
    requires forall k :: k in picked ==> candidates[k].motorId != candidates[i].motorId
    ensures TableIs(table[candidates[i].motorId := i], candidates, picked + {i})
  {
  }

  lemma TableRemove(table: map<nat, nat>, candidates: seq<Candidate>, picked: set<nat>, i: nat)
    requires TableIs(table, candidates, picked) && i in picked
    requires forall k :: k in picked && k != i ==> candidates[k].motorId != candidates[i].motorId
    ensures TableIs(table - {candidates[i].motorId}, candidates, picked - {i})
  {
  }

  lemma DistinctMotorIds(candidates: seq<Candidate>, i: nat, k: nat)
    requires ValidationErrorFrom(candidates, 0).None?
    requires Active(candidates, i) && Active(candidates, k) && i != k
    ensures candidates[i].motorId != candidates[k].motorId
  {
    var later: nat := if i < k then k else i;
    assert CandidateError(candidates, later).None?;
    assert !MotorIdRepeated(candidates, later);
  }

  /** What a call gives back, and when. */
  ghost predicate Succeeds(candidates: seq<Candidate>, timeout: int, retries: nat, replies: Replies,
                           pollingStarts: bool, table: map<nat, nat>, finalized: bool) {
    && 0 < timeout && retries <= MAX_RETRIES && ValidationErrorFrom(candidates, 0).None?
    && !finalized && |table| == 0
    && (pollingStarts || forall i: nat :: !Active(candidates, i))
    && !BreaksBefore(candidates, replies, retries + 1)
    && forall i: nat :: Active(candidates, i) && candidates[i].policy == Required ==>
         ConfirmedBefore(candidates, replies, i, retries + 1)
  }

  class Controller {
    var motors: map<nat, nat>
    var finalized: bool

    constructor ()
      ensures motors == map[] && !finalized
    {
      motors, finalized := map[], false;
    }

    /** Discovery either succeeds, with exactly the confirmed candidates in the table and the table
        closed, or leaves the controller exactly as it was. */
    method Discover(candidates: seq<Candidate>, timeout: int, retries: nat, replies: Replies, pollingStarts: bool)
      returns (r: Result<seq<Row>, DiscoveryError>)
      modifies this
      ensures r.Success? <==>
                Succeeds(candidates, timeout, retries, replies, pollingStarts, old(motors), old(finalized))
      ensures r.Failure? ==> motors == old(motors) && finalized == old(finalized)
      ensures r.Success? ==>
                && finalized
                && TableIs(motors, candidates, ConfirmedOnes(candidates, replies, retries + 1))
                && Reported(candidates, replies, r.value, retries + 1)
    {
      hide TableIs, ValidationErrorFrom;
      if timeout <= 0 {
        return Failure(TimeoutNotPositive);
      }
      if retries > MAX_RETRIES {
        return Failure(TooManyRetries);
      }
      var invalid := Validate(candidates);
      if invalid.Some? {
        return Failure(invalid.value);
      }
      if finalized {
        return Failure(AlreadyFinalized);
      }
      if |motors| != 0 {
        return Failure(TableNotEmpty);
      }
      assert motors == map[];
      var results, pending := AddCandidates(candidates);
      assert Waiting(candidates, replies, pending, 0) && Tracked(candidates, replies, results, 0);
      if |pending| != 0 && !pollingStarts {
        assert pending[0] in pending && Active(candidates, pending[0]);
        Rollback(candidates);
        return Failure(PollingFailed);
      }
      if |pending| == 0 {
        forall i: nat ensures !Active(candidates, i) {
          assert i !in pending;
        }
      }
      var attempt := 0;
      while attempt <= retries && |pending| != 0
        invariant attempt <= retries + 1 && Waiting(candidates, replies, pending, attempt)
        invariant Tracked(candidates, replies, results, attempt)
        invariant TableIs(motors, candidates, ActiveOnes(candidates)) && !finalized
        invariant !BreaksBefore(candidates, replies, attempt)
        decreases retries + 1 - attempt
      {
        var broken, results', pending' := Attempt(candidates, replies, results, pending, attempt);
        if broken {
          assert BreaksBefore(candidates, replies, retries + 1);
          Rollback(candidates);
          return Failure(TransportFailed);
        }
        results, pending, attempt := results', pending', attempt + 1;
      }
      NobodyLeft(candidates, replies, pending, attempt, retries + 1);
      assert ConfirmedOnes(candidates, replies, attempt) == ConfirmedOnes(candidates, replies, retries + 1);
      var missing: seq<nat>;
      missing, results := DropAbsent(candidates, replies, results, pending, attempt);
      if |missing| != 0 {
        assert missing[0] in missing && !ConfirmedBefore(candidates, replies, missing[0], retries + 1);
        Rollback(candidates);
        return Failure(MissingRequired(missing));
      }
      forall i: nat | IsRequired(candidates, i) ensures ConfirmedBefore(candidates, replies, i, retries + 1) {
        assert results[i].present;
      }
      finalized := true;
      return Success(results);
    }

    /** Every active candidate gets a motor in the table and is waited for. */
    method AddCandidates(candidates: seq<Candidate>) returns (results: seq<Row>, pending: seq<nat>)
      requires motors == map[] && ValidationErrorFrom(candidates, 0).None?
      modifies `motors
      ensures TableIs(motors, candidates, ActiveOnes(candidates))
      ensures forall replies :: Waiting(candidates, replies, pending, 0) && Tracked(candidates, replies, results, 0)
    {
      hide TableIs, ValidationErrorFrom;
      results, pending := [], [];
      ghost var picked: set<nat> := {};
      EmptyTable(candidates);
      for i := 0 to |candidates|
        invariant |results| == i
        invariant forall k: nat :: k < i ==>
                    results[k] == Row(candidates[k], false, if Active(candidates, k) then Some(k) else None)
        invariant forall k: nat :: k in pending <==> k in picked
        invariant forall k, l :: 0 <= k < l < |pending| ==> pending[k] < pending[l]
        invariant forall k: nat :: k in picked <==> k < i && Active(candidates, k)
        invariant TableIs(motors, candidates, picked)
      {
        if candidates[i].policy == Disabled {
          results := results + [Row(candidates[i], false, None)];
        } else {
          forall k | k in picked ensures candidates[k].motorId != candidates[i].motorId {
            DistinctMotorIds(candidates, k, i);
          }
          TableAdd(motors, candidates, picked, i);
          motors := motors[candidates[i].motorId := i];
          picked := picked + {i};
          assert forall k :: 0 <= k < |pending| ==> pending[k] in pending;
          pending := pending + [i];
          results := results + [Row(candidates[i], false, Some(i))];
        }
      }
      assert picked == ActiveOnes(candidates);
    }

    /** Candidates that never confirmed lose their motor, unless they were required. */
    method DropAbsent(candidates: seq<Candidate>, ghost replies: Replies, results: seq<Row>, pending: seq<nat>,
                      ghost n: nat)
      returns (missing: seq<nat>, results': seq<Row>)
      requires ValidationErrorFrom(candidates, 0).None?
      requires Waiting(candidates, replies, pending, n) && Tracked(candidates, replies, results, n)
      requires TableIs(motors, candidates, ActiveOnes(candidates))
      modifies `motors
      ensures forall i: nat :: i in missing <==> i in pending && IsRequired(candidates, i)
      ensures exists picked :: picked <= ActiveOnes(candidates) && TableIs(motors, candidates, picked)
      ensures |missing| == 0 ==> TableIs(motors, candidates, ConfirmedOnes(candidates, replies, n))
      ensures |missing| == 0 ==> Reported(candidates, replies, results', n)
    {
      hide TableIs, ValidationErrorFrom;
      missing, results' := [], results;
      ghost var picked := ActiveOnes(candidates);
      for p := 0 to |pending|
        invariant forall i: nat :: i in missing <==> i in pending[..p] && IsRequired(candidates, i)
        invariant |results'| == |candidates|
        invariant forall i: nat :: i < |candidates| ==>
                    results'[i] == if i in picked then results[i] else results[i].(motor := None)
        invariant forall i: nat :: i in picked <==>
                    Active(candidates, i) && (i in pending[..p] ==> IsRequired(candidates, i))
        invariant TableIs(motors, candidates, picked)
      {
        var index := pending[p];
        assert PendingAt(candidates, replies, index, n);
        assert index !in pending[..p];
        assert pending[..p + 1] == pending[..p] + [index];
        if candidates[index].policy == Required {
          missing := missing + [index];
        } else {
          forall k | k in picked && k != index ensures candidates[k].motorId != candidates[index].motorId {
            DistinctMotorIds(candidates, k, index);
          }
          TableRemove(motors, candidates, picked, index);
          motors := motors - {candidates[index].motorId};
          picked := picked - {index};
          results' := results'[index := results'[index].(motor := None)];
        }
      }
      assert pending[..|pending|] == pending;
      assert picked <= ActiveOnes(candidates);
      if |missing| == 0 {
        assert forall i: nat :: i in pending ==> i !in missing;
        assert picked == ConfirmedOnes(candidates, replies, n);
      }
    }

    /** Erase every candidate's motor again. */
    method Rollback(candidates: seq<Candidate>)
      requires exists picked :: picked <= ActiveOnes(candidates) && TableIs(motors, candidates, picked)
      modifies `motors
      ensures motors == map[]
    {
      for i := 0 to |candidates|
        invariant forall id :: id in motors ==>
                    i <= motors[id] < |candidates| && Active(candidates, motors[id]) && candidates[motors[id]].motorId == id
      {
        if candidates[i].policy != Disabled {
          motors := motors - {candidates[i].motorId};
        }
      }
      assert forall id :: id !in motors;
    }
  }

  /** The indices still waited for after n attempts, in order. */
  ghost predicate Waiting(candidates: seq<Candidate>, replies: Replies, pending: seq<nat>, n: nat) {
    && (forall i: nat :: i in pending <==> PendingAt(candidates, replies, i, n))
    && (forall i, k :: 0 <= i < k < |pending| ==> pending[i] < pending[k])
  }

  /** The rows after n attempts. */
  ghost predicate Tracked(candidates: seq<Candidate>, replies: Replies, results: seq<Row>, n: nat) {
    && |results| == |candidates|
    && forall i: nat :: i < |candidates| ==>
         results[i] == Row(candidates[i], ConfirmedBefore(candidates, replies, i, n),
                           if Active(candidates, i) then Some(i) else None)
  }

  /** Exactly the confirmed candidates, among them all required ones, are present with their motor. */
  ghost predicate Reported(candidates: seq<Candidate>, replies: Replies, results: seq<Row>, n: nat) {
    && |results| == |candidates|
    && forall i: nat :: i < |candidates| ==>
         var present := ConfirmedBefore(candidates, replies, i, n);
         && results[i] == Row(candidates[i], present, if present then Some(i) else None)
         && (candidates[i].policy == Required ==> present)
  }

  lemma EmptyTable(candidates: seq<Candidate>)
    ensures TableIs(map[], candidates, {})
  {
  }

  lemma ConfirmedNext(candidates: seq<Candidate>, replies: Replies, i: nat, n: nat)
    ensures ConfirmedBefore(candidates, replies, i, n + 1)
        <==> ConfirmedBefore(candidates, replies, i, n) || (Active(candidates, i) && replies(i, n) == Confirmed)
  {
    if ConfirmedBefore(candidates, replies, i, n + 1) {
      var a: nat :| a < n + 1 && replies(i, a) == Confirmed;
      assert a < n || a == n;
    }
  }

  /** Once nobody is waited for, further attempts change nothing. */
  lemma NobodyLeft(candidates: seq<Candidate>, replies: Replies, pending: seq<nat>, n: nat, m: nat)
    requires Waiting(candidates, replies, pending, n) && n <= m && (|pending| == 0 || n == m)
    requires !BreaksBefore(candidates, replies, n)
    ensures !BreaksBefore(candidates, replies, m)
    ensures forall i: nat :: ConfirmedBefore(candidates, replies, i, n) == ConfirmedBefore(candidates, replies, i, m)
  {
    if |pending| == 0 {
      forall i: nat, k: nat | n <= k && Active(candidates, i) ensures ConfirmedBefore(candidates, replies, i, k) {
        assert i !in pending && !PendingAt(candidates, replies, i, n);
      }
      forall a: nat | n <= a ensures !BreaksAt(candidates, replies, a) {
        assert forall i: nat :: !PendingAt(candidates, replies, i, a);
      }
    }
  }

  /** One round: ask everybody still waited for, then look at the answers. */
  method Attempt(candidates: seq<Candidate>, replies: Replies, results: seq<Row>, pending: seq<nat>, attempt: nat)
    returns (broken: bool, results': seq<Row>, pending': seq<nat>)
    requires Waiting(candidates, replies, pending, attempt) && Tracked(candidates, replies, results, attempt)
    ensures broken == BreaksAt(candidates, replies, attempt)
    ensures !broken ==> Waiting(candidates, replies, pending', attempt + 1)
    ensures !broken ==> Tracked(candidates, replies, results', attempt + 1)
  {
    broken, results', pending' := false, results, [];
    for p := 0 to |pending|
      invariant |results'| == |candidates|
      invariant forall q :: 0 <= q < p ==> replies(pending[q], attempt) != Broken
      invariant forall i: nat :: i < |candidates| ==>
                  results'[i] == if i in pending[..p] && replies(i, attempt) == Confirmed
                                 then results[i].(present := true) else results[i]
      invariant forall i: nat :: i in pending' <==> i in pending[..p] && replies(i, attempt) != Confirmed
      invariant forall i, k :: 0 <= i < k < |pending'| ==> pending'[i] < pending'[k]
      invariant forall k :: 0 <= k < |pending'| ==> exists q :: 0 <= q < p && pending[q] == pending'[k]
    {
      var index := pending[p];
      assert PendingAt(candidates, replies, index, attempt);
      assert pending[..p + 1] == pending[..p] + [index];
      if replies(index, attempt) == Broken {
        broken := true;
        return;
      }
      if replies(index, attempt) != Confirmed {
        pending' := pending' + [index];
        continue;
      }
      results' := results'[index := results'[index].(present := true)];
    }
    assert pending[..|pending|] == pending;
    forall i: nat ensures
        ConfirmedBefore(candidates, replies, i, attempt + 1)
        == (ConfirmedBefore(candidates, replies, i, attempt) || (Active(candidates, i) && replies(i, attempt) == Confirmed))
    {
      ConfirmedNext(candidates, replies, i, attempt);
    }
  }
}
