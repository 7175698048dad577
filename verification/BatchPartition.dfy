/** Splitting a batch of motor commands among the controllers of a group
    (motor/src/runtime.cpp). */
module BatchPartition {
  import opened Results

  const MAX_BATCH: nat := 32

  /** A command for a motor; a null handle has no motor. */
  datatype Command = Command(motor: Option<nat>, payload: int)

  datatype PartitionError = BatchTooLarge | NullMotor | DuplicateMotor | ControllerBatchFull | ForeignMotor

  /** Whether the i-th controller owns a motor. */
  type Ownership = (nat, nat) -> bool

  /** The first of n controllers, from the i-th on, that owns a motor. */
  function OwnerFrom(owns: Ownership, n: nat, motor: nat, i: nat): (owner: Option<nat>)
    requires i <= n
    ensures owner.Some? ==> i <= owner.value < n && owns(owner.value, motor)
    ensures forall k :: i <= k < (if owner.Some? then owner.value else n) ==> !owns(k, motor)
    decreases n - i
  {
    if i == n then None else if owns(i, motor) then Some(i) else OwnerFrom(owns, n, motor, i + 1)
  }

  /** The controller a command goes to. */
  function Owner(owns: Ownership, n: nat, c: Command): (owner: Option<nat>)
    ensures owner.Some? ==> owner.value < n
  {
    if c.motor.None? then None else OwnerFrom(owns, n, c.motor.value, 0)
  }

  /** The commands that go to controller i, in the order they were submitted. */
  function Share(owns: Ownership, n: nat, commands: seq<Command>, i: nat): (share: seq<Command>)
    ensures |share| <= |commands|
  {
    if |commands| == 0 then []
    else
      var c := commands[|commands| - 1];
      var share := Share(owns, n, commands[..|commands| - 1], i);
      if Owner(owns, n, c) == Some(i) then share + [c] else share
  }

  function Shares(owns: Ownership, n: nat, commands: seq<Command>): (shares: seq<seq<Command>>)
    ensures |shares| == n
  {
    seq(n, i requires 0 <= i < n => Share(owns, n, commands, i))
  }

  predicate Repeats(commands: seq<Command>, k: nat)
    requires k < |commands|
  {
    exists i :: 0 <= i < k && commands[i].motor == commands[k].motor
  }

  /** What is wrong with command k, given that everything before it was fine. */
  function CommandError(owns: Ownership, n: nat, commands: seq<Command>, k: nat): Option<PartitionError>
    requires k < |commands|
  {
    if commands[k].motor.None? then Some(NullMotor)
    else if Repeats(commands, k) then Some(DuplicateMotor)
    else if Owner(owns, n, commands[k]).None? then Some(ForeignMotor)
    else None
  }

  /** How many commands are assigned before the first error, or all of them. */
  function GoodFrom(owns: Ownership, n: nat, commands: seq<Command>, k: nat): (good: nat)
    requires k <= |commands|
    ensures k <= good <= |commands|
    ensures forall j :: k <= j < good ==> CommandError(owns, n, commands, j).None?
    ensures good < |commands| ==> CommandError(owns, n, commands, good).Some?
    decreases |commands| - k
  {
    if k == |commands| || CommandError(owns, n, commands, k).Some? then k
    else GoodFrom(owns, n, commands, k + 1)
  }

  /** The batches a partition leaves, and its error if it fails. */
  function Partition(owns: Ownership, n: nat, commands: seq<Command>): (seq<seq<Command>>, Option<PartitionError>) {
    if MAX_BATCH < |commands| then (Shares(owns, n, []), Some(BatchTooLarge))
    else
      var good := GoodFrom(owns, n, commands, 0);
      (Shares(owns, n, commands[..good]),
       if good < |commands| then CommandError(owns, n, commands, good) else None)
  }

  lemma NoShares(owns: Ownership, n: nat)
    ensures Shares(owns, n, []) == seq(n, _ => [])
  {
  }

  method FindOwner(owns: Ownership, n: nat, motor: nat) returns (owner: Option<nat>)
    ensures owner == OwnerFrom(owns, n, motor, 0)
  {
    for i := 0 to n
      invariant OwnerFrom(owns, n, motor, i) == OwnerFrom(owns, n, motor, 0)
    {
      if owns(i, motor) {
        return Some(i);
      }
    }
    return None;
  }

  method PartitionInto(owns: Ownership, commands: seq<Command>, batches: array<seq<Command>>)
    returns (error: Option<PartitionError>)
    requires forall i :: 0 <= i < batches.Length ==> batches[i] == []
    modifies batches
    ensures (batches[..], error) == Partition(owns, batches.Length, commands)
  {
    hide Owner, Share, OwnerFrom;
    ghost var n := batches.Length;
    assert batches[..] == Shares(owns, n, []) by { NoShares(owns, n); }
    if |commands| > MAX_BATCH {
      return Some(BatchTooLarge);
    }
    var unique: seq<nat> := [];
    for k := 0 to |commands|
      invariant batches[..] == Shares(owns, n, commands[..k])
      invariant |unique| == k && forall i :: 0 <= i < k ==> commands[i].motor == Some(unique[i])
      invariant GoodFrom(owns, n, commands, k) == GoodFrom(owns, n, commands, 0)
    {
      var command := commands[k];
      if command.motor.None? {
        return Some(NullMotor);
      }
      var motor := command.motor.value;
      for i := 0 to |unique|
        invariant forall j :: 0 <= j < i ==> unique[j] != motor
      {
        if unique[i] == motor {
          assert commands[i].motor == command.motor;
          return Some(DuplicateMotor);
        }
      }
      assert !Repeats(commands, k);
      unique := unique + [motor];
      var owner := FindOwner(owns, batches.Length, motor);
      assert owner == Owner(owns, n, command) by { OwnerOfMotor(owns, n, command); }
      if owner.None? {
        return Some(ForeignMotor);
      }
      var index := owner.value;
      assert |batches[..][index]| <= k;
      ghost var before := batches[..];
      if |batches[index]| >= MAX_BATCH {
        return Some(ControllerBatchFull);
      }
      batches[index] := batches[index] + [command];
      ShareAssigned(owns, n, commands, k, index);
      assert batches[..] == before[index := before[index] + [command]];
    }
    assert commands[..|commands|] == commands;
    return None;
  }

  lemma OwnerOfMotor(owns: Ownership, n: nat, c: Command)
    requires c.motor.Some?
    ensures Owner(owns, n, c) == OwnerFrom(owns, n, c.motor.value, 0)
  {
  }

  lemma ShareNext(owns: Ownership, n: nat, commands: seq<Command>, k: nat)
    requires k < |commands|
    ensures forall i: nat :: i < n ==>
              Shares(owns, n, commands[..k + 1])[i]
              == Shares(owns, n, commands[..k])[i] + (if Owner(owns, n, commands[k]) == Some(i) then [commands[k]] else [])
  {
    hide Owner;
    assert commands[..k + 1][..k] == commands[..k];
  }

  lemma ShareAssigned(owns: Ownership, n: nat, commands: seq<Command>, k: nat, i: nat)
    requires k < |commands| && Owner(owns, n, commands[k]) == Some(i)
    ensures i < n
    ensures Shares(owns, n, commands[..k + 1])
         == Shares(owns, n, commands[..k])[i := Shares(owns, n, commands[..k])[i] + [commands[k]]]
  {
    hide Owner, Share;
    ShareNext(owns, n, commands, k);
    var before, after := Shares(owns, n, commands[..k]), Shares(owns, n, commands[..k + 1]);
    assert forall j: nat :: j < n && j != i ==> after[j] == before[j] + [] == before[j];
  }

  // ---------- A partition neither loses, repeats nor reorders ----------

  /** The place command k takes in its owner's batch. */
  function PlaceOf(owns: Ownership, n: nat, commands: seq<Command>, k: nat, i: nat): nat
    requires k <= |commands|
  {
    |Share(owns, n, commands[..k], i)|
  }

  lemma {:induction false} ShareGrows(owns: Ownership, n: nat, commands: seq<Command>, k: nat, i: nat)
    requires k <= |commands|
    ensures Share(owns, n, commands[..k], i) <= Share(owns, n, commands, i)
    decreases |commands|
  {
    hide Owner;
    if k < |commands| {
      ShareGrows(owns, n, commands[..|commands| - 1], k, i);
      assert commands[..|commands| - 1][..k] == commands[..k];
    } else {
      assert commands[..k] == commands;
    }
  }

  /** Command k stands in its owner's batch, behind exactly the earlier commands of that owner. */
  lemma CommandDelivered(owns: Ownership, n: nat, commands: seq<Command>, k: nat)
    requires k < |commands| && Owner(owns, n, commands[k]).Some?
    ensures var i := Owner(owns, n, commands[k]).value;
            var place := PlaceOf(owns, n, commands, k, i);
            place < |Shares(owns, n, commands)[i]| && Shares(owns, n, commands)[i][place] == commands[k]
  {
    hide Owner;
    var i := Owner(owns, n, commands[k]).value;
    ShareGrows(owns, n, commands, k + 1, i);
    assert commands[..k + 1][..k] == commands[..k];
  }

  function TotalSize(shares: seq<seq<Command>>): nat {
    if |shares| == 0 then 0 else |shares[0]| + TotalSize(shares[1..])
  }

  lemma {:induction false} TotalGrows(before: seq<seq<Command>>, after: seq<seq<Command>>, i: nat, c: Command)
    requires |before| == |after| && i < |before| && after == before[i := before[i] + [c]]
    ensures TotalSize(after) == TotalSize(before) + 1
  {
    if i == 0 {
      assert after[1..] == before[1..];
    } else {
      assert after[1..] == before[1..][i - 1 := before[i] + [c]];
      TotalGrows(before[1..], after[1..], i - 1, c);
    }
  }

  lemma {:induction false} EmptyTotal(shares: seq<seq<Command>>)
    requires forall i :: 0 <= i < |shares| ==> shares[i] == []
    ensures TotalSize(shares) == 0
  {
    if |shares| > 0 {
      EmptyTotal(shares[1..]);
    }
  }

  lemma {:induction false} TotalOfOwned(owns: Ownership, n: nat, commands: seq<Command>)
    requires forall k :: 0 <= k < |commands| ==> Owner(owns, n, commands[k]).Some?
    ensures TotalSize(Shares(owns, n, commands)) == |commands|
  {
    hide Owner;
    if |commands| == 0 {
      EmptyTotal(Shares(owns, n, commands));
    } else {
      var k := |commands| - 1;
      TotalOfOwned(owns, n, commands[..k]);
      var i := Owner(owns, n, commands[k]).value;
      ShareAssigned(owns, n, commands, k, i);
      assert commands[..k + 1] == commands;
      TotalGrows(Shares(owns, n, commands[..k]), Shares(owns, n, commands), i, commands[k]);
    }
  }

  /** A partition succeeds exactly on a batch that fits and whose commands each name a motor, a
      different one, that some controller owns. Then every command stands once, with its first
      owner, in submission order, and there is nothing else. */
  lemma PartitionExact(owns: Ownership, n: nat, commands: seq<Command>)
    ensures Partition(owns, n, commands).1.None? <==>
              && |commands| <= MAX_BATCH
              && (forall k :: 0 <= k < |commands| ==> Owner(owns, n, commands[k]).Some? && !Repeats(commands, k))
    ensures Partition(owns, n, commands).1.None? ==>
              && Partition(owns, n, commands).0 == Shares(owns, n, commands)
              && TotalSize(Shares(owns, n, commands)) == |commands|
              && forall k: nat :: k < |commands| ==>
                   var i := Owner(owns, n, commands[k]).value;
                   var place := PlaceOf(owns, n, commands, k, i);
                   place < |Shares(owns, n, commands)[i]| && Shares(owns, n, commands)[i][place] == commands[k]
  {
    hide Share, OwnerFrom, PlaceOf;
    if Partition(owns, n, commands).1.None? {
      assert commands[..|commands|] == commands;
      forall k | 0 <= k < |commands| ensures Owner(owns, n, commands[k]).Some? && !Repeats(commands, k) {
        assert CommandError(owns, n, commands, k).None?;
      }
      TotalOfOwned(owns, n, commands);
      forall k: nat | k < |commands|
        ensures var i := Owner(owns, n, commands[k]).value;
                var place := PlaceOf(owns, n, commands, k, i);
                place < |Shares(owns, n, commands)[i]| && Shares(owns, n, commands)[i][place] == commands[k]
      {
        CommandDelivered(owns, n, commands, k);
      }
    } else if |commands| <= MAX_BATCH {
      var bad := GoodFrom(owns, n, commands, 0);
      assert CommandError(owns, n, commands, bad).Some?;
      assert Owner(owns, n, commands[bad]).None? || Repeats(commands, bad);
    }
  }

  /** Some controller owns the motor the command names. */
  predicate IsOwned(owns: Ownership, n: nat, command: Command) {
    command.motor.Some? && exists i :: 0 <= i < n && owns(i, command.motor.value)
  }

  predicate DifferentMotors(commands: seq<Command>) {
    forall j, k :: 0 <= j < k < |commands| ==> commands[j].motor != commands[k].motor
  }

  /** The batch can be split among the controllers. */
  predicate Splits(owns: Ownership, n: nat, commands: seq<Command>) {
    |commands| <= 32 && DifferentMotors(commands) && forall k :: 0 <= k < |commands| ==> IsOwned(owns, n, commands[k])
  }

  /** The owner of a command is the first controller that owns its motor. */
  lemma OwnerIsFirst(owns: Ownership, n: nat, command: Command)
    ensures Owner(owns, n, command).Some? <==> IsOwned(owns, n, command)
    ensures Owner(owns, n, command).Some? ==>
              && command.motor.Some? && owns(Owner(owns, n, command).value, command.motor.value)
              && forall c :: 0 <= c < Owner(owns, n, command).value ==> !owns(c, command.motor.value)
  {
    hide OwnerFrom;
  }

  /** In terms of the batch alone: it is accepted exactly if it has at most 32 commands, no two of them for one motor, and
      each for a motor that one of the controllers owns. */
  lemma PartitionAccepts(owns: Ownership, n: nat, commands: seq<Command>)
    ensures Partition(owns, n, commands).1.None? <==> Splits(owns, n, commands)
  {
    hide Share, Owner, PlaceOf, Partition, IsOwned;
    PartitionExact(owns, n, commands);
    forall k | 0 <= k < |commands| ensures Owner(owns, n, commands[k]).Some? <==> IsOwned(owns, n, commands[k]) {
      OwnerIsFirst(owns, n, commands[k]);
    }
    RepeatsExactly(commands);
    hide Repeats, DifferentMotors;
    assert DifferentMotors(commands) <==> forall k :: 0 <= k < |commands| ==> !Repeats(commands, k);
  }

  lemma RepeatsExactly(commands: seq<Command>)
    ensures DifferentMotors(commands) <==> forall k :: 0 <= k < |commands| ==> !Repeats(commands, k)
  {
    if forall k :: 0 <= k < |commands| ==> !Repeats(commands, k) {
      forall j, k | 0 <= j < k < |commands| ensures commands[j].motor != commands[k].motor {
        assert !Repeats(commands, k);
      }
    }
  }
}
