/** Opening commands, which name every gripper of the product at once (runtime/src/runtime_gripper.cpp). */
module GripperCommands {
  import opened Results
  import opened GripperProtection

  datatype Command = Command(motor: nat, opening: real, speed: real, level: nat)

  datatype CommandError = EmptyCommand | IncompleteCommand | InvalidCommand | NotAccepting

  function IndexOf(motors: seq<nat>, motor: nat): (i: Option<nat>)
    ensures i.Some? ==> i.value < |motors| && motors[i.value] == motor
    ensures i.Some? <==> motor in motors
  {
    if |motors| == 0 then None
    else if motors[|motors| - 1] == motor then Some(|motors| - 1)
    else IndexOf(motors[..|motors| - 1], motor)
  }

  /** The product's grippers: motor i is driven by record i. */
  class Grippers {
    const motors: seq<nat>
    const records: seq<MotorRecord>

    constructor (motors: seq<nat>, records: seq<MotorRecord>)
      requires |motors| == |records|
      requires forall i, k :: 0 <= i < k < |records| ==> records[i] != records[k] && motors[i] != motors[k]
      requires forall i :: 0 <= i < |records| ==> records[i].profile.Valid()
      ensures this.motors == motors && this.records == records && Valid()
    {
      this.motors, this.records := motors, records;
    }

    ghost predicate Valid() {
      && |motors| == |records|
      && (forall i, k :: 0 <= i < k < |records| ==> records[i] != records[k] && motors[i] != motors[k])
      && (forall i :: 0 <= i < |records| ==> records[i].profile.Valid())
    }

    /** The record a command is for. */
    function Target(command: Command): (i: nat)
      requires |motors| == |records| && command.motor in motors
      ensures i < |records| && motors[i] == command.motor
    {
      IndexOf(motors, command.motor).value
    }

    /** Command i names a gripper that none before it names, and asks for what that gripper can do. */
    predicate Accepts(commands: seq<Command>, i: nat)
      requires |motors| == |records| && i < |commands|
    {
      && commands[i].motor in motors
      && (forall k :: 0 <= k < i ==> commands[k].motor != commands[i].motor)
      && Acceptable(records[Target(commands[i])].profile, commands[i].opening, commands[i].speed, commands[i].level)
    }

    predicate AcceptsAll(commands: seq<Command>)
      requires |motors| == |records|
    {
      |commands| == |records| > 0 && forall i :: 0 <= i < |commands| ==> Accepts(commands, i)
    }

    /** What the first n commands make of gripper k. */
    function Outcome(commands: seq<Command>, mode: Mode, n: nat, k: nat, g: Gripper): Gripper
      requires |motors| == |records| && n <= |commands| && k < |records|
    {
      if n == 0 then g
      else
        var before, command := Outcome(commands, mode, n - 1, k, g), commands[n - 1];
        if command.motor != motors[k] then before
        else Targeted(records[k].profile, before, command.opening, command.speed, command.level, mode)
    }

    /** Check the commands without touching a gripper. */
    method CheckCommands(commands: seq<Command>) returns (error: Option<CommandError>)
      requires Valid()
      ensures error.None? <==> AcceptsAll(commands)
    {
      if |commands| == 0 {
        return Some(EmptyCommand);
      }
      if |commands| != |records| {
        return Some(IncompleteCommand);
      }
      var named := {};
      for i := 0 to |commands|
        invariant forall k :: 0 <= k < i ==> Accepts(commands, k) && commands[k].motor in named
        invariant forall motor :: motor in named ==> exists k :: 0 <= k < i && commands[k].motor == motor
      {
        var command := commands[i];
        if command.motor !in motors || command.motor in named {
          assert !Accepts(commands, i);
          return Some(InvalidCommand);
        }
        var profile := records[Target(command)].profile;
        if !Acceptable(profile, command.opening, command.speed, command.level) {
          assert !Accepts(commands, i);
          return Some(InvalidCommand);
        }
        named := named + {command.motor};
      }
      return None;
    }

    method ApplyCommand(commands: seq<Command>, mode: Mode, i: nat)
      requires Valid() && i < |commands| && Accepts(commands, i)
      modifies records[Target(commands[i])]
      ensures forall k :: 0 <= k < |records| ==>
                records[k].Value() == if commands[i].motor != motors[k] then old(records[k].Value())
                                      else Targeted(records[k].profile, old(records[k].Value()), commands[i].opening,
                                                    commands[i].speed, commands[i].level, mode)
    {
      var record := records[Target(commands[i])];
      var applied := record.SetOpening(commands[i].opening, commands[i].speed, commands[i].level, mode);
      hide Targeted, Acceptable;
    }

    /** All commands are checked before the first one is applied. */
    method SetOpenings(commands: seq<Command>, mode: Mode, accepting: bool) returns (r: Result<(), CommandError>)
      requires Valid()
      modifies records
      ensures r.Success? <==> AcceptsAll(commands) && accepting
      ensures forall k :: 0 <= k < |records| ==>
                records[k].Value() == if r.Failure? then old(records[k].Value())
                                      else Outcome(commands, mode, |commands|, k, old(records[k].Value()))
    {
      hide Targeted, Acceptable, Target;
      var error := CheckCommands(commands);
      if error.Some? {
        return Failure(error.value);
      }
      if !accepting {
        return Failure(NotAccepting);
      }
      for i := 0 to |commands|
        invariant forall k :: 0 <= k < |records| ==>
                    records[k].Value() == Outcome(commands, mode, i, k, old(records[k].Value()))
      {
        assert Accepts(commands, i);
        ApplyCommand(commands, mode, i);
      }
      return Success(());
    }

    /** The motors of the first n commands. */
    function Named(commands: seq<Command>, n: nat): set<nat>
      requires n <= |commands|
    {
      set i | 0 <= i < n :: commands[i].motor
    }

    lemma {:induction false} NamedCount(commands: seq<Command>, n: nat)
      requires Valid() && n <= |commands| && forall i :: 0 <= i < n ==> Accepts(commands, i)
      ensures |Named(commands, n)| == n && forall motor :: motor in Named(commands, n) ==> motor in motors
    {
      hide Acceptable, Target;
      if n > 0 {
        NamedCount(commands, n - 1);
        assert Accepts(commands, n - 1);
        assert commands[n - 1].motor !in Named(commands, n - 1);
        assert Named(commands, n) == Named(commands, n - 1) + {commands[n - 1].motor};
      }
    }

    /** The command asks for what its gripper can do. */
    predicate Possible(command: Command)
      requires |motors| == |records|
    {
      command.motor in motors
      && Acceptable(records[Target(command)].profile, command.opening, command.speed, command.level)
    }

    /** Commands are accepted exactly if there are as many as grippers, every gripper is named, and each command asks
        for what its gripper can do: none is then named twice. */
    lemma AcceptedExactly(commands: seq<Command>)
      requires Valid()
      ensures AcceptsAll(commands)
         <==> && 0 < |commands| == |motors|
              && (forall k :: 0 <= k < |motors| ==> motors[k] in Named(commands, |commands|))
              && forall i :: 0 <= i < |commands| ==> Possible(commands[i])
    {
      hide Acceptable, Target;
      if AcceptsAll(commands) {
        NamedCount(commands, |commands|);
        AllNamed(Named(commands, |commands|), motors);
        forall i | 0 <= i < |commands| ensures Possible(commands[i]) {
          assert Accepts(commands, i);
        }
      }
      if && 0 < |commands| == |motors|
         && (forall k :: 0 <= k < |motors| ==> motors[k] in Named(commands, |commands|))
         && forall i :: 0 <= i < |commands| ==> Possible(commands[i])
      {
        forall i | 0 <= i < |commands| ensures Accepts(commands, i) {
          assert Possible(commands[i]);
          forall k | 0 <= k < i ensures commands[k].motor != commands[i].motor {
            NamedOnce(commands, k, i);
          }
        }
      }
    }

    /** As many commands as grippers, which name them all, name none twice. */
    lemma NamedOnce(commands: seq<Command>, j: nat, i: nat)
      requires Valid() && |commands| == |motors| && j < i < |commands|
      requires forall k :: 0 <= k < |motors| ==> motors[k] in Named(commands, |commands|)
      ensures commands[j].motor != commands[i].motor
    {
      if commands[j].motor == commands[i].motor {
        var others := commands[..i] + commands[i + 1..];
        forall k | 0 <= k < |motors| ensures motors[k] in Named(others, |others|) {
          var c :| 0 <= c < |commands| && commands[c].motor == motors[k];
          var o := if c < i then c else if c == i then j else c - 1;
          assert others[o].motor == motors[k];
        }
        TooFew(Named(others, |others|), motors);
        NamedAtMost(others, |others|);
      }
    }

    lemma {:induction false} NamedAtMost(commands: seq<Command>, n: nat)
      requires n <= |commands|
      ensures |Named(commands, n)| <= n
    {
      if n > 0 {
        NamedAtMost(commands, n - 1);
        assert Named(commands, n) == Named(commands, n - 1) + {commands[n - 1].motor};
      }
    }

    /** What the commands leave of a gripper is what the one that names it asks for. */
    lemma {:induction false} OutcomeOf(commands: seq<Command>, mode: Mode, n: nat, i: nat, k: nat, g: Gripper)
      requires Valid() && n <= |commands| && k < |records| && forall j :: 0 <= j < n ==> Accepts(commands, j)
      requires i < |commands| && commands[i].motor == motors[k]
      ensures i < n ==>
                Outcome(commands, mode, n, k, g)
                == Targeted(records[k].profile, g, commands[i].opening, commands[i].speed, commands[i].level, mode)
      ensures n <= i && Accepts(commands, i) ==> Outcome(commands, mode, n, k, g) == g
    {
      hide Acceptable, Target, Targeted;
      if n > 0 {
        assert Accepts(commands, n - 1);
        OutcomeOf(commands, mode, n - 1, i, k, g);
      }
    }

    /** Accepted commands give every gripper the target that exactly one of them asks for. */
    lemma EveryGripperTargeted(commands: seq<Command>, mode: Mode, k: nat, g: Gripper) returns (i: nat)
      requires Valid() && AcceptsAll(commands) && k < |records|
      ensures i < |commands| && commands[i].motor == motors[k]
      ensures forall j :: 0 <= j < |commands| && commands[j].motor == motors[k] ==> j == i
      ensures Outcome(commands, mode, |commands|, k, g)
           == Targeted(records[k].profile, g, commands[i].opening, commands[i].speed, commands[i].level, mode)
    {
      hide Acceptable, Target, Targeted;
      NamedCount(commands, |commands|);
      AllNamed(Named(commands, |commands|), motors);
      i :| 0 <= i < |commands| && commands[i].motor == motors[k];
      forall j | 0 <= j < |commands| && commands[j].motor == motors[k] ensures j == i {
        assert Accepts(commands, j) && Accepts(commands, i);
      }
      OutcomeOf(commands, mode, |commands|, i, k, g);
    }
  }

  /** As many different motors as there are name them all. */
  lemma {:induction false} AllNamed(named: set<nat>, motors: seq<nat>)
    requires |motors| <= |named| && forall motor :: motor in named ==> motor in motors
    ensures forall k :: 0 <= k < |motors| ==> motors[k] in named
  {
    if |motors| > 0 {
      var last, rest := motors[|motors| - 1], motors[..|motors| - 1];
      assert motors == rest + [last];
      if last in rest {
        TooMany(named, rest);
      } else {
        if last !in named {
          TooMany(named, rest);
        }
        AllNamed(named - {last}, rest);
      }
    }
  }

  lemma {:induction false} TooFew(named: set<nat>, motors: seq<nat>)
    requires forall k :: 0 <= k < |motors| ==> motors[k] in named
    requires forall i, k :: 0 <= i < k < |motors| ==> motors[i] != motors[k]
    ensures |motors| <= |named|
  {
    if |motors| > 0 {
      TooFew(named - {motors[|motors| - 1]}, motors[..|motors| - 1]);
    }
  }

  lemma {:induction false} TooMany(named: set<nat>, motors: seq<nat>)
    requires forall motor :: motor in named ==> motor in motors
    ensures |named| <= |motors|
  {
    if |motors| > 0 {
      var last, rest := motors[|motors| - 1], motors[..|motors| - 1];
      assert motors == rest + [last];
      TooMany(named - {last}, rest);
    }
  }
}
