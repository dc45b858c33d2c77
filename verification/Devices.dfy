/**
 The device side of the saga: adapters as contracts.  A script fixes what every call
 does and answers: a block may be refused, half accepted or accepted unheard; the one
 promise (orchestrator/adapters.py) is that a checkpoint holds the running configuration
 and that a verified rollback leaves exactly the checkpoint's configuration.
 */
module Devices {
  import opened Basics
  import opened Planning
  import opened GatePlan
  import opened SagaLog

  /** A device's running configuration, opaque. */
  type Config = seq<string>

  /** `holds`: the verdict of a verification or gate; `after`: what a failed write left behind. */
  datatype DeviceReply = DeviceReply(answered: bool, holds: bool, after: Config)

  /** The calls from `from` up to, not including, `to` were answered, and their verdicts held. */
  ghost predicate AllHeld(script: nat -> DeviceReply, from: nat, to: nat) {
    forall t: nat {:trigger script(t)} :: from <= t < to ==> script(t).answered && script(t).holds
  }

  lemma HeldSoFar(script: nat -> DeviceReply, from: nat)
    ensures AllHeld(script, from, from)
  {
  }

  lemma HeldOnceMore(script: nat -> DeviceReply, from: nat, to: nat)
    requires from <= to
    ensures AllHeld(script, from, to + 1) <==> AllHeld(script, from, to) && script(to).answered && script(to).holds
  {
  }

  class Fleet {
    const script: nat -> DeviceReply
    var configs: map<Id, Config>
    var tick: nat
    /** What this run did: blocks handed to devices, gates passed, the policy transaction. */
    ghost var steps: seq<Step>
    /** The devices that were rolled back or tried to be, in order, and whether it was verified. */
    ghost var undone: seq<(Id, bool)>
    /** The first call of this run that failed. */
    ghost var fault: Option<nat>

    constructor (script: nat -> DeviceReply, configs: map<Id, Config>)
      ensures this.script == script && this.configs == configs && steps == [] && undone == [] && fault == None
    {
      this.script, this.configs, tick, steps, undone, fault := script, configs, 0, [], [], None;
    }

    /** Every call since `from` was answered, and its verdict held. */
    ghost predicate HeldSince(from: nat)
      reads this`tick
    {
      AllHeld(script, from, tick)
    }

    /** The first failed call, once this one is made. */
    ghost function NextFault(ok: bool): Option<nat>
      reads this`tick, this`fault
    {
      if fault == None && !ok then Some(tick) else fault
    }

    /** Anything that may fail but changes no device: connecting, resolving a secret. */
    method Try() returns (ok: bool)
      modifies this`tick, this`fault
      ensures ok == script(old(tick)).answered && fault == old(NextFault(script(tick).answered)) && tick == old(tick) + 1
    {
      ok := script(tick).answered;
      fault, tick := NextFault(ok), tick + 1;
    }

    /** `create_checkpoint`: verified, it names the configuration as it is. */
    method CreateCheckpoint(x: Id) returns (saved: Option<Config>)
      modifies this`tick, this`fault
      ensures fault == old(NextFault(script(tick).answered && script(tick).holds)) && tick == old(tick) + 1
      ensures saved == if x in configs && script(old(tick)).answered && script(old(tick)).holds then Some(configs[x]) else None
    {
      var reply := script(tick);
      fault, tick := NextFault(reply.answered && reply.holds), tick + 1;
      return if x in configs && reply.answered && reply.holds then Some(configs[x]) else None;
    }

    /** `run_show` and the evaluation of its output: no answer, or a verdict; a gate that holds has passed. */
    method Show(gate: Gate) returns (verdict: Option<bool>)
      modifies this`tick, this`fault, this`steps
      ensures fault == old(NextFault(script(tick).answered && script(tick).holds)) && tick == old(tick) + 1
      ensures verdict == if script(old(tick)).answered then Some(script(old(tick)).holds) else None
      ensures steps == old(steps) + if verdict == Some(true) then [Passed(gate)] else []
    {
      var reply := script(tick);
      fault, tick := NextFault(reply.answered && reply.holds), tick + 1;
      verdict := if reply.answered then Some(reply.holds) else None;
      steps := steps + if verdict == Some(true) then [Passed(gate)] else [];
    }

    /** `apply_block`: whatever it answers, only this device may have changed. */
    method ApplyBlock(x: Id, p: PhaseId, index: nat, block: Block) returns (ok: bool)
      modifies this`tick, this`fault, this`steps, this`configs
      ensures ok == script(old(tick)).answered && fault == old(NextFault(script(tick).answered)) && tick == old(tick) + 1
      ensures steps == old(steps) + [Sent(x, p, index, block)]
      ensures configs.Keys == old(configs).Keys
      ensures forall y :: y in configs && y != x ==> configs[y] == old(configs)[y]
    {
      var reply := script(tick);
      fault, tick, steps := NextFault(reply.answered), tick + 1, steps + [Sent(x, p, index, block)];
      if x in configs { configs := configs[x := reply.after]; }
      return reply.answered;
    }

    /** `rollback`: verified, the configuration is the checkpoint's. */
    method Rollback(x: Id, saved: Config) returns (verified: bool)
      modifies this`tick, this`fault, this`configs, this`undone
      ensures fault == old(NextFault(script(tick).answered && script(tick).holds)) && tick == old(tick) + 1
      ensures verified == (script(old(tick)).answered && script(old(tick)).holds) && undone == old(undone) + [(x, verified)]
      ensures configs.Keys == old(configs).Keys
      ensures forall y :: y in configs && y != x ==> configs[y] == old(configs)[y]
      ensures verified && x in configs ==> configs[x] == saved
    {
      var reply := script(tick);
      verified := reply.answered && reply.holds;
      fault, tick, undone := NextFault(verified), tick + 1, undone + [(x, verified)];
      if x in configs { configs := configs[x := if verified then saved else reply.after]; }
    }

    /** The answer of the policy transaction. */
    ghost method NotePolicy(ok: bool)
      modifies this`steps
      ensures steps == old(steps) + if ok then [PolicyApplied] else []
    {
      steps := steps + if ok then [PolicyApplied] else [];
    }
  }
}
