/** What the forecast of a worker's call means for the policy: when there is one, and what it puts in force. */
module WorkerPolicy {
  import opened Basics
  import opened Ordering
  import opened Planning
  import opened IseObjects
  import opened IseServer
  import opened IseOperations
  import opened IsePlan
  import opened IseSmooth
  import opened Worker
  import IsePolicy
  import IseOutcome

  /** The gateway's switch, the manifest, the plan and the preflight let the transaction begin. */
  ghost predicate MayBegin(job: Job) {
    && job.artifact.ise.Some? && job.iseEnabled && job.primaryNode && job.defaultDeny && PolicyPlane in job.planned
    && ManifestValid(job.artifact.ise.value.marker, job.artifact.ise.value.operations)
  }

  /** On a healthy node the policy will be served if and only if no operation meets an object that is foreign or ambiguous. */
  lemma ReadyIff(job: Job, script: Script, objects: Objects, tick: nat)
    requires MayBegin(job) && CellPairsDistinct(job.artifact.ise.value.operations)
    requires Healthy(script, tick) && IseOutcome.IdsAreNew(script, objects)
    ensures PolicyReady(job, script, objects, tick) <==>
              forall o :: o in job.artifact.ise.value.operations ==> IsePolicy.Admissible(job.artifact.ise.value.marker, objects, o)
  {
    var m := job.artifact.ise.value;
    var plan := PlanAll(m.marker, objects, tick + 3, Sort(m.operations, OperationLe));
    var start := if plan.Some? then plan.value.tick else 0;
    IseOutcome.GoesThroughIff(script, m.marker, objects, tick + 3, start, m.operations);
    hide IsePolicy.Admissible, ManifestValid, PlanAll, ApplyRun, CellPairsDistinct;
  }

  /** Where the forecast leads, every operation of the manifest is in force, and no other object has changed. */
  lemma ForecastIsInForce(job: Job, script: Script, objects: Objects, tick: nat, now: Objects)
    requires job.artifact.ise.Some? && CellPairsDistinct(job.artifact.ise.value.operations)
    requires Forecast(job, script, objects, tick) == Some(now)
    ensures forall o :: o in job.artifact.ise.value.operations ==> exists k :: IsePolicy.InForce(now, o, k)
    ensures forall k :: IseObjects.Same(objects, now, k) ||
              exists o :: o in job.artifact.ise.value.operations && IsePolicy.InForce(now, o, k) && IsePolicy.AsSent(now, o, k)
  {
    var m := job.artifact.ise.value;
    var plan := PlanAll(m.marker, objects, tick + 3, Sort(m.operations, OperationLe)).value;
    var last := ApplyRun(script, m.marker, objects, plan.tick, plan.actions).value;
    hide IsePolicy.InForce, ManifestValid, PlanAll, ApplyRun, CellPairsDistinct;
    IseOutcome.PolicyIsInForce(script, m.marker, objects, tick + 3, plan.tick, m.operations, last.results, now);
  }
}
