/** services/jobs.py: the health sweep queues a follow-up for every incident left open too long. */
module PyJobs {
  import opened Util
  import opened PyTables
  import opened Text

  predicate Stale(i: Incident, threshold: Time) { i.state == Open && i.createdAt <= threshold }

  function FollowUp(incident: nat, staleMinutes: int, createdAt: Time): Action {
    Action(incident, "follow_up", Queued, 0,
           "health sweep found incident open for at least " + Integer(staleMinutes) + " minutes",
           None, None, None, createdAt, createdAt)
  }

  /** The rows the sweep query returns, in table order. */
  function StaleRows(incidents: seq<Incident>, threshold: Time): (rows: seq<nat>)
    ensures forall k :: 0 <= k < |rows| ==> rows[k] < |incidents| && Stale(incidents[rows[k]], threshold)
    ensures forall j, k :: 0 <= j < k < |rows| ==> rows[j] < rows[k]
    ensures forall i :: 0 <= i < |incidents| && Stale(incidents[i], threshold) ==> i in rows
  {
    if incidents == [] then []
    else
      var n := |incidents| - 1;
      StaleRows(incidents[..n], threshold) + (if Stale(incidents[n], threshold) then [n] else [])
  }

  /** One follow-up per stale incident. */
  function FollowUps(incidents: seq<Incident>, threshold: Time, staleMinutes: int, createdAt: Time): (s: seq<Action>)
    ensures |s| == |StaleRows(incidents, threshold)|
    ensures forall k :: 0 <= k < |s| ==> s[k] == FollowUp(StaleRows(incidents, threshold)[k], staleMinutes, createdAt)
  {
    var rows := StaleRows(incidents, threshold);
    seq(|rows|, k requires 0 <= k < |rows| => FollowUp(rows[k], staleMinutes, createdAt))
  }

  lemma FollowUpsGrow(incidents: seq<Incident>, n: nat, threshold: Time, staleMinutes: int, createdAt: Time)
    requires n < |incidents|
    ensures FollowUps(incidents[..n + 1], threshold, staleMinutes, createdAt)
         == FollowUps(incidents[..n], threshold, staleMinutes, createdAt)
            + (if Stale(incidents[n], threshold) then [FollowUp(n, staleMinutes, createdAt)] else [])
  {
    assert incidents[..n + 1][..n] == incidents[..n];
  }

  function Sweep(db: Db, staleMinutes: int, now: Time, createdAt: Time): Db {
    db.(actions := db.actions + FollowUps(db.incidents, now - staleMinutes * MINUTE, staleMinutes, createdAt))
  }

  datatype JobRun = JobRun(name: string, status: string, detail: string, finishedAt: Time)

  class HealthSweep {
    var actions: seq<Action>
    var jobRuns: seq<JobRun>

    constructor (actions: seq<Action>, jobRuns: seq<JobRun>)
      ensures this.actions == actions && this.jobRuns == jobRuns
    {
      this.actions := actions;
      this.jobRuns := jobRuns;
    }

    /** One follow-up is added for every stale incident, and one job run that tells how many. */
    method Run(incidents: seq<Incident>, staleMinutes: int, now: Time, createdAt: Time, finishedAt: Time)
      returns (created: nat)
      modifies this
      ensures actions == old(actions)
        + FollowUps(incidents, now - staleMinutes * MINUTE, staleMinutes, createdAt)
      ensures created == |actions| - |old(actions)|
      ensures jobRuns == old(jobRuns)
        + [JobRun("health_sweep", "succeeded", "actions_created=" + Integer(created), finishedAt)]
    {
      created := 0;
      var threshold := now - staleMinutes * MINUTE;
      for i := 0 to |incidents|
        invariant actions == old(actions) + FollowUps(incidents[..i], threshold, staleMinutes, createdAt)
        invariant created == |actions| - |old(actions)| && jobRuns == old(jobRuns)
      {
        FollowUpsGrow(incidents, i, threshold, staleMinutes, createdAt);
        if Stale(incidents[i], threshold) {
          actions := actions + [FollowUp(i, staleMinutes, createdAt)];
          created := created + 1;
        }
      }
      assert incidents[..|incidents|] == incidents;
      jobRuns := jobRuns + [JobRun("health_sweep", "succeeded", "actions_created=" + Integer(created), finishedAt)];
    }
  }
}
