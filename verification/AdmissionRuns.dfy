/** The admission pass as a run of allocation attempts: as long as no attempt does harm, a pass keeps
    the host's books; and attempts of processes that were never tried before do none. */
module AdmissionRuns {
  import opened HostResources
  import opened ResourceRuns
  import opened Dispatcher

  /** The queue holds these processes, none of them in the system, each once. */
  ghost predicate Queued(s: System, order: seq<nat>) {
    && (forall k :: 0 <= k < |order| ==> order[k] < |s.jobs| && order[k] !in s.live && |s.jobs[order[k]].io| == KINDS)
    && (forall k, l :: 0 <= k < l < |order| ==> order[k] != order[l])
  }

  ghost function JobsOf(s: System, order: seq<nat>): (r: seq<Job>)
    requires Queued(s, order)
    ensures |r| == |order| && JobsFit(r)
  {
    seq(|order|, k requires 0 <= k < |order| => s.jobs[order[k]])
  }

  /** None of the first n turns releases what somebody else owns. */
  ghost predicate HarmlessTurns(jobs: seq<Job>, time: int, rt: nat, pools: seq<seq<int>>, n: nat)
    requires PoolsFit(pools, rt) && JobsFit(jobs) && n <= |jobs|
  {
    forall k :: 0 <= k < n && jobs[k].arrivalTime <= time ==>
      HarmlessAttempt(Pass(jobs, time, rt, pools, k).pools, rt, jobs[k])
  }

  /** The pass and the run agree on the pools, on the PCBs and on who is in the system; nobody else is touched. */
  ghost predicate Agree(p: Progress, s: System, r: System, order: seq<nat>) {
    && p.pools == r.pools && |p.admitted| <= |order| == |p.jobs| && |r.jobs| == |s.jobs|
    && (forall k :: 0 <= k < |order| ==> order[k] < |r.jobs| && p.jobs[k] == r.jobs[order[k]])
    && (forall k :: 0 <= k < |order| ==> (order[k] in r.live <==> k < |p.admitted| && p.admitted[k]))
    && (forall i: nat :: i !in order ==> (i in r.live <==> i in s.live))
    && (forall i: nat :: i < |s.jobs| && i !in order ==> r.jobs[i] == s.jobs[i])
  }

  lemma TurnAgrees(p: Progress, s: System, r: System, rt: nat, time: int, order: seq<nat>)
    requires Inv(r, rt) && Agree(p, s, r, order) && |p.admitted| < |order| && JobsFit(p.jobs)
    requires forall k, l :: 0 <= k < l < |order| ==> order[k] != order[l]
    ensures var i := order[|p.admitted|];
            && Proper(r, Attempt(i)) && r.jobs[i] == p.jobs[|p.admitted|]
            && Agree(Turn(p, time, rt), s, if time >= r.jobs[i].arrivalTime then Apply(r, rt, Attempt(i)) else r, order)
  {
  }

  lemma NextTurn(s: System, rt: nat, time: int, order: seq<nat>, n: nat)
    requires Inv(s, rt) && Queued(s, order) && 0 < n <= |order|
    ensures var jobs := JobsOf(s, order);
            var before := Pass(jobs, time, rt, s.pools, n - 1);
            && |before.admitted| == n - 1 && Pass(jobs, time, rt, s.pools, n) == Turn(before, time, rt)
            && before.jobs[n - 1] == jobs[n - 1] && JobsFit(before.jobs)
  {
    hide Turn, Inv, Queued;
  }

  lemma StartAgrees(s: System, rt: nat, time: int, order: seq<nat>)
    requires Inv(s, rt) && Queued(s, order)
    ensures Agree(Pass(JobsOf(s, order), time, rt, s.pools, 0), s, s, order)
  {
    hide Inv;
    assert forall k :: 0 <= k < |order| ==> order[k] in order;
  }

  /** So the turns of a pass are a run of harmless events, and the host's books are kept. */
  lemma {:induction false} PassIsARun(s: System, rt: nat, time: int, order: seq<nat>, n: nat)
    returns (run: seq<Event>, r: System)
    requires Inv(s, rt) && Queued(s, order) && n <= |order| && HarmlessTurns(JobsOf(s, order), time, rt, s.pools, n)
    ensures RunOk(s, rt, run) && r == Exec(s, rt, run)
    ensures Inv(r, rt) && Agree(Pass(JobsOf(s, order), time, rt, s.pools, n), s, r, order)
  {
    hide Turn, Apply, Pass, Agree, PoolInv, JobOk, DistinctPids, HarmlessAttempt;
    if n == 0 {
      StartAgrees(s, rt, time, order);
      run, r := [], s;
    } else {
      var before;
      run, before := PassIsARun(s, rt, time, order, n - 1);
      var p := Pass(JobsOf(s, order), time, rt, s.pools, n - 1);
      NextTurn(s, rt, time, order, n);
      TurnAgrees(p, s, before, rt, time, order);
      AgreeOnPools(p, s, before, order);
      var i := order[n - 1];
      r := before;
      if time >= before.jobs[i].arrivalTime {
        AttemptKeepsInv(before, rt, i);
        RunOneMore(s, rt, run, Attempt(i));
        run := run + [Attempt(i)];
        r := Apply(before, rt, Attempt(i));
      }
    }
  }

  lemma AgreeOnPools(p: Progress, s: System, r: System, order: seq<nat>)
    requires Agree(p, s, r, order)
    ensures p.pools == r.pools
  {
  }

  /** A pass over processes that were never tried before does no harm. */
  lemma FreshTurnsAreHarmless(jobs: seq<Job>, time: int, rt: nat, pools: seq<seq<int>>)
    requires PoolsFit(pools, rt) && JobsFit(jobs)
    requires forall k :: 0 <= k < |jobs| && jobs[k].arrivalTime <= time ==> Fresh(jobs[k])
    ensures HarmlessTurns(jobs, time, rt, pools, |jobs|)
  {
    forall k | 0 <= k < |jobs| && jobs[k].arrivalTime <= time
      ensures HarmlessAttempt(Pass(jobs, time, rt, pools, k).pools, rt, jobs[k])
    {
      FreshIsHarmless(Pass(jobs, time, rt, pools, k).pools, rt, jobs[k]);
    }
  }
}
