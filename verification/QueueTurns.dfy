/** When a job's turn begins, pauses and ends, to the millisecond, and what a running call
    may do (HttpSession.enqueue and viaNodeHttp). */
module QueueTurns {
  import opened Requests
  import opened RequestForms
  import opened RequestQueue
  import opened QueueRuns

  /** The job starts now, or if it was cut ends without having sent anything. */
  ghost predicate StartsNow(q: Queue, q': Queue, i: nat)
    requires i < |q.jobs| == |q'.jobs|
  {
    var j := q.jobs[i];
    if j.aborted then q' == q.(jobs := q.jobs[i := j.(phase := Returned)])
    else
      && q'.jobs == q.jobs[i := j.(phase := Running, started := true)]
      && q'.last == q.now && q'.now == q.now && q'.log == q.log + [Started(i, q.now)]
      && q'.cuttable.Keys == q.cuttable.Keys && (i in q'.cuttable ==> q'.cuttable[i])
  }

  /** The turn comes as soon as the job before has settled. It starts at once, unless the last
      start or resend is less than the interval ago: then it pauses until exactly the
      interval is over, or until it is cut. */
  lemma TurnsExactly(q0: Queue, run: seq<Action>, i: nat)
    requires Initial(q0) && Possible(q0, run) && i < |After(q0, run).jobs|
    ensures
      var q := After(q0, run);
      Enabled(q, Begin(i)) <==> q.jobs[i].phase.Waiting? && (i == 0 || q.jobs[i - 1].phase.Settled?)
    ensures
      var q := After(q0, run);
      Enabled(q, Begin(i)) ==>
        var q', due := Next(q, Begin(i)), q.last + q.interval;
        && |q'.jobs| == |q.jobs|
        && if q.interval > 0 && q.now < due then q' == q.(jobs := q.jobs[i := q.jobs[i].(phase := Pausing(due))])
           else StartsNow(q, q', i)
    ensures
      var q := After(q0, run);
      Enabled(q, Wake(i)) <==> q.jobs[i].phase.Pausing? && (q.now >= q.jobs[i].phase.wake || q.jobs[i].aborted)
    ensures
      var q := After(q0, run);
      Enabled(q, Wake(i)) ==> |Next(q, Wake(i)).jobs| == |q.jobs| && StartsNow(q, Next(q, Wake(i)), i)
  {
  }

  /** A running call can send while it is not cut, can return at any time, and if it is a
      repeatable read can wait for a fresh connection. */
  lemma CallsExactly(q0: Queue, run: seq<Action>, i: nat)
    requires Initial(q0) && Possible(q0, run) && i < |After(q0, run).jobs|
    ensures
      var q := After(q0, run);
      var j := q.jobs[i];
      && (Enabled(q, Send(i)) <==> j.phase.Running? && !j.aborted)
      && (Enabled(q, Return(i)) <==> j.phase.Running?)
      && (Enabled(q, ResendWait(i)) <==> j.phase.Running? && Repeatable(j.req))
      && (Enabled(q, Resend(i)) <==> j.phase.Resending? && q.now >= j.phase.wake)
      && (Enabled(q, ResendTooLate(i)) <==> j.phase.Resending? && q.now >= j.phase.wake)
  {
    KindsAreWritten(q0, run, i);
  }

  /** It waits until the interval since the last start is over, and not longer. Then it is
      sent again, or given up as too late; either way it goes on. */
  lemma ResendsExactly(q: Queue, i: nat)
    ensures Enabled(q, ResendWait(i)) ==>
              var due := q.last + q.interval;
              Next(q, ResendWait(i)) ==
              q.(jobs := q.jobs[i := q.jobs[i].(phase := Resending(if q.interval > 0 && q.now < due then due else q.now))])
    ensures Enabled(q, Resend(i)) ==>
              Next(q, Resend(i)) ==
              q.(jobs := q.jobs[i := q.jobs[i].(phase := Running)], last := q.now, log := q.log + [Resent(i, q.now)])
    ensures Enabled(q, ResendTooLate(i)) ==>
              Next(q, ResendTooLate(i)) == q.(jobs := q.jobs[i := q.jobs[i].(phase := Running)])
  {
  }
}
