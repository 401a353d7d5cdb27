/** The queue part of HttpSession as the source has it: an object whose methods
    update its fields. Each method is one step of module RequestQueue. */
module SessionQueue {
  import opened Requests
  import opened RequestQueue

  class HttpSession {
    const requestIntervalMs: int
    /** The clock, read by Date.now(); only the environment moves it. */
    var now: int
    var lastRequestTime: int
    /** The promise chain: job i waits for job i - 1. */
    var chain: seq<Job>
    var cuttable: map<nat, bool>
    var closed: bool
    var closeSeq: nat
    var closes: seq<CloseCall>
    /** Reopens so far; kept by the model to tell the epochs apart. */
    var epoch: nat
    ghost var log: seq<Event>

    constructor (requestIntervalMs: int, now: int)
      requires now >= 0
      ensures Valid() && Initial(State()) && State().interval == requestIntervalMs && State().now == now
    {
      this.requestIntervalMs, this.now := requestIntervalMs, now;
      lastRequestTime, chain, cuttable, closed, closeSeq, closes := 0, [], map[], false, 0, [];
      epoch, log := 0, [];
    }

    ghost predicate Valid()
      reads this
    {
      closeSeq == |closes| && forall i | i in cuttable :: i < |chain|
    }

    ghost function State(): Queue
      reads this
    {
      Queue(requestIntervalMs, now, lastRequestTime, chain, cuttable, closed, closes, epoch, log)
    }

    /** The creates `cuts` reaches, aborted one by one and taken off `cuttable`. */
    method CutCreates(cuts: Cuts)
      requires Valid()
      modifies this`chain, this`cuttable
      ensures chain == Aborted(old(chain), Victims(old(cuttable), cuts))
      ensures cuttable == old(cuttable) - Victims(old(cuttable), cuts)
    {
      if cuts == CutsNothing {
        assert Victims(cuttable, cuts) == {};
        return;
      }
      ghost var victims := Victims(cuttable, cuts);
      var entries: map<nat, bool> := cuttable;
      for i := 0 to |chain|
        invariant |chain| == |old(chain)|
        invariant forall k | 0 <= k < |chain| ::
                    chain[k] == if k in victims && k < i then old(chain)[k].(aborted := true) else old(chain)[k]
        invariant cuttable == entries - (set k: nat | k in victims && k < i)
      {
        if i in entries && (cuts == CutsSent || !entries[i]) {
          chain := chain[i := chain[i].(aborted := true)];
          cuttable := cuttable - {i};
        }
      }
    }

    /** Refused when closed at the time it is queued; otherwise appended. */
    method Enqueue(r: Request, isDisconnect: bool) returns (accepted: bool)
      requires Valid()
      modifies this
      ensures Valid()
      ensures accepted == !old(closed)
      ensures State() == if accepted then RequestQueue.Enqueue(old(State()), r, KindOf(r), isDisconnect)
                         else old(State())
    {
      if closed { return false; }
      ghost var victims := Victims(cuttable, CutsOf(r));
      CutCreates(CutsOf(r));
      if IsGroupCreate(r) { cuttable := cuttable[|chain| := false]; }
      log := if victims == {} then log else log + [CutShort(victims, |chain|)];
      chain := chain + [Job(r, KindOf(r), Waiting, false, false, isDisconnect, epoch)];
      return true;
    }

    /** One of get, post, put and delete. */
    method Request(r: Request) returns (accepted: bool)
      requires Valid()
      modifies this
      ensures Valid()
      ensures accepted == !old(closed)
      ensures State() == Next(old(State()), Call(r))
    {
      accepted := Enqueue(r, false);
    }

    /** What follows the wait for the interval. */
    method Start(i: nat) returns (runs: bool)
      requires Valid() && i < |chain|
      modifies this
      ensures Valid()
      ensures runs == !old(chain)[i].aborted
      ensures State() == Resume(old(State()), i)
    {
      if chain[i].aborted {
        chain := chain[i := chain[i].(phase := Returned)];
        return false;
      }
      if i in cuttable { cuttable := cuttable[i := true]; }
      lastRequestTime := now;
      chain := chain[i := chain[i].(phase := Running, started := true)];
      log := log + [Started(i, now)];
      return true;
    }

    /** The job's turn: pause for what is left of the interval, or run at once. */
    method Turn(i: nat) returns (pausing: bool)
      requires Valid() && Enabled(State(), Begin(i))
      modifies this
      ensures Valid()
      ensures State() == Next(old(State()), Begin(i))
      ensures pausing == chain[i].phase.Pausing?
    {
      var elapsed := now - lastRequestTime;
      if requestIntervalMs > 0 && elapsed < requestIntervalMs {
        chain := chain[i := chain[i].(phase := Pausing(now + (requestIntervalMs - elapsed)))];
        return true;
      }
      var _ := Start(i);
      return false;
    }

    /** The pause ended: its time was up, or a cut ended it early. */
    method AfterPause(i: nat) returns (runs: bool)
      requires Valid() && Enabled(State(), Wake(i))
      modifies this
      ensures Valid()
      ensures State() == Next(old(State()), Wake(i))
      ensures runs == !old(chain)[i].aborted
    {
      runs := Start(i);
    }

    /** The job's promise settles: it leaves `cuttable` and frees the queue. */
    method Settled(i: nat)
      requires Valid() && Enabled(State(), Settle(i))
      modifies this
      ensures Valid()
      ensures State() == Next(old(State()), Settle(i))
    {
      cuttable := cuttable - {i};
      chain := chain[i := chain[i].(phase := Phase.Settled)];
      log := log + [Done(i)];
    }

    method Close()
      requires Valid()
      modifies this
      ensures Valid()
      ensures State() == CloseNow(old(State()))
    {
      closed := true;
      closeSeq := closeSeq + 1;
      closes := closes + [CloseCall(closeSeq, |chain|, false, false)];
    }

    /** The callback a close left on the queue. */
    method QueueDrained(k: nat) returns (destroy: bool)
      requires Valid() && Enabled(State(), CloseDone(k))
      modifies this
      ensures Valid()
      ensures State() == Next(old(State()), CloseDone(k))
      ensures destroy == (old(closed) && old(closes)[k].number == old(closeSeq))
    {
      var c := closes[k];
      destroy := closed && c.number == closeSeq;
      closes := closes[k := c.(fired := true, destroyed := destroy)];
    }

    method Reopen()
      requires Valid()
      modifies this
      ensures Valid()
      ensures State() == Next(old(State()), Action.Reopen)
    {
      closed := false;
      epoch := epoch + 1;
    }

    /** RwsClient.disconnect once its subscriptions are closed: /logout is queued
        and the session closed in the same tick; a second one sends nothing. */
    method Disconnect() returns (sent: bool)
      requires Valid()
      modifies this
      ensures Valid()
      ensures sent == !old(closed)
      ensures State() == Next(old(State()), Action.Disconnect)
    {
      if closed { return false; }
      var _ := Enqueue(LogoutRequest, true);
      Close();
      return true;
    }
  }
}
