/** A registration always goes on: what is awaited is answered, and what is answered is acted
    on and comes closer to its end (WsSubscriber.register, reRegister and subscribe). */
module GroupProgress {
  import opened Maybe
  import opened SubscriptionBody
  import opened Groups
  import opened GroupInvariants
  import opened GroupSteps
  import opened GroupRuns

  /** How far what a flow is doing is from its end. */
  function Distance(pc: Pc): nat {
    match pc
    case Releasing => 7
    case Posting(second, _) => if second then 4 else 6
    case Swapping(_) => 5
    case Dropping(_) => 3
    case Opening => 2
    case Ending => 1
    case Resting => 0
    case Failed => 0
  }

  /** What a flow that acts on its answer does next. */
  function Onward(f: Flow): Pc
    requires f.answer.Some?
  {
    match f.pc
    case Releasing => Posting(false, true)
    case Swapping(again) => Posting(true, again)
    case Posting(second, again) =>
      if !Pending(f) then (if again then Resting else Failed)
      else if !HasPanel(f.answer.value.refused) then (if again then Resting else Opening)
      else if second then Dropping(again)
      else Swapping(again)
    case Dropping(again) => if again then Resting else Failed
    case Ending => Failed
    case pc => pc
  }

  lemma PlainContinues(s: State, t: nat)
    requires Inv(s) && Enabled(s, Continue(t))
    ensures t < |Plain(s, Continue(t)).flows|
    ensures
      var f, f' := s.flows[t], Plain(s, Continue(t)).flows[t];
      f'.pc == Onward(f) && f'.answer == None && Distance(f'.pc) < Distance(f.pc)
  {
    assert FlowOk(s.flows[t]);
  }

  /** An answer is acted on once, each time closer to the end: a second create only behind
      the DELETE of the first group, no third one, and an end in which nothing is awaited. */
  lemma ContinuingAdvances(s0: State, run: seq<Action>, t: nat)
    requires Initial(s0) && Possible(s0, run) && t < |After(s0, run).flows|
    ensures
      var s := After(s0, run);
      Enabled(s, Continue(t)) <==> s.flows[t].answer.Some?
    ensures
      var s := After(s0, run);
      s.flows[t].answer.Some? ==>
        && t < |Next(s, Continue(t)).flows|
        && var f, f' := s.flows[t], Next(s, Continue(t)).flows[t];
           f'.pc == Onward(f) && f'.answer == None && Distance(f'.pc) < Distance(f.pc)
  {
    EveryRun(s0, run);
    var s := After(s0, run);
    if s.flows[t].answer.Some? {
      PlainContinues(s, t);
      SameButCut(s, Continue(t), t);
    }
  }

  /** The oldest request can always be answered: a DELETE by its effect, a create that is not
      cut by any group with a new id, a refusal or silence, a cut one by silence only. */
  lemma RequestsCanBeAnswered(s0: State, run: seq<Action>, ans: Answer)
    requires Initial(s0) && Possible(s0, run)
    ensures
      var s := After(s0, run);
      s.queue != [] ==>
        match s.queue[0]
        case Delete(_, _) => Enabled(s, Reply(ans)) <==> ans == Deleted
        case Create(t) =>
          && t < |s.flows|
          && (Enabled(s, Reply(ans)) <==>
                || ans == Unanswered
                || (!s.flows[t].cut
                    && (ans == Refused || (ans.Created? && IsId(ans.id) && ans.id !in s.groups))))
  {
    EveryRun(s0, run);
    var s := After(s0, run);
    if s.queue != [] { assert OwnerOk(s.flows, s.queue[0]); }
  }
}
