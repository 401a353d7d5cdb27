/** Who holds which subscription group on the controller, over every interleaving of
    subscribing, re-registering, giving up, stopping and closing all (WsSubscriber.subscribe,
    register, createGroup, reRegister, giveUp, closeAll and the unsubscribe function).

    Requests are answered in the order they were queued. An answer that has arrived and
    the continuation that acts on it are two steps, and anything may happen between them.
    Queueing a DELETE cuts every create that has no answer yet (module GroupQueue shows
    that the request queue does this). Deletes take effect, every 201 carries a usable
    Location, and no two groups on the controller have one id; an id is free again once
    its group is gone. */
module Groups {
  import opened Maybe
  import opened SubscriptionBody

  /** What a subscription is doing. `second`: the create in the other spelling. `again`: a
      re-registration, not a first subscribe. `Resting`: it has a handle, and nothing
      of it is under way. */
  datatype Pc =
    | Posting(second: bool, again: bool)
    | Swapping(again: bool)
    | Dropping(again: bool)
    | Opening
    | Resting
    | Releasing
    | Ending
    | Failed

  /** `Unanswered`: cut or timed out. */
  datatype Answer = Deleted | Refused | Unanswered | Created(id: string, refused: seq<string>)

  /** `answer`: has arrived, and is not acted on yet. `held`: the group of this flow that
      exists on the controller. `kept`: the refused resources the answer of the group
      kept named. `cut`: the create awaited was cut. `unanswered`: its creates without an
      answer, which the controller may still complete. */
  datatype Flow = Flow(
    pc: Pc,
    id: string,
    answer: Option<Answer>,
    held: Option<string>,
    unbound: seq<string>,
    kept: seq<string>,
    creates: nat,
    handle: bool,
    closed: bool,
    gaveUp: bool,
    cut: bool,
    unanswered: nat)

  /** `waiter`: the flow that awaits the answer of its DELETE. */
  datatype Req = Create(flow: nat) | Delete(id: string, waiter: Option<nat>)

  /** `abandoned`: the groups made by creates whose answer never came. */
  datatype State = State(
    flows: seq<Flow>,
    table: map<string, nat>,
    queue: seq<Req>,
    groups: set<string>,
    abandoned: set<string>)

  /** `Reply`: the oldest request is answered. `Continue`: the flow acts on its answer.
      `OtherCut`: another reducing request is queued (a stop, motors off, a release).
      `Restart`: the controller restarts, or the session ends. */
  datatype Action =
    | Subscribe
    | Reply(answer: Answer)
    | Continue(flow: nat)
    | Opened(flow: nat, ok: bool)
    | ReRegister(flow: nat)
    | GiveUp(flow: nat)
    | Stop(flow: nat)
    | CloseAll(order: seq<string>)
    | OtherCut(creates: set<nat>)
    | LateGroup(flow: nat, id: string)
    | Restart

  predicate HasPanel(refused: seq<string>) {
    exists i | 0 <= i < |refused| :: OtherSpelling(refused[i]).Some?
  }

  predicate Registering(pc: Pc) {
    pc.Releasing? || ((pc.Posting? || pc.Swapping? || pc.Dropping?) && pc.again)
  }

  predicate OnDelete(pc: Pc) {
    pc.Swapping? || pc.Dropping? || pc.Releasing? || pc.Ending?
  }

  /** Subscribed, and neither stopped nor lost. */
  predicate Live(f: Flow) {
    !f.closed && !f.gaveUp && (f.pc.Opening? || f.pc.Resting? || Registering(f.pc))
  }

  /** A create answered 201 whose answer is not acted on yet. */
  predicate Pending(f: Flow) {
    f.answer.Some? && f.answer.value.Created?
  }

  /** What a Location's id reads as. */
  predicate IsId(id: string) {
    id != "" && forall c | c in id :: '0' <= c <= '9'
  }

  /** An id the controller may give to a new group. */
  predicate Fresh(s: State, id: string) {
    IsId(id) && id !in s.groups
  }

  // ─── Steps ────────────────────────────────────────────────────────────────

  predicate Answers(s: State, r: Req, ans: Answer) {
    match r
    case Delete(_, w) => ans.Deleted? && (w.Some? ==> w.value < |s.flows|)
    case Create(t) =>
      && t < |s.flows| && !ans.Deleted?
      && (s.flows[t].cut ==> ans.Unanswered?)
      && (ans.Created? ==> Fresh(s, ans.id))
  }

  predicate Enabled(s: State, a: Action) {
    match a
    case Subscribe => true
    case Reply(ans) => s.queue != [] && Answers(s, s.queue[0], ans)
    case Continue(t) => t < |s.flows| && s.flows[t].answer.Some?
    case Opened(t, ok) => t < |s.flows| && s.flows[t].pc.Opening?
    case ReRegister(t) => t < |s.flows| && s.flows[t].pc.Resting? && Live(s.flows[t])
    case GiveUp(t) => t < |s.flows| && s.flows[t].pc.Resting? && Live(s.flows[t])
    case Stop(t) => t < |s.flows| && s.flows[t].handle
    case CloseAll(order) =>
      && AllDistinct(order)
      && (forall id | id in order :: id in s.table)
      && (forall id | id in s.table :: id in order)
    case OtherCut(_) => true
    case LateGroup(t, id) => t < |s.flows| && s.flows[t].unanswered > 0 && Fresh(s, id)
    case Restart => true
  }

  /** Whoever holds the group holds it no more. */
  function Lose(flows: seq<Flow>, id: string): (r: seq<Flow>)
    ensures |r| == |flows|
  {
    seq(|flows|, t requires 0 <= t < |flows| =>
      if flows[t].held == Some(id) then flows[t].(held := None) else flows[t])
  }

  function Notify(flows: seq<Flow>, w: Option<nat>): (r: seq<Flow>)
    requires w.Some? ==> w.value < |flows|
    ensures |r| == |flows|
  {
    if w.Some? then flows[w.value := flows[w.value].(answer := Some(Deleted))] else flows
  }

  function Replied(s: State, ans: Answer): State
    requires s.queue != [] && Answers(s, s.queue[0], ans)
  {
    match s.queue[0]
    case Delete(id, w) =>
      s.(queue := s.queue[1..], groups := s.groups - {id}, abandoned := s.abandoned - {id},
         flows := Notify(Lose(s.flows, id), w))
    case Create(t) =>
      var f := s.flows[t].(answer := Some(ans));
      (match ans
       case Created(id, _) =>
         s.(queue := s.queue[1..], groups := s.groups + {id}, flows := s.flows[t := f.(held := Some(id))])
       case Unanswered =>
         s.(queue := s.queue[1..], flows := s.flows[t := f.(unanswered := f.unanswered + 1)])
       case _ => s.(queue := s.queue[1..], flows := s.flows[t := f]))
  }

  /** register threw: a subscribe rejects; a re-registration is over, and the entry stays
      under the old id. */
  function RegisterFailed(f: Flow): Flow
    requires f.pc.Posting? || f.pc.Dropping?
  {
    f.(pc := if f.pc.again then Resting else Failed)
  }

  /** The group is kept: the entry is made, or re-keyed to the new id. */
  predicate Keeps(f: Flow) {
    f.pc.Posting? && Pending(f) && !HasPanel(f.answer.value.refused)
  }

  function Keep(s: State, t: nat): State
    requires t < |s.flows| && Keeps(s.flows[t])
  {
    var f := s.flows[t];
    var ans := f.answer.value;
    s.(flows := s.flows[t := f.(pc := if f.pc.again then Resting else Opening, answer := None, cut := false,
                                id := ans.id, unbound := ans.refused, kept := ans.refused)],
       table := (if f.pc.again then s.table - {f.id} else s.table)[ans.id := t])
  }

  /** What a flow is after acting on its answer, unless it keeps its group. */
  function Continued(f: Flow): Flow
    requires f.answer.Some? && !Keeps(f)
  {
    var g := f.(answer := None, cut := false);
    match f.pc
    case Posting(second, again) =>
      if Pending(f) then g.(pc := if second then Dropping(again) else Swapping(again)) else RegisterFailed(g)
    case Swapping(again) => g.(pc := Posting(true, again), creates := f.creates + 1)
    case Dropping(_) => RegisterFailed(g)
    case Releasing => g.(pc := Posting(false, true), creates := 1, unbound := [])
    case Ending => g.(pc := Failed)
    case _ => g
  }

  /** The requests a step queues. */
  function Asks(s: State, a: Action): seq<Req>
    requires Enabled(s, a)
  {
    match a
    case Subscribe => [Create(|s.flows|)]
    case Continue(t) =>
      var f := s.flows[t];
      if Keeps(f) then []
      else if f.pc.Swapping? || f.pc.Releasing? then [Create(t)]
      else if f.pc.Posting? && Pending(f) then [Delete(f.answer.value.id, Some(t))]
      else []
    case Opened(t, ok) => if ok then [] else [Delete(s.flows[t].id, Some(t))]
    case ReRegister(t) => [Delete(s.flows[t].id, Some(t))]
    case GiveUp(t) => [Delete(s.flows[t].id, None)]
    case Stop(t) => [Delete(s.flows[t].id, None)]
    case CloseAll(order) => seq(|order|, i requires 0 <= i < |order| => Delete(order[i], None))
    case _ => []
  }

  predicate AwaitsCreate(f: Flow) {
    f.pc.Posting? && f.answer == None
  }

  /** The step cuts this flow's create, if it has no answer: queueing a DELETE cuts all. */
  predicate Cuts(s: State, a: Action, t: nat)
    requires Enabled(s, a)
  {
    (a.OtherCut? && t in a.creates) || (Asks(s, a) != [] && Asks(s, a)[0].Delete?)
  }

  /** What a step does but for its requests. */
  function Step(s: State, a: Action): State
    requires Enabled(s, a)
  {
    match a
    case Subscribe =>
      s.(flows := s.flows + [Flow(Posting(false, false), "", None, None, [], [], 1, false, false, false, false, 0)])
    case Reply(ans) => Replied(s, ans)
    case Continue(t) =>
      if Keeps(s.flows[t]) then Keep(s, t) else s.(flows := s.flows[t := Continued(s.flows[t])])
    case Opened(t, ok) =>
      var f := s.flows[t];
      if ok then s.(flows := s.flows[t := f.(pc := Resting, handle := true)])
      else s.(flows := s.flows[t := f.(pc := Ending, closed := true)], table := s.table - {f.id})
    case ReRegister(t) => s.(flows := s.flows[t := s.flows[t].(pc := Releasing)])
    case GiveUp(t) =>
      s.(flows := s.flows[t := s.flows[t].(gaveUp := true, unbound := [])], table := s.table - {s.flows[t].id})
    case Stop(t) =>
      s.(flows := s.flows[t := s.flows[t].(closed := true)], table := s.table - {s.flows[t].id})
    case CloseAll(_) => s.(flows := ClosedAll(s), table := map[])
    case OtherCut(_) => s
    case LateGroup(t, id) =>
      s.(flows := s.flows[t := s.flows[t].(unanswered := s.flows[t].unanswered - 1)],
         groups := s.groups + {id}, abandoned := s.abandoned + {id})
    case Restart =>
      s.(groups := {}, abandoned := {},
         flows := seq(|s.flows|, t requires 0 <= t < |s.flows| => s.flows[t].(held := None, unanswered := 0)))
  }

  /** Flow t has an entry: its own id names it. */
  predicate InTable(s: State, t: nat)
    requires t < |s.flows|
  {
    s.flows[t].id in s.table && s.table[s.flows[t].id] == t
  }

  function ClosedAll(s: State): (r: seq<Flow>)
    ensures |r| == |s.flows|
  {
    seq(|s.flows|, t requires 0 <= t < |s.flows| =>
      if InTable(s, t) then s.flows[t].(closed := true) else s.flows[t])
  }

  function Next(s: State, a: Action): State
    requires Enabled(s, a)
  {
    var s1 := Step(s, a);
    s1.(queue := s1.queue + Asks(s, a),
        flows := seq(|s1.flows|, t requires 0 <= t < |s1.flows| =>
          if Cuts(s, a, t) && AwaitsCreate(s1.flows[t]) then s1.flows[t].(cut := true) else s1.flows[t]))
  }

  predicate Initial(s: State) {
    s.flows == [] && s.table == map[] && s.queue == [] && s.groups == {} && s.abandoned == {}
  }

  predicate Possible(s: State, run: seq<Action>)
    decreases |run|
  {
    run == [] || (Enabled(s, run[0]) && Possible(Next(s, run[0]), run[1..]))
  }

  function After(s: State, run: seq<Action>): State
    requires Possible(s, run)
    decreases |run|
  {
    if run == [] then s else After(Next(s, run[0]), run[1..])
  }
}
