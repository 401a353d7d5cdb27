/** Several robots compete for one active slot (MultiRobotManager.addRobot,
    removeRobot, setActive, connectRobot and chooseActiveAfter), as a step system:
    connects start and finish in any order.

    While a connect runs its manager may go up and down. Removing a robot cancels it: its
    connect then resolves with the manager down. A connect that fails leaves its
    manager down; that one that succeeds leaves it up is assumed by the theorems about
    the active slot only. */
module MultiRobot {
  import opened Maybe

  datatype Config = Config(host: string, port: Option<nat>, useHttps: Option<bool>)

  /** One connectRobot call, with the manager and config it read at its start. */
  datatype Call = Call(id: string, manager: nat, config: Config, pending: bool)

  /** `order` is the insertion order of the manager map; managers are numbered as
      they are made; `up` are the connected ones, `cancelled` those that were removed. */
  datatype Fleet = Fleet(
    order: seq<string>,
    managers: map<string, nat>,
    configs: map<string, Config>,
    activeId: Option<string>,
    connecting: set<string>,
    calls: seq<Call>,
    up: set<nat>,
    cancelled: set<nat>,
    made: nat)

  datatype Action =
    | Add(id: string, config: Config)
    | Remove(id: string)
    | SetActive(id: string)
    | Start(id: string)
    | Swing(call: nat, isUp: bool)
    | Finish(call: nat, ok: bool, port: Option<nat>, useHttps: Option<bool>)

  // ─── Steps ────────────────────────────────────────────────────────────────

  function Without(order: seq<string>, id: string): seq<string> {
    if order == [] then []
    else if order[0] == id then order[1..]
    else [order[0]] + Without(order[1..], id)
  }

  /** An absent id and the empty one are both falsy. */
  predicate Falsy(id: Option<string>) {
    id.None? || id.value == ""
  }

  predicate IsUp(f: Fleet, id: string) {
    id in f.managers && f.managers[id] in f.up
  }

  /** The `active` getter's manager is connected. */
  predicate ActiveUp(f: Fleet) {
    !Falsy(f.activeId) && IsUp(f, f.activeId.value)
  }

  function FirstUp(f: Fleet, order: seq<string>): Option<string> {
    if order == [] then None
    else if IsUp(f, order[0]) then Some(order[0])
    else FirstUp(f, order[1..])
  }

  function AddRobot(f: Fleet, id: string, config: Config): Fleet {
    f.(order := if id in f.managers then f.order else f.order + [id],
       managers := f.managers[id := f.made],
       configs := f.configs[id := config],
       activeId := if Falsy(f.activeId) then Some(id) else f.activeId,
       made := f.made + 1)
  }

  function RemoveRobot(f: Fleet, id: string): Fleet {
    var order := Without(f.order, id);
    f.(order := order,
       managers := f.managers - {id},
       configs := f.configs - {id},
       cancelled := if id in f.managers then f.cancelled + {f.managers[id]} else f.cancelled,
       activeId := if f.activeId != Some(id) then f.activeId
                   else if order == [] then None else Some(order[0]))
  }

  function ChooseActiveAfter(f: Fleet, id: string, ok: bool): Fleet {
    if f.activeId.Some? && (ActiveUp(f) || f.activeId.value in f.connecting) then f
    else if ok then f.(activeId := Some(id))
    else if f.activeId == Some(id) && FirstUp(f, f.order).Some? then f.(activeId := FirstUp(f, f.order))
    else f
  }

  /** What a call does once its manager's connect has settled. */
  function FinishCall(f: Fleet, k: nat, ok: bool, port: Option<nat>, useHttps: Option<bool>): Fleet
    requires k < |f.calls|
  {
    var c := f.calls[k];
    var f1 := f.(connecting := f.connecting - {c.id}, calls := f.calls[k := c.(pending := false)]);
    if !ok then ChooseActiveAfter(f1.(up := f1.up - {c.manager}), c.id, false)
    else
      var f2 := if port.Some? && port != c.config.port
                then f1.(configs := f1.configs[c.id := c.config.(port := port, useHttps := useHttps)])
                else f1;
      ChooseActiveAfter(f2, c.id, true)
  }

  predicate Enabled(f: Fleet, a: Action) {
    match a
    case Swing(k, isUp) =>
      k < |f.calls| && f.calls[k].pending && (isUp ==> f.calls[k].manager !in f.cancelled)
    case Finish(k, _, _, _) => k < |f.calls| && f.calls[k].pending
    case _ => true
  }

  function Next(f: Fleet, a: Action): Fleet
    requires Enabled(f, a)
  {
    match a
    case Add(id, config) => AddRobot(f, id, config)
    case Remove(id) => RemoveRobot(f, id)
    case SetActive(id) => if id in f.managers then f.(activeId := Some(id)) else f
    case Start(id) =>
      if id in f.managers && id in f.configs then
        f.(connecting := f.connecting + {id},
           calls := f.calls + [Call(id, f.managers[id], f.configs[id], true)])
      else f
    case Swing(k, isUp) =>
      f.(up := if isUp then f.up + {f.calls[k].manager} else f.up - {f.calls[k].manager})
    case Finish(k, ok, port, useHttps) => FinishCall(f, k, ok, port, useHttps)
  }

  predicate Initial(f: Fleet) {
    && f.order == [] && f.managers == map[] && f.configs == map[] && f.activeId == None
    && f.connecting == {} && f.calls == [] && f.up == {} && f.cancelled == {}
  }

  predicate Possible(f: Fleet, run: seq<Action>)
    decreases |run|
  {
    run == [] || (Enabled(f, run[0]) && Possible(Next(f, run[0]), run[1..]))
  }

  function After(f: Fleet, run: seq<Action>): Fleet
    requires Possible(f, run)
    decreases |run|
  {
    if run == [] then f else After(Next(f, run[0]), run[1..])
  }

  /** One step in front of a run. */
  lemma OneStep(f: Fleet, a: Action, f1: Fleet, rest: seq<Action>, end: Fleet)
    requires Enabled(f, a) && Next(f, a) == f1 && Possible(f1, rest) && After(f1, rest) == end
    ensures Possible(f, [a] + rest) && After(f, [a] + rest) == end
  {
    assert ([a] + rest)[1..] == rest;
  }

  ghost predicate InFlight(f: Fleet, id: string) {
    exists k :: 0 <= k < |f.calls| && f.calls[k].id == id && f.calls[k].pending
  }

  // ─── The maps ─────────────────────────────────────────────────────────────

  ghost predicate OrderExact(order: seq<string>, ids: set<string>) {
    && (forall id :: id in order <==> id in ids)
    && (forall i, j | 0 <= i < j < |order| :: order[i] != order[j])
  }

  /** Managers, configs and order have the same keys, and the active id is one of
      them, or null exactly when there are none. */
  ghost predicate Consistent(f: Fleet) {
    && f.managers.Keys == f.configs.Keys
    && OrderExact(f.order, f.managers.Keys)
    && (f.activeId.None? <==> f.order == [])
    && (f.activeId.Some? ==> f.activeId.value in f.managers)
  }

  ghost predicate CallsNamed(f: Fleet) {
    forall k | 0 <= k < |f.calls| && f.calls[k].pending :: f.calls[k].id in f.managers
  }

  lemma {:induction false} WithoutIsExact(order: seq<string>, id: string, ids: set<string>)
    requires OrderExact(order, ids)
    ensures OrderExact(Without(order, id), ids - {id})
    decreases |order|
  {
    if order != [] {
      var rest := order[1..];
      assert order == [order[0]] + rest;
      assert OrderExact(rest, ids - {order[0]}) by {
        assert forall k | 0 <= k < |rest| :: rest[k] == order[k + 1] && rest[k] in order;
      }
      if order[0] != id {
        WithoutIsExact(rest, id, ids - {order[0]});
        var kept := Without(rest, id);
        assert forall j | 0 <= j < |kept| :: kept[j] in kept && kept[j] != order[0];
      }
    }
  }

  lemma {:induction false} FirstUpIsFirst(f: Fleet, order: seq<string>)
    ensures
      var first := FirstUp(f, order);
      if first.Some? then first.value in order && IsUp(f, first.value)
      else forall id | id in order :: !IsUp(f, id)
    decreases |order|
  {
    if order != [] && !IsUp(f, order[0]) {
      FirstUpIsFirst(f, order[1..]);
      assert order == [order[0]] + order[1..];
    }
  }

  /** No robot is removed while its own connect is in flight. */
  ghost predicate NoRemovalInFlight(f: Fleet, run: seq<Action>)
    requires Possible(f, run)
    decreases |run|
  {
    run != [] ==>
      && (run[0].Remove? ==> !InFlight(f, run[0].id))
      && NoRemovalInFlight(Next(f, run[0]), run[1..])
  }

  lemma ConsistentFinish(f: Fleet, k: nat, ok: bool, port: Option<nat>, useHttps: Option<bool>)
    requires Consistent(f) && CallsNamed(f) && Enabled(f, Finish(k, ok, port, useHttps))
    ensures
      var f' := Next(f, Finish(k, ok, port, useHttps));
      Consistent(f') && CallsNamed(f')
  {
    assert f.calls[k].id in f.managers;
    var f1 := f.(connecting := f.connecting - {f.calls[k].id}, calls := f.calls[k := f.calls[k].(pending := false)]);
    FirstUpIsFirst(f1.(up := f1.up - {f.calls[k].manager}), f.order);
  }

  lemma ConsistentKept(f: Fleet, a: Action)
    requires Consistent(f) && CallsNamed(f) && Enabled(f, a)
    requires a.Remove? ==> !InFlight(f, a.id)
    ensures Consistent(Next(f, a)) && CallsNamed(Next(f, a))
  {
    match a {
      case Remove(id) => WithoutIsExact(f.order, id, f.managers.Keys);
      case Finish(k, ok, port, useHttps) => ConsistentFinish(f, k, ok, port, useHttps);
      case _ =>
    }
  }

  /** Whatever is added, removed, selected, connected or updated, in any order: the
      manager and config keys coincide, and the active id is null exactly when there
      are no robots, else a configured robot. */
  lemma {:induction false} MapsStayConsistent(f: Fleet, run: seq<Action>)
    requires Consistent(f) && CallsNamed(f) && Possible(f, run) && NoRemovalInFlight(f, run)
    ensures Consistent(After(f, run))
    decreases |run|
  {
    if run != [] {
      ConsistentKept(f, run[0]);
      MapsStayConsistent(Next(f, run[0]), run[1..]);
    }
  }

  /** A connect succeeds for a robot removed meanwhile, and finds a new port or the
      active slot free. */
  predicate StrayFinish(f: Fleet, a: Action)
    requires Enabled(f, a)
  {
    a.Finish? && a.ok &&
    var c := f.calls[a.call];
    && c.id !in f.managers
    && ((a.port.Some? && a.port != c.config.port)
        || f.activeId.None?
        || (!ActiveUp(f) && f.activeId.value !in f.connecting - {c.id}))
  }

  /** These are the steps that break the maps. */
  lemma StepKeepsExactly(f: Fleet, a: Action)
    requires Consistent(f) && Enabled(f, a)
    ensures Consistent(Next(f, a)) <==> !StrayFinish(f, a)
  {
    match a {
      case Remove(id) => WithoutIsExact(f.order, id, f.managers.Keys);
      case Finish(k, ok, port, useHttps) => FinishKeepsExactly(f, k, ok, port, useHttps);
      case _ =>
    }
  }

  lemma FinishKeepsExactly(f: Fleet, k: nat, ok: bool, port: Option<nat>, useHttps: Option<bool>)
    requires Consistent(f) && Enabled(f, Finish(k, ok, port, useHttps))
    ensures
      var a := Finish(k, ok, port, useHttps);
      Consistent(Next(f, a)) <==> !StrayFinish(f, a)
  {
    var id := f.calls[k].id;
    var f1 := f.(connecting := f.connecting - {id}, calls := f.calls[k := f.calls[k].(pending := false)]);
    if ok {
      var f2 := if port.Some? && port != f.calls[k].config.port
                then f1.(configs := f1.configs[id := f.calls[k].config.(port := port, useHttps := useHttps)])
                else f1;
      assert ActiveUp(f2) == ActiveUp(f);
      assert id in f2.configs || f2.configs == f.configs;
    } else {
      FirstUpIsFirst(f1.(up := f1.up - {f.calls[k].manager}), f.order);
    }
  }

  ghost predicate AlwaysConsistent(f: Fleet, run: seq<Action>)
    requires Possible(f, run)
    decreases |run|
  {
    Consistent(f) && (run != [] ==> AlwaysConsistent(Next(f, run[0]), run[1..]))
  }

  ghost predicate NoStrayFinish(f: Fleet, run: seq<Action>)
    requires Possible(f, run)
    decreases |run|
  {
    run != [] ==> !StrayFinish(f, run[0]) && NoStrayFinish(Next(f, run[0]), run[1..])
  }

  /** In any interleaving, removals in flight included, the maps stay consistent exactly
      when no connect of a removed robot finishes with a new port or a free slot. */
  lemma {:induction false} ConsistentExactly(f: Fleet, run: seq<Action>)
    requires Consistent(f) && Possible(f, run)
    ensures AlwaysConsistent(f, run) <==> NoStrayFinish(f, run)
    decreases |run|
  {
    if run != [] {
      StepKeepsExactly(f, run[0]);
      if Consistent(Next(f, run[0])) { ConsistentExactly(Next(f, run[0]), run[1..]); }
    }
  }

  /** Removing a robot while it connects does break it: the cancelled connect resolves
      with its manager down, and that makes the removed robot active, and a new port
      brings its config back without a manager. */
  lemma RemovalInFlightBreaks(f: Fleet, config: Config)
    requires Initial(f) && config.port == Some(80)
    ensures
      var run := [Add("a", config), Start("a"), Remove("a"), Finish(0, true, Some(81), None)];
      && Possible(f, run)
      && After(f, run).managers == map[] && After(f, run).up == {}
      && After(f, run).activeId == Some("a") && After(f, run).configs.Keys == {"a"}
  {
    var a1, a2, a3, a4 := Add("a", config), Start("a"), Remove("a"), Finish(0, true, Some(81), None);
    var f1 := Next(f, a1);
    var f2 := Next(f1, a2);
    var f3 := Next(f2, a3);
    var f4 := Next(f3, a4);
    OneStep(f3, a4, f4, [], f4);
    OneStep(f2, a3, f3, [a4], f4);
    OneStep(f1, a2, f2, [a3, a4], f4);
    OneStep(f, a1, f1, [a2, a3, a4], f4);
    assert [a1] + [a2, a3, a4] == [a1, a2, a3, a4];
    assert f3.managers == map[] && f3.configs == map[];
  }

  // ─── The active slot ──────────────────────────────────────────────────────

  /** Only new robots are added, none is removed and none is selected by hand; and a
      connect that succeeds leaves its manager connected. */
  predicate OnlyConnects(f: Fleet, run: seq<Action>)
    requires Possible(f, run)
    decreases |run|
  {
    run != [] ==>
      && !run[0].Remove? && !run[0].SetActive?
      && (run[0].Add? ==> run[0].id !in f.managers)
      && (run[0].Finish? && run[0].ok ==> LandsUp(f, run[0]))
      && OnlyConnects(Next(f, run[0]), run[1..])
  }

  predicate LandsUp(f: Fleet, a: Action)
    requires Enabled(f, a) && a.Finish?
  {
    f.calls[a.call].manager in f.up
  }

  ghost predicate CallsCurrent(f: Fleet) {
    && (forall id | id in f.managers :: f.managers[id] < f.made)
    && (forall i | i in f.up :: i < f.made)
    && (forall k | 0 <= k < |f.calls| :: f.calls[k].id in f.managers && f.managers[f.calls[k].id] == f.calls[k].manager)
    && (forall id, other | id in f.managers && other in f.managers && id != other :: f.managers[id] != f.managers[other])
    && (forall id | id in f.connecting :: InFlight(f, id))
  }

  /** The active robot is connected or connecting, or no robot whose connect has
      finished is connected. */
  ghost predicate SlotHeld(f: Fleet) {
    (exists id :: id in f.managers && IsUp(f, id) && !InFlight(f, id)) ==>
      f.activeId.Some? && (IsUp(f, f.activeId.value) || InFlight(f, f.activeId.value))
  }

  /** Calls other than `k` are in flight before and after it finishes. */
  lemma FinishInFlight(f: Fleet, k: nat, f': Fleet)
    requires k < |f.calls| && f'.calls == f.calls[k := f.calls[k].(pending := false)]
    ensures forall id | InFlight(f', id) :: InFlight(f, id)
    ensures forall id | InFlight(f, id) && id != f.calls[k].id :: InFlight(f', id)
  {
    forall id | InFlight(f', id) ensures InFlight(f, id) {
      var j :| 0 <= j < |f'.calls| && f'.calls[j].id == id && f'.calls[j].pending;
      assert f.calls[j].id == id && f.calls[j].pending;
    }
    forall id | InFlight(f, id) && id != f.calls[k].id ensures InFlight(f', id) {
      var j :| 0 <= j < |f.calls| && f.calls[j].id == id && f.calls[j].pending;
      assert f'.calls[j].id == id && f'.calls[j].pending;
    }
  }

  lemma StartInFlight(f: Fleet, f': Fleet, c: Call)
    requires f'.calls == f.calls + [c]
    ensures forall id | InFlight(f, id) :: InFlight(f', id)
    ensures forall id | InFlight(f', id) :: InFlight(f, id) || (id == c.id && c.pending)
    ensures c.pending ==> InFlight(f', c.id)
  {
    forall id | InFlight(f, id) ensures InFlight(f', id) {
      var j :| 0 <= j < |f.calls| && f.calls[j].id == id && f.calls[j].pending;
      assert f'.calls[j] == f.calls[j];
    }
    forall id | InFlight(f', id) ensures InFlight(f, id) || (id == c.id && c.pending) {
      var j :| 0 <= j < |f'.calls| && f'.calls[j].id == id && f'.calls[j].pending;
      if j < |f.calls| { assert f.calls[j] == f'.calls[j]; }
    }
    if c.pending { assert f'.calls[|f.calls|] == c; }
  }

  ghost predicate SlotInv(f: Fleet) {
    Consistent(f) && CallsCurrent(f) && SlotHeld(f)
  }

  lemma AddedConsistent(f: Fleet, id: string, config: Config)
    requires Consistent(f) && id !in f.managers
    ensures Consistent(AddRobot(f, id, config))
  {
  }

  lemma AddedCalls(f: Fleet, id: string, config: Config)
    requires CallsCurrent(f) && id !in f.managers
    ensures CallsCurrent(AddRobot(f, id, config))
  {
    assert forall other :: InFlight(AddRobot(f, id, config), other) == InFlight(f, other);
  }

  /** Adding a robot is safe unless the active id is the empty string (which reads as
      no active robot) while some robot done connecting is connected. */
  ghost predicate SafeToAdd(f: Fleet) {
    f.activeId == Some("") ==> forall id | id in f.managers && IsUp(f, id) :: InFlight(f, id)
  }

  lemma AddKeeps(f: Fleet, id: string, config: Config)
    requires SlotInv(f) && id !in f.managers
    ensures SlotHeld(AddRobot(f, id, config)) <==> SafeToAdd(f)
    ensures SafeToAdd(f) ==> SlotInv(AddRobot(f, id, config))
  {
    var f' := AddRobot(f, id, config);
    AddedConsistent(f, id, config);
    AddedCalls(f, id, config);
    assert forall other :: InFlight(f', other) == InFlight(f, other);
    assert !IsUp(f', id);
    assert forall other | other in f.managers :: IsUp(f', other) == IsUp(f, other);
    assert !InFlight(f, id);
    if !SafeToAdd(f) {
      var other :| other in f.managers && IsUp(f, other) && !InFlight(f, other);
      assert other in f'.managers && IsUp(f', other) && !InFlight(f', other);
    }
  }

  lemma StartKeeps(f: Fleet, id: string)
    requires SlotInv(f) && id in f.managers && id in f.configs
    ensures SlotInv(Next(f, Start(id)))
  {
    var f' := Next(f, Start(id));
    StartInFlight(f, f', Call(id, f.managers[id], f.configs[id], true));
    assert forall other | other in f.managers :: IsUp(f', other) == IsUp(f, other);
  }

  lemma SwingKeeps(f: Fleet, k: nat, isUp: bool)
    requires SlotInv(f) && Enabled(f, Swing(k, isUp))
    ensures SlotInv(Next(f, Swing(k, isUp)))
  {
    var f' := Next(f, Swing(k, isUp));
    var id := f.calls[k].id;
    assert f'.calls == f.calls && InFlight(f', id);
    assert forall other | other in f.managers && other != id :: IsUp(f', other) == IsUp(f, other);
    assert forall other :: InFlight(f', other) == InFlight(f, other);
  }

  /** After a successful connect the slot is held by a robot that is up or connecting. */
  lemma ConnectedChoice(f: Fleet, id: string)
    requires Consistent(f) && IsUp(f, id)
    ensures
      var f' := ChooseActiveAfter(f, id, true);
      && Consistent(f')
      && f' == f.(activeId := f'.activeId)
      && f'.activeId.Some? && (IsUp(f, f'.activeId.value) || f'.activeId.value in f.connecting)
  {
  }

  lemma FinishOkKeeps(f: Fleet, k: nat, port: Option<nat>, useHttps: Option<bool>)
    requires SlotInv(f) && Enabled(f, Finish(k, true, port, useHttps)) && f.calls[k].manager in f.up
    ensures SlotInv(FinishCall(f, k, true, port, useHttps))
  {
    var c := f.calls[k];
    var f0 := f.(connecting := f.connecting - {c.id}, calls := f.calls[k := c.(pending := false)]);
    var f1 := if port.Some? && port != c.config.port
              then f0.(configs := f0.configs[c.id := c.config.(port := port, useHttps := useHttps)])
              else f0;
    assert Consistent(f1) && IsUp(f1, c.id);
    FinishInFlight(f, k, f1);
    ConnectedChoice(f1, c.id);
    var f' := ChooseActiveAfter(f1, c.id, true);
    assert forall other :: InFlight(f', other) == InFlight(f1, other);
    assert CallsCurrent(f') && SlotHeld(f');
  }

  /** After a failed connect the active robot is up, or connecting, or the failed one
      has handed the slot to the first robot that is up. */
  lemma FailedChoice(f: Fleet, id: string)
    requires Consistent(f) && !IsUp(f, id) && id !in f.connecting && id in f.managers
    ensures
      var f' := ChooseActiveAfter(f, id, false);
      && Consistent(f')
      && f' == f.(activeId := f'.activeId)
      && (f.activeId != Some(id) ==> f'.activeId == f.activeId)
      && (f.activeId == Some(id) && (exists other :: IsUp(f, other)) ==>
            f'.activeId.Some? && IsUp(f, f'.activeId.value))
  {
    FirstUpIsFirst(f, f.order);
  }

  lemma FinishFailedKeeps(f: Fleet, k: nat)
    requires SlotInv(f) && Enabled(f, Finish(k, false, None, None))
    ensures SlotInv(FinishCall(f, k, false, None, None))
  {
    var id := f.calls[k].id;
    var f1 := f.(connecting := f.connecting - {id}, calls := f.calls[k := f.calls[k].(pending := false)],
                 up := f.up - {f.calls[k].manager});
    FinishInFlight(f, k, f1);
    assert Consistent(f1);
    assert forall other | other in f.managers && other != id :: IsUp(f1, other) == IsUp(f, other);
    FailedChoice(f1, id);
    var f' := ChooseActiveAfter(f1, id, false);
    assert forall other :: InFlight(f', other) == InFlight(f1, other);
    assert forall other :: IsUp(f', other) == IsUp(f1, other);
    assert CallsCurrent(f') && SlotHeld(f');
  }

  lemma SlotInvKept(f: Fleet, a: Action)
    requires SlotInv(f) && Enabled(f, a)
    requires !a.Remove? && !a.SetActive? && !a.Add? && (a.Finish? && a.ok ==> LandsUp(f, a))
    ensures SlotInv(Next(f, a))
  {
    match a {
      case Start(id) => if id in f.managers && id in f.configs { StartKeeps(f, id); }
      case Swing(k, isUp) => SwingKeeps(f, k, isUp);
      case Finish(k, ok, port, useHttps) =>
        if ok { FinishOkKeeps(f, k, port, useHttps); } else { FinishFailedKeeps(f, k); }
    }
  }

  ghost predicate AlwaysHeld(f: Fleet, run: seq<Action>)
    requires Possible(f, run)
    decreases |run|
  {
    SlotHeld(f) && (run != [] ==> AlwaysHeld(Next(f, run[0]), run[1..]))
  }

  ghost predicate AddsAreSafe(f: Fleet, run: seq<Action>)
    requires Possible(f, run)
    decreases |run|
  {
    run != [] ==> (run[0].Add? ==> SafeToAdd(f)) && AddsAreSafe(Next(f, run[0]), run[1..])
  }

  lemma {:induction false} HeldExactly(f: Fleet, run: seq<Action>)
    requires SlotInv(f) && Possible(f, run) && OnlyConnects(f, run)
    ensures AlwaysHeld(f, run) <==> AddsAreSafe(f, run)
    ensures AddsAreSafe(f, run) ==> SlotInv(After(f, run))
    decreases |run|
  {
    if run != [] {
      var a := run[0];
      if a.Add? { AddKeeps(f, a.id, a.config); } else { SlotInvKept(f, a); }
      if a.Add? && !SafeToAdd(f) {
        assert !SlotHeld(Next(f, a));
      } else {
        HeldExactly(Next(f, a), run[1..]);
      }
    }
  }

  /** In every order of connect starts and finishes, the active robot is connected, or
      connecting, or no robot that is done connecting is connected: at every moment,
      exactly when no robot was added while the empty id was active and a robot was
      connected. */
  lemma ActiveFollowsConnects(f0: Fleet, run: seq<Action>)
    requires Initial(f0) && Possible(f0, run) && OnlyConnects(f0, run)
    ensures AlwaysHeld(f0, run) <==> AddsAreSafe(f0, run)
  {
    HeldExactly(f0, run);
  }

  /** So with nothing in flight a connected robot means a connected active one. */
  lemma QuietFleetShowsAConnectedRobot(f0: Fleet, run: seq<Action>, id: string)
    requires Initial(f0) && Possible(f0, run) && OnlyConnects(f0, run) && AddsAreSafe(f0, run)
    requires (forall other :: !InFlight(After(f0, run), other)) && IsUp(After(f0, run), id)
    ensures After(f0, run).activeId.Some? && IsUp(After(f0, run), After(f0, run).activeId.value)
  {
    HeldExactly(f0, run);
  }

  /** A robot whose id is the empty string loses the slot although it is connected:
      its id is falsy, so the next robot added takes the slot, connected or not. */
  lemma EmptyIdLosesTheSlot(f: Fleet, c: Config)
    requires Initial(f) && c.port == None
    ensures
      var run := [Add("", c), Start(""), Swing(0, true), Finish(0, true, None, None), Add("b", c)];
      && Possible(f, run)
      && After(f, run).activeId == Some("b") && !IsUp(After(f, run), "b")
      && IsUp(After(f, run), "") && forall id :: !InFlight(After(f, run), id)
  {
    var a1, a2, a3, a4, a5 := Add("", c), Start(""), Swing(0, true), Finish(0, true, None, None), Add("b", c);
    var f1 := Next(f, a1);
    var f2 := Next(f1, a2);
    var f3 := Next(f2, a3);
    var f4 := Next(f3, a4);
    var f5 := Next(f4, a5);
    OneStep(f4, a5, f5, [], f5);
    OneStep(f3, a4, f4, [a5], f5);
    OneStep(f2, a3, f3, [a4, a5], f5);
    OneStep(f1, a2, f2, [a3, a4, a5], f5);
    OneStep(f, a1, f1, [a2, a3, a4, a5], f5);
    assert [a1] + [a2, a3, a4, a5] == [a1, a2, a3, a4, a5];
  }
}

/** The manager as the source has it: an object that updates its maps, its set of
    connecting robots and its active id. Each method is a step of module MultiRobot. */
module MultiRobotFleet {
  import opened Maybe
  import opened MultiRobot

  class MultiRobotManager {
    /** The manager map's keys in insertion order, and its values. */
    var order: seq<string>
    var managers: map<string, nat>
    var configMap: map<string, Config>
    var activeId: Option<string>
    var connecting: set<string>
    var calls: seq<Call>
    /** Which managers are connected; their own code and the environment say so. */
    var up: set<nat>
    /** Which managers were told to disconnect, so that no connect brings them up. */
    var cancelled: set<nat>
    var made: nat

    constructor ()
      ensures Initial(State())
    {
      order, managers, configMap, activeId := [], map[], map[], None;
      connecting, calls, up, cancelled, made := {}, [], {}, {}, 0;
    }

    function State(): Fleet
      reads this
    {
      Fleet(order, managers, configMap, activeId, connecting, calls, up, cancelled, made)
    }

    method AddRobot(id: string, config: Config)
      modifies this
      ensures State() == Next(old(State()), Add(id, config))
    {
      if id !in managers { order := order + [id]; }
      managers := managers[id := made];
      made := made + 1;
      configMap := configMap[id := config];
      if Falsy(activeId) { activeId := Some(id); }
    }

    method RemoveRobot(id: string)
      modifies this
      ensures State() == Next(old(State()), Remove(id))
    {
      if id in managers { cancelled := cancelled + {managers[id]}; }
      order := Without(order, id);
      managers := managers - {id};
      configMap := configMap - {id};
      if activeId == Some(id) { activeId := if order == [] then None else Some(order[0]); }
    }

    method SetActive(id: string)
      modifies this
      ensures State() == Next(old(State()), Action.SetActive(id))
    {
      if id in managers { activeId := Some(id); }
    }

    /** connectRobot up to its await. */
    method StartConnect(id: string) returns (found: bool)
      modifies this
      ensures State() == Next(old(State()), Start(id))
      ensures found == (id in managers && id in configMap)
    {
      found := id in managers && id in configMap;
      if found {
        connecting := connecting + {id};
        calls := calls + [Call(id, managers[id], configMap[id], true)];
      }
    }

    /** connectRobot after its await, which threw unless `ok`. */
    method FinishConnect(k: nat, ok: bool, port: Option<nat>, useHttps: Option<bool>)
      requires Enabled(State(), Finish(k, ok, port, useHttps))
      modifies this
      ensures State() == Next(old(State()), Finish(k, ok, port, useHttps))
    {
      var c := calls[k];
      calls := calls[k := c.(pending := false)];
      connecting := connecting - {c.id};
      if !ok {
        up := up - {c.manager};
      } else if port.Some? && port != c.config.port {
        configMap := configMap[c.id := c.config.(port := port, useHttps := useHttps)];
      }
      ChooseActive(c.id, ok);
    }

    method ChooseActive(id: string, ok: bool)
      modifies this`activeId
      ensures State() == ChooseActiveAfter(old(State()), id, ok)
    {
      if activeId.Some? && (ActiveUp(State()) || activeId.value in connecting) { return; }
      if ok {
        activeId := Some(id);
        return;
      }
      if activeId == Some(id) {
        var k := 0;
        while k < |order| && !IsUp(State(), order[k])
          invariant k <= |order| && State() == old(State())
          invariant FirstUp(State(), order) == FirstUp(State(), order[k..])
        {
          assert order[k..][1..] == order[k + 1..];
          k := k + 1;
        }
        if k < |order| { activeId := Some(order[k]); }
      }
    }
  }
}
