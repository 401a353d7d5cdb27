/** What selecting and connecting come to over whole runs (setActive and connectRobot in
    src/MultiRobotManager.ts). */
module FleetEffects {
  import opened Maybe
  import opened MultiRobot

  // ─── Selecting ────────────────────────────────────────────────────────────

  /** The robot is connected, or its connect is in flight; nobody removes it or selects
      another one. */
  predicate StaysUp(f: Fleet, run: seq<Action>, id: string)
    requires Possible(f, run)
    decreases |run|
  {
    && (IsUp(f, id) || id in f.connecting)
    && (run != [] ==>
          && run[0] != Remove(id) && !(run[0].SetActive? && run[0].id != id)
          && StaysUp(Next(f, run[0]), run[1..], id))
  }

  lemma KeptActive(f: Fleet, a: Action, id: string)
    requires Enabled(f, a) && f.activeId == Some(id) && id != "" && a != Remove(id)
    requires !(a.SetActive? && a.id != id)
    requires IsUp(Next(f, a), id) || id in Next(f, a).connecting
    ensures Next(f, a).activeId == Some(id)
  {
    if a.Finish? {
      var c := f.calls[a.call];
      var f1 := f.(connecting := f.connecting - {c.id}, calls := f.calls[a.call := c.(pending := false)]);
      FirstUpIsFirst(f1.(up := f1.up - {c.manager}), f.order);
    }
  }

  lemma {:induction false} StaysActive(f: Fleet, run: seq<Action>, id: string)
    requires Possible(f, run) && StaysUp(f, run, id) && f.activeId == Some(id) && id != ""
    ensures After(f, run).activeId == Some(id)
    decreases |run|
  {
    if run != [] {
      KeptActive(f, run[0], id);
      StaysActive(Next(f, run[0]), run[1..], id);
    }
  }

  /** Selecting a configured robot makes it active, and it stays so through every connect
      that ends, every robot added and every other one removed, while it is connected or
      connecting. Selecting an unknown one changes nothing. */
  lemma SelectionHolds(f: Fleet, id: string, run: seq<Action>)
    requires id != "" && Possible(Next(f, SetActive(id)), run)
    ensures id !in f.managers ==> Next(f, SetActive(id)) == f
    ensures id in f.managers ==> Next(f, SetActive(id)) == f.(activeId := Some(id))
    ensures id in f.managers && StaysUp(Next(f, SetActive(id)), run, id) ==>
              After(Next(f, SetActive(id)), run).activeId == Some(id)
  {
    if id in f.managers && StaysUp(Next(f, SetActive(id)), run, id) { StaysActive(Next(f, SetActive(id)), run, id); }
  }

  // ─── The port found ───────────────────────────────────────────────────────

  /** The configuration with the port and protocol a connect found. */
  function Found(c: Config, port: Option<nat>, useHttps: Option<bool>): Config {
    if port.Some? && port != c.port then Config(c.host, port, useHttps) else c
  }

  /** A connect that succeeds keeps the port it found, when that is a new one: the robot's
      next connect begins with it. One that fails, or finds no other port, leaves every
      configuration as it is; no other robot's changes. */
  lemma NextConnectUsesThePort(f: Fleet, k: nat, ok: bool, port: Option<nat>, useHttps: Option<bool>)
    requires Enabled(f, Finish(k, ok, port, useHttps))
    ensures
      var c := f.calls[k];
      var f1 := Next(f, Finish(k, ok, port, useHttps));
      && (forall id | id in f.configs && id != c.id :: id in f1.configs && f1.configs[id] == f.configs[id])
      && (forall id | id in f1.configs && id != c.id :: id in f.configs)
      && (!ok || port.None? || port == c.config.port ==> f1.configs == f.configs)
      && (ok && port.Some? && port != c.config.port && c.id in f.managers ==>
            && Next(f1, Start(c.id)).calls == f1.calls + [Call(c.id, f.managers[c.id], Found(c.config, port, useHttps), true)]
            && Next(f1, Start(c.id)).connecting == f1.connecting + {c.id})
      && !f1.calls[k].pending && f1.connecting == f.connecting - {c.id}
  {
  }

  // ─── Managers that go up and down ─────────────────────────────────────────

  /** While a connect runs its manager can go down, and up unless it was cancelled; no other
      manager changes. */
  lemma SwingIsOfItsManager(f: Fleet, k: nat, isUp: bool)
    requires k < |f.calls| && f.calls[k].pending
    ensures Enabled(f, Swing(k, isUp)) <==> !isUp || f.calls[k].manager !in f.cancelled
    ensures Enabled(f, Swing(k, isUp)) ==>
              forall m: nat :: m in Next(f, Swing(k, isUp)).up <==> if m == f.calls[k].manager then isUp else m in f.up
  {
  }

  lemma {:induction false} CancelledStaysDown(f: Fleet, run: seq<Action>, m: nat)
    requires Possible(f, run) && m in f.cancelled && m !in f.up
    ensures m in After(f, run).cancelled && m !in After(f, run).up
    decreases |run|
  {
    if run != [] { CancelledStaysDown(Next(f, run[0]), run[1..], m); }
  }

  /** The manager of a robot that was removed while it was down never comes up again,
      whatever connects still run. */
  lemma RemovedStaysDown(f: Fleet, id: string, run: seq<Action>)
    requires id in f.managers && !IsUp(f, id) && Possible(Next(f, Remove(id)), run)
    ensures f.managers[id] !in After(Next(f, Remove(id)), run).up
    ensures id !in Next(f, Remove(id)).managers && id !in Next(f, Remove(id)).configs
  {
    CancelledStaysDown(Next(f, Remove(id)), run, f.managers[id]);
  }
}
