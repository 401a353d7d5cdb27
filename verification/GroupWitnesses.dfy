/** Runs that show each way a group or an entry is lost. */
module GroupWitnesses {
  import opened Maybe
  import opened SubscriptionBody
  import opened Groups
  import opened GroupInvariants
  import opened GroupRuns
  import opened GroupLeaks

  ghost predicate Runs(s: State, run: seq<Action>, end: State) {
    Possible(s, run) && After(s, run) == end
  }

  /** One step in front of a run. */
  lemma First(s: State, a: Action, s1: State, rest: seq<Action>, end: State)
    requires Enabled(s, a) && Next(s, a) == s1 && Runs(s1, rest, end)
    ensures Runs(s, [a] + rest, end)
  {
    assert ([a] + rest)[1..] == rest;
  }

  /** A flow under this id, with what it holds. */
  function Under(pc: Pc, id: string, held: Option<string>): Flow {
    Flow(pc, id, None, held, [], [], 1, pc.Resting? || Registering(pc), false, false, false, 0)
  }

  /** The answer of a create that refused nothing. */
  function Created1(id: string): Action { Reply(Created(id, [])) }

  /** A subscribe, up to the open of its socket: flow t gets this id. */
  function Subscribing(t: nat, id: string): seq<Action> {
    [Subscribe] + ([Created1(id)] + ([Continue(t)] + [Opened(t, true)]))
  }

  /** One subscription, open under "1". */
  function Open(): State {
    State([Under(Resting, "1", Some("1"))], map["1" := 0], [], {"1"}, {})
  }

  /** The same session with one more flow. */
  function With(s: State, f: Flow, queue: seq<Req>, groups: set<string>): State {
    s.(flows := s.flows + [f], queue := queue, groups := groups)
  }

  function Opened1(s: State): State {
    With(s, Under(Resting, "1", Some("1")), [], s.groups + {"1"}).(table := s.table["1" := |s.flows|])
  }

  lemma Opens(s: State)
    requires s.queue == [] && "1" !in s.groups
    ensures
      var f := Under(Posting(false, false), "", Some("1")).(answer := Some(Created("1", [])));
      Runs(With(s, f, [], s.groups + {"1"}), [Continue(|s.flows|)] + [Opened(|s.flows|, true)], Opened1(s))
  {
    var t := |s.flows|;
    var f := Under(Posting(false, false), "", Some("1")).(answer := Some(Created("1", [])));
    var s2 := With(s, f, [], s.groups + {"1"});
    var s3 := With(s, Under(Opening, "1", Some("1")), [], s.groups + {"1"}).(table := s.table["1" := t]);
    assert !HasPanel([]);
    assert Next(s3, Opened(t, true)) == Opened1(s);
    First(s3, Opened(t, true), Opened1(s), [], Opened1(s));
    assert Next(s2, Continue(t)) == s3;
    First(s2, Continue(t), s3, [Opened(t, true)], Opened1(s));
  }

  lemma IsAnswered(s: State, rest: seq<Action>, end: State)
    requires "1" !in s.groups
    requires
      var f := Under(Posting(false, false), "", Some("1")).(answer := Some(Created("1", [])));
      Runs(With(s, f, [], s.groups + {"1"}), rest, end)
    ensures Runs(With(s, Under(Posting(false, false), "", None), [Create(|s.flows|)], s.groups), [Created1("1")] + rest, end)
  {
    var f := Under(Posting(false, false), "", None);
    var s1 := With(s, f, [Create(|s.flows|)], s.groups);
    var s2 := With(s, f.(answer := Some(Created("1", [])), held := Some("1")), [], s.groups + {"1"});
    assert Next(s1, Created1("1")) == s2;
    First(s1, Created1("1"), s2, rest, end);
  }

  lemma Creates(s: State, rest: seq<Action>, end: State)
    requires s.queue == []
    requires Runs(With(s, Under(Posting(false, false), "", None), [Create(|s.flows|)], s.groups), rest, end)
    ensures Runs(s, [Subscribe] + rest, end)
  {
    var s1 := With(s, Under(Posting(false, false), "", None), [Create(|s.flows|)], s.groups);
    assert Next(s, Subscribe) == s1;
    First(s, Subscribe, s1, rest, end);
  }

  /** A subscribe behind any flows, where no group "1" is on the controller. */
  lemma Subscribes(s: State)
    requires s.queue == [] && "1" !in s.groups
    ensures Runs(s, Subscribing(|s.flows|, "1"), Opened1(s))
  {
    Opens(s);
    IsAnswered(s, [Continue(|s.flows|)] + [Opened(|s.flows|, true)], Opened1(s));
    Creates(s, [Created1("1")] + ([Continue(|s.flows|)] + [Opened(|s.flows|, true)]), Opened1(s));
  }

  lemma OpensFirst(s0: State)
    requires Initial(s0)
    ensures Runs(s0, Subscribing(0, "1"), Open())
  {
    Subscribes(s0);
    assert s0.flows + [Under(Resting, "1", Some("1"))] == Open().flows;
  }

  // ─── Groups left behind ───────────────────────────────────────────────────

  /** Stopped, with a group "2" and its entry. */
  function Leaked(): State {
    State([Under(Resting, "2", Some("2")).(closed := true)], map["2" := 0], [], {"2"}, {})
  }

  /** The one flow of a session, while it re-registers. */
  function Only(f: Flow, queue: seq<Req>, entry: bool, groups: set<string>): State {
    State([f], if entry then map["1" := 0] else map[], queue, groups, {})
  }

  function Stopped(pc: Pc, held: Option<string>): Flow { Under(pc, "1", held).(closed := true) }

  /** Closed and answered with the group "2", which it keeps. */
  function Answered2(queue: seq<Req>): State {
    Only(Stopped(Posting(false, true), Some("2")).(answer := Some(Created("2", []))), queue, false, {"2"})
  }

  lemma StopsReleasing(rest: seq<Action>, end: State)
    requires
      var f := Stopped(Releasing, None).(answer := Some(Deleted));
      Runs(Only(f, [Delete("1", None)], false, {}), rest, end)
    ensures Runs(Open(), [ReRegister(0)] + ([Stop(0)] + ([Reply(Deleted)] + rest)), end)
  {
    var mine, stop := Delete("1", Some(0)), Delete("1", None);
    var s1 := Only(Under(Releasing, "1", Some("1")), [mine], true, {"1"});
    var s2 := Only(Stopped(Releasing, Some("1")), [mine, stop], false, {"1"});
    var s3 := Only(Stopped(Releasing, None).(answer := Some(Deleted)), [stop], false, {});
    assert Next(s2, Reply(Deleted)) == s3;
    First(s2, Reply(Deleted), s3, rest, end);
    assert Next(s1, Stop(0)) == s2;
    First(s1, Stop(0), s2, [Reply(Deleted)] + rest, end);
    assert Next(Open(), ReRegister(0)) == s1;
    First(Open(), ReRegister(0), s1, [Stop(0)] + ([Reply(Deleted)] + rest), end);
  }

  lemma CreateAnswered(rest: seq<Action>, end: State)
    requires Runs(Answered2([]), rest, end)
    ensures Runs(Only(Stopped(Posting(false, true), None), [Delete("1", None), Create(0)], false, {}),
                 [Reply(Deleted)] + ([Created1("2")] + rest), end)
  {
    var s4 := Only(Stopped(Posting(false, true), None), [Delete("1", None), Create(0)], false, {});
    var s5 := s4.(queue := [Create(0)]);
    assert Next(s5, Created1("2")) == Answered2([]);
    First(s5, Created1("2"), Answered2([]), rest, end);
    assert Next(s4, Reply(Deleted)) == s5;
    First(s4, Reply(Deleted), s5, [Created1("2")] + rest, end);
  }

  lemma CreatesAgain(rest: seq<Action>, end: State)
    requires Runs(Only(Stopped(Posting(false, true), None), [Delete("1", None), Create(0)], false, {}), rest, end)
    ensures
      var f := Stopped(Releasing, None).(answer := Some(Deleted));
      Runs(Only(f, [Delete("1", None)], false, {}), [Continue(0)] + rest, end)
  {
    var s3 := Only(Stopped(Releasing, None).(answer := Some(Deleted)), [Delete("1", None)], false, {});
    var s4 := Only(Stopped(Posting(false, true), None), [Delete("1", None), Create(0)], false, {});
    assert Next(s3, Continue(0)) == s4;
    First(s3, Continue(0), s4, rest, end);
  }

  lemma KeepsIt()
    ensures Runs(Answered2([]), [Continue(0)], Leaked())
  {
    assert !HasPanel([]);
    assert Next(Answered2([]), Continue(0)) == Leaked();
    First(Answered2([]), Continue(0), Leaked(), [], Leaked());
  }

  /** The stop lands while the DELETE of the old group is awaited; the create that follows
      is not cut, and its group stays. */
  lemma StopDuringReRegisterLeaks()
    ensures
      var created := [Reply(Deleted)] + ([Created1("2")] + [Continue(0)]);
      Runs(Open(), [ReRegister(0)] + ([Stop(0)] + ([Reply(Deleted)] + ([Continue(0)] + created))), Leaked())
  {
    KeepsIt();
    CreateAnswered([Continue(0)], Leaked());
    CreatesAgain([Reply(Deleted)] + ([Created1("2")] + [Continue(0)]), Leaked());
    StopsReleasing([Continue(0)] + ([Reply(Deleted)] + ([Created1("2")] + [Continue(0)])), Leaked());
  }

  /** Nothing is under way then. */
  lemma LeakedIsLeftBehind()
    ensures Quiet(Leaked()) && Strayed(Leaked().flows[0], Leaked().queue)
    ensures Leaked().groups == {"2"} && Leaked().table == map["2" := 0]
  {
  }

  lemma AnsweredInTime(rest: seq<Action>, end: State)
    requires
      var f := Under(Posting(false, true), "1", None);
      Runs(Only(f, [Create(0)], true, {}), rest, end)
    ensures Runs(Open(), [ReRegister(0)] + ([Reply(Deleted)] + ([Continue(0)] + rest)), end)
  {
    var s1 := Only(Under(Releasing, "1", Some("1")), [Delete("1", Some(0))], true, {"1"});
    var s2 := Only(Under(Releasing, "1", None).(answer := Some(Deleted)), [], true, {});
    var s3 := Only(Under(Posting(false, true), "1", None), [Create(0)], true, {});
    assert Next(s2, Continue(0)) == s3;
    First(s2, Continue(0), s3, rest, end);
    assert Next(s1, Reply(Deleted)) == s2;
    First(s1, Reply(Deleted), s2, [Continue(0)] + rest, end);
    assert Next(Open(), ReRegister(0)) == s1;
    First(Open(), ReRegister(0), s1, [Reply(Deleted)] + ([Continue(0)] + rest), end);
  }

  lemma StopsAnswered(rest: seq<Action>, end: State)
    requires Runs(Answered2([Delete("1", None)]), rest, end)
    ensures
      var f := Under(Posting(false, true), "1", None);
      Runs(Only(f, [Create(0)], true, {}), [Created1("2")] + ([Stop(0)] + rest), end)
  {
    var f := Under(Posting(false, true), "1", Some("2")).(answer := Some(Created("2", [])));
    var s3 := Only(Under(Posting(false, true), "1", None), [Create(0)], true, {});
    var s4 := Only(f, [], true, {"2"});
    var s5 := Answered2([Delete("1", None)]);
    assert Next(s4, Stop(0)) == s5;
    First(s4, Stop(0), s5, rest, end);
    assert Next(s3, Created1("2")) == s4;
    First(s3, Created1("2"), s4, [Stop(0)] + rest, end);
  }

  lemma KeepsItBehindTheStop()
    ensures Runs(Answered2([Delete("1", None)]), [Continue(0)] + [Reply(Deleted)], Leaked())
  {
    var s6 := Leaked().(queue := [Delete("1", None)]);
    assert !HasPanel([]);
    assert Next(s6, Reply(Deleted)) == Leaked();
    First(s6, Reply(Deleted), Leaked(), [], Leaked());
    assert Next(Answered2([Delete("1", None)]), Continue(0)) == s6;
    First(Answered2([Delete("1", None)]), Continue(0), s6, [Reply(Deleted)], Leaked());
  }

  /** The stop lands when the 201 has arrived and is not acted on yet: there is nothing left
      to cut. */
  lemma StopBehindTheAnswerLeaks()
    ensures
      var kept := [Created1("2")] + ([Stop(0)] + ([Continue(0)] + [Reply(Deleted)]));
      Runs(Open(), [ReRegister(0)] + ([Reply(Deleted)] + ([Continue(0)] + kept)), Leaked())
  {
    KeepsItBehindTheStop();
    StopsAnswered([Continue(0)] + [Reply(Deleted)], Leaked());
    AnsweredInTime([Created1("2")] + ([Stop(0)] + ([Continue(0)] + [Reply(Deleted)])), Leaked());
  }

  /** A second call of the unsubscribe function, or closeAll, takes the group back. */
  lemma SecondStopSweeps()
    ensures
      var swept := State([Stopped(Resting, None).(id := "2")], map[], [], {}, {});
      && Runs(Leaked(), [Stop(0)] + [Reply(Deleted)], swept)
      && Runs(Leaked(), [CloseAll(["2"])] + [Reply(Deleted)], swept)
  {
    var swept := State([Stopped(Resting, None).(id := "2")], map[], [], {}, {});
    var s1 := Leaked().(table := map[], queue := [Delete("2", None)]);
    assert Next(s1, Reply(Deleted)) == swept;
    First(s1, Reply(Deleted), swept, [], swept);
    assert Next(Leaked(), Stop(0)) == s1;
    First(Leaked(), Stop(0), s1, [Reply(Deleted)], swept);
    assert Asks(Leaked(), CloseAll(["2"])) == [Delete("2", None)];
    assert Next(Leaked(), CloseAll(["2"])) == s1;
    First(Leaked(), CloseAll(["2"]), s1, [Reply(Deleted)], swept);
  }

  // ─── Entries taken from others ────────────────────────────────────────────

  function GivenUp(held: Option<string>): Flow { Under(Resting, "1", held).(gaveUp := true) }

  /** The stream is lost, and its group deleted. */
  function Gone(): State { State([GivenUp(None)], map[], [], {}, {}) }

  /** Flow 1 is live, without a group and without an entry. */
  function Robbed(): State {
    State([GivenUp(None).(closed := true), Under(Resting, "1", None)], map[], [], {}, {})
  }

  lemma GivesUp()
    ensures Runs(Open(), [GiveUp(0)] + [Reply(Deleted)], Gone())
  {
    var s1 := State([GivenUp(Some("1"))], map[], [Delete("1", None)], {"1"}, {});
    assert Next(s1, Reply(Deleted)) == Gone();
    First(s1, Reply(Deleted), Gone(), [], Gone());
    assert Next(Open(), GiveUp(0)) == s1;
    First(Open(), GiveUp(0), s1, [Reply(Deleted)], Gone());
  }

  lemma LosesItsGroup()
    ensures
      var flows := [GivenUp(None).(closed := true), Under(Resting, "1", Some("1"))];
      Runs(State(flows, map[], [Delete("1", None)], {"1"}, {}), [Reply(Deleted)], Robbed())
  {
    var flows := [GivenUp(None).(closed := true), Under(Resting, "1", Some("1"))];
    var s1 := State(flows, map[], [Delete("1", None)], {"1"}, {});
    assert Next(s1, Reply(Deleted)) == Robbed();
    First(s1, Reply(Deleted), Robbed(), [], Robbed());
  }

  lemma StopsLate()
    ensures Runs(Opened1(Gone()), [Stop(0)] + [Reply(Deleted)], Robbed())
  {
    var flows := [GivenUp(None).(closed := true), Under(Resting, "1", Some("1"))];
    var s1 := State(flows, map[], [Delete("1", None)], {"1"}, {});
    LosesItsGroup();
    assert Next(Opened1(Gone()), Stop(0)) == s1;
    First(Opened1(Gone()), Stop(0), s1, [Reply(Deleted)], Robbed());
  }

  lemma StopTrespasses()
    ensures Trespass(Opened1(Gone()), Stop(0))
  {
    assert Displaces(Opened1(Gone()), Stop(0), 1);
  }

  /** A stream is given up, and the controller gives the id of its group to the next
      subscription. Stopping the first one then takes away the second one's entry and
      deletes its group. */
  lemma LateStopHitsAnother()
    ensures Runs(Open(), [GiveUp(0)] + [Reply(Deleted)], Gone())
    ensures Runs(Gone(), Subscribing(1, "1"), Opened1(Gone()))
    ensures Runs(Opened1(Gone()), [Stop(0)] + [Reply(Deleted)], Robbed())
    ensures Trespass(Opened1(Gone()), Stop(0))
    ensures Live(Robbed().flows[1]) && Robbed().flows[1].held == None && !InTable(Robbed(), 1)
  {
    GivesUp();
    Subscribes(Gone());
    StopsLate();
    StopTrespasses();
  }

  /** Restarted, and the subscription does not know yet. */
  function Restarted(): State {
    Open().(flows := [Under(Resting, "1", None)], groups := {})
  }

  /** The controller restarts and gives the id of a live subscription's lost group to the
      next one, whose entry overwrites the first one's. */
  lemma RestartReissuesAnId()
    ensures Runs(Open(), [Restart], Restarted())
    ensures Runs(Restarted(), Subscribing(1, "1"), Opened1(Restarted()))
    ensures Live(Opened1(Restarted()).flows[0]) && !InTable(Opened1(Restarted()), 0)
  {
    assert Next(Open(), Restart) == Restarted();
    First(Open(), Restart, Restarted(), [], Restarted());
    Subscribes(Restarted());
  }

  // ─── A create that is not answered ────────────────────────────────────────

  /** Its create timed out, and nothing was answered. */
  function TimedOut(unanswered: nat, groups: set<string>): State {
    State([Under(Posting(false, false), "", None).(answer := Some(Unanswered), unanswered := unanswered)], map[], [],
          groups, groups)
  }

  lemma TimesOut(s0: State, rest: seq<Action>, end: State)
    requires Initial(s0) && Runs(TimedOut(1, {}), rest, end)
    ensures Runs(s0, [Subscribe] + ([Reply(Unanswered)] + rest), end)
  {
    var s1 := State([Under(Posting(false, false), "", None)], map[], [Create(0)], {}, {});
    assert Next(s1, Reply(Unanswered)) == TimedOut(1, {});
    First(s1, Reply(Unanswered), TimedOut(1, {}), rest, end);
    assert Next(s0, Subscribe) == s1;
    First(s0, Subscribe, s1, [Reply(Unanswered)] + rest, end);
  }

  lemma ComesLate()
    ensures Runs(TimedOut(1, {}), [LateGroup(0, "1")], TimedOut(0, {"1"}))
    ensures !Enabled(TimedOut(0, {"1"}), LateGroup(0, "2"))
  {
    assert Next(TimedOut(1, {}), LateGroup(0, "1")) == TimedOut(0, {"1"});
    First(TimedOut(1, {}), LateGroup(0, "1"), TimedOut(0, {"1"}), [], TimedOut(0, {"1"}));
  }

  /** The controller completes it later, once, and nobody holds the group. */
  lemma UnansweredCreateAbandons(s0: State)
    requires Initial(s0)
    ensures Runs(s0, [Subscribe] + ([Reply(Unanswered)] + [LateGroup(0, "1")]), TimedOut(0, {"1"}))
    ensures !Enabled(TimedOut(0, {"1"}), LateGroup(0, "2"))
    ensures TimedOut(0, {"1"}).abandoned == {"1"} && TimedOut(0, {"1"}).flows[0].held == None
  {
    ComesLate();
    TimesOut(s0, [LateGroup(0, "1")], TimedOut(0, {"1"}));
  }
}
