/** The bounded threaded dashboard server: request slots, handler snapshots and worker threads. */
module HttpServer {
  import opened Outcomes
  import Numbers

  /** A request is an accepted socket object, never reused. */
  type Request = nat

  datatype Handler = Handler(name: string)

  /** Where a request stands, from taking its slot to giving it back. */
  datatype Stage = Acquired | Snapshotted | Running | Popped | Done

  datatype State = State(
    free: int,
    handler: Option<Handler>,
    snapshots: map<Request, Option<Handler>>,
    stage: map<Request, Stage>)

  /**
   * The atomic steps. `Pop` and `Release` are taken by the listener when the worker cannot be
   * spawned and by the worker when it finishes. `Install` is `serve_once` or `close`, at any time.
   */
  datatype Event =
    | Install(handler: Option<Handler>)
    | Acquire(r: Request)
    | Snapshot(r: Request)
    | Spawn(r: Request)
    | Look(r: Request)
    | Pop(r: Request)
    | Release(r: Request)

  predicate StageIs(s: State, r: Request, stage: Stage)
  {
    r in s.stage && s.stage[r] == stage
  }

  predicate Enabled(s: State, e: Event)
  {
    match e
    case Install(_) => true
    case Acquire(r) => s.free > 0 && r !in s.stage
    case Snapshot(r) => StageIs(s, r, Acquired)
    case Spawn(r) => StageIs(s, r, Snapshotted)
    case Look(r) => StageIs(s, r, Running)
    case Pop(r) => StageIs(s, r, Snapshotted) || StageIs(s, r, Running)
    case Release(r) => StageIs(s, r, Popped)
  }

  function Apply(s: State, e: Event): (t: State)
  {
    match e
    case Install(h) => s.(handler := h)
    case Acquire(r) => s.(free := s.free - 1, stage := s.stage[r := Acquired])
    case Snapshot(r) => s.(snapshots := s.snapshots[r := s.handler], stage := s.stage[r := Snapshotted])
    case Spawn(r) => s.(stage := s.stage[r := Running])
    case Look(_) => s
    case Pop(r) => s.(snapshots := s.snapshots - {r}, stage := s.stage[r := Popped])
    case Release(r) => s.(free := s.free + 1, stage := s.stage[r := Done])
  }

  function Start(maximum: nat): (s: State)
  {
    State(maximum, None, map[], map[])
  }

  function Run(s: State, events: seq<Event>): (t: State)
    decreases |events|
  {
    if events == [] then s else Run(Apply(s, events[0]), events[1..])
  }

  /** Every event is enabled when it happens. */
  predicate Possible(s: State, events: seq<Event>)
    decreases |events|
  {
    events == [] || (Enabled(s, events[0]) && Possible(Apply(s, events[0]), events[1..]))
  }

  lemma RunFrom(s: State, e: Event, rest: seq<Event>)
    ensures Run(s, [e] + rest) == Run(Apply(s, e), rest)
    ensures Possible(s, [e] + rest) <==> Enabled(s, e) && Possible(Apply(s, e), rest)
  {
    assert ([e] + rest)[1..] == rest;
  }

  lemma {:induction false} RunInTwoParts(s: State, a: seq<Event>, b: seq<Event>)
    ensures Run(s, a + b) == Run(Run(s, a), b)
    ensures Possible(s, a + b) <==> Possible(s, a) && Possible(Run(s, a), b)
    decreases |a|
  {
    if a == [] {
      assert a + b == b;
    } else {
      RunInTwoParts(Apply(s, a[0]), a[1..], b);
      assert a + b == [a[0]] + (a[1..] + b);
      RunFrom(s, a[0], a[1..] + b);
    }
  }

  // ----- slots

  function InFlight(s: State): (r: set<Request>)
  {
    set r | r in s.stage && s.stage[r] != Done
  }

  /** Slots are conserved, and exactly the snapshotted and running requests have a snapshot. */
  ghost predicate Conserved(s: State, maximum: nat)
  {
    && 0 <= s.free && s.free + |InFlight(s)| == maximum
    && forall r :: r in s.snapshots <==> StageIs(s, r, Snapshotted) || StageIs(s, r, Running)
  }

  lemma StepConserves(s: State, e: Event, maximum: nat)
    requires Conserved(s, maximum) && Enabled(s, e)
    ensures Conserved(Apply(s, e), maximum)
    ensures e.Release? ==> s.free < maximum
  {
    SlotsFollow(s, e);
    SnapshotsFollow(s, e);
  }

  lemma SlotsFollow(s: State, e: Event)
    requires Enabled(s, e)
    ensures Apply(s, e).free + |InFlight(Apply(s, e))| == s.free + |InFlight(s)|
    ensures s.free >= 0 ==> Apply(s, e).free >= 0
    ensures e.Release? ==> |InFlight(s)| > 0
  {
    hide InFlight;
    FlightChanges(s, e);
    match e {
      case Acquire(r) => assert |InFlight(s) + {r}| == |InFlight(s)| + 1;
      case Release(r) => assert |InFlight(s) - {r}| == |InFlight(s)| - 1;
      case _ =>
    }
  }

  lemma SnapshotsFollow(s: State, e: Event)
    requires Enabled(s, e)
    requires forall r :: r in s.snapshots <==> StageIs(s, r, Snapshotted) || StageIs(s, r, Running)
    ensures var t := Apply(s, e);
            forall r :: r in t.snapshots <==> StageIs(t, r, Snapshotted) || StageIs(t, r, Running)
  {
  }

  lemma FlightChanges(s: State, e: Event)
    requires Enabled(s, e)
    ensures e.Acquire? ==> e.r !in InFlight(s) && InFlight(Apply(s, e)) == InFlight(s) + {e.r}
    ensures e.Release? ==> e.r in InFlight(s) && InFlight(Apply(s, e)) == InFlight(s) - {e.r}
    ensures !e.Acquire? && !e.Release? ==> InFlight(Apply(s, e)) == InFlight(s)
  {
  }

  lemma {:induction false} RunConserves(s: State, events: seq<Event>, maximum: nat)
    requires Conserved(s, maximum) && Possible(s, events)
    ensures Conserved(Run(s, events), maximum)
    decreases |events|
  {
    if events != [] {
      StepConserves(s, events[0], maximum);
      RunConserves(Apply(s, events[0]), events[1..], maximum);
    }
  }

  lemma StartConserves(maximum: nat)
    ensures Conserved(Start(maximum), maximum)
  {
    assert InFlight(Start(maximum)) == {};
  }

  /**
   * In every reachable state the free slots and the requests in flight make up the maximum, and a
   * release never finds the bounded semaphore full.
   */
  lemma SlotsAreConserved(maximum: nat, events: seq<Event>)
    requires Possible(Start(maximum), events)
    ensures Conserved(Run(Start(maximum), events), maximum)
    ensures forall r :: Enabled(Run(Start(maximum), events), Release(r)) ==> Run(Start(maximum), events).free < maximum
  {
    StartConserves(maximum);
    RunConserves(Start(maximum), events, maximum);
    var s := Run(Start(maximum), events);
    forall r | Enabled(s, Release(r)) ensures s.free < maximum {
      StepConserves(s, Release(r), maximum);
    }
  }

  function Count(events: seq<Event>, e: Event): (n: nat)
  {
    if events == [] then 0 else (if events[0] == e then 1 else 0) + Count(events[1..], e)
  }

  lemma {:induction false} CountsFollowStages(s: State, events: seq<Event>, r: Request)
    requires Possible(s, events)
    ensures Count(events, Acquire(r)) == Numbers.Bit(r in Run(s, events).stage) - Numbers.Bit(r in s.stage)
    ensures Count(events, Release(r)) == Numbers.Bit(StageIs(Run(s, events), r, Done)) - Numbers.Bit(StageIs(s, r, Done))
    decreases |events|
  {
    if events != [] {
      CountsFollowStages(Apply(s, events[0]), events[1..], r);
    }
  }

  /**
   * Each request takes one slot at most, and has given it back exactly once if it is done and not
   * at all before, whether its worker ran or could not be spawned.
   */
  lemma EachSlotIsReleasedOnce(maximum: nat, events: seq<Event>, r: Request)
    requires Possible(Start(maximum), events)
    ensures Count(events, Acquire(r)) == Numbers.Bit(r in Run(Start(maximum), events).stage)
    ensures Count(events, Release(r)) == Numbers.Bit(StageIs(Run(Start(maximum), events), r, Done))
  {
    CountsFollowStages(Start(maximum), events, r);
  }

  // ----- handlers

  /** The handler installed by the last `serve_once` or `close` of a run, or the one it began with. */
  function LastInstalled(first: Option<Handler>, events: seq<Event>): (h: Option<Handler>)
    decreases |events|
  {
    if events == [] then first
    else LastInstalled(if events[0].Install? then events[0].handler else first, events[1..])
  }

  lemma {:induction false} HandlerIsLastInstalled(s: State, events: seq<Event>)
    ensures Run(s, events).handler == LastInstalled(s.handler, events)
    decreases |events|
  {
    if events != [] {
      HandlerIsLastInstalled(Apply(s, events[0]), events[1..]);
    }
  }

  /** Once taken, a snapshot does not change while the request has one. */
  lemma {:induction false} SnapshotsDoNotChange(s: State, later: seq<Event>, r: Request)
    requires Possible(s, later) && r in s.stage && s.stage[r] != Acquired
    ensures r in Run(s, later).snapshots ==> r in s.snapshots && Run(s, later).snapshots[r] == s.snapshots[r]
    decreases |later|
  {
    if later != [] {
      SnapshotsDoNotChange(Apply(s, later[0]), later[1..], r);
    }
  }

  /**
   * A request accepted after `before` sees the handler installed at that moment, whatever is
   * installed or cleared before it looks.
   */
  lemma RequestsSeeTheHandlerOfTheirAcceptance(maximum: nat, before: seq<Event>, r: Request, between: seq<Event>)
    requires Possible(Start(maximum), before + ([Snapshot(r)] + (between + [Look(r)])))
    ensures var s := Run(Start(maximum), before + ([Snapshot(r)] + between));
            r in s.snapshots && Seen(s.snapshots, r) == LastInstalled(None, before)
  {
    var s := Run(Start(maximum), before);
    RunInTwoParts(Start(maximum), before, [Snapshot(r)] + (between + [Look(r)]));
    RunFrom(s, Snapshot(r), between + [Look(r)]);
    var accepted := Apply(s, Snapshot(r));
    RunInTwoParts(accepted, between, [Look(r)]);
    RunInTwoParts(Start(maximum), before, [Snapshot(r)] + between);
    RunFrom(s, Snapshot(r), between);
    StartConserves(maximum);
    RunConserves(Start(maximum), before, maximum);
    StepConserves(s, Snapshot(r), maximum);
    RunConserves(accepted, between, maximum);
    HandlerIsLastInstalled(Start(maximum), before);
    SnapshotsDoNotChange(accepted, between, r);
  }

  // ----- progress

  /** The steps that finish a request from where it stands, if its worker starts or if it does not. */
  function Finish(stage: Stage, r: Request, starts: bool): (e: seq<Event>)
  {
    match stage
    case Acquired => [Snapshot(r)] + FinishWorker(r, starts)
    case Snapshotted => FinishWorker(r, starts)
    case Running => [Pop(r), Release(r)]
    case Popped => [Release(r)]
    case Done => []
  }

  function FinishWorker(r: Request, starts: bool): (e: seq<Event>)
  {
    if starts then [Spawn(r), Pop(r), Release(r)] else [Pop(r), Release(r)]
  }

  lemma FinishIsPossible(s: State, r: Request, starts: bool)
    requires r in s.stage && s.stage[r] != Done
    ensures Possible(s, Finish(s.stage[r], r, starts))
    ensures Run(s, Finish(s.stage[r], r, starts)).stage == s.stage[r := Done]
  {
    match s.stage[r] {
      case Acquired =>
        RunFrom(s, Snapshot(r), FinishWorker(r, starts));
        WorkerCanFinish(Apply(s, Snapshot(r)), r, starts);
      case Snapshotted => WorkerCanFinish(s, r, starts);
      case Running => PopIsPossible(s, r);
      case Popped => ReleaseIsPossible(s, r);
    }
  }

  lemma WorkerCanFinish(s: State, r: Request, starts: bool)
    requires StageIs(s, r, Snapshotted)
    ensures Possible(s, FinishWorker(r, starts))
    ensures Run(s, FinishWorker(r, starts)).stage == s.stage[r := Done]
  {
    if starts {
      assert FinishWorker(r, starts) == [Spawn(r)] + [Pop(r), Release(r)];
      RunFrom(s, Spawn(r), [Pop(r), Release(r)]);
      PopIsPossible(Apply(s, Spawn(r)), r);
    } else {
      PopIsPossible(s, r);
    }
  }

  lemma ReleaseIsPossible(s: State, r: Request)
    ensures StageIs(s, r, Popped) ==> Possible(s, [Release(r)])
    ensures Run(s, [Release(r)]).stage == s.stage[r := Done]
  {
    RunFrom(s, Release(r), []);
    assert [Release(r)] + [] == [Release(r)];
  }

  lemma PopIsPossible(s: State, r: Request)
    ensures StageIs(s, r, Snapshotted) || StageIs(s, r, Running) ==> Possible(s, [Pop(r), Release(r)])
    ensures Run(s, [Pop(r), Release(r)]).stage == s.stage[r := Done]
  {
    RunFrom(s, Pop(r), [Release(r)]);
    ReleaseIsPossible(Apply(s, Pop(r)), r);
  }

  /** The worker of the request is still to be started. */
  predicate Unspawned(s: State, r: Request)
  {
    StageIs(s, r, Acquired) || StageIs(s, r, Snapshotted)
  }

  /** Only drains, and starts exactly the workers that can start among those still to be started. */
  ghost predicate Drains(s: State, starts: Request -> bool, rest: seq<Event>)
  {
    && (forall e :: e in rest ==> !e.Acquire? && !e.Install?)
    && (forall r :: Spawn(r) in rest <==> Unspawned(s, r) && starts(r))
  }

  lemma FinishDrains(stage: Stage, r: Request, starts: bool)
    ensures forall e :: e in Finish(stage, r, starts) ==> !e.Acquire? && !e.Install? && (e.Spawn? ==> e == Spawn(r))
    ensures Spawn(r) in Finish(stage, r, starts) <==> (stage == Acquired || stage == Snapshotted) && starts
  {
    if starts {
      assert FinishWorker(r, starts)[0] == Spawn(r);
      assert stage == Acquired ==> Finish(stage, r, starts)[1] == Spawn(r);
    }
  }

  lemma {:induction false} AllCanFinish(s: State, starts: Request -> bool) returns (rest: seq<Event>)
    ensures Possible(s, rest) && InFlight(Run(s, rest)) == {} && Drains(s, starts, rest)
    decreases InFlight(s)
  {
    hide Possible, Run, Finish;
    rest := [];
    if InFlight(s) == {} {
      NothingLeft(s);
      forall r ensures !Unspawned(s, r) {
        assert r !in InFlight(s);
      }
    } else {
      var r :| r in InFlight(s);
      var e := Finish(s.stage[r], r, starts(r));
      FinishIsPossible(s, r, starts(r));
      FinishDrains(s.stage[r], r, starts(r));
      var u := Run(s, e);
      assert InFlight(u) == InFlight(s) - {r};
      var more := AllCanFinish(u, starts);
      RunInTwoParts(s, e, more);
      rest := e + more;
      forall q ensures Spawn(q) in rest <==> Unspawned(s, q) && starts(q) {
        assert q != r ==> (Unspawned(u, q) <==> Unspawned(s, q));
        assert Spawn(q) in rest <==> Spawn(q) in e || Spawn(q) in more;
      }
    }
  }

  lemma NothingLeft(s: State)
    ensures Possible(s, []) && Run(s, []) == s
  {
  }

  /**
   * From every reachable state the requests in flight can finish, whichever of the workers still to
   * be started do start, and then every slot is free.
   */
  lemma EveryRunCanDrain(maximum: nat, events: seq<Event>, starts: Request -> bool) returns (rest: seq<Event>)
    requires Possible(Start(maximum), events)
    ensures Possible(Start(maximum), events + rest)
    ensures Run(Start(maximum), events + rest).free == maximum
    ensures Run(Start(maximum), events + rest).snapshots == map[]
    ensures Drains(Run(Start(maximum), events), starts, rest)
  {
    rest := AllCanFinish(Run(Start(maximum), events), starts);
    RunInTwoParts(Start(maximum), events, rest);
    SlotsAreConserved(maximum, events + rest);
    var s := Run(Start(maximum), events + rest);
    assert forall r :: r in s.stage ==> r in InFlight(s) || s.stage[r] == Done;
  }

  // ----- the server object

  /** The listener's and the workers' code; other threads may run between the steps of a call. */
  class BoundedServer {
    const maximum: nat
    var free: int
    var handler: Option<Handler>
    var snapshots: map<Request, Option<Handler>>
    ghost var stage: map<Request, Stage>

    ghost function Abstract(): (s: State)
      reads this
    {
      State(free, handler, snapshots, stage)
    }

    constructor (maximum: nat)
      ensures this.maximum == maximum && Abstract() == Start(maximum)
    {
      this.maximum, free, handler, snapshots, stage := maximum, maximum, None, map[], map[];
    }

    method InstallHandler(h: Option<Handler>)
      modifies this
      ensures Abstract() == Apply(old(Abstract()), Install(h))
    {
      handler := h;
    }

    /** The listener's pass over one request, up to the running worker or the propagated failure. */
    method ProcessRequest(r: Request, canSpawn: bool) returns (spawned: bool)
      requires Enabled(Abstract(), Acquire(r))
      modifies this
      ensures spawned == canSpawn
      ensures Abstract() == Run(old(Abstract()), Accepting(r, spawned))
      ensures Possible(old(Abstract()), Accepting(r, spawned))
    {
      ghost var s := Abstract();
      free, stage := free - 1, stage[r := Acquired];
      snapshots, stage := snapshots[r := handler], stage[r := Snapshotted];
      if canSpawn {
        stage := stage[r := Running];
      } else {
        snapshots, stage := snapshots - {r}, stage[r := Popped];
        free, stage := free + 1, stage[r := Done];
      }
      AcceptingRuns(s, r, canSpawn);
      spawned := canSpawn;
    }

    /** The worker thread: it serves with its own snapshot and gives the slot back, whatever happens. */
    method ProcessRequestThread(r: Request) returns (seen: Option<Handler>)
      requires StageIs(Abstract(), r, Running)
      modifies this
      ensures seen == Seen(old(snapshots), r)
      ensures Abstract() == Run(old(Abstract()), [Look(r), Pop(r), Release(r)])
      ensures Possible(old(Abstract()), [Look(r), Pop(r), Release(r)])
    {
      ghost var s := Abstract();
      seen := Seen(snapshots, r);
      snapshots, stage := snapshots - {r}, stage[r := Popped];
      free, stage := free + 1, stage[r := Done];
      RunFrom(s, Look(r), [Pop(r), Release(r)]);
      PoppingRuns(s, r);
    }
  }

  /** The handler a worker serves with; nothing without a snapshot. */
  function Seen(snapshots: map<Request, Option<Handler>>, r: Request): (h: Option<Handler>)
  {
    if r in snapshots then snapshots[r] else None
  }

  function Accepting(r: Request, spawned: bool): (e: seq<Event>)
  {
    [Acquire(r)] + ([Snapshot(r)] + if spawned then [Spawn(r)] else [Pop(r), Release(r)])
  }

  lemma AcceptingRuns(s: State, r: Request, spawned: bool)
    requires Enabled(s, Acquire(r))
    ensures Possible(s, Accepting(r, spawned))
    ensures var t := Apply(Apply(s, Acquire(r)), Snapshot(r));
            Run(s, Accepting(r, spawned))
            == if spawned then Apply(t, Spawn(r)) else Apply(Apply(t, Pop(r)), Release(r))
  {
    var last := if spawned then [Spawn(r)] else [Pop(r), Release(r)];
    RunFrom(s, Acquire(r), [Snapshot(r)] + last);
    RunFrom(Apply(s, Acquire(r)), Snapshot(r), last);
    var t := Apply(Apply(s, Acquire(r)), Snapshot(r));
    RunFrom(t, Spawn(r), []);
    assert [Spawn(r)] + [] == [Spawn(r)];
    PoppingRuns(t, r);
  }

  lemma PoppingRuns(s: State, r: Request)
    ensures Run(s, [Pop(r), Release(r)]) == Apply(Apply(s, Pop(r)), Release(r))
    ensures StageIs(s, r, Snapshotted) || StageIs(s, r, Running) ==> Possible(s, [Pop(r), Release(r)])
  {
    RunFrom(s, Pop(r), [Release(r)]);
    RunFrom(Apply(s, Pop(r)), Release(r), []);
    assert [Release(r)] + [] == [Release(r)];
  }
}
