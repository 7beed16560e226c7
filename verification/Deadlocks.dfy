/** What the lock plans still guarantee when two keys may share a lock number. */
module Deadlocks {
  import opened Lists
  import opened Locks

  ghost predicate Deadlocked(hash: Hash, s: State)
  {
    && (exists w :: 0 <= w < |s.writers| && s.writers[w].Waiting?)
    && (forall w :: 0 <= w < |s.writers| ==> !CanAcquire(hash, s, w) && !CanCommit(s, w))
  }

  ghost predicate CanDeadlock(hash: Hash)
  {
    exists run: seq<State> :: EndsDeadlocked(hash, run)
  }

  ghost predicate EndsDeadlocked(hash: Hash, run: seq<State>)
  {
    Reachable(hash, run) && Deadlocked(hash, run[|run| - 1])
  }

  // ----- the condition

  ghost predicate IsPlan(plan: seq<string>)
  {
    exists r :: plan == Plan(r)
  }

  /** A plan stopped before its end. */
  ghost predicate PartWay(w: Writer)
  {
    w.Waiting? && w.held < |w.plan| && IsPlan(w.plan)
  }

  /** The writer holds the lock of that number. */
  predicate InPrefix(hash: Hash, w: Writer, l: int)
  {
    w.Waiting? && w.held <= |w.plan| && exists i :: 0 <= i < w.held && hash(w.plan[i]) == l
  }

  /** The next lock of one is held by another. */
  predicate WaitsOn(hash: Hash, w: Writer, u: Writer)
  {
    w.Waiting? && w.held < |w.plan| && InPrefix(hash, u, hash(w.plan[w.held]))
  }

  predicate ShareALock(hash: Hash, u: Writer, w: Writer)
  {
    u.Waiting? && exists i :: 0 <= i < u.held <= |u.plan| && InPrefix(hash, w, hash(u.plan[i]))
  }

  ghost predicate ApartLocks(hash: Hash, stuck: seq<Writer>)
  {
    forall u, w :: 0 <= u < w < |stuck| ==> !ShareALock(hash, stuck[w], stuck[u])
  }

  ghost predicate EachWaits(hash: Hash, stuck: seq<Writer>)
  {
    forall w :: 0 <= w < |stuck| ==> SomeoneHolds(hash, stuck, w)
  }

  ghost predicate SomeoneHolds(hash: Hash, stuck: seq<Writer>, w: nat)
    requires w < |stuck|
  {
    exists u :: 0 <= u < |stuck| && u != w && WaitsOn(hash, stuck[w], stuck[u])
  }

  /**
   * Plans, each stopped part way, such that no two hold the same lock and each wants next a lock that
   * another of them holds. The plans and the hash alone decide whether there are any.
   */
  ghost predicate Stuck(hash: Hash, stuck: seq<Writer>)
  {
    && stuck != [] && (forall w :: 0 <= w < |stuck| ==> PartWay(stuck[w]))
    && ApartLocks(hash, stuck) && EachWaits(hash, stuck)
  }

  // ----- from the plans to the deadlock

  ghost predicate Grown(hash: Hash, run: seq<State>, writers: seq<Writer>)
  {
    Reachable(hash, run) && Inv(hash, run[|run| - 1]) && run[|run| - 1].writers == writers
  }

  function Final(run: seq<State>): (s: State)
    requires run != []
  {
    run[|run| - 1]
  }

  lemma GrownParts(hash: Hash, run: seq<State>, writers: seq<Writer>)
    requires Grown(hash, run, writers)
    ensures run != [] && Reachable(hash, run) && Inv(hash, Final(run)) && Final(run).writers == writers
  {
  }

  lemma GrowBy(hash: Hash, run: seq<State>, writers: seq<Writer>, step: Step, more: seq<Writer>) returns (run': seq<State>)
    requires Grown(hash, run, writers) && Enabled(hash, run[|run| - 1], step)
    requires Next(hash, run[|run| - 1], step).writers == more
    ensures Grown(hash, run', more)
  {
    hide Inv;
    StepKeepsInv(hash, run[|run| - 1], step);
    run' := RunOn(hash, run, step);
  }

  /** A newcomer can take a lock that no other writer holds. */
  lemma NewcomerCanAcquire(hash: Hash, s: State, others: seq<Writer>, plan: seq<string>, h: nat)
    requires Inv(hash, s) && h < |plan| && s.writers == others + [Waiting(plan, h)]
    requires forall u :: 0 <= u < |others| ==> !InPrefix(hash, others[u], hash(plan[h]))
    ensures CanAcquire(hash, s, |others|)
  {
    var l := hash(plan[h]);
    if l in s.owner {
      var u := s.owner[l];
      assert Holds(hash, s, u, l);
      HolderHasPrefix(hash, s, u, l);
    }
  }

  lemma HolderHasPrefix(hash: Hash, s: State, u: nat, l: int)
    requires Holds(hash, s, u, l)
    ensures u < |s.writers| && InPrefix(hash, s.writers[u], l)
  {
  }

  lemma {:induction false} NewcomerTakes(hash: Hash, run: seq<State>, others: seq<Writer>, plan: seq<string>, h: nat)
    returns (run': seq<State>)
    requires h <= |plan| && Grown(hash, run, others + [Waiting(plan, 0)])
    requires forall u, i :: 0 <= u < |others| && 0 <= i < h ==> !InPrefix(hash, others[u], hash(plan[i]))
    ensures Grown(hash, run', others + [Waiting(plan, h)])
  {
    hide Inv, InPrefix, Reachable, Grown;
    run' := run;
    if h > 0 {
      var before := NewcomerTakes(hash, run, others, plan, h - 1);
      var writers := others + [Waiting(plan, h - 1)];
      GrownParts(hash, before, writers);
      NewcomerCanAcquire(hash, Final(before), others, plan, h - 1);
      assert writers[|others| := Waiting(plan, h)] == others + [Waiting(plan, h)];
      run' := GrowBy(hash, before, writers, Acquire(|others|), others + [Waiting(plan, h)]);
    }
  }

  lemma NewcomerArrives(hash: Hash, run: seq<State>, others: seq<Writer>, w: Writer) returns (run': seq<State>)
    requires Grown(hash, run, others) && PartWay(w)
    requires forall u :: 0 <= u < |others| ==> !ShareALock(hash, w, others[u])
    ensures Grown(hash, run', others + [w])
  {
    hide Inv, InPrefix, Reachable, Grown, Plan;
    GrownParts(hash, run, others);
    var r :| w.plan == Plan(r);
    run' := GrowBy(hash, run, others, Arrive(r), others + [Waiting(w.plan, 0)]);
    forall u, i | 0 <= u < |others| && 0 <= i < w.held ensures !InPrefix(hash, others[u], hash(w.plan[i])) {
      assert !ShareALock(hash, w, others[u]);
    }
    run' := NewcomerTakes(hash, run', others, w.plan, w.held);
  }

  lemma {:induction false} StuckPlansArrive(hash: Hash, stuck: seq<Writer>, n: nat) returns (run: seq<State>)
    requires (forall w :: 0 <= w < |stuck| ==> PartWay(stuck[w])) && ApartLocks(hash, stuck) && n <= |stuck|
    ensures Grown(hash, run, stuck[..n])
  {
    hide Grown, PartWay, ShareALock;
    if n == 0 {
      run := [State([], map[])];
      NobodyYet(hash, run);
    } else {
      var before := StuckPlansArrive(hash, stuck, n - 1);
      var others := stuck[..n - 1];
      forall u | 0 <= u < |others| ensures !ShareALock(hash, stuck[n - 1], others[u]) {
        assert others[u] == stuck[u];
      }
      run := NewcomerArrives(hash, before, others, stuck[n - 1]);
      assert stuck[..n] == stuck[..n - 1] + [stuck[n - 1]];
    }
  }

  lemma NobodyYet(hash: Hash, run: seq<State>)
    requires run == [State([], map[])]
    ensures Grown(hash, run, [])
  {
  }

  /** A writer that waits on another can neither lock nor commit. */
  lemma WaitingIsBlocked(hash: Hash, s: State, w: nat, u: nat)
    requires Inv(hash, s) && w < |s.writers| && u < |s.writers| && u != w && WaitsOn(hash, s.writers[w], s.writers[u])
    ensures !CanAcquire(hash, s, w) && !CanCommit(s, w)
  {
    OwnsPrefix(hash, s, u, hash(s.writers[w].plan[s.writers[w].held]));
  }

  /** A waiting writer's locks are its own. */
  lemma OwnsPrefix(hash: Hash, s: State, w: nat, l: int)
    requires Inv(hash, s) && w < |s.writers| && InPrefix(hash, s.writers[w], l)
    ensures l in s.owner && s.owner[l] == w
  {
    var i :| 0 <= i < s.writers[w].held && hash(s.writers[w].plan[i]) == l;
    assert hash(s.writers[w].plan[i]) in s.owner;
  }

  lemma StuckWritersAreDeadlocked(hash: Hash, s: State)
    requires Inv(hash, s) && Stuck(hash, s.writers)
    ensures Deadlocked(hash, s)
  {
    hide Inv, CanAcquire, CanCommit, WaitsOn, ApartLocks;
    forall w | 0 <= w < |s.writers| ensures !CanAcquire(hash, s, w) && !CanCommit(s, w) {
      assert SomeoneHolds(hash, s.writers, w);
      var u :| 0 <= u < |s.writers| && u != w && WaitsOn(hash, s.writers[w], s.writers[u]);
      WaitingIsBlocked(hash, s, w, u);
    }
    assert PartWay(s.writers[0]) && s.writers[0].Waiting?;
  }

  lemma StuckPlansDeadlock(hash: Hash, stuck: seq<Writer>)
    requires Stuck(hash, stuck)
    ensures CanDeadlock(hash)
  {
    hide Reachable, Grown, Inv, Deadlocked, PartWay, ApartLocks, EachWaits;
    var run := StuckPlansArrive(hash, stuck, |stuck|);
    assert stuck[..|stuck|] == stuck;
    GrownParts(hash, run, stuck);
    StuckWritersAreDeadlocked(hash, Final(run));
    assert EndsDeadlocked(hash, run);
  }

  // ----- from the deadlock to the plans

  ghost predicate FromRequests(s: State)
  {
    forall w :: 0 <= w < |s.writers| ==> IsPlan(s.writers[w].plan)
  }

  lemma StepKeepsPlans(hash: Hash, s: State, step: Step)
    requires FromRequests(s) && Enabled(hash, s, step)
    ensures FromRequests(Next(hash, s, step))
  {
    hide IsPlan;
    if step.Arrive? {
      PlanIsPlan(step.request);
    }
  }

  lemma PlanIsPlan(r: Request)
    ensures IsPlan(Plan(r))
  {
  }

  lemma {:induction false} ReachablePlansAreFromRequests(hash: Hash, run: seq<State>)
    requires Reachable(hash, run)
    ensures FromRequests(run[|run| - 1])
  {
    hide IsPlan, Enabled, Next;
    var n := |run| - 1;
    if n > 0 {
      var before := run[..n];
      assert forall i :: 0 < i < |before| ==> Follows(hash, before[i - 1], before[i]);
      ReachablePlansAreFromRequests(hash, before);
      assert before[n - 1] == run[n - 1] && Follows(hash, run[n - 1], run[n]);
      var step :| Enabled(hash, run[n - 1], step) && run[n] == Next(hash, run[n - 1], step);
      StepKeepsPlans(hash, run[n - 1], step);
    }
  }

  /** Where the unfinished writers stand among all. */
  function Positions(writers: seq<Writer>): (r: seq<nat>)
    ensures forall w: nat :: w in r <==> w < |writers| && writers[w].Waiting?
  {
    if writers == [] then []
    else
      var n := |writers| - 1;
      Positions(writers[..n]) + if writers[n].Waiting? then [n] else []
  }

  lemma {:induction false} PositionsClimb(writers: seq<Writer>, i: nat, j: nat)
    requires i < j < |Positions(writers)|
    ensures Positions(writers)[i] < Positions(writers)[j]
  {
    var n := |writers| - 1;
    var before := Positions(writers[..n]);
    if j < |before| {
      PositionsClimb(writers[..n], i, j);
    } else {
      assert before[i] in before;
    }
  }

  function At(writers: seq<Writer>, at: seq<nat>): (r: seq<Writer>)
    requires forall i :: 0 <= i < |at| ==> at[i] < |writers|
    ensures |r| == |at| && forall i :: 0 <= i < |at| ==> r[i] == writers[at[i]]
  {
    seq(|at|, i requires 0 <= i < |at| => writers[at[i]])
  }

  lemma BlockedOnAnother(hash: Hash, s: State, w: nat) returns (u: nat)
    requires Inv(hash, s) && Deadlocked(hash, s) && w < |s.writers| && s.writers[w].Waiting?
    ensures s.writers[w].held < |s.writers[w].plan|
    ensures u < |s.writers| && u != w && s.writers[u].Waiting? && WaitsOn(hash, s.writers[w], s.writers[u])
  {
    assert !CanAcquire(hash, s, w) && !CanCommit(s, w);
    var l := hash(s.writers[w].plan[s.writers[w].held]);
    u := s.owner[l];
    assert Holds(hash, s, u, l);
    HolderHasPrefix(hash, s, u, l);
  }

  lemma WritersAreApart(hash: Hash, s: State, u: nat, w: nat)
    requires Inv(hash, s) && u < |s.writers| && w < |s.writers| && ShareALock(hash, s.writers[w], s.writers[u])
    ensures u == w
  {
    var i :| 0 <= i < s.writers[w].held <= |s.writers[w].plan| && InPrefix(hash, s.writers[u], hash(s.writers[w].plan[i]));
    var l := hash(s.writers[w].plan[i]);
    assert InPrefix(hash, s.writers[w], l);
    OwnsPrefix(hash, s, u, l);
    OwnsPrefix(hash, s, w, l);
  }

  lemma WaitingPlansAreApart(hash: Hash, s: State, at: seq<nat>)
    requires Inv(hash, s) && at == Positions(s.writers) && forall i :: 0 <= i < |at| ==> at[i] < |s.writers|
    ensures ApartLocks(hash, At(s.writers, at))
  {
    hide Inv, ShareALock, Positions;
    forall u, w | 0 <= u < w < |at| ensures !ShareALock(hash, At(s.writers, at)[w], At(s.writers, at)[u]) {
      PositionsClimb(s.writers, u, w);
      if ShareALock(hash, s.writers[at[w]], s.writers[at[u]]) {
        WritersAreApart(hash, s, at[u], at[w]);
      }
    }
  }

  lemma WaitingPlansWait(hash: Hash, s: State, at: seq<nat>)
    requires Inv(hash, s) && Deadlocked(hash, s) && FromRequests(s)
    requires at == Positions(s.writers) && forall i :: 0 <= i < |at| ==> at[i] < |s.writers|
    ensures forall i :: 0 <= i < |at| ==> PartWay(At(s.writers, at)[i])
    ensures EachWaits(hash, At(s.writers, at))
  {
    hide Inv, Deadlocked, IsPlan, WaitsOn;
    var stuck := At(s.writers, at);
    forall i | 0 <= i < |at|
      ensures PartWay(stuck[i]) && SomeoneHolds(hash, stuck, i)
    {
      assert at[i] in at;
      var u := BlockedOnAnother(hash, s, at[i]);
      assert u in at;
      var j :| 0 <= j < |at| && at[j] == u;
      assert WaitsOn(hash, stuck[i], stuck[j]);
    }
  }

  lemma DeadlockedPlansAreStuck(hash: Hash, run: seq<State>)
    requires EndsDeadlocked(hash, run)
    ensures exists stuck: seq<Writer> :: Stuck(hash, stuck)
  {
    hide Inv, FromRequests, PartWay, ApartLocks, EachWaits;
    ReachableStatesKeepInv(hash, run);
    ReachablePlansAreFromRequests(hash, run);
    var s := run[|run| - 1];
    var at := Positions(s.writers);
    assert forall i :: 0 <= i < |at| ==> at[i] in at;
    WaitingPlansAreApart(hash, s, at);
    WaitingPlansWait(hash, s, at);
    var w: nat :| w < |s.writers| && s.writers[w].Waiting?;
    assert w in at;
    assert Stuck(hash, At(s.writers, at));
  }

  /** A deadlock can be reached if and only if some plans can be stuck on each other. */
  lemma CanDeadlockIffPlansCanBeStuck(hash: Hash)
    ensures CanDeadlock(hash) <==> exists stuck: seq<Writer> :: Stuck(hash, stuck)
  {
    hide Reachable, Deadlocked, Stuck;
    if CanDeadlock(hash) {
      var run: seq<State> :| EndsDeadlocked(hash, run);
      DeadlockedPlansAreStuck(hash, run);
    }
    if stuck: seq<Writer> :| Stuck(hash, stuck) {
      StuckPlansDeadlock(hash, stuck);
    }
  }

  /** With distinct numbers for distinct keys no plans can be stuck, because their shared order is kept. */
  lemma DistinctNumbersNeverStick(hash: Hash, stuck: seq<Writer>)
    requires Injective(hash)
    ensures !Stuck(hash, stuck)
  {
    hide Stuck, Injective, Reachable;
    if Stuck(hash, stuck) {
      StuckPlansDeadlock(hash, stuck);
      var run :| EndsDeadlocked(hash, run);
      SomeoneIsFree(hash, run);
    }
  }

  lemma SomeoneIsFree(hash: Hash, run: seq<State>)
    requires Injective(hash) && Reachable(hash, run)
    ensures !Deadlocked(hash, run[|run| - 1])
  {
    var s := Final(run);
    if some: nat :| some < |s.writers| && s.writers[some].Waiting? {
      var w := SomeWriterCanProceed(hash, run, some);
    }
  }

  // ----- the requests at hand

  /** The writers that have arrived are those of the requests, in order. */
  ghost predicate Arrived(s: State, requests: seq<Request>)
  {
    |s.writers| == |requests| && forall w :: 0 <= w < |requests| ==> s.writers[w].plan == Plan(requests[w])
  }

  /** The requests, at whatever moments they arrive, can end up blocked on each other. */
  ghost predicate CanDeadlockAmong(hash: Hash, requests: seq<Request>)
  {
    exists run: seq<State> :: EndsDeadlocked(hash, run) && Arrived(run[|run| - 1], requests)
  }

  /** Each request at the number of locks it has taken; one that has taken all of them counts as finished. */
  function StoppedAt(request: Request, held: nat): (w: Writer)
  {
    if held < |Plan(request)| then Waiting(Plan(request), held) else Finished(Plan(request))
  }

  function Stopped(requests: seq<Request>, at: seq<nat>): (writers: seq<Writer>)
    requires |at| == |requests|
    ensures |writers| == |at| && forall w :: 0 <= w < |at| ==> writers[w] == StoppedAt(requests[w], at[w])
  {
    seq(|at|, w requires 0 <= w < |at| => StoppedAt(requests[w], at[w]))
  }

  predicate IsStuckOn(hash: Hash, writers: seq<Writer>, w: nat)
    requires w < |writers|
  {
    writers[w].Waiting? ==> exists u :: 0 <= u < |writers| && u != w && WaitsOn(hash, writers[w], writers[u])
  }

  predicate Apart(hash: Hash, writers: seq<Writer>)
  {
    forall u, w :: 0 <= u < w < |writers| ==> !ShareALock(hash, writers[w], writers[u])
  }

  /**
   * Stopping each request at one of its finitely many positions, some stop early, no two hold the same
   * lock, and each of those waits for a lock that another holds. Whoever has the requests and the hash can
   * try all positions.
   */
  predicate StuckAt(hash: Hash, requests: seq<Request>, at: seq<nat>)
  {
    && |at| == |requests| && (exists w :: 0 <= w < |at| && at[w] < |Plan(requests[w])|)
    && (forall w :: 0 <= w < |at| ==> at[w] <= |Plan(requests[w])|)
    && Apart(hash, Stopped(requests, at))
    && forall w :: 0 <= w < |at| ==> IsStuckOn(hash, Stopped(requests, at), w)
  }

  lemma FinishedArrives(hash: Hash, run: seq<State>, others: seq<Writer>, r: Request) returns (run': seq<State>)
    requires Grown(hash, run, others)
    ensures Grown(hash, run', others + [Finished(Plan(r))])
  {
    hide Inv, Reachable, Grown, Plan;
    GrownParts(hash, run, others);
    var writers := others + [Waiting(Plan(r), 0)];
    var arrived := GrowBy(hash, run, others, Arrive(r), writers);
    GrownParts(hash, arrived, writers);
    assert writers[|others| := Finished(Plan(r))] == others + [Finished(Plan(r))];
    run' := GrowBy(hash, arrived, writers, End(|others|), others + [Finished(Plan(r))]);
  }

  lemma {:induction false} StoppedArrive(hash: Hash, requests: seq<Request>, writers: seq<Writer>, at: seq<nat>, n: nat)
    returns (run: seq<State>)
    requires |at| == |requests| && writers == Stopped(requests, at) && Apart(hash, writers) && n <= |at|
    ensures Grown(hash, run, writers[..n])
  {
    hide Grown, ShareALock, Plan;
    if n == 0 {
      run := [State([], map[])];
      NobodyYet(hash, run);
    } else {
      var before := StoppedArrive(hash, requests, writers, at, n - 1);
      var others, w := writers[..n - 1], writers[n - 1];
      if w.Finished? {
        run := FinishedArrives(hash, before, others, requests[n - 1]);
      } else {
        forall u | 0 <= u < |others| ensures !ShareALock(hash, w, others[u]) {
          assert others[u] == writers[u];
        }
        PlanIsPlan(requests[n - 1]);
        run := NewcomerArrives(hash, before, others, w);
      }
      assert writers[..n] == others + [w];
    }
  }

  lemma StoppedAreDeadlocked(hash: Hash, s: State, requests: seq<Request>, at: seq<nat>)
    requires StuckAt(hash, requests, at) && Inv(hash, s) && s.writers == Stopped(requests, at)
    ensures Deadlocked(hash, s) && Arrived(s, requests)
  {
    hide Inv, WaitsOn, ShareALock, Plan;
    forall w | 0 <= w < |s.writers| ensures !CanAcquire(hash, s, w) && !CanCommit(s, w) {
      if s.writers[w].Waiting? {
        assert IsStuckOn(hash, s.writers, w);
        var u :| 0 <= u < |s.writers| && u != w && WaitsOn(hash, s.writers[w], s.writers[u]);
        WaitingIsBlocked(hash, s, w, u);
      }
    }
    var w :| 0 <= w < |at| && at[w] < |Plan(requests[w])|;
    assert s.writers[w].Waiting?;
  }

  lemma StuckRequestsDeadlock(hash: Hash, requests: seq<Request>, at: seq<nat>)
    requires StuckAt(hash, requests, at)
    ensures CanDeadlockAmong(hash, requests)
  {
    hide Reachable, Inv, Deadlocked, Grown, Arrived, Plan;
    var writers := Stopped(requests, at);
    var run := StoppedArrive(hash, requests, writers, at, |at|);
    assert writers[..|at|] == writers;
    GrownParts(hash, run, writers);
    StoppedAreDeadlocked(hash, Final(run), requests, at);
    assert EndsDeadlocked(hash, run);
  }

  /** How far each writer has come. */
  function Position(w: Writer): (held: nat)
  {
    if w.Waiting? then w.held else |w.plan|
  }

  function AllPositions(writers: seq<Writer>): (at: seq<nat>)
    ensures |at| == |writers| && forall w :: 0 <= w < |at| ==> at[w] == Position(writers[w])
  {
    seq(|writers|, w requires 0 <= w < |writers| => Position(writers[w]))
  }

  lemma DeadlockedWritersAreStopped(hash: Hash, s: State, requests: seq<Request>)
    requires Inv(hash, s) && Deadlocked(hash, s) && Arrived(s, requests)
    ensures Stopped(requests, AllPositions(s.writers)) == s.writers
    ensures forall w :: 0 <= w < |requests| ==> AllPositions(s.writers)[w] <= |Plan(requests[w])|
  {
    hide Inv, Deadlocked, Plan;
    forall w | 0 <= w < |s.writers|
      ensures StoppedAt(requests[w], Position(s.writers[w])) == s.writers[w]
      ensures Position(s.writers[w]) <= |Plan(requests[w])|
    {
      if s.writers[w].Waiting? {
        var u := BlockedOnAnother(hash, s, w);
      }
    }
    assert Stopped(requests, AllPositions(s.writers)) == s.writers;
  }

  lemma DeadlockedRequestsAreStuck(hash: Hash, s: State, requests: seq<Request>)
    requires Inv(hash, s) && Deadlocked(hash, s) && Arrived(s, requests)
    ensures StuckAt(hash, requests, AllPositions(s.writers))
  {
    hide Inv, Deadlocked, Plan, WaitsOn, ShareALock, Arrived;
    DeadlockedWritersAreStopped(hash, s, requests);
    assert |s.writers| == |requests| by { ArrivedLength(s, requests); }
    forall u, w | 0 <= u < w < |s.writers| ensures !ShareALock(hash, s.writers[w], s.writers[u]) {
      if ShareALock(hash, s.writers[w], s.writers[u]) {
        WritersAreApart(hash, s, u, w);
      }
    }
    forall w | 0 <= w < |s.writers| ensures IsStuckOn(hash, s.writers, w) {
      if s.writers[w].Waiting? {
        var u := BlockedOnAnother(hash, s, w);
      }
    }
    var w := SomeoneWaits(hash, s);
    assert Stopped(requests, AllPositions(s.writers))[w].Waiting?;
  }

  lemma ArrivedLength(s: State, requests: seq<Request>)
    requires Arrived(s, requests)
    ensures |s.writers| == |requests|
  {
  }

  lemma SomeoneWaits(hash: Hash, s: State) returns (w: nat)
    requires Deadlocked(hash, s)
    ensures w < |s.writers| && s.writers[w].Waiting?
  {
    w :| w < |s.writers| && s.writers[w].Waiting?;
  }

  /** Given requests can deadlock if and only if some positions of theirs are stuck on each other. */
  lemma RequestsCanDeadlockIff(hash: Hash, requests: seq<Request>)
    ensures CanDeadlockAmong(hash, requests) <==> exists at: seq<nat> :: StuckAt(hash, requests, at)
  {
    hide Deadlocked, StuckAt, Arrived, Inv;
    if CanDeadlockAmong(hash, requests) {
      var run: seq<State> :| EndsDeadlocked(hash, run) && Arrived(run[|run| - 1], requests);
      ReachableStatesKeepInv(hash, run);
      DeadlockedRequestsAreStuck(hash, run[|run| - 1], requests);
    }
    if at: seq<nat> :| StuckAt(hash, requests, at) {
      StuckRequestsDeadlock(hash, requests, at);
    }
  }

  // ----- a hash that lets it happen

  function Crossed(): (hash: Hash)
  {
    k => if k == "model:a" || k == "track:d" then 1 else if k == "track:b" || k == "model:c" then 2 else 3
  }

  /** Two plans whose lock numbers cross over suffice. */
  lemma CollisionsCanDeadlock()
    ensures CanDeadlock(Crossed())
  {
    hide Stuck, CanDeadlock, Plan, Crossed;
    TrackPlan("a", "b");
    TrackPlan("c", "d");
    assert "model:" + "a" == "model:a" && "track:" + "b" == "track:b";
    assert "model:" + "c" == "model:c" && "track:" + "d" == "track:d";
    PlanIsPlan(ProjectTrack("a", "b"));
    PlanIsPlan(ProjectTrack("c", "d"));
    CrossedPlansAreStuck(Waiting(["model:a", "track:b"], 1), Waiting(["model:c", "track:d"], 1));
    CanDeadlockIffPlansCanBeStuck(Crossed());
  }

  lemma CrossedPlansAreStuck(u: Writer, w: Writer)
    requires u == Waiting(["model:a", "track:b"], 1) && w == Waiting(["model:c", "track:d"], 1)
    requires IsPlan(u.plan) && IsPlan(w.plan)
    ensures Stuck(Crossed(), [u, w])
  {
    hide IsPlan;
    var hash, stuck := Crossed(), [u, w];
    CrossedNumbers();
    assert hash(u.plan[0]) == 1 && hash(w.plan[0]) == 2;
    assert WaitsOn(hash, stuck[0], stuck[1]) && WaitsOn(hash, stuck[1], stuck[0]);
    assert SomeoneHolds(hash, stuck, 0) && SomeoneHolds(hash, stuck, 1);
    assert !ShareALock(hash, w, u);
  }

  lemma CrossedNumbers()
    ensures var hash := Crossed();
            hash("model:a") == 1 && hash("track:b") == 2 && hash("model:c") == 2 && hash("track:d") == 1
  {
    assert "model:a"[0] == 'm' && "track:b"[0] == 't' && "model:c"[0] == 'm' && "track:d"[0] == 't';
    assert "model:c"[6] == 'c' && "model:a"[6] == 'a' && "track:b"[6] == 'b' && "track:d"[6] == 'd';
  }

  lemma TrackPlan(model: string, track: string)
    ensures Plan(ProjectTrack(model, track)) == ["model:" + model, "track:" + track]
  {
    var r := ProjectTrack(model, track);
    var a, b := "model:" + model, "track:" + track;
    assert a[0] == 'm' && b[0] == 't';
    assert Keys(r) == [a, b] && Keys(r)[1..] == [b];
    assert Distinct([b]) == [b] && [a, b][1..] == [b];
    assert Distinct([a, b]) == [a, b];
    assert TextOrder()(a, b);
    var leq := TextOrder();
    assert [a, b][1..] == [b];
    assert Sort(leq, [b]) == Insert(leq, b, Sort(leq, [])) == [b];
    assert Sort(leq, [a, b]) == Insert(leq, a, [b]) == [a, b];
  }
}
