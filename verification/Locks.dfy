/** Advisory locking by the projection writers: lock plans, and progress of concurrent transactions. */
module Locks {
  import opened Lists
  import Text
  import Numbers

  /** One writer transaction; only the identities that decide its locks matter here. */
  datatype Request =
    | ProjectRecording(recording: string, activities: seq<string>)
    | ProjectFeatures(recording: string, features: seq<string>)
    | ProjectModel(model: string)
    | ProjectRelease(model: string, alias: string)
    | ProjectTrack(model: string, track: string)
    | ProjectStorageHealth

  function Prefixed(kind: string, ids: seq<string>): (keys: seq<string>)
    ensures |keys| == |ids|
    ensures forall i :: 0 <= i < |ids| ==> keys[i] == kind + ids[i]
  {
    if ids == [] then [] else [kind + ids[0]] + Prefixed(kind, ids[1..])
  }

  /** The keys handed to the single locking pass. */
  function Keys(r: Request): (keys: seq<string>)
  {
    match r
    case ProjectRecording(recording, activities) => ["recording:" + recording] + Prefixed("activity:", activities)
    case ProjectFeatures(recording, features) => ["recording:" + recording] + Prefixed("feature:", features)
    case ProjectModel(model) => ["model:" + model]
    case ProjectRelease(model, alias) => ["model:" + model, "release:" + alias]
    case ProjectTrack(model, track) => ["model:" + model, "track:" + track]
    case ProjectStorageHealth => ["storage-health"]
  }

  /** Publishing a recording's detail takes one more lock, after the pass. */
  function DetailKeys(r: Request): (keys: seq<string>)
  {
    if r.ProjectRecording? then ["dashboard-recording-detail:" + r.recording] else []
  }

  function Distinct(s: seq<string>): (r: seq<string>)
  {
    if s == [] then [] else if s[0] in s[1..] then Distinct(s[1..]) else [s[0]] + Distinct(s[1..])
  }

  function TextOrder(): (leq: (string, string) -> bool)
  {
    (a, b) => !Text.Less(b, a)
  }

  function SortedDistinct(s: seq<string>): (t: seq<string>)
  {
    Sort(TextOrder(), Distinct(s))
  }

  /** Every lock key in acquisition order: `sorted(set(keys))`, then the detail key. */
  function Plan(r: Request): (plan: seq<string>)
  {
    SortedDistinct(Keys(r)) + DetailKeys(r)
  }

  // ----- all plans follow one global order

  predicate IsDetail(key: string)
  {
    key != "" && key[0] == 'd'
  }

  predicate Before(a: string, b: string)
  {
    if IsDetail(a) == IsDetail(b) then Text.Less(a, b) else IsDetail(b)
  }

  ghost predicate Ordered(plan: seq<string>)
  {
    forall i, j :: 0 <= i < j < |plan| ==> Before(plan[i], plan[j])
  }

  lemma {:induction false} DistinctKeepsMembers(s: seq<string>)
    ensures forall x :: x in Distinct(s) <==> x in s
    ensures forall i, j :: 0 <= i < j < |Distinct(s)| ==> Distinct(s)[i] != Distinct(s)[j]
  {
    if s != [] {
      assert s == [s[0]] + s[1..];
      DistinctKeepsMembers(s[1..]);
    }
  }

  lemma TextOrderIsTotal()
    ensures TotalPreorder(TextOrder())
  {
    Text.LessIsStrictTotalOrder();
    var leq := TextOrder();
    forall a, b, c | leq(a, b) && leq(b, c) ensures leq(a, c) {
      assert a == b || Text.Less(a, b);
      assert b == c || Text.Less(b, c);
    }
  }

  lemma SortedDistinctIsStrict(s: seq<string>)
    ensures forall x :: x in SortedDistinct(s) <==> x in s
    ensures forall i, j :: 0 <= i < j < |SortedDistinct(s)| ==> Text.Less(SortedDistinct(s)[i], SortedDistinct(s)[j])
  {
    var d := Distinct(s);
    var t := SortedDistinct(s);
    DistinctKeepsMembers(s);
    TextOrderIsTotal();
    SortIsOrderedPermutation(TextOrder(), d);
    forall x ensures x in t <==> x in s {
      assert x in t <==> x in multiset(t);
      assert x in d <==> x in multiset(d);
    }
    forall i, j | 0 <= i < j < |t| ensures Text.Less(t[i], t[j]) {
      assert TextOrder()(t[i], t[j]);
      if t[i] == t[j] {
        Numbers.RepeatCountsTwice(t, i, j);
        DistinctCountsOnce(d, t[i]);
      }
      Text.LessIsStrictTotalOrder();
    }
  }

  lemma {:induction false} DistinctCountsOnce(d: seq<string>, x: string)
    requires forall i, j :: 0 <= i < j < |d| ==> d[i] != d[j]
    ensures multiset(d)[x] <= 1
  {
    if d != [] {
      assert d == [d[0]] + d[1..];
      assert d[0] !in d[1..];
      DistinctCountsOnce(d[1..], x);
    }
  }

  lemma KindsStartKeys(kind: string, id: string)
    requires kind != "" && kind[0] != 'd'
    ensures !IsDetail(kind + id)
  {
  }

  lemma PrefixedAreNotDetails(kind: string, ids: seq<string>)
    requires kind != "" && kind[0] != 'd'
    ensures forall k :: k in Prefixed(kind, ids) ==> !IsDetail(k)
  {
    hide IsDetail;
    forall i | 0 <= i < |ids| ensures !IsDetail(Prefixed(kind, ids)[i]) {
      KindsStartKeys(kind, ids[i]);
    }
  }

  lemma KeysAreNotDetails(r: Request)
    ensures forall k :: k in Keys(r) ==> !IsDetail(k)
  {
    hide IsDetail, Prefixed;
    match r
    case ProjectRecording(recording, activities) =>
      KindsStartKeys("recording:", recording);
      PrefixedAreNotDetails("activity:", activities);
    case ProjectFeatures(recording, features) =>
      KindsStartKeys("recording:", recording);
      PrefixedAreNotDetails("feature:", features);
    case ProjectModel(model) => KindsStartKeys("model:", model);
    case ProjectRelease(model, alias) =>
      KindsStartKeys("model:", model);
      KindsStartKeys("release:", alias);
    case ProjectTrack(model, track) =>
      KindsStartKeys("model:", model);
      KindsStartKeys("track:", track);
    case ProjectStorageHealth =>
      KindsStartKeys("storage-health", "");
      assert "storage-health" + "" == "storage-health";
  }

  /** A writer takes each of its keys once, in the order shared by all writers. */
  lemma PlansAreOrdered(r: Request)
    ensures Ordered(Plan(r))
    ensures forall k :: k in Plan(r) <==> k in Keys(r) || k in DetailKeys(r)
  {
    var t := SortedDistinct(Keys(r));
    SortedDistinctIsStrict(Keys(r));
    KeysAreNotDetails(r);
    forall i, j | 0 <= i < j < |Plan(r)| ensures Before(Plan(r)[i], Plan(r)[j]) {
      assert Plan(r)[i] == t[i] && t[i] in t;
      if j < |t| {
        assert t[j] in t;
      }
    }
  }

  /** The text of the keys a writer takes in its pass. */
  ghost predicate IsKeyOf(r: Request, k: string)
  {
    match r
    case ProjectRecording(recording, activities) =>
      k == "recording:" + recording || exists i :: 0 <= i < |activities| && k == "activity:" + activities[i]
    case ProjectFeatures(recording, features) =>
      k == "recording:" + recording || exists i :: 0 <= i < |features| && k == "feature:" + features[i]
    case ProjectModel(model) => k == "model:" + model
    case ProjectRelease(model, alias) => k == "model:" + model || k == "release:" + alias
    case ProjectTrack(model, track) => k == "model:" + model || k == "track:" + track
    case ProjectStorageHealth => k == "storage-health"
  }

  /** The keys of the pass in ascending order, each once; a recording writer takes its detail's key after them. */
  lemma PlansByText(r: Request)
    ensures var n := |Plan(r)| - if r.ProjectRecording? then 1 else 0;
            && 0 < n
            && (forall i, j :: 0 <= i < j < n ==> Text.Less(Plan(r)[i], Plan(r)[j]))
            && (forall k :: k in Plan(r)[..n] <==> IsKeyOf(r, k))
            && (r.ProjectRecording? ==> Plan(r)[n] == "dashboard-recording-detail:" + r.recording)
  {
    hide SortedDistinct;
    var t := SortedDistinct(Keys(r));
    SortedDistinctIsStrict(Keys(r));
    assert Plan(r)[..|t|] == t;
    forall k ensures k in Keys(r) <==> IsKeyOf(r, k) {
    }
    assert Keys(r)[0] in Keys(r);
  }

  // ----- concurrent transactions

  datatype Writer = Waiting(plan: seq<string>, held: nat) | Finished(plan: seq<string>)

  /** The writers seen so far and, per lock number, the writer that holds it. */
  datatype State = State(writers: seq<Writer>, owner: map<int, nat>)

  /** `pg_advisory_xact_lock` addresses a lock by the hash of its key. */
  type Hash = string -> int

  ghost predicate Injective(hash: Hash)
  {
    forall a, b :: hash(a) == hash(b) ==> a == b
  }

  datatype Step =
    | Arrive(request: Request)
    | Acquire(w: nat)
    | End(w: nat)

  /** The next lock is free, or the same transaction already holds it. */
  predicate CanAcquire(hash: Hash, s: State, w: nat)
  {
    && w < |s.writers| && s.writers[w].Waiting? && s.writers[w].held < |s.writers[w].plan|
    && var l := hash(s.writers[w].plan[s.writers[w].held]);
       l in s.owner ==> s.owner[l] == w
  }

  predicate CanCommit(s: State, w: nat)
  {
    w < |s.writers| && s.writers[w].Waiting? && s.writers[w].held == |s.writers[w].plan|
  }

  predicate Enabled(hash: Hash, s: State, step: Step)
  {
    match step
    case Arrive(_) => true
    case Acquire(w) => CanAcquire(hash, s, w)
    case End(w) => w < |s.writers| && s.writers[w].Waiting?
  }

  /** Commit and rollback release every lock of the transaction. */
  function Next(hash: Hash, s: State, step: Step): (s': State)
    requires Enabled(hash, s, step)
  {
    match step
    case Arrive(request) => s.(writers := s.writers + [Waiting(Plan(request), 0)])
    case Acquire(w) =>
      var v := s.writers[w];
      State(s.writers[w := v.(held := v.held + 1)], s.owner[hash(v.plan[v.held]) := w])
    case End(w) =>
      State(s.writers[w := Finished(s.writers[w].plan)], map l | l in s.owner && s.owner[l] != w :: s.owner[l])
  }

  ghost predicate Reachable(hash: Hash, run: seq<State>)
  {
    && run != [] && run[0] == State([], map[])
    && forall i :: 0 < i < |run| ==> Follows(hash, run[i - 1], run[i])
  }

  ghost predicate Follows(hash: Hash, s: State, s': State)
  {
    exists step :: Enabled(hash, s, step) && s' == Next(hash, s, step)
  }

  /** The owned locks are exactly the hashes of the plan prefixes held by unfinished writers. */
  ghost predicate Inv(hash: Hash, s: State)
  {
    && (forall w :: 0 <= w < |s.writers| ==> Ordered(s.writers[w].plan))
    && (forall w :: 0 <= w < |s.writers| && s.writers[w].Waiting? ==> s.writers[w].held <= |s.writers[w].plan|)
    && (forall l :: l in s.owner ==> Holds(hash, s, s.owner[l], l))
    && (forall w, i :: 0 <= w < |s.writers| && s.writers[w].Waiting? && 0 <= i < s.writers[w].held ==>
          var l := hash(s.writers[w].plan[i]); l in s.owner && s.owner[l] == w)
  }

  ghost predicate Holds(hash: Hash, s: State, w: nat, l: int)
  {
    && w < |s.writers| && s.writers[w].Waiting? && s.writers[w].held <= |s.writers[w].plan|
    && exists i :: 0 <= i < s.writers[w].held && hash(s.writers[w].plan[i]) == l
  }

  lemma ArriveKeepsInv(hash: Hash, s: State, request: Request)
    requires Inv(hash, s)
    ensures Inv(hash, Next(hash, s, Arrive(request)))
  {
    hide Plan;
    var s' := Next(hash, s, Arrive(request));
    PlansAreOrdered(request);
    forall l | l in s'.owner ensures Holds(hash, s', s'.owner[l], l) {
      assert Holds(hash, s, s.owner[l], l);
    }
  }

  lemma EndKeepsInv(hash: Hash, s: State, w: nat)
    requires Inv(hash, s) && Enabled(hash, s, End(w))
    ensures Inv(hash, Next(hash, s, End(w)))
  {
    hide Ordered;
    var s' := Next(hash, s, End(w));
    forall l | l in s'.owner ensures Holds(hash, s', s'.owner[l], l) {
      assert Holds(hash, s, s.owner[l], l);
    }
  }

  lemma StepKeepsInv(hash: Hash, s: State, step: Step)
    requires Inv(hash, s) && Enabled(hash, s, step)
    ensures Inv(hash, Next(hash, s, step))
  {
    hide Inv, Next;
    match step
    case Arrive(request) => ArriveKeepsInv(hash, s, request);
    case Acquire(w) => AcquireKeepsInv(hash, s, w);
    case End(w) => EndKeepsInv(hash, s, w);
  }

  lemma AcquireKeepsInv(hash: Hash, s: State, w: nat)
    requires Inv(hash, s) && CanAcquire(hash, s, w)
    ensures Inv(hash, Next(hash, s, Acquire(w)))
  {
    var s' := Next(hash, s, Acquire(w));
    var v := s.writers[w];
    forall l | l in s'.owner ensures Holds(hash, s', s'.owner[l], l) {
      if l == hash(v.plan[v.held]) {
        assert s'.writers[w].plan[v.held] == v.plan[v.held];
      } else {
        var u := s.owner[l];
        assert Holds(hash, s, u, l);
        var i :| 0 <= i < s.writers[u].held && hash(s.writers[u].plan[i]) == l;
        assert s'.writers[u].plan[i] == s.writers[u].plan[i];
      }
    }
  }

  lemma {:induction false} ReachableStatesKeepInv(hash: Hash, run: seq<State>)
    requires Reachable(hash, run)
    ensures Inv(hash, run[|run| - 1])
  {
    var n := |run| - 1;
    if n > 0 {
      var before := run[..n];
      assert forall i :: 0 < i < |before| ==> Follows(hash, before[i - 1], before[i]);
      ReachableStatesKeepInv(hash, before);
      assert before[n - 1] == run[n - 1];
      assert Follows(hash, run[n - 1], run[n]);
      var step :| Enabled(hash, run[n - 1], step) && run[n] == Next(hash, run[n - 1], step);
      StepKeepsInv(hash, run[n - 1], step);
    }
  }

  /** No lock is ever held by two transactions. */
  lemma LocksAreExclusive(hash: Hash, run: seq<State>, u: nat, w: nat, i: nat, j: nat)
    requires Reachable(hash, run)
    requires var s := run[|run| - 1];
             && u < |s.writers| && w < |s.writers| && s.writers[u].Waiting? && s.writers[w].Waiting?
             && i < s.writers[u].held <= |s.writers[u].plan| && j < s.writers[w].held <= |s.writers[w].plan|
             && hash(s.writers[u].plan[i]) == hash(s.writers[w].plan[j])
    ensures u == w
  {
    ReachableStatesKeepInv(hash, run);
  }

  // ----- progress

  ghost predicate Blocked(s: State, w: nat)
  {
    w < |s.writers| && s.writers[w].Waiting? && s.writers[w].held < |s.writers[w].plan|
  }

  function Wanted(s: State, w: nat): (key: string)
    requires w < |s.writers| && s.writers[w].Waiting? && s.writers[w].held < |s.writers[w].plan|
  {
    s.writers[w].plan[s.writers[w].held]
  }

  lemma BeforeIsStrictTotalOrder()
    ensures forall a :: !Before(a, a)
    ensures forall a, b, c :: Before(a, b) && Before(b, c) ==> Before(a, c)
    ensures forall a, b :: a == b || Before(a, b) || Before(b, a)
  {
    Text.LessIsStrictTotalOrder();
  }

  /** Among the first `n` writers, some blocked one wants a key that no other wanted key comes after. */
  lemma {:induction false} LastWanted(s: State, n: nat, some: nat) returns (w: nat)
    requires n <= |s.writers| && some < n && Blocked(s, some)
    ensures w < n && Blocked(s, w)
    ensures forall u: nat :: u < n && Blocked(s, u) ==> !Before(Wanted(s, w), Wanted(s, u))
  {
    BeforeIsStrictTotalOrder();
    if exists u: nat :: u < n - 1 && Blocked(s, u) {
      var u: nat :| u < n - 1 && Blocked(s, u);
      w := LastWanted(s, n - 1, u);
      if Blocked(s, n - 1) && Before(Wanted(s, w), Wanted(s, n - 1)) {
        w := n - 1;
      }
    } else {
      w := some;
    }
  }

  /** The holder of a wanted lock either can commit or waits for a key further on. */
  lemma HolderWantsLater(hash: Hash, s: State, w: nat)
    requires Injective(hash) && Inv(hash, s) && Blocked(s, w) && !CanAcquire(hash, s, w)
    ensures var u := s.owner[hash(Wanted(s, w))];
            CanCommit(s, u) || (Blocked(s, u) && Before(Wanted(s, w), Wanted(s, u)))
  {
    var l := hash(Wanted(s, w));
    var u := s.owner[l];
    assert Holds(hash, s, u, l);
    var i :| 0 <= i < s.writers[u].held && hash(s.writers[u].plan[i]) == l;
    assert s.writers[u].plan[i] == Wanted(s, w);
  }

  lemma SomeWriterIsFree(hash: Hash, s: State, some: nat) returns (w: nat)
    requires Injective(hash) && Inv(hash, s) && some < |s.writers| && s.writers[some].Waiting?
    ensures CanAcquire(hash, s, w) || CanCommit(s, w)
  {
    if exists u: nat :: CanCommit(s, u) {
      w :| CanCommit(s, w);
    } else {
      assert !CanCommit(s, some);
      assert Blocked(s, some);
      w := LastWanted(s, |s.writers|, some);
      if !CanAcquire(hash, s, w) {
        HolderWantsLater(hash, s, w);
      }
    }
  }

  /** Whatever the interleaving, as long as a writer is unfinished some writer can lock or commit. */
  lemma SomeWriterCanProceed(hash: Hash, run: seq<State>, some: nat) returns (w: nat)
    requires Injective(hash) && Reachable(hash, run)
    requires some < |run[|run| - 1].writers| && run[|run| - 1].writers[some].Waiting?
    ensures CanAcquire(hash, run[|run| - 1], w) || CanCommit(run[|run| - 1], w)
  {
    hide Inv;
    ReachableStatesKeepInv(hash, run);
    w := SomeWriterIsFree(hash, run[|run| - 1], some);
  }

  /** The lock acquisitions and commits still ahead of the writers. */
  function Remaining(writers: seq<Writer>): (n: nat)
  {
    if writers == [] then 0
    else Remaining(writers[1..]) + Left(writers[0])
  }

  function Left(w: Writer): (n: nat)
  {
    match w
    case Finished(_) => 0
    case Waiting(plan, held) => if held <= |plan| then 1 + |plan| - held else 1
  }

  lemma {:induction false} RemainingAfterUpdate(writers: seq<Writer>, w: nat, v: Writer)
    requires w < |writers|
    ensures Remaining(writers[w := v]) - Left(v) == Remaining(writers) - Left(writers[w])
  {
    if w == 0 {
      assert writers[w := v][1..] == writers[1..];
    } else {
      assert writers[w := v][1..] == writers[1..][w - 1 := v];
      RemainingAfterUpdate(writers[1..], w - 1, v);
    }
  }

  /** Each lock or commit uses up part of a fixed budget, so without new arrivals all writers finish. */
  lemma ProceedingDrains(hash: Hash, s: State, step: Step)
    requires Enabled(hash, s, step) && !step.Arrive?
    ensures Remaining(Next(hash, s, step).writers) < Remaining(s.writers)
  {
    var w := step.w;
    var v := Next(hash, s, step).writers[w];
    RemainingAfterUpdate(s.writers, w, v);
  }

  lemma RunOn(hash: Hash, run: seq<State>, step: Step) returns (run': seq<State>)
    requires Reachable(hash, run) && Enabled(hash, run[|run| - 1], step)
    ensures run <= run' && Reachable(hash, run') && run'[|run'| - 1] == Next(hash, run[|run| - 1], step)
  {
    run' := run + [Next(hash, run[|run| - 1], step)];
    assert Follows(hash, run[|run| - 1], run'[|run|]);
    forall i | 0 < i < |run'| ensures Follows(hash, run'[i - 1], run'[i]) {
      if i < |run| {
        assert Follows(hash, run[i - 1], run[i]);
      }
    }
  }

  ghost predicate AllFinished(s: State)
  {
    forall w :: 0 <= w < |s.writers| ==> s.writers[w].Finished?
  }

  /** Hence every run, however far it got, can be driven to the end of all its transactions. */
  lemma {:induction false} EveryRunCanDrain(hash: Hash, run: seq<State>) returns (all: seq<State>)
    requires Injective(hash) && Reachable(hash, run)
    ensures run <= all && Reachable(hash, all)
    ensures |all[|all| - 1].writers| == |run[|run| - 1].writers| && AllFinished(all[|all| - 1])
    decreases Remaining(run[|run| - 1].writers)
  {
    var s := run[|run| - 1];
    if some :| 0 <= some < |s.writers| && s.writers[some].Waiting? {
      var w := SomeWriterCanProceed(hash, run, some);
      var step := if CanAcquire(hash, s, w) then Acquire(w) else End(w);
      var more := RunOn(hash, run, step);
      ProceedingDrains(hash, s, step);
      all := EveryRunCanDrain(hash, more);
    } else {
      all := run;
    }
  }
}
