/** Publication of capture batches: an append-only table of versions in which captured facts never regress. */
module BatchPublication {
  import opened Outcomes
  import opened Projections
  import Text

  datatype CaptureState = Pending | Succeeded | Failed

  datatype AnalysisState = Unavailable | Queued | Running | Complete | Broken

  datatype Attempt = Attempt(
    attemptId: string, radioId: string, planId: string, requested: int,
    capture: CaptureState, observed: Option<int>, recording: Option<string>, failure: Option<string>,
    analysis: AnalysisState, available: bool)

  datatype Eligibility = Undecided | Eligible | Ineligible

  datatype View = View(
    batchId: string, coordinated: bool, claimed: bool, attempts: seq<Attempt>, revision: int, requestedSkew: int,
    observedSkew: Option<int>, maximumSkew: Option<int>, eligibility: Eligibility)

  /** The database role of the caller; a trusted publisher is the capture or the analysis service. */
  datatype Role = Trusted | Other

  datatype PublishError = Invalid | Conflict

  // ----- what a view must satisfy by itself

  predicate ValidAttempt(a: Attempt)
  {
    && a.requested >= 0 && (a.observed.Some? ==> a.observed.value >= 0)
    && match a.capture
       case Pending =>
         a.observed.None? && a.recording.None? && a.failure.None? && a.analysis == Unavailable && !a.available
       case Failed => a.recording.None? && a.failure.Some? && a.analysis == Unavailable && !a.available
       case Succeeded =>
         && a.observed.Some? && a.recording.Some? && a.failure.None? && a.analysis != Unavailable
         && (a.available ==> a.analysis == Complete)
  }

  function Terminal(a: Attempt): (n: int)
  {
    if a.capture == Pending then 0 else 1
  }

  function Distance(x: int, y: int): (d: int)
  {
    if x <= y then y - x else x - y
  }

  function ObservedSkew(v: View): (skew: Option<int>)
    requires |v.attempts| == 2
  {
    if v.attempts[0].observed.Some? && v.attempts[1].observed.Some?
    then Some(Distance(v.attempts[0].observed.value, v.attempts[1].observed.value)) else None
  }

  function EligibilityOf(v: View): (e: Eligibility)
    requires |v.attempts| == 2
  {
    if v.attempts[0].capture == Pending || v.attempts[1].capture == Pending then Undecided
    else if v.attempts[0].capture != Succeeded || v.attempts[1].capture != Succeeded then Ineligible
    else if v.coordinated
            && (v.observedSkew.None? || (v.maximumSkew.Some? && v.observedSkew.value > v.maximumSkew.value))
    then Ineligible
    else Eligible
  }

  predicate Valid(v: View)
  {
    && |v.attempts| == 2 && ValidAttempt(v.attempts[0]) && ValidAttempt(v.attempts[1])
    && Text.Less(v.attempts[0].attemptId, v.attempts[1].attemptId)
    && v.attempts[0].radioId != v.attempts[1].radioId && v.attempts[0].planId != v.attempts[1].planId
    && (v.attempts[0].recording.Some? ==> v.attempts[0].recording != v.attempts[1].recording)
    && v.revision == Terminal(v.attempts[0]) + Terminal(v.attempts[1])
    && v.requestedSkew == Distance(v.attempts[0].requested, v.attempts[1].requested)
    && v.observedSkew == ObservedSkew(v)
    && (if v.coordinated then v.claimed && v.requestedSkew == 0 && v.maximumSkew.Some?
        else !v.claimed && v.maximumSkew.None?)
    && (v.maximumSkew.Some? ==> v.maximumSkew.value >= 0)
    && v.eligibility == EligibilityOf(v)
  }

  // ----- what a view must satisfy beside the latest one

  predicate SameTerms(prior: View, v: View)
  {
    && prior.coordinated == v.coordinated && prior.claimed == v.claimed
    && prior.requestedSkew == v.requestedSkew && prior.maximumSkew == v.maximumSkew
  }

  predicate KeepsEvidence(prior: Attempt, a: Attempt)
  {
    && prior.attemptId == a.attemptId && prior.radioId == a.radioId && prior.planId == a.planId
    && prior.requested == a.requested
    && (prior.capture != Pending ==>
          && prior.capture == a.capture && prior.observed == a.observed && prior.recording == a.recording
          && prior.failure == a.failure)
  }

  /** The attempt's result is there for readers. */
  predicate Settled(a: Attempt)
  {
    a.analysis == Complete && a.available
  }

  datatype Change = Unchanged | Stale | Regressing | Moving

  function AnalysisChange(prior: Attempt, a: Attempt, role: Role): (c: Change)
  {
    if prior.analysis == a.analysis && prior.available == a.available then Unchanged
    else if Settled(prior) && role == Trusted && a.analysis == Queued && !a.available then Stale
    else if Settled(prior) then Regressing
    else Moving
  }

  datatype Verdict = Refuse | Ignore | Insert

  function Judge(prior: View, v: View, role: Role): (verdict: Verdict)
    requires |prior.attempts| == 2 && |v.attempts| == 2
  {
    var changes := [AnalysisChange(prior.attempts[0], v.attempts[0], role),
                    AnalysisChange(prior.attempts[1], v.attempts[1], role)];
    if !SameTerms(prior, v) || prior.revision > v.revision then Refuse
    else if prior.revision == 2 && (prior.observedSkew != v.observedSkew || prior.eligibility != v.eligibility)
    then Refuse
    else if !KeepsEvidence(prior.attempts[0], v.attempts[0]) || !KeepsEvidence(prior.attempts[1], v.attempts[1])
    then Refuse
    else if Regressing in changes || (Stale in changes && Moving in changes) then Refuse
    else if Stale in changes then Ignore
    else Insert
  }

  // ----- validity by the constraints of the two tables

  /** The three shapes of an attempt row. */
  predicate AttemptRow(a: Attempt)
  {
    || (a.capture == Pending && a.observed == None && a.recording == None && a.failure == None
        && a.analysis == Unavailable && !a.available)
    || (a.capture == Failed && a.recording == None && a.failure != None && a.analysis == Unavailable && !a.available)
    || (a.capture == Succeeded && a.observed != None && a.recording != None && a.failure == None
        && a.analysis in {Queued, Running, Complete, Broken} && (!a.available || a.analysis == Complete))
  }

  predicate Natural(x: Option<int>)
  {
    x.Some? ==> 0 <= x.value
  }

  /** The positions of the attempts in one of the given capture states. */
  function In(v: View, states: set<CaptureState>): (r: set<int>)
  {
    set i | 0 <= i < |v.attempts| && v.attempts[i].capture in states
  }

  /** A row of each kind of batch, its attempts told apart by every identity they have. */
  predicate BatchRow(v: View)
  {
    && ((!v.coordinated && !v.claimed && v.maximumSkew == None)
        || (v.coordinated && v.claimed && v.maximumSkew != None && v.requestedSkew == 0))
    && Natural(v.maximumSkew) && Natural(v.observedSkew) && 0 <= v.requestedSkew
    && forall i :: 0 <= i < |v.attempts| ==>
         && AttemptRow(v.attempts[i]) && 0 <= v.attempts[i].requested && Natural(v.attempts[i].observed)
         && forall j :: 0 <= j < i ==>
              && Text.Less(v.attempts[j].attemptId, v.attempts[i].attemptId)
              && v.attempts[j].radioId != v.attempts[i].radioId && v.attempts[j].planId != v.attempts[i].planId
              && (v.attempts[j].recording == v.attempts[i].recording ==> v.attempts[i].recording == None)
  }

  /** The revision counts terminal attempts, skews are distances, and eligibility follows from both. */
  predicate Consistent(v: View)
    requires |v.attempts| == 2
  {
    var a, b := v.attempts[0], v.attempts[1];
    && v.revision == |In(v, {Succeeded, Failed})|
    && (v.requestedSkew == a.requested - b.requested || v.requestedSkew == b.requested - a.requested)
    && (v.observedSkew == None <==> a.observed == None || b.observed == None)
    && (v.observedSkew.Some? && a.observed.Some? && b.observed.Some? ==>
          || v.observedSkew.value == a.observed.value - b.observed.value
          || v.observedSkew.value == b.observed.value - a.observed.value)
    && (v.eligibility == Undecided <==> In(v, {Pending}) != {})
    && (v.eligibility == Eligible <==>
          && In(v, {Succeeded}) == {0, 1}
          && (v.coordinated && v.observedSkew.Some? && v.maximumSkew.Some? ==>
                v.observedSkew.value <= v.maximumSkew.value))
  }

  lemma AttemptRowIffValid(a: Attempt)
    ensures ValidAttempt(a) <==> AttemptRow(a) && 0 <= a.requested && Natural(a.observed)
  {
  }

  lemma InByPlace(v: View, states: set<CaptureState>)
    requires |v.attempts| == 2
    ensures In(v, states)
         == (if v.attempts[0].capture in states then {0} else {}) + (if v.attempts[1].capture in states then {1} else {})
  {
  }

  lemma TerminalIsCounted(v: View)
    requires |v.attempts| == 2
    ensures |In(v, {Succeeded, Failed})| == Terminal(v.attempts[0]) + Terminal(v.attempts[1])
  {
    InByPlace(v, {Succeeded, Failed});
  }

  lemma EligibilityByCounts(v: View)
    requires |v.attempts| == 2
    ensures In(v, {Pending}) != {} <==> v.attempts[0].capture == Pending || v.attempts[1].capture == Pending
    ensures In(v, {Succeeded}) == {0, 1} <==> v.attempts[0].capture == Succeeded && v.attempts[1].capture == Succeeded
  {
    InByPlace(v, {Pending});
    InByPlace(v, {Succeeded});
    assert 0 in {0, 1} && 1 in {0, 1};
  }

  lemma BatchRowByPlace(v: View)
    requires |v.attempts| == 2
    ensures BatchRow(v) <==>
      && ((!v.coordinated && !v.claimed && v.maximumSkew == None)
          || (v.coordinated && v.claimed && v.maximumSkew != None && v.requestedSkew == 0))
      && Natural(v.maximumSkew) && Natural(v.observedSkew) && 0 <= v.requestedSkew
      && ValidAttempt(v.attempts[0]) && ValidAttempt(v.attempts[1])
      && Text.Less(v.attempts[0].attemptId, v.attempts[1].attemptId)
      && v.attempts[0].radioId != v.attempts[1].radioId && v.attempts[0].planId != v.attempts[1].planId
      && (v.attempts[0].recording == v.attempts[1].recording ==> v.attempts[1].recording == None)
  {
    hide AttemptRow, ValidAttempt, Natural, Text.Less;
    AttemptRowIffValid(v.attempts[0]);
    AttemptRowIffValid(v.attempts[1]);
  }

  lemma SkewsAreDistances(v: View)
    requires |v.attempts| == 2
    ensures 0 <= v.requestedSkew ==>
      (v.requestedSkew == Distance(v.attempts[0].requested, v.attempts[1].requested) <==>
         || v.requestedSkew == v.attempts[0].requested - v.attempts[1].requested
         || v.requestedSkew == v.attempts[1].requested - v.attempts[0].requested)
    ensures v.requestedSkew == Distance(v.attempts[0].requested, v.attempts[1].requested) ==> 0 <= v.requestedSkew
    ensures v.observedSkew == ObservedSkew(v) ==> Natural(v.observedSkew)
    ensures Natural(v.observedSkew) ==>
      (v.observedSkew == ObservedSkew(v) <==>
         && (v.observedSkew == None <==> v.attempts[0].observed == None || v.attempts[1].observed == None)
         && (v.observedSkew.Some? && v.attempts[0].observed.Some? && v.attempts[1].observed.Some? ==>
               || v.observedSkew.value == v.attempts[0].observed.value - v.attempts[1].observed.value
               || v.observedSkew.value == v.attempts[1].observed.value - v.attempts[0].observed.value))
  {
  }

  /** The routine accepts exactly the views of two attempts that meet the tables' constraints consistently. */
  lemma ValidIffConsistentRows(v: View)
    ensures Valid(v) <==> |v.attempts| == 2 && BatchRow(v) && Consistent(v)
  {
    hide BatchRow, Distance, ObservedSkew, In, ValidAttempt, Terminal, Text.Less;
    if |v.attempts| == 2 {
      BatchRowByPlace(v);
      TerminalIsCounted(v);
      EligibilityByCounts(v);
      SkewsAreDistances(v);
      SucceededIsObserved(v.attempts[0]);
      SucceededIsObserved(v.attempts[1]);
      ObservedTogether(v);
    }
  }

  lemma SucceededIsObserved(a: Attempt)
    ensures ValidAttempt(a) && a.capture == Succeeded ==> a.observed.Some?
  {
  }

  lemma ObservedTogether(v: View)
    requires |v.attempts| == 2
    ensures ObservedSkew(v).Some? <==> v.attempts[0].observed.Some? && v.attempts[1].observed.Some?
  {
  }

  // ----- the table

  datatype Version = Version(sequence: int, view: View)

  datatype Table = Table(versions: seq<Version>, counter: Counter)

  const NO_BATCHES := Table([], NEVER_DRAWN)

  /** The newest version of a batch, with its position. */
  function NewestOf(versions: seq<Version>, batchId: string): (r: Option<nat>)
    ensures r.Some? ==> r.value < |versions| && versions[r.value].view.batchId == batchId
    ensures forall i :: 0 <= i < |versions| && versions[i].view.batchId == batchId ==> r.Some? && i <= r.value
  {
    if versions == [] then None
    else
      var n := |versions| - 1;
      if versions[n].view.batchId == batchId then Some(n) else NewestOf(versions[..n], batchId)
  }

  function Appended(t: Table, v: View, skipped: nat): (t': Table)
  {
    var n := Draw(t.counter, skipped);
    Table(t.versions + [Version(n, v)], Counter(n, true))
  }

  /** One call of the routine: the new table and the sequence it returns. */
  function Publish(t: Table, v: View, role: Role, skipped: nat): (r: Result<(Table, int), PublishError>)
    requires forall x :: x in t.versions ==> |x.view.attempts| == 2
  {
    if !Valid(v) then Err(Invalid)
    else
      match NewestOf(t.versions, v.batchId)
      case None => Ok((Appended(t, v, skipped), Draw(t.counter, skipped)))
      case Some(i) =>
        var prior := t.versions[i];
        if prior.view == v then Ok((t, prior.sequence))
        else
          match Judge(prior.view, v, role)
          case Refuse => Err(Conflict)
          case Ignore => Ok((t, prior.sequence))
          case Insert => Ok((Appended(t, v, skipped), Draw(t.counter, skipped)))
  }

  class BatchProjection {
    var table: Table

    ghost predicate TwoAttempts()
      reads this
    {
      forall x :: x in table.versions ==> |x.view.attempts| == 2
    }

    constructor ()
      ensures table == NO_BATCHES && TwoAttempts()
    {
      table := NO_BATCHES;
    }

    /** The loop over the attempts of a view beside the latest one. */
    static method CompareAttempts(prior: View, v: View, role: Role) returns (refused: bool, stale: bool, moving: bool)
      requires |prior.attempts| == 2 && |v.attempts| == 2
      ensures refused <==> exists i ::
        && 0 <= i < 2
        && (!KeepsEvidence(prior.attempts[i], v.attempts[i])
            || AnalysisChange(prior.attempts[i], v.attempts[i], role) == Regressing)
      ensures !refused ==>
        && (stale <==> exists i :: 0 <= i < 2 && AnalysisChange(prior.attempts[i], v.attempts[i], role) == Stale)
        && (moving <==> exists i :: 0 <= i < 2 && AnalysisChange(prior.attempts[i], v.attempts[i], role) == Moving)
    {
      refused, stale, moving := false, false, false;
      for i := 0 to 2
        invariant forall j :: 0 <= j < i ==>
          && KeepsEvidence(prior.attempts[j], v.attempts[j])
          && AnalysisChange(prior.attempts[j], v.attempts[j], role) != Regressing
        invariant stale <==> exists j :: 0 <= j < i && AnalysisChange(prior.attempts[j], v.attempts[j], role) == Stale
        invariant moving <==> exists j :: 0 <= j < i && AnalysisChange(prior.attempts[j], v.attempts[j], role) == Moving
        invariant !refused
      {
        var change := AnalysisChange(prior.attempts[i], v.attempts[i], role);
        if !KeepsEvidence(prior.attempts[i], v.attempts[i]) || change == Regressing {
          return true, stale, moving;
        }
        stale, moving := stale || change == Stale, moving || change == Moving;
      }
    }

    method PublishBatch(v: View, role: Role, skipped: nat) returns (r: Result<int, PublishError>)
      requires TwoAttempts()
      modifies this
      ensures var done := Publish(old(table), v, role, skipped);
              && table == (if done.Ok? then done.value.0 else old(table))
              && r == (if done.Ok? then Ok(done.value.1) else Err(done.error))
      ensures TwoAttempts()
    {
      hide Valid, KeepsEvidence, AnalysisChange, SameTerms;
      if !Valid(v) {
        return Err(Invalid);
      }
      ValidHasTwoAttempts(v);
      var latest := NewestOf(table.versions, v.batchId);
      if latest.Some? {
        var prior := table.versions[latest.value];
        assert prior in table.versions;
        if prior.view == v {
          return Ok(prior.sequence);
        }
        if !SameTerms(prior.view, v) || prior.view.revision > v.revision {
          return Err(Conflict);
        }
        if prior.view.revision == 2
           && (prior.view.observedSkew != v.observedSkew || prior.view.eligibility != v.eligibility) {
          return Err(Conflict);
        }
        var refused, stale, moving := CompareAttempts(prior.view, v, role);
        if refused || (stale && moving) {
          return Err(Conflict);
        }
        if stale {
          return Ok(prior.sequence);
        }
      }
      r := Ok(Draw(table.counter, skipped));
      table := Appended(table, v, skipped);
    }
  }

  lemma ValidHasTwoAttempts(v: View)
    requires Valid(v)
    ensures |v.attempts| == 2
  {
  }

  // ----- what publication means for a batch

  /** The later attempt keeps the intent, terminal capture facts and a readable result of the earlier one. */
  predicate AttemptAdvances(a: Attempt, b: Attempt)
  {
    KeepsEvidence(a, b) && (Settled(a) ==> Settled(b))
  }

  predicate Advances(a: View, b: View)
    requires |a.attempts| == 2 && |b.attempts| == 2
  {
    && a.batchId == b.batchId && SameTerms(a, b)
    && AttemptAdvances(a.attempts[0], b.attempts[0]) && AttemptAdvances(a.attempts[1], b.attempts[1])
  }

  /** Advancing implies what two further guards ask: revisions climb, and a terminal batch keeps its verdict. */
  lemma AdvancingViewsClimb(a: View, b: View)
    requires Valid(a) && Valid(b) && Advances(a, b)
    ensures a.revision <= b.revision
    ensures a.revision == 2 ==> b.observedSkew == a.observedSkew && b.eligibility == a.eligibility
  {
  }

  lemma AdvancesIsTransitive(a: View, b: View, c: View)
    requires Valid(a) && Valid(b) && Valid(c) && Advances(a, b) && Advances(b, c)
    ensures Advances(a, c)
  {
  }

  lemma AdvancesItself(a: View)
    requires Valid(a)
    ensures Advances(a, a)
  {
  }

  /**
   * Beside the latest version, a different valid view becomes a new version if and only if it advances
   * that version. Otherwise nothing changes: the call is refused, or ignored as a replay from before the
   * result was there.
   */
  lemma PublishedIffAdvances(t: Table, v: View, role: Role, skipped: nat)
    requires AllValid(t.versions) && Valid(v) && |v.attempts| == 2 && forall x :: x in t.versions ==> |x.view.attempts| == 2
    requires NewestOf(t.versions, v.batchId).Some? && t.versions[NewestOf(t.versions, v.batchId).value].view != v
    ensures var prior := t.versions[NewestOf(t.versions, v.batchId).value];
            var r := Publish(t, v, role, skipped);
            && Valid(prior.view)
            && (Advances(prior.view, v) ==> r == Ok((Appended(t, v, skipped), Draw(t.counter, skipped))))
            && (!Advances(prior.view, v) ==> r == Err(Conflict) || r == Ok((t, prior.sequence)))
  {
    hide Valid;
    var prior := t.versions[NewestOf(t.versions, v.batchId).value];
    assert prior in t.versions;
    JudgedByAdvance(prior.view, v, role);
  }

  lemma JudgedByAdvance(prior: View, v: View, role: Role)
    requires Valid(prior) && Valid(v) && prior.batchId == v.batchId
    ensures Judge(prior, v, role) == Insert <==> Advances(prior, v)
  {
    if Advances(prior, v) {
      AdvancingViewsClimb(prior, v);
    }
  }

  /** The views agree on everything but analysis facts and facts that were still open. */
  ghost predicate KeepsTermsAndEvidence(prior: View, v: View)
    requires |prior.attempts| == 2 && |v.attempts| == 2
  {
    && prior.coordinated == v.coordinated && prior.claimed == v.claimed
    && prior.requestedSkew == v.requestedSkew && prior.maximumSkew == v.maximumSkew
    && forall i :: 0 <= i < 2 ==>
         var a, b := prior.attempts[i], v.attempts[i];
         && a.attemptId == b.attemptId && a.radioId == b.radioId && a.planId == b.planId && a.requested == b.requested
         && (a.capture != Pending ==>
               a.capture == b.capture && a.observed == b.observed && a.recording == b.recording && a.failure == b.failure)
  }

  ghost predicate SameAnalysis(a: Attempt, b: Attempt)
  {
    a.analysis == b.analysis && a.available == b.available
  }

  /** A readable result that comes back as queued, from a trusted publisher. */
  ghost predicate Replayed(a: Attempt, b: Attempt, role: Role)
  {
    role == Trusted && a.analysis == Complete && a.available && b.analysis == Queued && !b.available
  }

  /**
   * A different valid view beside the latest one that does not become a version is answered with the latest
   * sequence if and only if it keeps terms and evidence, replays some readable result as queued from a
   * trusted role, and otherwise changes no analysis; any other is a conflict.
   */
  lemma IgnoredIffReplayed(t: Table, v: View, role: Role, skipped: nat)
    requires AllValid(t.versions) && Valid(v) && |v.attempts| == 2 && forall x :: x in t.versions ==> |x.view.attempts| == 2
    requires NewestOf(t.versions, v.batchId).Some? && t.versions[NewestOf(t.versions, v.batchId).value].view != v
    ensures var prior := t.versions[NewestOf(t.versions, v.batchId).value];
            var r := Publish(t, v, role, skipped);
            && prior in t.versions
            && (r == Ok((t, prior.sequence)) <==>
                  && KeepsTermsAndEvidence(prior.view, v)
                  && (exists i :: 0 <= i < 2 && Replayed(prior.view.attempts[i], v.attempts[i], role))
                  && forall i :: 0 <= i < 2 ==>
                       || SameAnalysis(prior.view.attempts[i], v.attempts[i])
                       || Replayed(prior.view.attempts[i], v.attempts[i], role))
            && (r == Ok((Appended(t, v, skipped), Draw(t.counter, skipped))) <==>
                  && KeepsTermsAndEvidence(prior.view, v)
                  && forall i :: 0 <= i < 2 ==>
                       || SameAnalysis(prior.view.attempts[i], v.attempts[i])
                       || !(prior.view.attempts[i].analysis == Complete && prior.view.attempts[i].available))
            && (r.Err? ==> r == Err(Conflict))
            && (r.Ok? ==> r == Ok((t, prior.sequence)) || r == Ok((Appended(t, v, skipped), Draw(t.counter, skipped))))
  {
    hide Valid;
    var prior := t.versions[NewestOf(t.versions, v.batchId).value];
    assert prior in t.versions;
    JudgedByFields(prior.view, v, role);
    assert |Appended(t, v, skipped).versions| == |t.versions| + 1;
  }

  lemma JudgedByFields(prior: View, v: View, role: Role)
    requires Valid(prior) && Valid(v) && prior.batchId == v.batchId
    ensures |prior.attempts| == 2 && |v.attempts| == 2
    ensures Judge(prior, v, role) == Ignore <==>
      && KeepsTermsAndEvidence(prior, v)
      && (exists i :: 0 <= i < 2 && Replayed(prior.attempts[i], v.attempts[i], role))
      && forall i :: 0 <= i < 2 ==>
           SameAnalysis(prior.attempts[i], v.attempts[i]) || Replayed(prior.attempts[i], v.attempts[i], role)
    ensures Judge(prior, v, role) == Insert <==>
      && KeepsTermsAndEvidence(prior, v)
      && forall i :: 0 <= i < 2 ==>
           || SameAnalysis(prior.attempts[i], v.attempts[i])
           || !(prior.attempts[i].analysis == Complete && prior.attempts[i].available)
  {
    hide Valid, KeepsTermsAndEvidence, SameTerms, KeepsEvidence, AnalysisChange, SameAnalysis, Replayed;
    ValidHasTwoAttempts(v);
    ValidHasTwoAttempts(prior);
    GuardsByFields(prior, v);
    ChangesByFields(prior.attempts[0], v.attempts[0], role);
    ChangesByFields(prior.attempts[1], v.attempts[1], role);
  }

  lemma GuardsByFields(prior: View, v: View)
    requires Valid(prior) && Valid(v) && |prior.attempts| == 2 && |v.attempts| == 2
    ensures KeepsTermsAndEvidence(prior, v) <==>
      && SameTerms(prior, v)
      && KeepsEvidence(prior.attempts[0], v.attempts[0]) && KeepsEvidence(prior.attempts[1], v.attempts[1])
    ensures KeepsTermsAndEvidence(prior, v) ==>
      && prior.revision <= v.revision
      && (prior.revision == 2 ==> prior.observedSkew == v.observedSkew && prior.eligibility == v.eligibility)
  {
    if KeepsTermsAndEvidence(prior, v) {
      KeepingMeansClimbing(prior, v);
    }
  }

  lemma ChangesByFields(a: Attempt, b: Attempt, role: Role)
    ensures AnalysisChange(a, b, role) == Unchanged <==> SameAnalysis(a, b)
    ensures AnalysisChange(a, b, role) == Stale <==> Replayed(a, b, role)
    ensures AnalysisChange(a, b, role) == Moving <==> !SameAnalysis(a, b) && !(a.analysis == Complete && a.available)
  {
  }

  lemma KeepingMeansClimbing(a: View, b: View)
    requires Valid(a) && Valid(b) && |a.attempts| == 2 && |b.attempts| == 2 && KeepsTermsAndEvidence(a, b)
    ensures a.revision <= b.revision
    ensures a.revision == 2 ==> b.observedSkew == a.observedSkew && b.eligibility == a.eligibility
  {
    assert KeepsEvidence(a.attempts[0], b.attempts[0]) && KeepsEvidence(a.attempts[1], b.attempts[1]);
  }

  // ----- every run

  datatype Call = Call(view: View, role: Role, skipped: nat)

  ghost predicate AllValid(versions: seq<Version>)
  {
    forall x :: x in versions ==> Valid(x.view)
  }

  ghost predicate Climbing(t: Table)
  {
    && (forall i, j :: 0 <= i < j < |t.versions| ==> t.versions[i].sequence < t.versions[j].sequence)
    && (forall x :: x in t.versions ==> t.counter.called && x.sequence <= t.counter.last)
  }

  /** Each version of a batch advances every earlier one of it. */
  ghost predicate Advancing(versions: seq<Version>)
  {
    forall i, j :: 0 <= i < j < |versions| && versions[i].view.batchId == versions[j].view.batchId ==>
      |versions[i].view.attempts| == |versions[j].view.attempts| == 2 && Advances(versions[i].view, versions[j].view)
  }

  ghost predicate Inv(t: Table)
  {
    AllValid(t.versions) && Climbing(t) && Advancing(t.versions)
  }

  /** The version of a batch with the largest sequence. */
  ghost predicate IsLatest(versions: seq<Version>, batchId: string, x: Version)
  {
    && x in versions && x.view.batchId == batchId
    && forall y :: y in versions && y.view.batchId == batchId ==> y.sequence <= x.sequence
  }

  lemma NewestIsLatest(t: Table, batchId: string, x: Version)
    requires Climbing(t)
    ensures IsLatest(t.versions, batchId, x) <==>
      NewestOf(t.versions, batchId).Some? && t.versions[NewestOf(t.versions, batchId).value] == x
  {
    var newest := NewestOf(t.versions, batchId);
    if newest.Some? {
      assert t.versions[newest.value] in t.versions;
      forall y | y in t.versions && y.view.batchId == batchId
        ensures y == t.versions[newest.value] || y.sequence < t.versions[newest.value].sequence
      {
        var i :| 0 <= i < |t.versions| && t.versions[i] == y;
      }
    } else {
      forall y | y in t.versions ensures y.view.batchId != batchId {
        var i :| 0 <= i < |t.versions| && t.versions[i] == y;
      }
    }
  }

  /**
   * A view is refused as invalid exactly when it is; the first of a batch is published, the latest one
   * repeated is answered with its sequence, and whatever is published is the last row under the answer.
   */
  lemma PublicationsByColumns(t: Table, v: View, role: Role, skipped: nat)
    requires Climbing(t) && forall x :: x in t.versions ==> |x.view.attempts| == 2
    ensures var r := Publish(t, v, role, skipped);
            && (r == Err(Invalid) <==> !(|v.attempts| == 2 && BatchRow(v) && Consistent(v)))
            && (Valid(v) && (forall x :: x in t.versions ==> x.view.batchId != v.batchId) ==> r.Ok? && r.value.0 != t)
            && (Valid(v) ==> forall x :: IsLatest(t.versions, v.batchId, x) && x.view == v ==> r == Ok((t, x.sequence)))
            && (r.Ok? && r.value.0 != t ==>
                  && r.value.0.versions == t.versions + [Version(r.value.1, v)]
                  && r.value.1 == (if t.counter.called then t.counter.last + 1 else t.counter.last) + skipped
                  && r.value.0.counter == Counter(r.value.1, true)
                  && forall x :: x in t.versions ==> x.sequence < r.value.1)
  {
    hide Valid, BatchRow, Consistent, Judge, NewestOf, IsLatest;
    ValidIffConsistentRows(v);
    assert |Appended(t, v, skipped).versions| == |t.versions| + 1;
    forall x ensures IsLatest(t.versions, v.batchId, x) <==>
      NewestOf(t.versions, v.batchId).Some? && t.versions[NewestOf(t.versions, v.batchId).value] == x
    {
      NewestIsLatest(t, v.batchId, x);
    }
    if NewestOf(t.versions, v.batchId).Some? {
      assert t.versions[NewestOf(t.versions, v.batchId).value] in t.versions;
    }
  }

  lemma VersionsHaveTwoAttempts(t: Table)
    requires AllValid(t.versions)
    ensures forall x :: x in t.versions ==> |x.view.attempts| == 2
  {
  }

  ghost function After(calls: seq<Call>): (t: Table)
    ensures Inv(t)
  {
    if calls == [] then NO_BATCHES
    else
      var before, c := After(calls[..|calls| - 1]), calls[|calls| - 1];
      VersionsHaveTwoAttempts(before);
      PublishKeepsInv(before, c.view, c.role, c.skipped);
      var r := Publish(before, c.view, c.role, c.skipped);
      if r.Ok? then r.value.0 else before
  }

  lemma PublishKeepsInv(t: Table, v: View, role: Role, skipped: nat)
    requires Inv(t) && forall x :: x in t.versions ==> |x.view.attempts| == 2
    ensures Publish(t, v, role, skipped).Ok? ==> Inv(Publish(t, v, role, skipped).value.0)
  {
    hide Valid, Judge, Advances, Climbing, Advancing;
    if Valid(v) {
      ValidHasTwoAttempts(v);
      var latest := NewestOf(t.versions, v.batchId);
      AppendingClimbs(t, v, skipped);
      if latest.None? {
        FirstVersionAdvances(t.versions, Version(Draw(t.counter, skipped), v));
      } else {
        assert t.versions[latest.value] in t.versions;
        JudgedByAdvance(t.versions[latest.value].view, v, role);
        if Judge(t.versions[latest.value].view, v, role) == Insert {
          NextVersionAdvances(t.versions, latest.value, Version(Draw(t.counter, skipped), v));
        }
      }
    }
  }

  lemma AppendingClimbs(t: Table, v: View, skipped: nat)
    requires Climbing(t)
    ensures Climbing(Appended(t, v, skipped))
  {
    var t' := Appended(t, v, skipped);
    forall i, j | 0 <= i < j < |t'.versions| ensures t'.versions[i].sequence < t'.versions[j].sequence {
      assert t.versions[i] in t.versions;
    }
  }

  lemma FirstVersionAdvances(versions: seq<Version>, x: Version)
    requires Advancing(versions) && forall i :: 0 <= i < |versions| ==> versions[i].view.batchId != x.view.batchId
    ensures Advancing(versions + [x])
  {
    hide Advances;
    var all := versions + [x];
    forall i, j | 0 <= i < j < |all| && all[i].view.batchId == all[j].view.batchId
      ensures |all[i].view.attempts| == |all[j].view.attempts| == 2 && Advances(all[i].view, all[j].view)
    {
      assert j < |versions| && all[i] == versions[i] && all[j] == versions[j];
    }
  }

  lemma NextVersionAdvances(versions: seq<Version>, latest: nat, x: Version)
    requires AllValid(versions) && Advancing(versions) && Valid(x.view) && latest < |versions|
    requires versions[latest].view.batchId == x.view.batchId
    requires forall i :: 0 <= i < |versions| && versions[i].view.batchId == x.view.batchId ==> i <= latest
    requires |versions[latest].view.attempts| == |x.view.attempts| == 2 && Advances(versions[latest].view, x.view)
    ensures Advancing(versions + [x])
  {
    hide Advances, Valid;
    var all := versions + [x];
    forall i, j | 0 <= i < j < |all| && all[i].view.batchId == all[j].view.batchId
      ensures |all[i].view.attempts| == |all[j].view.attempts| == 2 && Advances(all[i].view, all[j].view)
    {
      if j < |versions| {
        assert all[i] == versions[i] && all[j] == versions[j];
      } else if i < latest {
        assert versions[i] in versions && versions[latest] in versions;
        ValidHasTwoAttempts(versions[i].view);
        AdvancesIsTransitive(versions[i].view, versions[latest].view, x.view);
      }
    }
  }

  /**
   * Over every run of publications, a later version of a batch keeps the intent, every terminal capture
   * fact and every readable result of an earlier one, at a revision as high, and is numbered above it.
   */
  lemma VersionsOnlyAdvance(calls: seq<Call>, i: nat, j: nat)
    requires i < j < |After(calls).versions|
    requires After(calls).versions[i].view.batchId == After(calls).versions[j].view.batchId
    ensures var a, b := After(calls).versions[i], After(calls).versions[j];
            && Valid(a.view) && Valid(b.view) && Advances(a.view, b.view) && a.view.revision <= b.view.revision
            && a.sequence < b.sequence
            && (a.view.revision == 2 ==>
                  b.view.observedSkew == a.view.observedSkew && b.view.eligibility == a.view.eligibility)
  {
    hide Valid, Advances, After;
    var t := After(calls);
    assert t.versions[i] in t.versions && t.versions[j] in t.versions;
    AdvancingViewsClimb(t.versions[i].view, t.versions[j].view);
  }

  lemma PublishKeepsVersions(t: Table, v: View, role: Role, skipped: nat)
    requires forall x :: x in t.versions ==> |x.view.attempts| == 2
    ensures Publish(t, v, role, skipped).Ok? ==> t.versions <= Publish(t, v, role, skipped).value.0.versions
  {
    hide Valid, Judge;
  }

  /** A later run only adds versions. */
  lemma {:induction false} VersionsAreKept(calls: seq<Call>, k: nat)
    requires k <= |calls|
    ensures After(calls[..k]).versions <= After(calls).versions
  {
    hide Publish, Valid, Climbing, Advancing;
    if k == |calls| {
      assert calls[..k] == calls;
    } else {
      var n := |calls| - 1;
      VersionsAreKept(calls[..n], k);
      assert calls[..n][..k] == calls[..k];
      VersionsHaveTwoAttempts(After(calls[..n]));
      PublishKeepsVersions(After(calls[..n]), calls[n].view, calls[n].role, calls[n].skipped);
    }
  }

  /** So a result once readable stays readable, in the latest version at any later time. */
  lemma ReadableResultsStay(calls: seq<Call>, k: nat, i: nat, at: nat)
    requires k <= |calls| && i < |After(calls[..k]).versions| && at < 2
    requires |After(calls[..k]).versions[i].view.attempts| == 2
    requires Settled(After(calls[..k]).versions[i].view.attempts[at])
    ensures var versions, first := After(calls).versions, After(calls[..k]).versions[i].view;
            var latest := NewestOf(versions, first.batchId);
            && latest.Some? && |versions[latest.value].view.attempts| == 2
            && Settled(versions[latest.value].view.attempts[at])
            && KeepsEvidence(first.attempts[at], versions[latest.value].view.attempts[at])
  {
    hide After, Valid;
    VersionsAreKept(calls, k);
    var t := After(calls);
    var latest := NewestOf(t.versions, t.versions[i].view.batchId).value;
    assert t.versions[latest] in t.versions;
    ValidHasTwoAttempts(t.versions[latest].view);
    if i < latest {
      VersionsOnlyAdvance(calls, i, latest);
    }
  }

  // ----- what can still go back

  function WithAnalysis(v: View, at: nat, analysis: AnalysisState): (v': View)
    requires at < |v.attempts|
  {
    v.(attempts := v.attempts[at := v.attempts[at].(analysis := analysis, available := false)])
  }

  /**
   * The analysis facts of a captured attempt can still be moved, back as well as forth, if and only if
   * its result is not readable yet.
   */
  lemma AnalysisCanMoveIffUnsettled(prior: View, at: nat)
    requires Valid(prior) && at < 2 && prior.attempts[at].capture == Succeeded
    ensures (exists v: View, role: Role ::
               && Valid(v) && v.batchId == prior.batchId && Judge(prior, v, role) == Insert
               && (v.attempts[at].analysis != prior.attempts[at].analysis
                   || v.attempts[at].available != prior.attempts[at].available))
            <==> !Settled(prior.attempts[at])
  {
    hide Judge;
    if Settled(prior.attempts[at]) {
      forall v: View, role: Role | Valid(v) && v.batchId == prior.batchId && Judge(prior, v, role) == Insert
        ensures v.attempts[at].analysis == prior.attempts[at].analysis
        ensures v.attempts[at].available == prior.attempts[at].available
      {
        JudgedByAdvance(prior, v, role);
      }
    } else {
      var v := WithAnalysis(prior, at, if prior.attempts[at].analysis == Queued then Running else Queued);
      MovedViewIsInserted(prior, at, v.attempts[at].analysis);
      assert Judge(prior, v, Trusted) == Insert;
    }
  }

  lemma MovedViewIsInserted(prior: View, at: nat, analysis: AnalysisState)
    requires Valid(prior) && at < 2 && prior.attempts[at].capture == Succeeded && !Settled(prior.attempts[at])
    requires analysis != Unavailable
    ensures var v := WithAnalysis(prior, at, analysis); Valid(v) && Judge(prior, v, Trusted) == Insert
  {
    hide Judge;
    JudgedByAdvance(prior, WithAnalysis(prior, at, analysis), Trusted);
  }

  /** Such a step back: replaying the queued view over a running analysis is published as a new version. */
  lemma RunningCanGoBackToQueued(t: Table, v: View, skipped: nat)
    requires Valid(v) && v.attempts[0].capture == Succeeded && v.attempts[0].analysis == Running && !v.attempts[0].available
    requires t == Table([Version(1, v)], Counter(1, true))
    ensures var back := WithAnalysis(v, 0, Queued);
            Publish(t, back, Trusted, skipped) == Ok((Appended(t, back, skipped), 2 + skipped))
  {
    var back := WithAnalysis(v, 0, Queued);
    assert t.versions[..0] == [];
    PublishedIffAdvances(t, back, Trusted, skipped);
  }
}
