/** What the coordinator may claim, release and return, over whole runs of every well-formed case. */
module CoordinatorAuthority {
  import opened Options
  import opened Coordinator
  import opened CoordinatorGate
  import opened CoordinatorRefinement

  // ------------------------------------------------------- the submission in flight

  ghost predicate Ends(t: State) {
    t.events != []
  }

  ghost function LastEvent(t: State): Event
    requires Ends(t)
  {
    t.events[|t.events| - 1]
  }

  /** A step that is not a submission can only keep or drop the submission in flight. */
  ghost predicate Keeps(a: Ownership, b: Ownership) {
    b.possible == a.possible && (b.pending == [] || (b.pending == a.pending && b.pendingCut == a.pendingCut))
  }

  /** What a step can do to the submission in flight. */
  ghost predicate Handles(c: Case, s: State, t: State) {
    && Ends(t)
    && (if LastEvent(t).Submit? then
          && OnCut(c, s) && t.vars.own.possible
          && t.vars.own.pending == s.vars.reading.prepared && t.vars.own.pendingCut == s.vars.reading.cut
        else Keeps(s.vars.own, t.vars.own))
    && (LastEvent(t).Error? && t.vars.own.possible ==> LastEvent(t).result.Unknown?)
    && (LastEvent(t).Release? ==> s.phase.AtDecide?)
  }

  lemma TakeHandles(c: Case, s: State, kind: CaptureKind, target: int)
    ensures Handles(c, s, Take(c, s, kind, target))
  {
  }

  lemma FailHandles(c: Case, s: State, kind: Result)
    ensures Handles(c, s, Fail(s, kind))
  {
  }

  lemma EarlyHandles(c: Case, s: State, t: State)
    requires Step(c, s) == Some(t)
    requires s.phase.AtAdmit? || s.phase.AtInitial? || s.phase.AtPoint? || s.phase.AtConvert? || s.phase.AtConfirm?
    ensures Handles(c, s, t)
  {
    if s.phase.AtInitial? { TakeHandles(c, s, InitialCapture, 0); }
  }

  lemma DecideHandles(c: Case, s: State, t: State)
    requires Step(c, s) == Some(t) && s.phase.AtDecide?
    ensures Handles(c, s, t)
  {
    TakeHandles(c, s, Recapture, TheCut(c, s).capture);
    TakeHandles(c, s, Acquire, TheCut(c, s).acquire);
    FailHandles(c, s, Unknown);
    FailHandles(c, s, TooLarge);
  }

  lemma FreshHandles(c: Case, s: State, t: State)
    requires Step(c, s) == Some(t) && s.phase.AtFresh?
    ensures Handles(c, s, t)
  {
    TakeHandles(c, s, Acquire, TheCut(c, s).acquire);
    FailHandles(c, s, Invalid);
  }

  lemma LateHandles(c: Case, s: State, t: State)
    requires Step(c, s) == Some(t)
    requires !s.phase.AtAdmit? && !s.phase.AtInitial? && !s.phase.AtPoint? && !s.phase.AtConvert? && !s.phase.AtConfirm?
    requires !s.phase.AtDecide? && !s.phase.AtFresh?
    ensures Handles(c, s, t)
  {
    if s.phase.AtSubmit? || s.phase.AtPost? {
      TakeHandles(c, s, Recapture, TheCut(c, s).capture);
      FailHandles(c, s, TooLarge);
    }
  }

  lemma StepHandles(c: Case, s: State, t: State)
    requires Step(c, s) == Some(t)
    ensures Handles(c, s, t)
  {
    if s.phase.AtDecide? {
      DecideHandles(c, s, t);
    } else if s.phase.AtFresh? {
      FreshHandles(c, s, t);
    } else if s.phase.AtAdmit? || s.phase.AtInitial? || s.phase.AtPoint? || s.phase.AtConvert? || s.phase.AtConfirm? {
      EarlyHandles(c, s, t);
    } else {
      LateHandles(c, s, t);
    }
  }

  // ------------------------------------------------------------ nothing definite

  ghost predicate Submitted(events: seq<Event>) {
    exists k :: 0 <= k < |events| && events[k].Submit?
  }

  /** No word of failure after a submission claims anything definite. */
  ghost predicate NothingDefinite(events: seq<Event>) {
    forall k, m :: 0 <= k < m < |events| && events[k].Submit? && events[m].Error? ==> events[m].result.Unknown?
  }

  lemma WordExtends(before: seq<Event>, possible: bool, last: Event)
    requires NothingDefinite(before) && (possible <==> Submitted(before))
    requires last.Error? && possible ==> last.result.Unknown?
    ensures NothingDefinite(before + [last])
    ensures Submitted(before + [last]) <==> possible || last.Submit?
  {
    var after := before + [last];
    assert forall k :: 0 <= k < |before| ==> after[k] == before[k];
    assert after[|before|] == last;
  }

  /** The events so far claim nothing definite after a submission, which is remembered. */
  ghost predicate Careful(s: State) {
    NothingDefinite(s.events) && (s.vars.own.possible <==> Submitted(s.events))
  }

  lemma StepCareful(c: Case, s: State, t: State)
    requires Careful(s) && Handles(c, s, t) && t.events == s.events + [LastEvent(t)]
    ensures Careful(t)
  {
    WordExtends(s.events, s.vars.own.possible, LastEvent(t));
  }

  lemma StepExtends(c: Case, s: State, t: State)
    requires ReadsAlike(c, s, t)
    ensures Ends(t) && t.events == s.events + [LastEvent(t)]
  {
  }

  /** After any submission, in any run, the only failure that can be reported is an unknown outcome. */
  lemma {:induction false} NothingDefiniteAfterSubmission(c: Case, states: seq<State>, i: nat)
    requires CaseOk(c) && IsRun(c, states) && i < |states|
    ensures NothingDefinite(states[i].events)
    ensures states[i].vars.own.possible <==> Submitted(states[i].events)
  {
    if i > 0 {
      var s, t := states[i - 1], states[i];
      NothingDefiniteAfterSubmission(c, states, i - 1);
      RunAgrees(c, states, i - 1);
      StepReadsAlike(c, s, t);
      StepExtends(c, s, t);
      StepHandles(c, s, t);
      StepCareful(c, s, t);
    }
  }

  // --------------------------------------------------------------------- release

  ghost predicate Handled(c: Case, states: seq<State>) {
    && |states| > 0 && states[0].vars.own.pending == []
    && forall i :: 0 <= i < |states| - 1 ==> Handles(c, states[i], states[i + 1])
  }

  lemma RunHandles(c: Case, states: seq<State>)
    requires IsRun(c, states)
    ensures Handled(c, states)
  {
    forall i | 0 <= i < |states| - 1
      ensures Handles(c, states[i], states[i + 1])
    {
      StepHandles(c, states[i], states[i + 1]);
    }
  }

  /** The submission in flight at `i` is the one made at `j`. */
  ghost predicate SubmittedAt(c: Case, states: seq<State>, j: nat, i: nat)
    requires j < i < |states|
  {
    && Ends(states[j + 1]) && LastEvent(states[j + 1]).Submit? && OnCut(c, states[j])
    && states[i].vars.own.pending == states[j].vars.reading.prepared
    && states[i].vars.own.pendingCut == states[j].vars.reading.cut
  }

  lemma {:induction false} PendingWasSubmitted(c: Case, states: seq<State>, i: nat) returns (j: nat)
    requires Handled(c, states) && i < |states| && states[i].vars.own.pending != []
    ensures j < i && SubmittedAt(c, states, j, i)
  {
    assert Handles(c, states[i - 1], states[i]);
    if LastEvent(states[i]).Submit? {
      j := i - 1;
    } else {
      j := PendingWasSubmitted(c, states, i - 1);
    }
  }

  /**
   * A submission some of whose members are still absent is released only under an actually acquired cut
   * whose epoch is strictly newer than that of the very cut it was submitted under.
   */
  lemma ReleaseNeedsNewerEpoch(c: Case, states: seq<State>, i: nat) returns (j: nat)
    requires IsRun(c, states) && i + 1 < |states| && Ends(states[i + 1]) && LastEvent(states[i + 1]).Release?
    requires AnyAbsent(states[i].vars.reading.classes, states[i].vars.own.pending)
    ensures j < i && SubmittedAt(c, states, j, i) && OnCut(c, states[i]) && !states[i].vars.own.durable
    ensures TheCut(c, states[i]).capability != "" && TheCut(c, states[i]).epoch > TheCut(c, states[j]).epoch
  {
    RunHandles(c, states);
    assert Handles(c, states[i], states[i + 1]);
    j := PendingWasSubmitted(c, states, i);
  }

  // ------------------------------------------------------------------ continuity

  /** Unless a contradiction was noticed, everything read from the cut agrees with what was first observed. */
  ghost predicate ReadsSteadily(c: Case, v: Vars, facts: seq<Option<Fact>>) {
    && |v.observed| == Members(c) == |facts| && v.reading.index <= |facts|
    && (!v.sticky ==> forall p :: 0 <= p < v.reading.index ==> v.observed[p] == StampOf(c, p, facts[p]))
  }

  /** The returned answers are the current cut's, member by member, and match every earlier observation. */
  ghost predicate Returned(c: Case, s: State) {
    && OnCut(c, s) && TheCut(c, s).current
    && var facts := TheCut(c, s).facts;
       && |facts| == Members(c) == |s.vars.observed| && (forall p :: 0 <= p < |facts| ==> facts[p].Some?)
       && s.vars.output == FullAnswer(c, facts)
       && forall p :: 0 <= p < |facts| ==> s.vars.observed[p] == StampOf(c, p, facts[p])
  }

  ghost predicate Steady(c: Case, s: State) {
    if s.phase.AtReturned? then Returned(c, s)
    else if s.phase.AtPoint? || s.phase.AtConvert? || s.phase.AtConfirm? || s.phase.AtDecide? || s.phase.AtFresh? then
      && OnCut(c, s) && ReadsSteadily(c, s.vars, TheCut(c, s).facts)
      && (s.phase.AtDecide? && s.vars.reading.confirmed ==> TheCut(c, s).current)
      && (s.phase.AtFresh? ==> TheCut(c, s).current)
    else true
  }

  /** What was once observed of a member is never revised. */
  ghost predicate Remembers(s: State, t: State) {
    forall p :: 0 <= p < |s.vars.observed| && s.vars.observed[p].Some? ==>
      p < |t.vars.observed| && t.vars.observed[p] == s.vars.observed[p]
  }

  ghost predicate Continues(c: Case, s: State, t: State) {
    Steady(c, t) && Remembers(s, t)
  }

  lemma TakeContinues(c: Case, s: State, kind: CaptureKind, target: int)
    requires CaseOk(c) && |s.vars.observed| == Members(c)
    ensures Continues(c, s, Take(c, s, kind, target))
  {
  }

  lemma FailContinues(c: Case, s: State, kind: Result)
    ensures Continues(c, s, Fail(s, kind))
  {
  }

  lemma PointContinues(c: Case, s: State, t: State)
    requires CaseOk(c) && Shape(c, s) && Steady(c, s) && Step(c, s) == Some(t) && s.phase.AtPoint?
    ensures Continues(c, s, t)
  {
  }

  lemma ReadContinues(c: Case, s: State, t: State)
    requires CaseOk(c) && Shape(c, s) && Steady(c, s) && Step(c, s) == Some(t)
    requires (s.phase.AtConvert? || s.phase.AtConfirm?)
    ensures Continues(c, s, t)
  {
  }

  lemma DecideContinues(c: Case, s: State, t: State)
    requires CaseOk(c) && Shape(c, s) && Steady(c, s) && Step(c, s) == Some(t) && s.phase.AtDecide?
    ensures Continues(c, s, t)
  {
    TakeContinues(c, s, Recapture, TheCut(c, s).capture);
    TakeContinues(c, s, Acquire, TheCut(c, s).acquire);
    FailContinues(c, s, Unknown);
    FailContinues(c, s, TooLarge);
  }

  lemma FreshContinues(c: Case, s: State, t: State)
    requires CaseOk(c) && Shape(c, s) && Steady(c, s) && Step(c, s) == Some(t) && s.phase.AtFresh?
    ensures Continues(c, s, t)
  {
    TakeContinues(c, s, Acquire, TheCut(c, s).acquire);
    FailContinues(c, s, Invalid);
    if AllKnown(s.vars.reading.classes) {
      AnswersAlike(c, s.vars.reading, TheCut(c, s).facts);
    }
  }

  lemma OtherContinues(c: Case, s: State, t: State)
    requires CaseOk(c) && Shape(c, s) && Steady(c, s) && Step(c, s) == Some(t)
    requires !s.phase.AtPoint? && !s.phase.AtConvert? && !s.phase.AtConfirm? && !s.phase.AtDecide? && !s.phase.AtFresh?
    ensures Continues(c, s, t)
  {
    if s.phase.AtInitial? { TakeContinues(c, s, InitialCapture, 0); }
    if s.phase.AtSubmit? || s.phase.AtPost? {
      TakeContinues(c, s, Recapture, TheCut(c, s).capture);
      FailContinues(c, s, TooLarge);
    }
  }

  lemma StepContinues(c: Case, s: State, t: State)
    requires CaseOk(c) && Shape(c, s) && Steady(c, s) && Step(c, s) == Some(t)
    ensures Continues(c, s, t)
  {
    if s.phase.AtPoint? {
      PointContinues(c, s, t);
    } else if s.phase.AtConvert? || s.phase.AtConfirm? {
      ReadContinues(c, s, t);
    } else if s.phase.AtDecide? {
      DecideContinues(c, s, t);
    } else if s.phase.AtFresh? {
      FreshContinues(c, s, t);
    } else {
      OtherContinues(c, s, t);
    }
  }

  lemma {:induction false} RunSteady(c: Case, states: seq<State>, i: nat)
    requires CaseOk(c) && IsRun(c, states) && i < |states|
    ensures Steady(c, states[i])
  {
    if i > 0 {
      RunSteady(c, states, i - 1);
      RunAgrees(c, states, i - 1);
      StepContinues(c, states[i - 1], states[i]);
    }
  }

  lemma RunRemembers(c: Case, states: seq<State>, i: nat)
    requires CaseOk(c) && IsRun(c, states) && i < |states| - 1
    ensures Remembers(states[i], states[i + 1])
  {
    RunSteady(c, states, i);
    RunAgrees(c, states, i);
    StepContinues(c, states[i], states[i + 1]);
  }

  lemma {:induction false} RememberedAlong(states: seq<State>, i: nat, j: nat, p: nat)
    requires i <= j < |states| && forall k :: 0 <= k < |states| - 1 ==> Remembers(states[k], states[k + 1])
    requires p < |states[i].vars.observed| && states[i].vars.observed[p].Some?
    ensures p < |states[j].vars.observed| && states[j].vars.observed[p] == states[i].vars.observed[p]
    decreases j - i
  {
    if i < j {
      assert Remembers(states[i], states[i + 1]);
      RememberedAlong(states, i + 1, j, p);
    }
  }

  /**
   * Answers are handed out for every member, from one current cut, and the identity and version of each is
   * the one first observed at whatever earlier moment of the run.
   */
  lemma AnswersMatchFirstSighting(c: Case, states: seq<State>, i: nat, j: nat, p: nat)
    requires CaseOk(c) && IsRun(c, states) && i <= j < |states| && states[j].phase.AtReturned?
    requires p < |states[i].vars.observed| && states[i].vars.observed[p].Some?
    ensures Returned(c, states[j]) && p < |states[j].vars.output|
    ensures states[j].vars.output[p].stamp == states[i].vars.observed[p]
  {
    RunSteady(c, states, j);
    forall k | 0 <= k < |states| - 1
      ensures Remembers(states[k], states[k + 1])
    {
      RunRemembers(c, states, k);
    }
    RememberedAlong(states, i, j, p);
  }
}
