/** The coordinator and its event interpreter agree on every reachable state of every well-formed case. */
module CoordinatorRefinement {
  import opened Options
  import opened Coordinator
  import opened CoordinatorGate

  function ModeOf(phase: Phase): Mode {
    match phase
    case AtAdmit => InAdmit
    case AtInitial => InInitial
    case AtPoint => InPoint
    case AtConvert => InConvert
    case AtConfirm => InConfirm
    case AtDecide => InDecide
    case AtFresh => InFresh
    case AtPrepared => InPrepared
    case AtSubmit => InSubmit
    case AtPost => InPost
    case AtShutdown => InShutdown
    case AtReturned => InReturned
    case AtDrop => InDrop
    case AtDone => InDone
  }

  ghost function GateOf(s: State): Gate {
    Gate(ModeOf(s.phase), s.vars)
  }

  function TokenOf(fact: Option<Fact>): Token {
    if fact.None? then NoToken
    else if fact.value.fingerprint != OUR_FINGERPRINT then RequestConflict
    else Receipt(fact.value.receipt)
  }

  // ------------------------------------------------------------------ invariant

  /** The members read so far are classified as the cut has them. */
  ghost predicate Classifies(r: Reading, facts: seq<Option<Fact>>) {
    && |r.classes| == r.index <= |facts|
    && forall i :: 0 <= i < r.index ==> r.classes[i] == Status(facts[i])
  }

  ghost predicate Converts(r: Reading, facts: seq<Option<Fact>>) {
    && |r.converted| == r.member <= |facts|
    && forall p :: 0 <= p < r.member ==> r.converted[p] == (p, TokenOf(facts[p]))
  }

  /** The whole cut has been classified and converted without error. */
  ghost predicate ReadAll(r: Reading, facts: seq<Option<Fact>>) {
    Classifies(r, facts) && Converts(r, facts) && r.index == r.member == |facts| && !r.readError
  }

  ghost predicate Shape(c: Case, s: State) {
    var v, r := s.vars, s.vars.reading;
    match s.phase
    case AtAdmit => s.vars == START_VARS
    case AtInitial => r == START_READING && v.own.job && |v.observed| == Members(c)
    case AtReturned => v.own.job && v.own.outputOwner
    case AtDrop => v.own.job && v.own.outputOwner
    case AtDone => true
    case _ =>
      && OnCut(c, s) && v.own.job && |v.observed| == Members(c)
      && var facts := TheCut(c, s).facts;
         match s.phase
         case AtPoint => Classifies(r, facts) && r.member == 0 && r.converted == [] && !r.readError
         case AtConvert => Classifies(r, facts) && r.index == |facts| && Converts(r, facts) && !r.readError
         case AtConfirm => Classifies(r, facts) && (!r.readError ==> ReadAll(r, facts))
         case AtDecide => Classifies(r, facts) && (!r.readError ==> ReadAll(r, facts))
         case AtFresh => ReadAll(r, facts) && r.confirmed && !v.sticky && v.own.pending == []
         case AtPrepared => Classifies(r, facts) && !v.sticky && v.own.pending == [] && r.prepared != []
         case AtSubmit => Classifies(r, facts) && !v.sticky && v.own.pending == [] && r.prepared != []
         case AtPost => v.own.owner
         case _ => v.own.owner && !v.own.caller
  }

  ghost predicate Agrees(c: Case, s: State) {
    Replay(c, s.events) == Ok(GateOf(s)) && Shape(c, s)
  }

  // --------------------------------------------------------------- reading alike

  lemma {:induction false} FirstAlike(classes: seq<Class>, facts: seq<Option<Fact>>)
    requires |classes| == |facts| && forall i :: 0 <= i < |facts| ==> classes[i] == Status(facts[i])
    ensures FirstAbsent(classes) == FirstMissing(facts)
  {
    if classes != [] && !classes[0].Absent? { FirstAlike(classes[1..], facts[1..]); }
  }

  lemma {:induction false} RunAlike(classes: seq<Class>, facts: seq<Option<Fact>>, p: nat, end: nat)
    requires |classes| == |facts| && end <= |facts| && forall i :: 0 <= i < |facts| ==> classes[i] == Status(facts[i])
    ensures AbsentRun(classes, p, end) == AbsentFacts(facts, p, end)
    decreases end - p
  {
    if p < end && classes[p].Absent? { RunAlike(classes, facts, p + 1, end); }
  }

  lemma {:induction false} TokenAlike(r: Reading, facts: seq<Option<Fact>>, p: nat, n: nat)
    requires Converts(r, facts) && p < n <= r.member
    ensures TokenFor(r.converted[..n], p) == TokenOf(facts[p])
    decreases n
  {
    assert r.converted[..n][n - 1] == (n - 1, TokenOf(facts[n - 1]));
    if p < n - 1 {
      assert r.converted[..n][..n - 1] == r.converted[..n - 1];
      TokenAlike(r, facts, p, n - 1);
    }
  }

  lemma AnswersAlike(c: Case, r: Reading, facts: seq<Option<Fact>>)
    requires ReadAll(r, facts) && |facts| == Members(c) && AllKnown(r.classes)
    ensures forall p :: 0 <= p < |facts| ==> facts[p].Some?
    ensures Answers(c, r, facts) == FullAnswer(c, facts)
  {
    forall p | 0 <= p < |facts|
      ensures facts[p].Some? && TokenFor(r.converted, p) == TokenOf(facts[p])
    {
      assert r.classes[p] == Status(facts[p]);
      TokenAlike(r, facts, p, r.member);
      assert r.converted[..r.member] == r.converted;
    }
  }

  // ------------------------------------------------------------------ every step

  /** The step's event is read by the interpreter into the step's own state. */
  ghost predicate ReadsAlike(c: Case, s: State, t: State) {
    && |t.events| == |s.events| + 1 && t.events[..|s.events|] == s.events
    && Read(c, GateOf(s), t.events[|s.events|]) == Ok(GateOf(t))
    && Shape(c, t)
  }

  /** A permitted capture, or the stop it turns into. */
  lemma TakeAlike(c: Case, s: State, kind: CaptureKind, target: int)
    requires CaseOk(c) && !s.phase.AtDone? && |s.vars.observed| == Members(c) && s.vars.own.job
    requires CaptureTarget(c, GateOf(s)) == Some((kind, target))
    requires HasCut(c, GateOf(s)) ==> LinkOk(c, GateCut(c, GateOf(s)), target)
    requires Refused(c, kind, target, s.vars.progress.attempts) ==> Stopping(c, GateOf(s)) == Some(Unknown)
    ensures ReadsAlike(c, s, Take(c, s, kind, target))
  {
    if Refused(c, kind, target, s.vars.progress.attempts) {
      FailAlike(c, s, Unknown);
    } else {
      var t := Take(c, s, kind, target);
      assert t.events[..|s.events|] == s.events;
    }
  }

  lemma FailAlike(c: Case, s: State, kind: Result)
    requires !s.phase.AtDone? && Stopping(c, GateOf(s)) == Some(kind)
    ensures ReadsAlike(c, s, Fail(s, kind))
  {
    var t := Fail(s, kind);
    assert t.events[..|s.events|] == s.events;
  }

  lemma PointShapes(c: Case, s: State, t: State)
    requires CaseOk(c) && Shape(c, s) && s.phase.AtPoint? && PointStep(c, s) == Some(t)
    ensures Shape(c, t)
  {
  }

  lemma PointReads(c: Case, s: State, t: State)
    requires CaseOk(c) && Shape(c, s) && s.phase.AtPoint? && PointStep(c, s) == Some(t)
    ensures t.events != [] && Read(c, GateOf(s), t.events[|t.events| - 1]) == Ok(GateOf(t))
  {
  }

  lemma PointAlike(c: Case, s: State, t: State)
    requires CaseOk(c) && Shape(c, s) && Step(c, s) == Some(t) && s.phase.AtPoint?
    ensures ReadsAlike(c, s, t)
  {
    PointShapes(c, s, t);
    PointReads(c, s, t);
    assert |t.events| == |s.events| + 1 && t.events[..|s.events|] == s.events;
  }

  lemma ConvertsMore(r: Reading, facts: seq<Option<Fact>>, token: Token)
    requires Converts(r, facts) && r.member < |facts| && token == TokenOf(facts[r.member])
    ensures Converts(r.(member := r.member + 1, converted := r.converted + [(r.member, token)]), facts)
  {
  }

  lemma ConvertShapes(c: Case, s: State, t: State)
    requires CaseOk(c) && Shape(c, s) && s.phase.AtConvert? && ConvertStep(c, s) == Some(t)
    ensures Shape(c, t)
  {
    var r, facts := s.vars.reading, TheCut(c, s).facts;
    if t.phase.AtConvert? { ConvertsMore(r, facts, TokenOf(facts[r.member])); }
  }

  lemma ConvertReads(c: Case, s: State, t: State)
    requires CaseOk(c) && Shape(c, s) && s.phase.AtConvert? && ConvertStep(c, s) == Some(t)
    ensures t.events != [] && Read(c, GateOf(s), t.events[|t.events| - 1]) == Ok(GateOf(t))
  {
  }

  lemma ConvertAlike(c: Case, s: State, t: State)
    requires CaseOk(c) && Shape(c, s) && Step(c, s) == Some(t) && s.phase.AtConvert?
    ensures ReadsAlike(c, s, t)
  {
    ConvertShapes(c, s, t);
    ConvertReads(c, s, t);
    assert |t.events| == |s.events| + 1 && t.events[..|s.events|] == s.events;
  }

  lemma ConfirmAlike(c: Case, s: State, t: State)
    requires CaseOk(c) && Shape(c, s) && Step(c, s) == Some(t) && s.phase.AtConfirm?
    ensures ReadsAlike(c, s, t)
  {
    assert t.events[..|s.events|] == s.events;
  }

  lemma ReleaseAlike(c: Case, s: State, t: State)
    requires CaseOk(c) && Shape(c, s) && Step(c, s) == Some(t) && s.phase.AtDecide? && !s.vars.sticky
    requires s.vars.reading.confirmed && !s.vars.reading.readError
    requires s.vars.own.pending != [] ==>
               && !DurableBad(s.vars)
               && (s.vars.own.durable || !Unresolved(s.vars) || NewerAcquire(c, TheCut(c, s), s.vars.own.pendingCut))
    ensures ReadsAlike(c, s, t)
  {
    assert t.events[..|s.events|] == s.events;
  }

  lemma DecideAlike(c: Case, s: State, t: State)
    requires CaseOk(c) && Shape(c, s) && Step(c, s) == Some(t) && s.phase.AtDecide?
    ensures ReadsAlike(c, s, t)
  {
    var v, r, cut := s.vars, s.vars.reading, TheCut(c, s);
    if v.sticky {
      FailAlike(c, s, Unknown);
    } else if !r.confirmed {
      TakeAlike(c, s, Recapture, cut.capture);
    } else if r.readError {
      FailAlike(c, s, if cut.badOutcome >= 0 then Unknown else TooLarge);
    } else if v.own.pending != [] && DurableBad(v) {
      FailAlike(c, s, Unknown);
    } else if v.own.pending != [] && !v.own.durable && Unresolved(v) && !NewerAcquire(c, cut, v.own.pendingCut) {
      TakeAlike(c, s, Acquire, cut.acquire);
    } else {
      ReleaseAlike(c, s, t);
    }
  }

  lemma OutputAlike(c: Case, s: State, t: State)
    requires CaseOk(c) && Shape(c, s) && Step(c, s) == Some(t) && s.phase.AtFresh? && AllKnown(s.vars.reading.classes)
    ensures ReadsAlike(c, s, t)
  {
    AnswersAlike(c, s.vars.reading, TheCut(c, s).facts);
    assert t.events[..|s.events|] == s.events;
  }

  /** The coordinator and the interpreter select the same, non-empty, run of positions. */
  lemma {:induction false} SelectionAlike(c: Case, classes: seq<Class>, facts: seq<Option<Fact>>)
    requires |classes| == |facts| && forall i :: 0 <= i < |facts| ==> classes[i] == Status(facts[i])
    requires !AllKnown(classes) && c.pack > 0
    ensures var first := FirstAbsent(classes);
            AbsentRun(classes, first, Least(first + c.pack, |classes|)) == Selection(c, facts)
    ensures Selection(c, facts) != []
  {
    FirstAlike(classes, facts);
    var first := FirstAbsent(classes);
    RunAlike(classes, facts, first, Least(first + c.pack, |classes|));
    var q :| 0 <= q < |classes| && classes[q].Absent?;
    assert first <= q;
  }

  /** The coordinator with `positions` prepared. */
  ghost function Prepared(s: State, positions: seq<nat>): State {
    Emit(s, Prepare(positions), AtPrepared, Worked(s.vars.(reading := s.vars.reading.(prepared := positions))))
  }

  lemma PrepareSteps(c: Case, s: State, positions: seq<nat>)
    requires CaseOk(c) && Shape(c, s) && s.phase.AtFresh? && positions == Selection(c, TheCut(c, s).facts)
    requires !AllKnown(s.vars.reading.classes) && !AnyAbsent(s.vars.reading.classes, c.admin)
    requires TheCut(c, s).capability != ""
    ensures positions != [] && FreshStep(c, s) == Some(Prepared(s, positions))
  {
    SelectionAlike(c, s.vars.reading.classes, TheCut(c, s).facts);
  }

  /** The interpreter takes the selection read off the cut. */
  lemma PrepareReads(c: Case, g: Gate, positions: seq<nat>)
    requires HasCut(c, g) && g.mode.InFresh? && g.vars.reading.confirmed && !g.vars.sticky && g.vars.own.pending == []
    requires !AllKnown(g.vars.reading.classes) && !AnyAbsent(g.vars.reading.classes, c.admin)
    requires GateCut(c, g).capability != "" && positions == Selection(c, GateCut(c, g).facts)
    ensures Read(c, g, Prepare(positions)) ==
              Ok(Gate(InPrepared, Worked(g.vars.(reading := g.vars.reading.(prepared := positions)))))
  {
  }

  lemma PrepareAlike(c: Case, s: State)
    requires CaseOk(c) && Shape(c, s) && s.phase.AtFresh?
    requires !AllKnown(s.vars.reading.classes) && !AnyAbsent(s.vars.reading.classes, c.admin)
    requires TheCut(c, s).capability != ""
    ensures FreshStep(c, s).Some? && ReadsAlike(c, s, FreshStep(c, s).value)
  {
    var positions := Selection(c, TheCut(c, s).facts);
    PrepareSteps(c, s, positions);
    PrepareReads(c, GateOf(s), positions);
    assert Prepared(s, positions).events[..|s.events|] == s.events;
  }

  lemma FreshAlike(c: Case, s: State, t: State)
    requires CaseOk(c) && Shape(c, s) && Step(c, s) == Some(t) && s.phase.AtFresh?
    ensures ReadsAlike(c, s, t)
  {
    var r, cut := s.vars.reading, TheCut(c, s);
    if AllKnown(r.classes) {
      OutputAlike(c, s, t);
    } else if AnyAbsent(r.classes, c.admin) {
      FailAlike(c, s, Invalid);
    } else if cut.capability == "" {
      TakeAlike(c, s, Acquire, cut.acquire);
    } else {
      PrepareAlike(c, s);
    }
  }

  lemma SubmitAlike(c: Case, s: State, t: State)
    requires CaseOk(c) && Shape(c, s) && Step(c, s) == Some(t) && s.phase.AtSubmit?
    ensures ReadsAlike(c, s, t)
  {
    var v, r, cut := s.vars, s.vars.reading, TheCut(c, s);
    assert t.events[..|s.events|] == s.events;
    if !r.confirmed { TakeAlike(c, s, Recapture, cut.capture); }
  }

  lemma PostAlike(c: Case, s: State, t: State)
    requires CaseOk(c) && Shape(c, s) && s.phase.AtPost? && Step(c, s) == Some(t)
    ensures ReadsAlike(c, s, t)
  {
    assert t.events[..|s.events|] == s.events;
    if !(c.abandon && s.vars.own.caller) { TakeAlike(c, s, Recapture, TheCut(c, s).capture); }
  }

  lemma BeginAlike(c: Case, s: State, t: State)
    requires CaseOk(c) && Shape(c, s) && Step(c, s) == Some(t) && (s.phase.AtAdmit? || s.phase.AtInitial?)
    ensures ReadsAlike(c, s, t)
  {
    if s.phase.AtInitial? {
      TakeAlike(c, s, InitialCapture, 0);
    } else {
      assert t.events[..|s.events|] == s.events;
    }
  }

  lemma PreparedAlike(c: Case, s: State, t: State)
    requires CaseOk(c) && Shape(c, s) && Step(c, s) == Some(t) && s.phase.AtPrepared?
    ensures ReadsAlike(c, s, t)
  {
    assert t.events[..|s.events|] == s.events;
  }

  lemma EndAlike(c: Case, s: State, t: State)
    requires CaseOk(c) && Shape(c, s) && Step(c, s) == Some(t)
    requires s.phase.AtShutdown? || s.phase.AtReturned? || s.phase.AtDrop?
    ensures ReadsAlike(c, s, t)
  {
    assert t.events[..|s.events|] == s.events;
  }

  lemma EarlyAlike(c: Case, s: State, t: State)
    requires CaseOk(c) && Shape(c, s) && Step(c, s) == Some(t)
    requires s.phase.AtAdmit? || s.phase.AtInitial? || s.phase.AtPoint? || s.phase.AtConvert?
    ensures ReadsAlike(c, s, t)
  {
    if s.phase.AtPoint? {
      PointAlike(c, s, t);
    } else if s.phase.AtConvert? {
      ConvertAlike(c, s, t);
    } else {
      BeginAlike(c, s, t);
    }
  }

  lemma MiddleAlike(c: Case, s: State, t: State)
    requires CaseOk(c) && Shape(c, s) && Step(c, s) == Some(t)
    requires s.phase.AtConfirm? || s.phase.AtDecide? || s.phase.AtFresh? || s.phase.AtPrepared?
    ensures ReadsAlike(c, s, t)
  {
    if s.phase.AtConfirm? {
      ConfirmAlike(c, s, t);
    } else if s.phase.AtDecide? {
      DecideAlike(c, s, t);
    } else if s.phase.AtFresh? {
      FreshAlike(c, s, t);
    } else {
      PreparedAlike(c, s, t);
    }
  }

  lemma LateAlike(c: Case, s: State, t: State)
    requires CaseOk(c) && Shape(c, s) && Step(c, s) == Some(t)
    requires s.phase.AtSubmit? || s.phase.AtPost? || s.phase.AtShutdown? || s.phase.AtReturned? || s.phase.AtDrop?
    ensures ReadsAlike(c, s, t)
  {
    if s.phase.AtSubmit? {
      SubmitAlike(c, s, t);
    } else if s.phase.AtPost? {
      PostAlike(c, s, t);
    } else {
      EndAlike(c, s, t);
    }
  }

  lemma StepReadsAlike(c: Case, s: State, t: State)
    requires CaseOk(c) && Shape(c, s) && Step(c, s) == Some(t)
    ensures ReadsAlike(c, s, t)
  {
    if s.phase.AtAdmit? || s.phase.AtInitial? || s.phase.AtPoint? || s.phase.AtConvert? {
      EarlyAlike(c, s, t);
    } else if s.phase.AtConfirm? || s.phase.AtDecide? || s.phase.AtFresh? || s.phase.AtPrepared? {
      MiddleAlike(c, s, t);
    } else {
      LateAlike(c, s, t);
    }
  }

  // ------------------------------------------------------------------- every run

  /** The states the coordinator goes through; it is deterministic. */
  ghost predicate IsRun(c: Case, states: seq<State>) {
    && |states| > 0 && states[0] == START
    && forall i :: 0 <= i < |states| - 1 ==> Step(c, states[i]) == Some(states[i + 1])
  }

  lemma ReplayExtends(c: Case, events: seq<Event>, e: Event, g: Gate, h: Gate)
    requires Replay(c, events) == Ok(g) && Read(c, g, e) == Ok(h)
    ensures Replay(c, events + [e]) == Ok(h)
  {
    assert (events + [e])[..|events|] == events;
  }

  lemma AlikeAgrees(c: Case, s: State, t: State)
    requires Agrees(c, s) && ReadsAlike(c, s, t)
    ensures Agrees(c, t)
  {
    ReplayExtends(c, s.events, t.events[|s.events|], GateOf(s), GateOf(t));
    assert t.events == s.events + [t.events[|s.events|]];
  }

  lemma StepAgrees(c: Case, s: State, t: State)
    requires CaseOk(c) && Agrees(c, s) && Step(c, s) == Some(t)
    ensures Agrees(c, t)
  {
    StepReadsAlike(c, s, t);
    AlikeAgrees(c, s, t);
  }

  lemma StartAgrees(c: Case)
    ensures Agrees(c, START)
  {
  }

  lemma {:induction false} RunAgrees(c: Case, states: seq<State>, i: nat)
    requires CaseOk(c) && IsRun(c, states) && i < |states|
    ensures Agrees(c, states[i])
  {
    if i == 0 {
      StartAgrees(c);
    } else {
      RunAgrees(c, states, i - 1);
      StepAgrees(c, states[i - 1], states[i]);
    }
  }

  /** The independent interpreter accepts every reachable state. */
  lemma InterpreterAccepts(c: Case, states: seq<State>, i: nat)
    requires CaseOk(c) && IsRun(c, states) && i < |states|
    ensures Judgement(c, states[i]) == None
  {
    RunAgrees(c, states, i);
  }
}
