/** Termination, authority and continuity of the coordinator, over whole runs of every well-formed case. */
module CoordinatorTheorems {
  import opened Options
  import opened Coordinator
  import opened CoordinatorRefinement

  // ----------------------------------------------------------------- termination

  lemma StepTotal(c: Case, s: State)
    requires CaseOk(c) && Shape(c, s) && !s.phase.AtDone?
    ensures Step(c, s).Some?
  {
  }

  function CaptureCount(events: seq<Event>): nat {
    if events == [] then 0
    else CaptureCount(events[..|events| - 1]) + (if events[|events| - 1].Capture? then 1 else 0)
  }

  /** Every capture is paid for by a known member's budget or the current one. */
  ghost predicate Budgeted(c: Case, s: State) {
    var p := s.vars.progress;
    && p.known <= Members(c) && p.attempts <= c.contention
    && CaptureCount(s.events) <= c.contention * p.known + p.attempts
  }

  /** Steps left before the next capture, confirmation of progress, or end. */
  ghost function Local(c: Case, s: State): int {
    var n, r := Members(c), s.vars.reading;
    match s.phase
    case AtAdmit => 2
    case AtInitial => 1
    case AtPoint => 2 * n + 13 - r.index
    case AtConvert => n + 11 - r.member
    case AtConfirm => 10
    case AtDecide => 9
    case AtFresh => 8
    case AtPrepared => 7
    case AtSubmit => 6
    case AtPost => if s.vars.own.caller then 5 else 3
    case AtShutdown => 4
    case AtReturned => 2
    case AtDrop => 1
    case AtDone => 0
  }

  /** What a step does to the budget: a capture spends one, new knowledge refills it, the rest keep it. */
  ghost predicate Spends(c: Case, s: State, t: State) {
    var p, q := s.vars.progress, t.vars.progress;
    if |t.events| > 0 && t.events[|t.events| - 1].Capture? then
      q.known == p.known && q.attempts == p.attempts + 1 <= c.contention
    else if t.events != [] && t.events[|t.events| - 1].Confirm? && (q.known, q.attempts) != (p.known, p.attempts) then
      p.known < q.known <= Members(c) && q.attempts == 0
    else q.known == p.known && q.attempts == p.attempts && Local(c, t) < Local(c, s)
  }

  lemma TakeSpends(c: Case, s: State, kind: CaptureKind, target: int)
    requires Local(c, s) > 0
    ensures Spends(c, s, Take(c, s, kind, target))
  {
  }

  lemma FailSpends(c: Case, s: State, kind: Result)
    requires Local(c, s) > 0
    ensures Spends(c, s, Fail(s, kind))
  {
  }

  lemma EarlySpends(c: Case, s: State, t: State)
    requires CaseOk(c) && Shape(c, s) && Step(c, s) == Some(t)
    requires s.phase.AtAdmit? || s.phase.AtInitial? || s.phase.AtPoint? || s.phase.AtConvert? || s.phase.AtConfirm?
    ensures Spends(c, s, t)
  {
    if s.phase.AtInitial? { TakeSpends(c, s, InitialCapture, 0); }
  }

  lemma DecideSpends(c: Case, s: State, t: State)
    requires CaseOk(c) && Shape(c, s) && Step(c, s) == Some(t) && s.phase.AtDecide?
    ensures Spends(c, s, t)
  {
    TakeSpends(c, s, Recapture, TheCut(c, s).capture);
    TakeSpends(c, s, Acquire, TheCut(c, s).acquire);
    FailSpends(c, s, Unknown);
    FailSpends(c, s, TooLarge);
  }

  lemma FreshSpends(c: Case, s: State, t: State)
    requires CaseOk(c) && Shape(c, s) && Step(c, s) == Some(t) && s.phase.AtFresh?
    ensures Spends(c, s, t)
  {
    TakeSpends(c, s, Acquire, TheCut(c, s).acquire);
    FailSpends(c, s, Invalid);
  }

  lemma LateSpends(c: Case, s: State, t: State)
    requires CaseOk(c) && Shape(c, s) && Step(c, s) == Some(t)
    requires !s.phase.AtAdmit? && !s.phase.AtInitial? && !s.phase.AtPoint? && !s.phase.AtConvert? && !s.phase.AtConfirm?
    requires !s.phase.AtDecide? && !s.phase.AtFresh?
    ensures Spends(c, s, t)
  {
    if s.phase.AtSubmit? || s.phase.AtPost? {
      TakeSpends(c, s, Recapture, TheCut(c, s).capture);
      FailSpends(c, s, TooLarge);
    }
  }

  lemma StepSpends(c: Case, s: State, t: State)
    requires CaseOk(c) && Shape(c, s) && Step(c, s) == Some(t)
    ensures Spends(c, s, t)
  {
    if s.phase.AtDecide? {
      DecideSpends(c, s, t);
    } else if s.phase.AtFresh? {
      FreshSpends(c, s, t);
    } else if s.phase.AtAdmit? || s.phase.AtInitial? || s.phase.AtPoint? || s.phase.AtConvert? || s.phase.AtConfirm? {
      EarlySpends(c, s, t);
    } else {
      LateSpends(c, s, t);
    }
  }

  /** Spending keeps the captures within their budget. */
  lemma SpendingBudgeted(c: Case, s: State, t: State)
    requires Spends(c, s, t) && Budgeted(c, s)
    requires |t.events| == |s.events| + 1 && t.events[..|s.events|] == s.events
    ensures Budgeted(c, t)
  {
    var p, q := s.vars.progress, t.vars.progress;
    var last := t.events[|s.events|];
    assert CaptureCount(t.events) == CaptureCount(s.events) + (if last.Capture? then 1 else 0);
    if last.Confirm? && (q.known, q.attempts) != (p.known, p.attempts) {
      Refilled(c.contention, p.known, q.known, p.attempts);
    }
  }

  lemma Refilled(contention: nat, known: nat, more: nat, attempts: nat)
    requires known < more && attempts <= contention
    ensures contention * known + attempts <= contention * more
  {
    assert contention * (known + 1) == contention * known + contention;
    assert contention * (known + 1) <= contention * more;
  }

  /** A state in mid-run: shaped for its phase and within its limits. */
  ghost predicate Running(c: Case, s: State) {
    Shape(c, s) && s.vars.progress.known <= Members(c) && s.vars.progress.attempts <= c.contention
  }

  lemma StepRuns(c: Case, s: State, t: State)
    requires CaseOk(c) && Running(c, s) && Step(c, s) == Some(t)
    ensures Running(c, t) && Spends(c, s, t)
  {
    StepReadsAlike(c, s, t);
    StepSpends(c, s, t);
  }

  /** How many steps are left. The recursion is the proof that the coordinator comes to an end. */
  ghost function Left(c: Case, s: State): (n: nat)
    requires CaseOk(c) && Running(c, s)
    decreases Members(c) - s.vars.progress.known, c.contention - s.vars.progress.attempts, Local(c, s)
  {
    if s.phase.AtDone? then 0
    else
      StepTotal(c, s);
      var t := Step(c, s).value;
      StepRuns(c, s, t);
      1 + Left(c, t)
  }

  ghost predicate LeftIs(c: Case, s: State, n: int) {
    CaseOk(c) && Running(c, s) && Budgeted(c, s) && Left(c, s) == n
  }

  lemma StepLeft(c: Case, s: State, t: State, n: int)
    requires LeftIs(c, s, n) && Step(c, s) == Some(t)
    ensures LeftIs(c, t, n - 1)
  {
    StepReadsAlike(c, s, t);
    StepRuns(c, s, t);
    SpendingBudgeted(c, s, t);
  }

  lemma {:induction false} RunLeft(c: Case, states: seq<State>, i: nat, n: int)
    requires IsRun(c, states) && i < |states| && LeftIs(c, states[0], n)
    ensures LeftIs(c, states[i], n - i)
  {
    if i > 0 {
      RunLeft(c, states, i - 1, n);
      StepLeft(c, states[i - 1], states[i], n - i + 1);
    }
  }

  lemma CapturesBounded(c: Case, s: State)
    requires Budgeted(c, s)
    ensures CaptureCount(s.events) <= c.contention * (Members(c) + 1)
  {
    var p := s.vars.progress;
    assert c.contention * p.known <= c.contention * Members(c);
    assert c.contention * (Members(c) + 1) == c.contention * Members(c) + c.contention;
  }

  /**
   * The coordinator always comes to an end: every run is a prefix of one of fixed length, a state that is
   * not done has a next step, and the captures never exceed one contention budget for each member and one more.
   */
  lemma Terminates(c: Case, states: seq<State>, i: nat)
    requires CaseOk(c) && IsRun(c, states) && i < |states|
    ensures Running(c, START) && i <= Left(c, START)
    ensures states[i].phase.AtDone? <==> i == Left(c, START)
    ensures !states[i].phase.AtDone? ==> Step(c, states[i]).Some?
    ensures CaptureCount(states[i].events) <= c.contention * (Members(c) + 1)
  {
    RunLeft(c, states, i, Left(c, START));
    CapturesBounded(c, states[i]);
    if !states[i].phase.AtDone? {
      StepTotal(c, states[i]);
    }
  }
}
