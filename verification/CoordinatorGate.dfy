/**
 * The independent event interpreter of the coordinator: it reads nothing but the immutable case and the
 * event words, decides after every word whether it was permitted, and keeps its own variables.
 */
module CoordinatorGate {
  import opened Options
  import opened Coordinator

  datatype Mode =
    | InAdmit | InInitial | InPoint | InConvert | InConfirm | InDecide | InFresh | InPrepared | InSubmit
    | InPost | InShutdown | InReturned | InDrop | InDone

  /** Which promise an event breaks. */
  datatype Reason = CoHistory | CoAuthority | CoContinuity | CoOutput | CoOwner | CoWork | CoProgress

  datatype Gate = Gate(mode: Mode, vars: Vars)

  datatype Verdict = Ok(gate: Gate) | Bad(reason: Reason)

  const START_GATE := Gate(InAdmit, START_VARS)

  predicate HasCut(c: Case, g: Gate) {
    0 <= g.vars.reading.cut < |c.cuts| && |c.cuts[g.vars.reading.cut].facts| == Members(c)
  }

  function GateCut(c: Case, g: Gate): Cut
    requires HasCut(c, g)
  {
    c.cuts[g.vars.reading.cut]
  }

  // The interpreter derives nothing with the coordinator's helpers: it has its own, each proved to agree.

  /** Some listed member has this classification. */
  predicate SomeAre(classes: seq<Class>, positions: seq<nat>, kind: Class)
    ensures kind.Absent? ==> (SomeAre(classes, positions, kind) <==> AnyAbsent(classes, positions))
    ensures kind.Foreign? ==> (SomeAre(classes, positions, kind) <==> AnyForeign(classes, positions))
  {
    positions != [] &&
    ((positions[0] < |classes| && classes[positions[0]] == kind) || SomeAre(classes, positions[1..], kind))
  }

  /** How many members have been found. */
  function Found(classes: seq<Class>): (n: nat)
    ensures n == Count(classes)
  {
    if classes == [] then 0
    else
      CountFirst(classes);
      (if classes[0].Absent? then 0 else 1) + Found(classes[1..])
  }

  lemma {:induction false} CountFirst(classes: seq<Class>)
    requires classes != []
    ensures Count(classes) == (if classes[0].Absent? then 0 else 1) + Count(classes[1..])
  {
    if |classes| > 1 {
      var init := classes[..|classes| - 1];
      CountFirst(init);
      assert init[1..] == classes[1..][..|classes| - 2];
    }
  }

  predicate NoneMissing(classes: seq<Class>)
    ensures NoneMissing(classes) <==> AllKnown(classes)
  {
    classes == [] || (!classes[0].Absent? && NoneMissing(classes[1..]))
  }

  /** The present cut carries a capability and a later epoch than the one the submission was made under. */
  predicate Supersedes(c: Case, cut: Cut, pendingCut: int)
    ensures Supersedes(c, cut, pendingCut) <==> NewerAcquire(c, cut, pendingCut)
  {
    !(cut.capability == "" || pendingCut < 0 || pendingCut >= |c.cuts| || cut.epoch <= c.cuts[pendingCut].epoch)
  }

  function FullStamp(c: Case, p: nat, fact: Option<Fact>): (stamp: Option<Stamp>)
    requires p < Members(c)
    ensures stamp == StampOf(c, p, fact)
  {
    match fact
    case None => None
    case Some(f) => Some(Stamp(c.ids[p], f.fingerprint, f.offset, f.revision, 10 * p))
  }

  function KindOf(fact: Option<Fact>): (kind: Class)
    ensures kind == Status(fact)
  {
    match fact
    case None => Absent
    case Some(f) => if f.fingerprint != OUR_FINGERPRINT then Foreign else Present
  }

  predicate Unresolved(v: Vars) {
    SomeAre(v.reading.classes, v.own.pending, Absent)
  }

  predicate DurableBad(v: Vars) {
    v.own.durable && (Unresolved(v) || SomeAre(v.reading.classes, v.own.pending, Foreign))
  }

  /** The one capture the protocol permits in this mode, if any. */
  function CaptureTarget(c: Case, g: Gate): Option<(CaptureKind, int)> {
    var v, r := g.vars, g.vars.reading;
    if g.mode.InInitial? then Some((InitialCapture, 0))
    else if !HasCut(c, g) then None
    else
      var cut := GateCut(c, g);
      if g.mode.InPost? then Some((Recapture, cut.capture))
      else if g.mode.InSubmit? && !r.confirmed then Some((Recapture, cut.capture))
      else if g.mode.InDecide? && !v.sticky && !r.confirmed then Some((Recapture, cut.capture))
      else if && g.mode.InDecide? && r.confirmed && !v.sticky && !r.readError && v.own.pending != [] && !v.own.durable
              && Unresolved(v) && !Supersedes(c, cut, v.own.pendingCut) then Some((Acquire, cut.acquire))
      else if && g.mode.InFresh? && !SomeAre(r.classes, c.admin, Absent) && !NoneMissing(r.classes)
          && cut.capability == "" then
        Some((Acquire, cut.acquire))
      else None
  }

  function Advance(g: Gate, mode: Mode, vars: Vars): Verdict {
    Ok(Gate(mode, vars))
  }

  function ReadCapture(c: Case, g: Gate, kind: CaptureKind, target: int): Verdict {
    if CaptureTarget(c, g) != Some((kind, target)) then Bad(CoAuthority)
    else if !(0 <= target < |c.cuts|) || g.vars.progress.attempts >= c.contention then Bad(CoHistory)
    else if kind.Acquire? && c.cuts[target].capability == "" then Bad(CoAuthority)
    else if HasCut(c, g)
        && (c.cuts[target].epoch < GateCut(c, g).epoch || c.cuts[target].through < GateCut(c, g).through) then
      Bad(CoContinuity)
    else Advance(g, InPoint, g.vars.(
      reading := Reading(target, 0, 0, [], [], false, false, []),
      progress := g.vars.progress.(attempts := g.vars.progress.attempts + 1, work := g.vars.progress.work + 1)))
  }

  function ReadPoint(c: Case, g: Gate, index: nat): Verdict {
    var v, r := g.vars, g.vars.reading;
    if !g.mode.InPoint? || !HasCut(c, g) || index != r.index || r.index >= Members(c)
        || r.index == GateCut(c, g).readError
       || r.index >= |v.observed| then Bad(CoHistory)
    else
      var fact := GateCut(c, g).facts[index];
      var value, kind := FullStamp(c, index, fact), KindOf(fact);
      Advance(g, InPoint, Worked(v.(
        sticky := v.sticky || (v.observed[index].Some? && v.observed[index] != value),
        observed := if v.observed[index].None? && value.Some? then v.observed[index := value] else v.observed,
        reading := r.(classes := r.classes + [kind], index := r.index + 1))))
  }

  function ReadConverted(c: Case, g: Gate, member: nat, token: Token): Verdict {
    var v, r := g.vars, g.vars.reading;
    if !g.mode.InConvert? || !HasCut(c, g) || r.member >= Members(c) then Bad(CoOutput)
    else
      var cut := GateCut(c, g);
      if r.member == cut.conversionError || r.member == cut.badOutcome then Bad(CoOutput)
      else
        var fact := cut.facts[r.member];
        var checked := if fact.None? then NoToken
                       else if fact.value.fingerprint != OUR_FINGERPRINT then RequestConflict
                       else Receipt(fact.value.receipt);
        if (member, token) != (r.member, checked) then Bad(CoOutput)
        else Advance(g, InConvert,
                     Worked(v.(reading := r.(converted := r.converted + [(member, token)], member := r.member + 1))))
  }

  /** The members converted so far are exactly 0, 1, 2, ... */
  predicate InOrder(converted: seq<(nat, Token)>, n: nat) {
    |converted| == n && forall p :: 0 <= p < n ==> converted[p].0 == p
  }

  function ReadConfirm(c: Case, g: Gate): Verdict {
    var v, r := g.vars, g.vars.reading;
    if !g.mode.InConfirm? || !HasCut(c, g) then Bad(CoHistory)
    else
      var confirmed, count := GateCut(c, g).current, Found(r.classes);
      var advanced := confirmed && !r.readError && !v.sticky && count > v.progress.known;
      Advance(g, InDecide, Worked(v.(
        reading := r.(confirmed := confirmed),
        progress := if advanced then v.progress.(known := count, attempts := 0) else v.progress)))
  }

  function ReadRelease(c: Case, g: Gate): Verdict {
    var v, r := g.vars, g.vars.reading;
    if !g.mode.InDecide? || v.sticky || !r.confirmed || r.readError || v.own.pending == [] || !HasCut(c, g) then
      Bad(CoAuthority)
    else if DurableBad(v) then Bad(CoAuthority)
    else if !v.own.durable && Unresolved(v) && !Supersedes(c, GateCut(c, g), v.own.pendingCut) then Bad(CoAuthority)
    else Advance(g, InFresh, v.(own := v.own.(pending := [], owner := false)))
  }

  /** The positions a submission may carry, read off the cut: the first absent fact and its neighbours. */
  function AbsentFacts(facts: seq<Option<Fact>>, p: nat, end: nat): (ps: seq<nat>)
    requires end <= |facts|
    decreases end - p
  {
    if p >= end || facts[p].Some? then [] else [p] + AbsentFacts(facts, p + 1, end)
  }

  function FirstMissing(facts: seq<Option<Fact>>): (p: nat)
    ensures p <= |facts| && forall q :: 0 <= q < p ==> facts[q].Some?
    ensures p < |facts| ==> facts[p].None?
  {
    if facts == [] || facts[0].None? then 0 else 1 + FirstMissing(facts[1..])
  }

  function Selection(c: Case, facts: seq<Option<Fact>>): seq<nat> {
    AbsentFacts(facts, FirstMissing(facts), Least(FirstMissing(facts) + c.pack, |facts|))
  }

  function ReadPrepare(c: Case, g: Gate, positions: seq<nat>): Verdict {
    var v, r := g.vars, g.vars.reading;
    if !g.mode.InFresh? || !r.confirmed || v.sticky || v.own.pending != [] || !HasCut(c, g) then Bad(CoAuthority)
    else
      var cut := GateCut(c, g);
      if cut.capability == "" || SomeAre(r.classes, c.admin, Absent) then Bad(CoAuthority)
      else if NoneMissing(r.classes) then Bad(CoAuthority)
      else if positions != Selection(c, cut.facts) then Bad(CoAuthority)
      else Advance(g, InPrepared, Worked(v.(reading := r.(prepared := positions))))
  }

  function ReadSubmit(c: Case, g: Gate, reply: SubmitReply): Verdict {
    var v, r := g.vars, g.vars.reading;
    if !g.mode.InSubmit? || !r.confirmed || !HasCut(c, g) || GateCut(c, g).preparationError || r.prepared == [] then
      Bad(CoAuthority)
    else if reply != GateCut(c, g).reply then Bad(CoAuthority)
    else Advance(g, InPost, Worked(v.(
      own := v.own.(pending := r.prepared, pendingCut := r.cut, owner := true, possible := true,
                    durable := reply.StoredReply? || reply.DurableContent?),
      reading := r.(prepared := []))))
  }

  /** The full answer, read off the cut and the declared identities alone. */
  function FullAnswer(c: Case, facts: seq<Option<Fact>>): seq<Answer>
    requires |facts| == Members(c) && forall p :: 0 <= p < |facts| ==> facts[p].Some?
  {
    seq(|facts|, p requires 0 <= p < |facts| =>
      Answer(c.ids[p], KindOf(facts[p]), FullStamp(c, p, facts[p]),
             if facts[p].value.fingerprint != OUR_FINGERPRINT then RequestConflict
             else Receipt(facts[p].value.receipt)))
  }

  function ReadOutput(c: Case, g: Gate, answers: seq<Answer>): Verdict {
    var v, r := g.vars, g.vars.reading;
    if !g.mode.InFresh? || !r.confirmed || v.sticky || r.readError || v.own.pending != [] || |r.classes| != Members(c)
        || !HasCut(c, g)
    then Bad(CoOutput)
    else
      var facts := GateCut(c, g).facts;
      if (exists p :: 0 <= p < |facts| && facts[p].None?) || !InOrder(r.converted, Members(c)) then Bad(CoOutput)
      else if answers != (if v.own.caller then FullAnswer(c, facts) else []) then Bad(CoOutput)
      else Advance(g, if v.own.caller then InReturned else InDone, v.(
        output := answers, result := if v.own.caller then Complete else Drained,
        own := v.own.(job := v.own.caller, outputOwner := v.own.caller), reading := r.(converted := [])))
  }

  /** Whether stopping is permitted here, and the kind of failure it may report before any submission. */
  function Stopping(c: Case, g: Gate): Option<Result> {
    var v, r := g.vars, g.vars.reading;
    if g.mode.InDecide? && v.sticky then Some(Unknown)
    else if g.mode.InDecide? && r.confirmed && r.readError && HasCut(c, g) then
      Some(if GateCut(c, g).badOutcome >= 0 then Unknown else TooLarge)
    else if g.mode.InDecide? && r.confirmed && v.own.pending != [] && DurableBad(v) then Some(Unknown)
    else if g.mode.InFresh? && SomeAre(r.classes, c.admin, Absent) then Some(Invalid)
    else if g.mode.InSubmit? && r.confirmed && HasCut(c, g) && GateCut(c, g).preparationError then Some(TooLarge)
    else match CaptureTarget(c, g)
      case None => None
      case Some((kind, target)) =>
        if || !(0 <= target < |c.cuts|) || g.vars.progress.attempts >= c.contention
           || (kind.Acquire? && c.cuts[target].capability == "")
        then Some(Unknown) else None
  }

  function ReadStop(c: Case, g: Gate, result: Result): Verdict {
    var v, r := g.vars, g.vars.reading;
    match Stopping(c, g)
    case None => Bad(CoHistory)
    case Some(reason) =>
      var expected := if v.own.possible then Unknown else reason;
      if result != expected then Bad(CoOwner)
      else Advance(g, InDone, v.(result := expected, own := v.own.(owner := false, job := false, pending := []),
                                 reading := r.(prepared := [], converted := [])))
  }

  /** The interpreter's reading of one event. */
  function Read(c: Case, g: Gate, e: Event): Verdict {
    var v, r := g.vars, g.vars.reading;
    if g.mode.InDone? then Bad(CoHistory)
    else match e
      case Admit =>
        if !g.mode.InAdmit? then Bad(CoHistory)
        else Advance(g, InInitial,
                     v.(own := v.own.(job := true), declarations := c.ids, observed := seq(Members(c), _ => None)))
      case Capture(kind, target) => ReadCapture(c, g, kind, target)
      case Point(index) => ReadPoint(c, g, index)
      case ReadError(index) =>
        if !g.mode.InPoint? || !HasCut(c, g) || index != r.index || r.index != GateCut(c, g).readError then
          Bad(CoHistory)
        else Advance(g, InConfirm, Worked(v.(reading := r.(readError := true))))
      case Classified => if !g.mode.InPoint? || r.index != Members(c) then Bad(CoHistory) else Advance(g, InConvert, v)
      case Converted(member, token) => ReadConverted(c, g, member, token)
      case ConversionError(member) =>
        if !g.mode.InConvert? || !HasCut(c, g) || member != r.member
           || (r.member != GateCut(c, g).conversionError && r.member != GateCut(c, g).badOutcome) then Bad(CoOutput)
        else Advance(g, InConfirm, Worked(v.(reading := r.(readError := true))))
      case ConversionComplete =>
        if !g.mode.InConvert? || !InOrder(r.converted, Members(c)) then Bad(CoOutput) else Advance(g, InConfirm, v)
      case Confirm => ReadConfirm(c, g)
      case Ready =>
        if !g.mode.InDecide? || v.sticky || !r.confirmed || r.readError || v.own.pending != [] then Bad(CoHistory)
        else Advance(g, InFresh, v)
      case Release => ReadRelease(c, g)
      case Prepare(positions) => ReadPrepare(c, g, positions)
      case PrepareConfirm =>
        if !g.mode.InPrepared? || !HasCut(c, g) then Bad(CoHistory)
        else Advance(g, InSubmit, Worked(v.(reading := r.(confirmed := GateCut(c, g).preparationCurrent))))
      case Submit(reply) => ReadSubmit(c, g, reply)
      case Cancel =>
        if !g.mode.InPost? || !c.abandon || !v.own.caller then Bad(CoHistory)
        else Advance(g, InShutdown, v.(own := v.own.(caller := false)))
      case ShutdownPending =>
        if !g.mode.InShutdown? || !v.own.owner || !v.own.job then Bad(CoOwner) else Advance(g, InPost, v)
      case Output(answers) => ReadOutput(c, g, answers)
      case BorrowOutput =>
        if !g.mode.InReturned? || !v.own.outputOwner || !v.own.job then Bad(CoOwner) else Advance(g, InDrop, v)
      case DropOutput =>
        if !g.mode.InDrop? || !v.own.outputOwner then Bad(CoOwner)
        else Advance(g, InDone, v.(output := [], own := v.own.(outputOwner := false, job := false)))
      case Error(result) => ReadStop(c, g, result)
  }

  /** The interpreter's state after the events, or the first complaint. */
  function Replay(c: Case, events: seq<Event>): Verdict {
    if events == [] then Ok(START_GATE)
    else match Replay(c, events[..|events| - 1])
      case Bad(reason) => Bad(reason)
      case Ok(g) => Read(c, g, events[|events| - 1])
  }

  /** Compare the interpreter's variables with the coordinator's, in the order of the checks. */
  function Compare(g: Gate, s: State): Option<Reason> {
    var x, y := g.vars, s.vars;
    if (x.observed, x.sticky) != (y.observed, y.sticky) then Some(CoContinuity)
    else if x.own != y.own then Some(CoOwner)
    else if x.progress.work != y.progress.work then Some(CoWork)
    else if (x.progress.known, x.progress.attempts) != (y.progress.known, y.progress.attempts) then Some(CoProgress)
    else if (x.output, x.result, x.declarations) != (y.output, y.result, y.declarations)
         || (x.reading.converted, x.reading.member) != (y.reading.converted, y.reading.member) then Some(CoOutput)
    else if x.reading != y.reading then Some(CoHistory)
    else if s.phase.AtDone? != g.mode.InDone? then Some(CoHistory)
    else None
  }

  function Judgement(c: Case, s: State): Option<Reason> {
    match Replay(c, s.events)
    case Bad(reason) => Some(reason)
    case Ok(g) => Compare(g, s)
  }

  lemma ReplayFails(c: Case, events: seq<Event>, i: nat)
    requires i <= |events| && Replay(c, events[..i]).Bad?
    ensures Replay(c, events) == Replay(c, events[..i])
    decreases |events| - i
  {
    if i == |events| {
      assert events[..i] == events;
    } else {
      assert events[..i + 1][..i] == events[..i];
      ReplayFails(c, events, i + 1);
    }
  }

  /** The interpreter's loop over the event words. */
  method PrefixViolation(c: Case, s: State) returns (r: Option<Reason>)
    ensures r == Judgement(c, s)
  {
    var g := START_GATE;
    for i := 0 to |s.events|
      invariant Replay(c, s.events[..i]) == Ok(g)
    {
      assert s.events[..i + 1][..i] == s.events[..i];
      var verdict := Read(c, g, s.events[i]);
      if verdict.Bad? {
        ReplayFails(c, s.events, i + 1);
        return Some(verdict.reason);
      }
      g := verdict.gate;
    }
    assert s.events[..|s.events|] == s.events;
    r := Compare(g, s);
  }
}
