/**
 * The native commit coordinator: one task that captures immutable provider cuts, classifies and converts
 * the members of a request, and submits the absent ones in physical prefixes until all are known.
 * Member count, prefix limit and contention budget are parameters of the case.
 */
module Coordinator {
  import opened Options

  // --------------------------------------------------------------------- inputs

  /** What a cut holds for one member. */
  datatype Fact = Fact(fingerprint: int, offset: int, revision: int, receipt: string)

  const OUR_FINGERPRINT := 7

  datatype SubmitReply = StoredReply | DurableContent | UnknownReply

  /** An immutable provider cut; `capability` is empty unless the cut came from an actual acquire. */
  datatype Cut = Cut(facts: seq<Option<Fact>>, epoch: int, through: int, capability: string,
                     current: bool, preparationCurrent: bool, readError: int, preparationError: bool,
                     conversionError: int, badOutcome: int, reply: SubmitReply, capture: int, acquire: int)

  datatype Case = Case(cuts: seq<Cut>, ids: seq<string>, admin: seq<nat>, abandon: bool, contention: nat, pack: nat)

  function Members(c: Case): nat {
    |c.ids|
  }

  /** A followed link never leads back in epoch or position. */
  predicate LinkOk(c: Case, from: Cut, target: int) {
    0 <= target < |c.cuts| ==> c.cuts[target].epoch >= from.epoch && c.cuts[target].through >= from.through
  }

  predicate CaseOk(c: Case) {
    && |c.cuts| > 0 && c.pack > 0
    && (forall k :: 0 <= k < |c.cuts| ==> |c.cuts[k].facts| == Members(c))
    && (forall k :: 0 <= k < |c.cuts| ==>
          LinkOk(c, c.cuts[k], c.cuts[k].capture) && LinkOk(c, c.cuts[k], c.cuts[k].acquire))
    && (forall k :: 0 <= k < |c.admin| ==> c.admin[k] < Members(c))
  }

  // -------------------------------------------------------------------- readings

  /** The identity and version of an observed original. */
  datatype Stamp = Stamp(identity: string, fingerprint: int, offset: int, revision: int, start: int)

  function StampOf(c: Case, position: nat, fact: Option<Fact>): Option<Stamp>
    requires position < Members(c)
  {
    if fact.None? then None
    else Some(Stamp(c.ids[position], fact.value.fingerprint, fact.value.offset, fact.value.revision, position * 10))
  }

  datatype Class = Absent | Present | Foreign

  function Status(fact: Option<Fact>): Class {
    if fact.None? then Absent else if fact.value.fingerprint == OUR_FINGERPRINT then Present else Foreign
  }

  datatype Token = NoToken | RequestConflict | Receipt(text: string)

  datatype Answer = Answer(identity: string, status: Class, stamp: Option<Stamp>, token: Token)

  function Count(classes: seq<Class>): (n: nat)
    ensures n <= |classes|
  {
    if classes == [] then 0
    else Count(classes[..|classes| - 1]) + (if classes[|classes| - 1].Absent? then 0 else 1)
  }

  /** Some of the positions are classified absent. */
  predicate AnyAbsent(classes: seq<Class>, positions: seq<nat>) {
    exists k :: 0 <= k < |positions| && positions[k] < |classes| && classes[positions[k]].Absent?
  }

  predicate AnyForeign(classes: seq<Class>, positions: seq<nat>) {
    exists k :: 0 <= k < |positions| && positions[k] < |classes| && classes[positions[k]].Foreign?
  }

  predicate AllKnown(classes: seq<Class>) {
    forall p :: 0 <= p < |classes| ==> !classes[p].Absent?
  }

  // ----------------------------------------------------------------------- state

  datatype Phase =
    | AtAdmit | AtInitial | AtPoint | AtConvert | AtConfirm | AtDecide | AtFresh | AtPrepared | AtSubmit
    | AtPost | AtShutdown | AtReturned | AtDrop | AtDone

  datatype Result = NoResult | Complete | Drained | Unknown | TooLarge | Invalid

  datatype CaptureKind = InitialCapture | Recapture | Acquire

  datatype Event =
    | Admit | Capture(kind: CaptureKind, target: int) | Point(index: nat) | ReadError(index: nat) | Classified
    | Converted(member: nat, token: Token) | ConversionError(member: nat) | ConversionComplete | Confirm
    | Ready | Release | Prepare(positions: seq<nat>) | PrepareConfirm | Submit(reply: SubmitReply)
    | Cancel | ShutdownPending | Output(answers: seq<Answer>) | BorrowOutput | DropOutput | Error(result: Result)

  /** What is known of the captured cut so far. */
  datatype Reading = Reading(cut: int, index: nat, member: nat, converted: seq<(nat, Token)>, classes: seq<Class>,
                             confirmed: bool, readError: bool, prepared: seq<nat>)

  /** Who owns what: the submission in flight, the job, the caller and the output. */
  datatype Ownership = Ownership(pending: seq<nat>, pendingCut: int, durable: bool, possible: bool,
                                 owner: bool, caller: bool, job: bool, outputOwner: bool)

  datatype Progress = Progress(known: nat, attempts: nat, work: nat)

  datatype Vars = Vars(reading: Reading, observed: seq<Option<Stamp>>, sticky: bool, own: Ownership,
                       progress: Progress, output: seq<Answer>, result: Result, declarations: seq<string>)

  datatype State = State(phase: Phase, vars: Vars, events: seq<Event>)

  const START_READING := Reading(-1, 0, 0, [], [], false, false, [])
  const START_VARS := Vars(START_READING, [], false, Ownership([], -1, false, false, false, true, false, false),
                          Progress(0, 0, 0), [], NoResult, [])
  const START := State(AtAdmit, START_VARS, [])

  // ----------------------------------------------------------------------- steps

  function Emit(s: State, e: Event, phase: Phase, vars: Vars): State {
    State(phase, vars, s.events + [e])
  }

  function Worked(v: Vars): Vars {
    v.(progress := v.progress.(work := v.progress.work + 1))
  }

  /** Stop; after a submission nothing definite may be claimed. */
  function Fail(s: State, kind: Result): State {
    var result := if s.vars.own.possible then Unknown else kind;
    Emit(s, Error(result), AtDone, s.vars.(
      result := result,
      own := s.vars.own.(owner := false, job := false, pending := []),
      reading := s.vars.reading.(prepared := [], converted := [])))
  }

  /** A capture of `target` is refused: no such cut, no actual acquire, or the budget is spent. */
  predicate Refused(c: Case, kind: CaptureKind, target: int, attempts: nat) {
    !(0 <= target < |c.cuts|) || (kind.Acquire? && c.cuts[target].capability == "") || attempts >= c.contention
  }

  function Take(c: Case, s: State, kind: CaptureKind, target: int): State {
    if Refused(c, kind, target, s.vars.progress.attempts) then Fail(s, Unknown)
    else Emit(s, Capture(kind, target), AtPoint, s.vars.(
      reading := START_READING.(cut := target),
      progress := s.vars.progress.(attempts := s.vars.progress.attempts + 1, work := s.vars.progress.work + 1)))
  }

  predicate OnCut(c: Case, s: State) {
    0 <= s.vars.reading.cut < |c.cuts|
  }

  function TheCut(c: Case, s: State): Cut
    requires OnCut(c, s)
  {
    c.cuts[s.vars.reading.cut]
  }

  function PointStep(c: Case, s: State): Option<State>
    requires OnCut(c, s)
  {
    var v, r, cut := s.vars, s.vars.reading, TheCut(c, s);
    if r.index == |cut.facts| then Some(Emit(s, Classified, AtConvert, v))
    else if r.index == cut.readError then
      Some(Emit(s, ReadError(r.index), AtConfirm, Worked(v.(reading := r.(readError := true)))))
    else if r.index < |cut.facts| && r.index < |v.observed| && r.index < Members(c) then
      var fact := cut.facts[r.index];
      var stamp := StampOf(c, r.index, fact);
      var before := v.observed[r.index];
      Some(Emit(s, Point(r.index), AtPoint, Worked(v.(
        reading := r.(index := r.index + 1, classes := r.classes + [Status(fact)]),
        observed := if stamp.Some? && before.None? then v.observed[r.index := stamp] else v.observed,
        sticky := v.sticky || (before.Some? && before != stamp)))))
    else None
  }

  function ConvertStep(c: Case, s: State): Option<State>
    requires OnCut(c, s)
  {
    var v, r, cut := s.vars, s.vars.reading, TheCut(c, s);
    if r.member == |cut.facts| then Some(Emit(s, ConversionComplete, AtConfirm, v))
    else if r.member == cut.conversionError || r.member == cut.badOutcome then
      Some(Emit(s, ConversionError(r.member), AtConfirm, Worked(v.(reading := r.(readError := true)))))
    else if r.member < |cut.facts| && r.member < |r.classes| then
      var token := if cut.facts[r.member].None? then NoToken
                   else if r.classes[r.member].Foreign? then RequestConflict
                   else Receipt(cut.facts[r.member].value.receipt);
      Some(Emit(s, Converted(r.member, token), AtConvert, Worked(v.(
        reading := r.(member := r.member + 1, converted := r.converted + [(r.member, token)])))))
    else None
  }

  function ConfirmStep(c: Case, s: State): State
    requires OnCut(c, s)
  {
    var v, r, cut := s.vars, s.vars.reading, TheCut(c, s);
    var known := Count(r.classes);
    var advanced := cut.current && !r.readError && !v.sticky && known > v.progress.known;
    Emit(s, Confirm, AtDecide, Worked(v.(
      reading := r.(confirmed := cut.current),
      progress := if advanced then v.progress.(known := known, attempts := 0) else v.progress)))
  }

  function DecideStep(c: Case, s: State): State
    requires OnCut(c, s)
  {
    var v, r, cut := s.vars, s.vars.reading, TheCut(c, s);
    if v.sticky then Fail(s, Unknown)
    else if !r.confirmed then Take(c, s, Recapture, cut.capture)
    else if r.readError then Fail(s, if cut.badOutcome >= 0 then Unknown else TooLarge)
    else if v.own.pending != [] then
      var unresolved := AnyAbsent(r.classes, v.own.pending);
      if v.own.durable && (unresolved || AnyForeign(r.classes, v.own.pending)) then Fail(s, Unknown)
      else if !v.own.durable && unresolved && !NewerAcquire(c, cut, v.own.pendingCut) then
        Take(c, s, Acquire, cut.acquire)
      else Emit(s, Release, AtFresh, v.(own := v.own.(owner := false, pending := [])))
    else Emit(s, Ready, AtFresh, v)
  }

  /** The cut came from an actual acquire at a strictly newer epoch than the submission's cut. */
  predicate NewerAcquire(c: Case, cut: Cut, pendingCut: int) {
    cut.capability != "" && 0 <= pendingCut < |c.cuts| && cut.epoch > c.cuts[pendingCut].epoch
  }

  /** The answers in caller order. */
  function Answers(c: Case, r: Reading, facts: seq<Option<Fact>>): seq<Answer>
    requires |facts| <= |r.classes| && |facts| <= |r.converted| && |facts| <= Members(c)
  {
    seq(|facts|, p requires 0 <= p < |facts| =>
      Answer(c.ids[p], r.classes[p], StampOf(c, p, facts[p]), TokenFor(r.converted, p)))
  }

  /** The converted token of a member: its last entry, as a dictionary keeps it. */
  function TokenFor(converted: seq<(nat, Token)>, p: nat): Token {
    if converted == [] then NoToken
    else if converted[|converted| - 1].0 == p then converted[|converted| - 1].1
    else TokenFor(converted[..|converted| - 1], p)
  }

  function FirstAbsent(classes: seq<Class>): (p: nat)
    ensures p <= |classes| && forall q :: 0 <= q < p ==> !classes[q].Absent?
    ensures p < |classes| ==> classes[p].Absent?
  {
    if classes == [] || classes[0].Absent? then 0 else 1 + FirstAbsent(classes[1..])
  }

  /** Consecutive absent positions from `p`, at most up to `end`. */
  function AbsentRun(classes: seq<Class>, p: nat, end: nat): (ps: seq<nat>)
    requires end <= |classes|
    decreases end - p
  {
    if p >= end || !classes[p].Absent? then [] else [p] + AbsentRun(classes, p + 1, end)
  }

  function Least(a: nat, b: nat): nat {
    if a < b then a else b
  }

  function FreshStep(c: Case, s: State): Option<State>
    requires OnCut(c, s)
  {
    var v, r, cut := s.vars, s.vars.reading, TheCut(c, s);
    if AllKnown(r.classes) then
      if |cut.facts| <= |r.classes| && |cut.facts| <= |r.converted| && |cut.facts| <= Members(c) then
        var answers := if v.own.caller then Answers(c, r, cut.facts) else [];
        Some(Emit(s, Output(answers), if v.own.caller then AtReturned else AtDone, v.(
          output := answers, result := if v.own.caller then Complete else Drained,
          own := v.own.(job := v.own.caller, outputOwner := v.own.caller),
          reading := r.(converted := []))))
      else None
    else if AnyAbsent(r.classes, c.admin) then Some(Fail(s, Invalid))
    else if cut.capability == "" then Some(Take(c, s, Acquire, cut.acquire))
    else
      var first := FirstAbsent(r.classes);
      var positions := AbsentRun(r.classes, first, Least(first + c.pack, |r.classes|));
      Some(Emit(s, Prepare(positions), AtPrepared, Worked(v.(reading := r.(prepared := positions)))))
  }

  function SubmitStep(c: Case, s: State): State
    requires OnCut(c, s)
  {
    var v, r, cut := s.vars, s.vars.reading, TheCut(c, s);
    if !r.confirmed then Take(c, s, Recapture, cut.capture)
    else if cut.preparationError then Fail(s, TooLarge)
    else Emit(s, Submit(cut.reply), AtPost, Worked(v.(
      own := v.own.(pending := r.prepared, pendingCut := r.cut, owner := true, possible := true,
                    durable := !cut.reply.UnknownReply?),
      reading := r.(prepared := []))))
  }

  /** The one step of the coordinator; none once it is done. */
  function Step(c: Case, s: State): Option<State> {
    var v := s.vars;
    if s.phase.AtAdmit? then
      Some(Emit(s, Admit, AtInitial, v.(own := v.own.(job := true),
                                        observed := seq(Members(c), _ => None), declarations := c.ids)))
    else if s.phase.AtInitial? then Some(Take(c, s, InitialCapture, 0))
    else if s.phase.AtShutdown? then Some(Emit(s, ShutdownPending, AtPost, v))
    else if s.phase.AtReturned? then Some(Emit(s, BorrowOutput, AtDrop, v))
    else if s.phase.AtDrop? then
      Some(Emit(s, DropOutput, AtDone, v.(output := [], own := v.own.(outputOwner := false, job := false))))
    else if s.phase.AtDone? || !OnCut(c, s) then None
    else match s.phase
      case AtPoint => PointStep(c, s)
      case AtConvert => ConvertStep(c, s)
      case AtConfirm => Some(ConfirmStep(c, s))
      case AtDecide => Some(DecideStep(c, s))
      case AtFresh => FreshStep(c, s)
      case AtPrepared =>
        Some(Emit(s, PrepareConfirm, AtSubmit,
                  Worked(v.(reading := v.reading.(confirmed := TheCut(c, s).preparationCurrent)))))
      case AtSubmit => Some(SubmitStep(c, s))
      case AtPost =>
        if c.abandon && v.own.caller then Some(Emit(s, Cancel, AtShutdown, v.(own := v.own.(caller := false))))
        else Some(Take(c, s, Recapture, TheCut(c, s).capture))
      case _ => None
  }
}
