/**
 * Batch resolution of originals: every request is classified against its fixed observation before any
 * frame is read; each frame is read once, its members verified against the receipts it holds, and the
 * answers are returned in request order. Any request list and any receipts.
 */
module OriginalBatch {
  import opened Options
  import opened Ordering

  // ---------------------------------------------------------------------- inputs

  datatype Receipt = Receipt(offset: nat, domain: int, literal: string, fingerprint: int, checksum: int, start: int,
                             length: int, digest: int, format: int, outcome: string)

  /** A lookup has no expected fingerprint. */
  datatype Request = Request(domain: int, literal: string, fact: Option<Receipt>, expected: Option<int>,
                             expectedFormat: int, declaration: bool, fixed: bool, pointCut: string)

  datatype Faults = Faults(point: int, conversion: int, cancel: int, read: int)

  datatype Case = Case(requests: seq<Request>, receipts: seq<Receipt>, stream: bool, cut: string, admission: bool,
                       faults: Faults)

  // -------------------------------------------------------------------- readings

  datatype Stamp = Stamp(offset: nat, domain: int, literal: string, format: int, fingerprint: int, checksum: int,
                         start: int, length: int, digest: int)

  function StampOf(r: Receipt): Stamp {
    Stamp(r.offset, r.domain, r.literal, r.format, r.fingerprint, r.checksum, r.start, r.length, r.digest)
  }

  function Observation(fact: Option<Receipt>): Option<Stamp> {
    if fact.None? then None else Some(StampOf(fact.value))
  }

  datatype Kind = Absent | Conflict | Present

  function KindOf(r: Request): (k: Kind)
    ensures k.Present? ==> r.fact.Some?
  {
    if r.fact.None? then Absent
    else if r.expected.Some?
        && (r.expected.value, r.expectedFormat) != (r.fact.value.fingerprint, r.fact.value.format) then Conflict
    else Present
  }

  datatype Value = Value(kind: Kind, domain: int, literal: string, stamp: Option<Stamp>,
                         verified: Option<(string, Stamp)>)

  function ValueFor(r: Request, kind: Kind): Value
    requires kind.Present? ==> r.fact.Some?
  {
    Value(kind, r.domain, r.literal, Observation(r.fact),
          if kind.Present? then Some((r.fact.value.outcome, StampOf(r.fact.value))) else None)
  }

  // ------------------------------------------------------------------- positions

  /** The positions that are flagged, in order. */
  function Where(flags: seq<bool>): (ps: seq<nat>)
    ensures Ascending(ps)
    ensures forall k :: 0 <= k < |ps| ==> ps[k] < |flags| && flags[ps[k]]
    ensures forall i :: 0 <= i < |flags| && flags[i] ==> i in ps
  {
    if flags == [] then []
    else Where(flags[..|flags| - 1]) + (if flags[|flags| - 1] then [|flags| - 1] else [])
  }

  predicate Known(c: Case, classes: seq<Kind>) {
    |classes| == |c.requests| && forall i :: 0 <= i < |classes| ==> classes[i].Present? ==> c.requests[i].fact.Some?
  }

  /** The members of a streamed batch that need no frame. */
  function Nonpresent(c: Case, classes: seq<Kind>): seq<nat> {
    Where(seq(|classes|, i requires 0 <= i < |classes| => c.stream && !classes[i].Present?))
  }

  /** The frames to read, ascending. */
  function Offsets(c: Case, classes: seq<Kind>): seq<nat>
    requires Known(c, classes)
  {
    Sorted(set i | 0 <= i < |classes| && classes[i].Present? :: c.requests[i].fact.value.offset)
  }

  /** The present members whose original lies in the frame. */
  function Members(c: Case, classes: seq<Kind>, offset: nat): seq<nat>
    requires Known(c, classes)
  {
    Where(seq(|classes|, i requires 0 <= i < |classes| => classes[i].Present?
              && c.requests[i].fact.value.offset == offset))
  }

  /** The first receipt of the frame with the identity asked for. */
  function Actual(receipts: seq<Receipt>, offset: nat, domain: int, literal: string): (a: Option<Receipt>)
    ensures a.Some? ==> a.value in receipts
    ensures a.Some? ==> a.value.offset == offset && a.value.domain == domain && a.value.literal == literal
  {
    if receipts == [] then None
    else if receipts[0].offset == offset && receipts[0].domain == domain && receipts[0].literal == literal then
      Some(receipts[0])
    else Actual(receipts[1..], offset, domain, literal)
  }

  // ----------------------------------------------------------------------- state

  datatype Word =
    | Admit | Declare(i: nat) | Declared | Point(i: nat) | Classify(i: nat, kind: Kind) | Classified
    | Convert(i: nat) | Groups | Dispatch(offset: nat) | ReadError(offset: nat) | Cancel | Retire
    | Read(offset: nat) | Verify(i: nat) | VerifiedGroup(offset: nat) | Release(offset: nat) | Retained(offset: nat)
    | Fail | Return | Borrow | Drop

  datatype Phase =
    | AtAdmit | AtDeclare | AtPoint | AtClassify | AtNonpresent | AtDispatch | AtRead | AtVerify | AtConvert
    | AtError | AtBorrow | AtDrop | AtRetire | AtDone

  datatype Result = NoResult | Batch | Unknown | Cancelled

  datatype Cursor = Cursor(index: nat, group: nat, member: nat)

  datatype Facts = Facts(observations: seq<Option<Stamp>>, classes: seq<Kind>, verified: seq<nat>)

  datatype Owned = Owned(containers: bool, pending: Option<nat>, frames: seq<nat>, dtos: seq<nat>,
                         values: seq<(nat, Value)>)

  datatype Work = Work(points: nat, dispatched: nat)

  datatype Output = Output(returned: seq<Value>, result: Result)

  datatype Ledger = Ledger(facts: Facts, owned: Owned, work: Work, output: Output)

  datatype State = State(phase: Phase, cursor: Cursor, ledger: Ledger, events: seq<Word>, cut: string)

  const NOTHING := Ledger(Facts([], [], []), Owned(false, None, [], [], []), Work(0, 0), Output([], NoResult))

  function Start(c: Case): State {
    State(AtAdmit, Cursor(0, 0, 0), NOTHING, [], c.cut)
  }

  // ----------------------------------------------------------------------- steps

  function Emit(s: State, w: Word, phase: Phase, cursor: Cursor, ledger: Ledger): State {
    State(phase, cursor, ledger, s.events + [w], s.cut)
  }

  function Emptied(o: Owned): Owned {
    o.(containers := false, frames := [], dtos := [], values := [])
  }

  function Failed(s: State): State {
    var l := s.ledger;
    Emit(s, Fail, AtDone, s.cursor, l.(owned := Emptied(l.owned), output := l.output.(result := Unknown)))
  }

  function Converted(l: Ledger, i: nat, v: Value): Ledger {
    l.(owned := l.owned.(dtos := l.owned.dtos + [i], values := l.owned.values + [(i, v)]))
  }

  function DeclareStep(c: Case, s: State): Option<State> {
    var k := s.cursor;
    if k.index == |c.requests| then Some(Emit(s, Declared, AtPoint, k.(index := 0), s.ledger))
    else if k.index > |c.requests| then None
    else if !c.requests[k.index].declaration then Some(Failed(s))
    else Some(Emit(s, Declare(k.index), AtDeclare, k.(index := k.index + 1), s.ledger))
  }

  function PointStep(c: Case, s: State): State {
    var k, l := s.cursor, s.ledger;
    if k.index == |c.requests| then Emit(s, Classified, AtNonpresent, k.(index := 0), l)
    else Emit(s, Point(k.index), AtClassify, k, l.(work := l.work.(points := l.work.points + 1)))
  }

  predicate BadPoint(c: Case, i: nat)
    requires i < |c.requests|
  {
    c.faults.point == i || !c.requests[i].fixed || c.requests[i].pointCut != c.cut
  }

  function ClassifyStep(c: Case, s: State): Option<State> {
    var k, l := s.cursor, s.ledger;
    if k.index >= |c.requests| then None
    else if BadPoint(c, k.index) then Some(Failed(s))
    else
      var r := c.requests[k.index];
      Some(Emit(s, Classify(k.index, KindOf(r)), AtPoint, k.(index := k.index + 1),
                l.(facts := l.facts.(classes := l.facts.classes + [KindOf(r)],
                                     observations := l.facts.observations + [Observation(r.fact)]))))
  }

  function NonpresentStep(c: Case, s: State): Option<State>
    requires Known(c, s.ledger.facts.classes)
  {
    var k, l, classes := s.cursor, s.ledger, s.ledger.facts.classes;
    var positions := Nonpresent(c, classes);
    if k.index == |positions| then Some(Emit(s, Groups, AtDispatch, k.(group := 0), l))
    else if k.index > |positions| then None
    else
      var i := positions[k.index];
      if c.faults.conversion == i then Some(Failed(s))
      else Some(Emit(s, Convert(i), AtNonpresent, k.(index := k.index + 1),
                     Converted(l, i, ValueFor(c.requests[i], classes[i]))))
  }

  /** The last value kept for a position, as a dictionary gives it. */
  function Lookup(values: seq<(nat, Value)>, i: nat): Option<Value> {
    if values == [] then None
    else if values[|values| - 1].0 == i then Some(values[|values| - 1].1)
    else Lookup(values[..|values| - 1], i)
  }

  /** The answers in request order, if all are there. */
  function Collected(values: seq<(nat, Value)>, n: nat): Option<seq<Value>> {
    if n == 0 then Some([])
    else
      var rest, last := Collected(values, n - 1), Lookup(values, n - 1);
      if rest.None? || last.None? then None else Some(rest.value + [last.value])
  }

  function Answers(c: Case, classes: seq<Kind>): seq<Value>
    requires Known(c, classes)
  {
    seq(|classes|, i requires 0 <= i < |classes| => ValueFor(c.requests[i], classes[i]))
  }

  function DispatchStep(c: Case, s: State): Option<State>
    requires Known(c, s.ledger.facts.classes)
  {
    var k, l := s.cursor, s.ledger;
    var offsets := Offsets(c, l.facts.classes);
    if k.group == |offsets| then
      var answers := if c.stream then Collected(l.owned.values, |c.requests|) else Some(Answers(c, l.facts.classes));
      if answers.None? then None
      else Some(Emit(s, Return, AtBorrow, k, l.(output := Output(answers.value, Batch))))
    else if k.group > |offsets| then None
    else
      var offset := offsets[k.group];
      Some(Emit(s, Dispatch(offset), AtRead, k,
                l.(owned := l.owned.(pending := Some(offset)), work := l.work.(dispatched := l.work.dispatched + 1))))
  }

  function ReadStep(c: Case, s: State, offset: nat): State {
    var k, l := s.cursor, s.ledger;
    if c.faults.read == offset then Emit(s, ReadError(offset), AtError, k, l.(owned := l.owned.(pending := None)))
    else if c.faults.cancel == offset then
      Emit(s, Cancel, AtRetire, k, l.(owned := Emptied(l.owned), output := l.output.(result := Cancelled)))
    else Emit(s, Read(offset), AtVerify, k.(member := 0),
              l.(owned := l.owned.(pending := None, frames := l.owned.frames + [offset])))
  }

  /** The request's observed original is the receipt its frame really holds. */
  predicate Matches(c: Case, i: nat, offset: nat)
    requires i < |c.requests|
  {
    var r := c.requests[i];
    r.fact.Some? && Actual(c.receipts, offset, r.domain, r.literal) == r.fact
  }

  function Without(frames: seq<nat>, offset: nat): seq<nat> {
    if frames == [] then []
    else
      var last := frames[|frames| - 1];
      Without(frames[..|frames| - 1], offset) + (if last == offset then [] else [last])
  }

  function VerifyStep(c: Case, s: State, offset: nat): Option<State>
    requires Known(c, s.ledger.facts.classes)
  {
    var k, l := s.cursor, s.ledger;
    var positions := Members(c, l.facts.classes, offset);
    if k.member == |positions| then
      if c.stream then Some(Emit(s, VerifiedGroup(offset), AtConvert, k.(member := 0), l))
      else Some(Emit(s, Retained(offset), AtDispatch, k.(group := k.group + 1), l))
    else if k.member > |positions| then None
    else
      var i := positions[k.member];
      if !Matches(c, i, offset) then Some(Failed(s))
      else Some(Emit(s, Verify(i), AtVerify, k.(member := k.member + 1),
                     l.(facts := l.facts.(verified := l.facts.verified + [i]))))
  }

  function ConvertStep(c: Case, s: State, offset: nat): Option<State>
    requires Known(c, s.ledger.facts.classes)
  {
    var k, l := s.cursor, s.ledger;
    var positions := Members(c, l.facts.classes, offset);
    if k.member == |positions| then
      Some(Emit(s, Release(offset), AtDispatch, k.(group := k.group + 1),
                l.(owned := l.owned.(frames := Without(l.owned.frames, offset)))))
    else if k.member > |positions| then None
    else
      var i := positions[k.member];
      if c.faults.conversion == i then Some(Failed(s))
      else Some(Emit(s, Convert(i), AtConvert, k.(member := k.member + 1),
                     Converted(l, i, ValueFor(c.requests[i], Present))))
  }

  function FrameStep(c: Case, s: State): Option<State>
    requires Known(c, s.ledger.facts.classes)
  {
    var offsets := Offsets(c, s.ledger.facts.classes);
    if s.cursor.group >= |offsets| then None
    else
      var offset := offsets[s.cursor.group];
      match s.phase
      case AtRead => Some(ReadStep(c, s, offset))
      case AtVerify => VerifyStep(c, s, offset)
      case AtConvert => ConvertStep(c, s, offset)
      case _ => None
  }

  function EndStep(s: State): Option<State> {
    var l := s.ledger;
    match s.phase
    case AtError => Some(Failed(s))
    case AtBorrow => Some(Emit(s, Borrow, AtDrop, s.cursor, l))
    case AtDrop => Some(Emit(s, Drop, AtDone, s.cursor, l.(owned := Emptied(l.owned))))
    case AtRetire => Some(Emit(s, Retire, AtDone, s.cursor, l.(owned := l.owned.(pending := None))))
    case _ => None
  }

  /** The one step of the batch; none once it is done. */
  function Step(c: Case, s: State): Option<State> {
    match s.phase
    case AtAdmit =>
      if !c.admission then Some(Failed(s))
      else Some(Emit(s, Admit, AtDeclare, s.cursor, s.ledger.(owned := s.ledger.owned.(containers := true))))
    case AtDeclare => DeclareStep(c, s)
    case AtPoint => Some(PointStep(c, s))
    case AtClassify => ClassifyStep(c, s)
    case AtNonpresent => if Known(c, s.ledger.facts.classes) then NonpresentStep(c, s) else None
    case AtDispatch => if Known(c, s.ledger.facts.classes) then DispatchStep(c, s) else None
    case AtRead => if Known(c, s.ledger.facts.classes) then FrameStep(c, s) else None
    case AtVerify => if Known(c, s.ledger.facts.classes) then FrameStep(c, s) else None
    case AtConvert => if Known(c, s.ledger.facts.classes) then FrameStep(c, s) else None
    case _ => EndStep(s)
  }
}
