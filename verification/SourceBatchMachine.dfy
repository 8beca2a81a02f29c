/** The batch composition step by step: admission, validation, probing, planning, packing and sealing. */
module SourceBatchMachine {
  import opened Options
  import opened SourceBatch
  import opened SourceBatchReference

  // ----------------------------------------------------------------------- cases

  datatype Binding = Binding(cut: string, declaration: string, definition: string, job: string)

  const OURS := Binding("A", "D", "P", "J")

  datatype Failure = NoFailure | FieldsFailure | ProbeFailure(at: nat)

  datatype Gates = Gates(admission: bool, response: bool, output: bool)

  datatype Limits = Limits(frame: int, record: int)

  datatype Case = Case(initial: Image, uniques: nat, groups: seq<Group>, ids: seq<string>, offset: nat, gates: Gates,
                       failure: Failure, limits: Limits, requested: Binding)

  ghost predicate CaseOk(c: Case) {
    && ValidImage(c.uniques, c.initial) && GroupsOk(c.uniques, |c.initial.work|, c.groups)
    && 0 < |c.groups| <= |c.ids|
  }

  // ----------------------------------------------------------------------- state

  datatype Phase =
    | AtAdmit | AtValidate | AtFields | AtProbe | AtClock | AtPlan | AtEncode | AtResult | AtBind | AtBorrow | AtDrop
    | AtDone

  datatype Result = NoResult | Unknown | Invalid | TooLarge | Sealed

  datatype Word =
    | Admit | Validate | Fields | Probe(i: nat) | Clock(i: nat) | Plan(i: nat) | Encode(n: nat) | Seal(n: nat) | Borrow
    | Drop
    | Refused(kind: Result)

  datatype Index = Index(image: Image, owners: seq<Option<nat>>, loaded: set<nat>)

  datatype History = History(index: nat, images: seq<Image>, outcomes: seq<Outcome>, clocks: seq<nat>)

  datatype Pack = Pack(attempts: seq<nat>, candidate: nat, best: nat, retained: nat)

  datatype Live = Live(plan: bool, output: bool, credit: bool)

  /** A sealed record: the packed prefix's effects, positions and receipts. */
  datatype Record = Record(effect: Image, positions: seq<nat>, receipts: multiset<(string, Outcome)>, binding: Binding)

  datatype State = State(phase: Phase, events: seq<Word>, index: Index, history: History, pack: Pack, live: Live,
                         result: Result, returned: Option<Record>)

  function Start(c: Case): State {
    State(AtAdmit, [], Index(c.initial, seq(c.uniques, _ => None), {}), History(0, [], [], []), Pack([], 0, 0, 0),
          Live(false, false, false), NoResult, None)
  }

  // ----------------------------------------------------------------------- steps

  function Refuse(s: State, kind: Result): State {
    s.(phase := AtDone, events := s.events + [Refused(kind)], result := kind, live := s.live.(plan := false))
  }

  function Emit(s: State, w: Word, phase: Phase): State {
    s.(phase := phase, events := s.events + [w])
  }

  function ProbeStep(c: Case, s: State): Option<State> {
    var i, x := s.history.index, s.index;
    if i >= |c.groups| || (!OnState(c.groups[i]) && c.groups[i].key >= |x.image.work|) then None
    else if c.failure == ProbeFailure(i) then Some(Refuse(s, Unknown))
    else
      var probes := Probes(c.groups[i], x.image);
      Some(Emit(s, Probe(i), AtClock).(
        index := Index(x.image, LoadOwners(c.initial, x.owners, x.loaded, probes), x.loaded + probes)))
  }

  function PlanStep(c: Case, s: State): Option<State> {
    var h, x := s.history, s.index;
    if h.index >= |c.groups| || !GroupOk(|x.owners|, |x.image.work|, c.groups[h.index])
        || |x.image.work| != |x.image.highwater| then None
    else
      var p := PlanGroup(c.groups[h.index], x.image, x.owners);
      var finished := h.index + 1 == |c.groups|;
      Some(Emit(s, Plan(h.index), if finished then AtEncode else AtProbe).(
        index := Index(p.image, p.owners, x.loaded),
        history := History(h.index + 1, h.images + [p.image], h.outcomes + [p.outcome], h.clocks),
        pack := s.pack.(candidate := if finished then |c.groups| else 0)))
  }

  predicate FitsIn(c: Case, image: Image, count: nat)
    requires SameRows(c.initial, image)
  {
    Sizes(c.initial, image, count).0 <= c.limits.frame && Sizes(c.initial, image, count).1 <= c.limits.record
  }

  function EncodeStep(c: Case, s: State): State {
    if !c.gates.output then Refuse(s, Unknown)
    else Emit(s, Encode(s.pack.candidate), AtResult).(pack := s.pack.(attempts := s.pack.attempts + [s.pack.candidate]))
  }

  function ResultStep(c: Case, s: State): Option<State> {
    var n, total, k := s.pack.candidate, |c.groups|, s.pack;
    if n == 0 || n > |s.history.images| || !SameRows(c.initial, s.history.images[n - 1]) then None
    else if FitsIn(c, s.history.images[n - 1], n) then
      if n == total || n + 1 == total then Some(s.(phase := AtBind, pack := k.(retained := n, best := n)))
      else Some(s.(phase := AtEncode, pack := k.(candidate := n + 1, best := n)))
    else if k.best == 0 && n == total && total > 1 then Some(s.(phase := AtEncode, pack := k.(candidate := 1)))
    else if k.best > 0 then Some(s.(phase := AtBind, pack := k.(retained := k.best)))
    else Some(Refuse(s, TooLarge))
  }

  function Pairs(ids: seq<string>, outcomes: seq<Outcome>, n: nat): multiset<(string, Outcome)>
    requires n <= |ids| && n <= |outcomes|
  {
    multiset(seq(n, i requires 0 <= i < n => (ids[i], outcomes[i])))
  }

  function Positions(offset: nat, n: nat): seq<nat> {
    seq(n, i requires 0 <= i < n => offset + i)
  }

  function BindStep(c: Case, s: State): Option<State> {
    var n := s.pack.retained;
    if c.requested != OURS then Some(Refuse(s, Unknown))
    else if n == 0 || n > |s.history.images| || n > |s.history.outcomes| || n > |c.ids| then None
    else
      Some(Emit(s, Seal(n), AtBorrow).(
        returned := Some(Record(s.history.images[n - 1], Positions(c.offset, n), Pairs(c.ids, s.history.outcomes, n),
                                OURS)),
        result := Sealed, live := Live(false, true, true)))
  }

  /** The one step of the composition; none once it is done. */
  function Step(c: Case, s: State): Option<State> {
    match s.phase
    case AtAdmit =>
      if !c.gates.admission then Some(Refuse(s, Unknown))
          else Some(Emit(s, Admit, AtValidate).(live := s.live.(plan := true)))
    case AtValidate => if !c.gates.response then Some(Refuse(s, Invalid)) else Some(Emit(s, Validate, AtFields))
    case AtFields => if c.failure.FieldsFailure? then Some(Refuse(s, Unknown)) else Some(Emit(s, Fields, AtProbe))
    case AtProbe => ProbeStep(c, s)
    case AtClock => Some(Emit(s, Clock(s.history.index),
                              AtPlan).(history := s.history.(clocks := s.history.clocks + [s.history.index])))
    case AtPlan => PlanStep(c, s)
    case AtEncode => Some(EncodeStep(c, s))
    case AtResult => ResultStep(c, s)
    case AtBind => BindStep(c, s)
    case AtBorrow => Some(Emit(s, Borrow, AtDrop))
    case AtDrop => Some(Emit(s, Drop, AtDone).(live := s.live.(output := false, credit := false)))
    case AtDone => None
  }
}
