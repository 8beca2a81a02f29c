/**
 * Condition groups: ordered checks on leased work and on one state key, decided on a metadata cut and
 * recorded with their effects by one conditional publication. Any number of invocations and mutations.
 */
module Conditions {
  import opened Options

  datatype StateKind = Present | Absent | Tombstoned

  /** A mixed group also updates business state and adds new work. */
  datatype Config = Config(mixed: bool, kind: StateKind)

  const ISSUED_VERSION := 1
  const ISSUED_TOKEN := 0
  const LEASE_EXPIRY := 1

  /** The version the state check expects; zero for absence. */
  function ExpectedState(c: Config): nat {
    if c.kind.Present? then 1 else 0
  }

  // ----------------------------------------------------------------------- state

  datatype Metadata = Metadata(epoch: nat, head: nat, workVersion: nat, token: nat, present: bool, highwater: nat)

  datatype Outcome = Committed | StaleLease | VersionConflict | AlreadyExists | NotFound | RequestConflict

  datatype Business = Business(version: nat, value: nat, rows: nat, sequence: nat)

  datatype Receipt = Receipt(body: nat, outcome: Outcome, versions: Option<(nat, nat)>)

  datatype Phase = Idle | Reading | Sampling | Publishing | Resolving

  datatype Call = Call(phase: Phase, body: nat, cut: Option<Metadata>, leaseTime: nat, planned: Option<Outcome>)

  datatype State = State(meta: Metadata, clock: nat, business: Business, call: Call, receipt: Option<Receipt>,
                         observations: seq<(nat, Outcome)>)

  datatype Action =
    | Tick | Fence | WrongToken | AdvanceWorkVersion | DeleteState | AdvanceStateVersion | RecreateState
    | Invoke(body: nat) | ReadCut | SampleFreshTlease | DiscardStaleCut | PublishReceipt | ResolveOriginal

  const NO_CALL := Call(Idle, 0, None, 0, None)

  const START_BUSINESS := Business(1, 0, 0, 0)

  function Initial(c: Config): State {
    State(Metadata(1, 0, 1, 0, c.kind.Present?, if c.kind.Absent? then 0 else 1), 0, START_BUSINESS, NO_CALL, None, [])
  }

  // -------------------------------------------------------------------- decision

  /** The planner's decision on a cut and a sampled time. */
  function Decision(c: Config, cut: Metadata, leaseTime: nat): Outcome {
    if cut.token != ISSUED_TOKEN || leaseTime >= LEASE_EXPIRY then StaleLease
    else if cut.workVersion != ISSUED_VERSION then VersionConflict
    else if ExpectedState(c) == 0 && cut.present then AlreadyExists
    else if ExpectedState(c) != 0 && !cut.present then NotFound
    else if ExpectedState(c) != 0 && cut.highwater != ExpectedState(c) then VersionConflict
    else Committed
  }

  ghost predicate LeaseHolds(m: Metadata, leaseTime: nat) {
    m.token == ISSUED_TOKEN && leaseTime < LEASE_EXPIRY
  }

  ghost predicate StateHolds(c: Config, m: Metadata) {
    if c.kind.Present? then m.present && m.highwater == 1 else !m.present
  }

  /** What each outcome means: the checks hold in order, and the first that fails gives the answer. */
  ghost predicate Means(c: Config, m: Metadata, leaseTime: nat, outcome: Outcome) {
    match outcome
    case Committed => LeaseHolds(m, leaseTime) && m.workVersion == ISSUED_VERSION && StateHolds(c, m)
    case StaleLease => !LeaseHolds(m, leaseTime)
    case VersionConflict =>
      && LeaseHolds(m, leaseTime)
      && (m.workVersion != ISSUED_VERSION || (c.kind.Present? && m.present && m.highwater != 1))
    case AlreadyExists => LeaseHolds(m, leaseTime) && m.workVersion == ISSUED_VERSION && !c.kind.Present? && m.present
    case NotFound => LeaseHolds(m, leaseTime) && m.workVersion == ISSUED_VERSION && c.kind.Present? && !m.present
    case RequestConflict => false
  }

  /** The planner gives the one outcome the ordered checks admit. */
  lemma DecisionMeans(c: Config, m: Metadata, leaseTime: nat, outcome: Outcome)
    ensures Means(c, m, leaseTime, outcome) <==> outcome == Decision(c, m, leaseTime)
  {
  }

  /** The separately written expectation; it tests for the exact expiry only. */
  function ExpectedOutcome(c: Config, cut: Metadata, leaseTime: nat): Outcome {
    if cut.token != 0 then StaleLease
    else if leaseTime == 1 then StaleLease
    else if cut.workVersion != 1 then VersionConflict
    else if ExpectedState(c) == 0 then (if cut.present then AlreadyExists else Committed)
    else if !cut.present then NotFound
    else if cut.highwater == ExpectedState(c) then Committed
    else VersionConflict
  }

  /** The two agree exactly up to the expiry, or when the token is wrong anyway. */
  lemma DecisionExpected(c: Config, cut: Metadata, leaseTime: nat)
    ensures Decision(c, cut, leaseTime) == ExpectedOutcome(c, cut, leaseTime) <==>
        leaseTime <= LEASE_EXPIRY || cut.token != ISSUED_TOKEN
  {
  }

  // ----------------------------------------------------------------------- steps

  function NextEnvironment(s: State, a: Action): Option<State> {
    var m := s.meta;
    match a
    case Tick => Some(s.(clock := s.clock + 1))
    case Fence => Some(s.(meta := m.(epoch := m.epoch + 1)))
    case WrongToken => if m.token == 0 then Some(s.(meta := m.(token := 1, head := m.head + 1))) else None
    case AdvanceWorkVersion => Some(s.(meta := m.(workVersion := m.workVersion + 1, head := m.head + 1)))
    case DeleteState =>
      if m.present then Some(s.(meta := m.(present := false, highwater := m.highwater + 1, head := m.head + 1)))
      else None
    case AdvanceStateVersion =>
      if m.present then Some(s.(meta := m.(highwater := m.highwater + 1, head := m.head + 1))) else None
    case RecreateState =>
      if !m.present then Some(s.(meta := m.(present := true, highwater := m.highwater + 1, head := m.head + 1)))
      else None
    case _ => None
  }

  predicate Mutates(c: Config, planned: Option<Outcome>) {
    planned == Some(Committed) && c.mixed
  }

  function PublishStep(c: Config, s: State, planned: Outcome): State {
    var mutate := Mutates(c, Some(planned));
    var b := s.business;
    s.(meta := s.meta.(head := s.meta.head + 1), call := s.call.(phase := Resolving),
       receipt := Some(Receipt(s.call.body, planned, if mutate then Some((b.version + 1, 1)) else None)),
       business := if mutate then Business(b.version + 1, b.value + 1, b.rows + 1, b.sequence + 1) else b)
  }

  function Result(r: Receipt, body: nat): Outcome {
    if body == r.body then r.outcome else RequestConflict
  }

  /** The conditional publication compares epoch and head only. */
  predicate SameVersion(cut: Option<Metadata>, m: Metadata) {
    cut.Some? && cut.value.epoch == m.epoch && cut.value.head == m.head
  }

  function NextCall(c: Config, s: State, a: Action): Option<State> {
    var call := s.call;
    match a
    case Invoke(body) =>
      if call.phase.Idle? then
        Some(s.(call := Call(if s.receipt.Some? then Resolving else Reading, body, None, 0, None)))
      else None
    case ReadCut =>
      if call.phase.Reading? then Some(s.(call := call.(phase := Sampling, cut := Some(s.meta))))
      else None
    case SampleFreshTlease =>
      if call.phase.Sampling? && call.cut.Some? then
        Some(s.(call := call.(phase := Publishing, leaseTime := s.clock,
                              planned := Some(Decision(c, call.cut.value, s.clock)))))
      else None
    case DiscardStaleCut =>
      if call.phase.Publishing? && !SameVersion(call.cut, s.meta) then
        Some(s.(call := Call(Reading, call.body, None, 0, None)))
      else None
    case PublishReceipt =>
      if call.phase.Publishing? && SameVersion(call.cut, s.meta) && call.planned.Some? then
        Some(PublishStep(c, s, call.planned.value))
      else None
    case ResolveOriginal =>
      if call.phase.Resolving? && s.receipt.Some? then
        Some(s.(call := call.(phase := Idle),
                observations := s.observations + [(call.body, Result(s.receipt.value, call.body))]))
      else None
    case _ => None
  }

  predicate Environment(a: Action) {
    || a.Tick? || a.Fence? || a.WrongToken? || a.AdvanceWorkVersion? || a.DeleteState? || a.AdvanceStateVersion?
    || a.RecreateState?
  }

  function Next(c: Config, s: State, a: Action): Option<State> {
    if Environment(a) then NextEnvironment(s, a) else NextCall(c, s, a)
  }

  ghost predicate IsRun(c: Config, states: seq<State>, actions: seq<Action>) {
    && |states| == |actions| + 1 && states[0] == Initial(c)
    && forall i :: 0 <= i < |actions| ==> Next(c, states[i], actions[i]) == Some(states[i + 1])
  }

  // ------------------------------------------------------------------- invariant

  /** A cut of the present epoch and head is the whole present metadata. */
  ghost predicate CutInv(s: State) {
    s.call.cut.Some? ==>
      && s.call.cut.value.epoch <= s.meta.epoch && s.call.cut.value.head <= s.meta.head
      && (SameVersion(s.call.cut, s.meta) ==> s.call.cut.value == s.meta)
  }

  ghost predicate CallInv(c: Config, s: State) {
    match s.call.phase
    case Idle => s.observations != [] ==> s.receipt.Some?
    case Reading => s.receipt.None? && s.call.cut.None?
    case Sampling => s.receipt.None? && s.call.cut.Some?
    case Publishing =>
      && s.receipt.None? && s.call.cut.Some? && s.call.leaseTime <= s.clock
      && s.call.planned == Some(Decision(c, s.call.cut.value, s.call.leaseTime))
    case Resolving => s.receipt.Some?
  }

  /** The effects, all or none, follow from the receipt. */
  ghost predicate EffectsInv(c: Config, s: State) {
    if s.receipt.Some? && Mutates(c, Some(s.receipt.value.outcome)) then
      s.business == Business(2, 1, 1, 1) && s.receipt.value.versions == Some((2, 1))
    else
      s.business == START_BUSINESS && (s.receipt.Some? ==> s.receipt.value.versions == None)
  }

  ghost predicate ObservedInv(s: State) {
    && (s.observations != [] ==> s.receipt.Some?)
    && forall k :: 0 <= k < |s.observations| ==>
         s.receipt.Some? && s.observations[k].1 == Result(s.receipt.value, s.observations[k].0)
  }

  ghost predicate Inv(c: Config, s: State) {
    CutInv(s) && CallInv(c, s) && EffectsInv(c, s) && ObservedInv(s)
  }

  lemma EnvironmentKeepsInv(c: Config, s: State, a: Action)
    requires Inv(c, s) && NextEnvironment(s, a).Some?
    ensures Inv(c, NextEnvironment(s, a).value)
  {
  }

  lemma CallKeepsInv(c: Config, s: State, a: Action)
    requires Inv(c, s) && NextCall(c, s, a).Some?
    ensures Inv(c, NextCall(c, s, a).value)
  {
  }

  lemma StepKeepsInv(c: Config, s: State, a: Action)
    requires Inv(c, s) && Next(c, s, a).Some?
    ensures Inv(c, Next(c, s, a).value)
  {
    if Environment(a) {
      EnvironmentKeepsInv(c, s, a);
    } else {
      CallKeepsInv(c, s, a);
    }
  }

  lemma {:induction false} RunKeepsInv(c: Config, states: seq<State>, actions: seq<Action>, i: nat)
    requires IsRun(c, states, actions) && i < |states|
    ensures Inv(c, states[i])
  {
    if i > 0 {
      RunKeepsInv(c, states, actions, i - 1);
      assert Next(c, states[i - 1], actions[i - 1]) == Some(states[i]);
      StepKeepsInv(c, states[i - 1], actions[i - 1]);
    }
  }

  // ------------------------------------------------------------------- violation

  datatype Fault = CutBroken | PredicateBroken | ReceiptBroken | MutationBroken | AtomicityBroken | ReplayBroken

  predicate SameChecked(m: Metadata, n: Metadata) {
    m.workVersion == n.workVersion && m.token == n.token && m.present == n.present && m.highwater == n.highwater
  }

  function PublishFault(c: Config, b: State, s: State): Option<Fault> {
    if !SameVersion(b.call.cut, b.meta) then Some(CutBroken)
    else
      var expected := ExpectedOutcome(c, b.call.cut.value, b.call.leaseTime);
      var one := if expected.Committed? && c.mixed then 1 else 0;
      if b.call.planned != Some(expected) then Some(PredicateBroken)
      else if s.receipt.None? || s.receipt.value.body != b.call.body || s.receipt.value.outcome != expected then
        Some(ReceiptBroken)
      else if !SameChecked(b.meta, s.meta) then Some(MutationBroken)
      else if s.business != Business(b.business.version + one, b.business.value + one, b.business.rows + one,
                                     b.business.sequence + one) then
        Some(if expected.Committed? then MutationBroken else AtomicityBroken)
      else if s.meta.head != b.meta.head + 1 then Some(ReceiptBroken)
      else if s.receipt.value.versions != (if one == 1 then Some((b.business.version + 1, 1)) else None) then
        Some(MutationBroken)
      else None
  }

  /** The property checked on every explored edge. */
  function Violation(c: Config, b: State, a: Action, s: State): Option<Fault> {
    var publishing := if a.PublishReceipt? then PublishFault(c, b, s) else None;
    if publishing.Some? then publishing
    else if b.receipt.Some? && s.receipt != b.receipt then Some(ReplayBroken)
    else if a.ResolveOriginal?
            && (b.receipt.None? || s.observations == []
                || s.observations[|s.observations| - 1] != (b.call.body, Result(b.receipt.value, b.call.body))) then
      Some(ReplayBroken)
    else if s.meta.highwater < b.meta.highwater || (a.RecreateState? && s.meta.highwater <= b.meta.highwater) then
      Some(PredicateBroken)
    else None
  }

  /** A publication whose time was sampled beyond the exact expiry under the issued token. */
  predicate BeyondExpiry(b: State, a: Action) {
    a.PublishReceipt? && b.call.cut.Some? && b.call.leaseTime > LEASE_EXPIRY && b.call.cut.value.token == ISSUED_TOKEN
  }

  lemma PublishIsSound(c: Config, s: State, t: State)
    requires Inv(c, s) && Next(c, s, PublishReceipt) == Some(t)
    ensures PublishFault(c, s, t) == if BeyondExpiry(s, PublishReceipt) then Some(PredicateBroken) else None
  {
    DecisionExpected(c, s.call.cut.value, s.call.leaseTime);
  }

  /** A step violates exactly when it publishes beyond the expiry, where the separate expectation says nothing. */
  lemma StepIsSound(c: Config, s: State, a: Action, t: State)
    requires Inv(c, s) && Next(c, s, a) == Some(t)
    ensures Violation(c, s, a, t) == if BeyondExpiry(s, a) then Some(PredicateBroken) else None
  {
    if a.PublishReceipt? {
      PublishIsSound(c, s, t);
    }
  }

  /**
   * Over every run the cut, atomicity, the receipt and its replay are never broken, and the predicate exactly when
   * a publication's time was sampled beyond the exact expiry under the issued token. In particular no run that
   * keeps the clock within the expiry violates anything.
   */
  lemma ViolatesOnlyBeyondExpiry(c: Config, states: seq<State>, actions: seq<Action>, i: nat)
    requires IsRun(c, states, actions) && i < |actions|
    ensures Violation(c, states[i], actions[i], states[i + 1]) ==
              if BeyondExpiry(states[i], actions[i]) then Some(PredicateBroken) else None
    ensures states[i].clock <= LEASE_EXPIRY ==> Violation(c, states[i], actions[i], states[i + 1]) == None
  {
    RunKeepsInv(c, states, actions, i);
    assert Next(c, states[i], actions[i]) == Some(states[i + 1]);
    StepIsSound(c, states[i], actions[i], states[i + 1]);
  }

  /** The state a list of actions leads to. */
  function After(c: Config, s: State, actions: seq<Action>): Option<State>
    decreases |actions|
  {
    if actions == [] then Some(s)
    else
      var next := Next(c, s, actions[0]);
      if next.None? then None else After(c, next.value, actions[1..])
  }

  /** Two ticks, then one invocation: the planner finds the lease stale, the expectation finds it valid. */
  lemma ExpectationStopsAtExpiry(c: Config)
    ensures var b := After(c, Initial(c), [Tick, Tick, Invoke(0), ReadCut, SampleFreshTlease]);
            && b.Some? && Next(c, b.value, PublishReceipt).Some?
            && Violation(c, b.value, PublishReceipt, Next(c, b.value, PublishReceipt).value) == Some(PredicateBroken)
  {
    var s0 := Initial(c);
    var s1 := s0.(clock := 1);
    var s2 := s0.(clock := 2);
    var s3 := s2.(call := Call(Reading, 0, None, 0, None));
    var s4 := s3.(call := s3.call.(phase := Sampling, cut := Some(s3.meta)));
    var s5 := s4.(call := s4.call.(phase := Publishing, leaseTime := 2, planned := Some(StaleLease)));
    assert After(c, s5, []) == Some(s5);
    assert After(c, s4, [SampleFreshTlease]) == Some(s5) by { assert [SampleFreshTlease][1..] == []; }
    assert After(c, s3, [ReadCut, SampleFreshTlease]) == Some(s5) by {
      assert [ReadCut, SampleFreshTlease][1..] == [SampleFreshTlease];
    }
    assert After(c, s2, [Invoke(0), ReadCut, SampleFreshTlease]) == Some(s5) by {
      assert [Invoke(0), ReadCut, SampleFreshTlease][1..] == [ReadCut, SampleFreshTlease];
    }
    assert After(c, s1, [Tick, Invoke(0), ReadCut, SampleFreshTlease]) == Some(s5) by {
      assert [Tick, Invoke(0), ReadCut, SampleFreshTlease][1..] == [Invoke(0), ReadCut, SampleFreshTlease];
    }
    assert [Tick, Tick, Invoke(0), ReadCut, SampleFreshTlease][1..] == [Tick, Invoke(0), ReadCut, SampleFreshTlease];
  }

  // ----------------------------------------------------------------- one receipt

  /** At a publication the cut is the whole live metadata, and the receipt states what the checks mean on it. */
  lemma PublishesLiveState(c: Config, s: State)
    requires Inv(c, s) && Next(c, s, PublishReceipt).Some?
    ensures s.receipt.None? && s.call.cut == Some(s.meta) && s.call.leaseTime <= s.clock
    ensures var r := Next(c, s, PublishReceipt).value.receipt;
            r.Some? && r.value.body == s.call.body && Means(c, s.meta, s.call.leaseTime, r.value.outcome)
  {
    DecisionMeans(c, s.meta, s.call.leaseTime, Decision(c, s.meta, s.call.leaseTime));
  }

  lemma ReceiptStep(c: Config, s: State, a: Action)
    requires Inv(c, s) && Next(c, s, a).Some?
    ensures a.PublishReceipt? <==> s.receipt != Next(c, s, a).value.receipt
    ensures s.receipt.Some? ==> Next(c, s, a).value.receipt == s.receipt
  {
  }

  lemma {:induction false} ReceiptStays(c: Config, states: seq<State>, actions: seq<Action>, i: nat, j: nat)
    requires IsRun(c, states, actions) && i <= j < |states| && states[i].receipt.Some?
    ensures states[j].receipt == states[i].receipt
    decreases j - i
  {
    if i < j {
      RunKeepsInv(c, states, actions, i);
      assert Next(c, states[i], actions[i]) == Some(states[i + 1]);
      ReceiptStep(c, states[i], actions[i]);
      ReceiptStays(c, states, actions, i + 1, j);
    }
  }

  lemma {:induction false} ReceiptWasPublished(c: Config, states: seq<State>, actions: seq<Action>, i: nat)
    returns (j: nat)
    requires IsRun(c, states, actions) && i < |states| && states[i].receipt.Some?
    ensures j < i && actions[j].PublishReceipt? && states[j + 1].receipt == states[i].receipt
  {
    RunKeepsInv(c, states, actions, i - 1);
    assert Next(c, states[i - 1], actions[i - 1]) == Some(states[i]);
    ReceiptStep(c, states[i - 1], actions[i - 1]);
    if actions[i - 1].PublishReceipt? {
      j := i - 1;
    } else {
      j := ReceiptWasPublished(c, states, actions, i - 1);
    }
  }

  /**
   * Over any number of invocations there is one publication, at `j`. Its receipt is the ordered predicate on
   * the state live at that moment. Every answer given, before or after expiry, deletion or recreation, is the
   * recorded outcome for an equal body and a conflict for any other. The effects happened once if the mixed group
   * committed, and not at all otherwise.
   */
  lemma OneReceiptDecides(c: Config, states: seq<State>, actions: seq<Action>, i: nat) returns (j: nat)
    requires IsRun(c, states, actions) && i < |states| && states[i].receipt.Some?
    ensures j < i && actions[j].PublishReceipt?
    ensures forall k :: 0 <= k < |actions| && actions[k].PublishReceipt? ==> k == j
    ensures states[j].call.cut == Some(states[j].meta)
    ensures states[i].receipt.value.body == states[j].call.body
    ensures Means(c, states[j].meta, states[j].call.leaseTime, states[i].receipt.value.outcome)
    ensures forall k :: 0 <= k < |states[i].observations| ==>
              states[i].observations[k].1 == Result(states[i].receipt.value, states[i].observations[k].0)
    ensures states[i].business == if c.mixed && states[i].receipt.value.outcome.Committed? then Business(2, 1, 1, 1)
        else START_BUSINESS
  {
    RunKeepsInv(c, states, actions, i);
    j := ReceiptWasPublished(c, states, actions, i);
    RunKeepsInv(c, states, actions, j);
    assert Next(c, states[j], actions[j]) == Some(states[j + 1]);
    PublishesLiveState(c, states[j]);
    forall k | 0 <= k < |actions| && actions[k].PublishReceipt?
      ensures k == j
    {
      OnePublication(c, states, actions, j, k);
    }
  }

  lemma OnePublication(c: Config, states: seq<State>, actions: seq<Action>, j: nat, k: nat)
    requires IsRun(c, states, actions) && j < |actions| && k < |actions| && actions[j].PublishReceipt?
    requires actions[k].PublishReceipt?
    ensures j == k
  {
    var first, second := if j <= k then j else k, if j <= k then k else j;
    RunKeepsInv(c, states, actions, first);
    RunKeepsInv(c, states, actions, second);
    assert Next(c, states[first], actions[first]) == Some(states[first + 1]);
    assert Next(c, states[second], actions[second]) == Some(states[second + 1]);
    PublishesLiveState(c, states[first]);
    PublishesLiveState(c, states[second]);
    if first < second {
      ReceiptStays(c, states, actions, first + 1, second);
    }
  }

  /** Before any publication nothing has been answered and nothing has happened. */
  lemma NothingBeforeReceipt(c: Config, states: seq<State>, actions: seq<Action>, i: nat)
    requires IsRun(c, states, actions) && i < |states| && states[i].receipt.None?
    ensures states[i].observations == [] && states[i].business == START_BUSINESS
    ensures forall k :: 0 <= k < i ==> !actions[k].PublishReceipt?
  {
    RunKeepsInv(c, states, actions, i);
    forall k | 0 <= k < i
      ensures !actions[k].PublishReceipt?
    {
      if actions[k].PublishReceipt? {
        RunKeepsInv(c, states, actions, k);
        assert Next(c, states[k], actions[k]) == Some(states[k + 1]);
        PublishesLiveState(c, states[k]);
        ReceiptStays(c, states, actions, k + 1, i);
      }
    }
  }
}
