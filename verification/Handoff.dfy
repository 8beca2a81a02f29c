/**
 * Handing one admitted operation from group to group: each group is bound to a fully recovered prefix,
 * published under head and fence conditions, and acknowledged only from a further recovered prefix.
 * Any number of groups, competing publications, fences, raced originals and recoveries.
 */
module Handoff {
  import opened Options

  // ----------------------------------------------------------------------- state

  datatype Source = Source(head: nat, epoch: nat, originals: seq<bool>)

  /** A recovered prefix: the head it was read at, the fence it acquired, and which originals it holds. */
  datatype Cut = Cut(head: nat, epoch: nat, originals: seq<bool>)

  datatype Phase = Reading | Choosing | Preparing | Submitting | PostReading | Resolving | Done

  datatype Bound = Bound(complete: bool, scope: nat, position: Option<nat>)

  datatype Prepared = Prepared(head: int, epoch: int, submitted: Option<nat>)

  datatype State = State(group: nat, source: Source, phase: Phase, cut: Option<Cut>, bound: Bound, prepared: Prepared,
                         acknowledged: seq<nat>, recoveries: nat)

  datatype Action =
    | ForeignPublication | CompetingFence | RacedOriginal
    | RecoverFullPrefix | PostRecoverFullPrefix | PostReadWithoutNewFence
    | DiscardStaleHandoff | BindDeclaredPosition | KnownOriginal | PrepareNative
    | ConditionalPublish | ConditionalReject
    | DiscardStaleReplay | ResolveOriginal | ReprepareFencedAbsent | ReturnUnknown

  function Initial(groups: nat): State {
    State(0, Source(0, 1, seq(groups, _ => false)), Reading, None, Bound(false, 0, None), Prepared(-1, -1, None), [], 0)
  }

  // ----------------------------------------------------------------------- steps

  predicate Environment(a: Action) {
    a.ForeignPublication? || a.CompetingFence? || a.RacedOriginal?
  }

  function NextSource(s: State, a: Action): Option<Source> {
    var src := s.source;
    match a
    case ForeignPublication => Some(src.(head := src.head + 1))
    case CompetingFence => Some(src.(epoch := src.epoch + 1))
    case RacedOriginal =>
      if s.group < |src.originals| && !src.originals[s.group] then
        Some(Source(src.head + 1, src.epoch + 1, src.originals[s.group := true]))
      else None
    case _ => None
  }

  function ReadStep(s: State, epoch: nat, source: Source, next: Phase): State {
    s.(source := source, cut := Some(Cut(s.source.head, epoch, s.source.originals)),
       bound := s.bound.(complete := true, scope := 0), recoveries := s.recoveries + 1, phase := next)
  }

  function NextRead(s: State, a: Action): Option<State> {
    var fenced := s.source.(epoch := s.source.epoch + 1);
    match a
    case RecoverFullPrefix => if s.phase.Reading? then Some(ReadStep(s, fenced.epoch, fenced, Choosing)) else None
    case PostRecoverFullPrefix =>
      if s.phase.PostReading? then Some(ReadStep(s, fenced.epoch, fenced, Resolving))
      else None
    case PostReadWithoutNewFence =>
      if s.phase.PostReading? && s.prepared.submitted.Some? then
        Some(ReadStep(s, s.prepared.submitted.value, s.source, Resolving))
      else None
    case _ => None
  }

  function Discarded(s: State, next: Phase): State {
    s.(cut := None, bound := s.bound.(complete := false), phase := next)
  }

  /** The bound cut was read at the present head. */
  predicate Current(s: State) {
    s.cut.Some? && s.cut.value.head == s.source.head
  }

  /** The bound cut holds the present group's original. */
  predicate InCut(s: State) {
    s.cut.Some? && s.group < |s.cut.value.originals| && s.cut.value.originals[s.group]
  }

  predicate Accepted(s: State) {
    s.prepared.head == s.source.head && s.prepared.epoch == s.source.epoch
  }

  function NextBind(s: State, a: Action): Option<State> {
    match a
    case DiscardStaleHandoff => if s.phase.Choosing? && !Current(s) then Some(Discarded(s, Reading)) else None
    case BindDeclaredPosition =>
      if s.phase.Choosing? && Current(s) then
        Some(s.(phase := Preparing, bound := s.bound.(position := Some(s.group))))
      else None
    case KnownOriginal =>
      if s.phase.Preparing? && InCut(s) then Some(s.(phase := PostReading, prepared := s.prepared.(submitted := None)))
      else None
    case PrepareNative =>
      if s.phase.Preparing? && s.cut.Some? && !InCut(s) then
        Some(s.(phase := Submitting, prepared := s.prepared.(head := s.cut.value.head, epoch := s.cut.value.epoch)))
      else None
    case _ => None
  }

  function NextSubmit(s: State, a: Action): Option<State> {
    if s.phase.Submitting? && s.prepared.epoch >= 0 && s.group < |s.source.originals| then
      var sent := s.(phase := PostReading, prepared := s.prepared.(submitted := Some(s.prepared.epoch)));
      if a.ConditionalPublish? && Accepted(s) then
        Some(sent.(source := s.source.(head := s.source.head + 1, originals := s.source.originals[s.group := true])))
      else if a.ConditionalReject? && !Accepted(s) then Some(sent)
      else None
    else None
  }

  /** The bound cut was acquired under a newer fence than the submission's. */
  predicate NewerFence(s: State) {
    s.cut.Some? && s.prepared.submitted.Some? && s.cut.value.epoch > s.prepared.submitted.value
  }

  function NextResolve(s: State, a: Action): Option<State> {
    if !s.phase.Resolving? then None
    else if !Current(s) then (if a.DiscardStaleReplay? then Some(Discarded(s, PostReading)) else None)
    else if InCut(s) then
      if a.ResolveOriginal? then
        Some(s.(group := s.group + 1, phase := if s.group + 1 == |s.source.originals| then Done else Choosing,
                acknowledged := s.acknowledged + [s.group], bound := s.bound.(position := None)))
      else None
    else if NewerFence(s) then
      (if a.ReprepareFencedAbsent? then Some(s.(phase := Choosing, bound := s.bound.(position := None))) else None)
    else (if a.ReturnUnknown? then Some(s.(phase := Done)) else None)
  }

  function Next(s: State, a: Action): Option<State> {
    if s.phase.Done? then None
    else if Environment(a) then
      var source := NextSource(s, a);
      if source.Some? then Some(s.(source := source.value)) else None
    else if a.RecoverFullPrefix? || a.PostRecoverFullPrefix? || a.PostReadWithoutNewFence? then NextRead(s, a)
    else if a.DiscardStaleHandoff? || a.BindDeclaredPosition? || a.KnownOriginal? || a.PrepareNative? then
      NextBind(s, a)
    else if a.ConditionalPublish? || a.ConditionalReject? then NextSubmit(s, a)
    else NextResolve(s, a)
  }

  ghost predicate IsRun(groups: nat, states: seq<State>, actions: seq<Action>) {
    && groups > 0 && |states| == |actions| + 1 && states[0] == Initial(groups)
    && forall i :: 0 <= i < |actions| ==> Next(states[i], actions[i]) == Some(states[i + 1])
  }

  // ------------------------------------------------------------------- violation

  datatype Fault = CutBroken | HandoffBroken | ScopeBroken | CasBroken | ResolveBroken | FenceBroken

  function UpTo(n: nat): seq<nat> {
    seq(n, k => k)
  }

  /** The property checked on every explored edge. */
  function Violation(b: State, a: Action, s: State): Option<Fault> {
    if a.BindDeclaredPosition? && !b.bound.complete then Some(CutBroken)
    else if a.BindDeclaredPosition? && !Current(b) then Some(HandoffBroken)
    else if a.BindDeclaredPosition? && (s.bound.scope != 0 || s.bound.position != Some(b.group)) then Some(ScopeBroken)
    else if a.ConditionalPublish? && !Accepted(b) then Some(CasBroken)
    else if a.ConditionalPublish? && b.group < |b.source.originals| && b.source.originals[b.group] then Some(CasBroken)
    else if a.ResolveOriginal? && (!b.bound.complete || !Current(b) || !InCut(b)) then Some(ResolveBroken)
    else if a.ResolveOriginal? && s.acknowledged != UpTo(s.group) then Some(ResolveBroken)
    else if a.ReprepareFencedAbsent? && (!b.bound.complete || InCut(b) || !NewerFence(b)) then Some(FenceBroken)
    else None
  }

  // ------------------------------------------------------------------- invariant

  /** A cut holds only real originals, and all of them while its head is the present one. */
  ghost predicate CutInv(s: State) {
    s.cut.Some? ==>
      && var cut := s.cut.value;
         && cut.head <= s.source.head && |cut.originals| == |s.source.originals|
         && (cut.head == s.source.head ==> cut.originals == s.source.originals)
         && (forall k :: 0 <= k < |cut.originals| && cut.originals[k] ==> s.source.originals[k])
  }

  ghost predicate PhaseInv(s: State) {
    match s.phase
    case Reading => true
    case Choosing => s.cut.Some? && s.bound.complete
    case Preparing => s.cut.Some? && s.bound.complete && s.bound.position == Some(s.group)
    case Submitting => s.cut.Some? && !InCut(s) && s.prepared.head == s.cut.value.head
        && s.prepared.epoch == s.cut.value.epoch
    case PostReading => s.prepared.submitted.None? ==> s.group < |s.source.originals| && s.source.originals[s.group]
    case Resolving =>
      && s.cut.Some? && s.bound.complete
      && (s.prepared.submitted.None? ==> s.group < |s.source.originals| && s.source.originals[s.group])
      && (s.prepared.submitted.Some? ==> s.cut.value.epoch >= s.prepared.submitted.value)
    case Done => true
  }

  ghost predicate Inv(groups: nat, s: State) {
    && |s.source.originals| == groups && s.group <= groups && (!s.phase.Done? ==> s.group < groups)
    && s.acknowledged == UpTo(s.group)
    && (forall k :: 0 <= k < s.group ==> s.source.originals[k])
    && (forall k :: s.group < k < groups ==> !s.source.originals[k])
    && s.bound.scope == 0 && (s.cut.Some? ==> s.cut.value.epoch <= s.source.epoch)
    && (s.prepared.submitted.Some? ==> s.prepared.submitted.value <= s.source.epoch)
    && CutInv(s) && PhaseInv(s)
  }

  lemma EnvironmentKeepsInv(groups: nat, s: State, a: Action)
    requires Inv(groups, s) && Next(s, a).Some? && Environment(a)
    ensures Inv(groups, Next(s, a).value)
  {
  }

  lemma ReadKeepsInv(groups: nat, s: State, a: Action)
    requires Inv(groups, s) && NextRead(s, a).Some?
    ensures Inv(groups, NextRead(s, a).value)
  {
  }

  lemma BindKeepsInv(groups: nat, s: State, a: Action)
    requires Inv(groups, s) && NextBind(s, a).Some?
    ensures Inv(groups, NextBind(s, a).value)
  {
  }

  lemma SubmitKeepsInv(groups: nat, s: State, a: Action)
    requires Inv(groups, s) && NextSubmit(s, a).Some?
    ensures Inv(groups, NextSubmit(s, a).value)
  {
  }

  lemma ResolveKeepsInv(groups: nat, s: State, a: Action)
    requires Inv(groups, s) && NextResolve(s, a).Some?
    ensures Inv(groups, NextResolve(s, a).value)
  {
    assert UpTo(s.group) + [s.group] == UpTo(s.group + 1);
  }

  /** Every step keeps the invariant. */
  lemma StepKeepsInv(groups: nat, s: State, a: Action)
    requires Inv(groups, s) && Next(s, a).Some?
    ensures Inv(groups, Next(s, a).value)
  {
    if Environment(a) {
      EnvironmentKeepsInv(groups, s, a);
    } else if a.RecoverFullPrefix? || a.PostRecoverFullPrefix? || a.PostReadWithoutNewFence? {
      ReadKeepsInv(groups, s, a);
    } else if a.DiscardStaleHandoff? || a.BindDeclaredPosition? || a.KnownOriginal? || a.PrepareNative? {
      BindKeepsInv(groups, s, a);
    } else if a.ConditionalPublish? || a.ConditionalReject? {
      SubmitKeepsInv(groups, s, a);
    } else {
      ResolveKeepsInv(groups, s, a);
    }
  }

  lemma {:induction false} RunKeepsInv(groups: nat, states: seq<State>, actions: seq<Action>, i: nat)
    requires IsRun(groups, states, actions) && i < |states|
    ensures Inv(groups, states[i])
  {
    if i > 0 {
      RunKeepsInv(groups, states, actions, i - 1);
      assert Next(states[i - 1], actions[i - 1]) == Some(states[i]);
      StepKeepsInv(groups, states[i - 1], actions[i - 1]);
    }
  }

  lemma StepIsSound(groups: nat, s: State, a: Action)
    requires Inv(groups, s) && Next(s, a).Some?
    ensures Violation(s, a, Next(s, a).value) == None
  {
    StepKeepsInv(groups, s, a);
  }

  /** No reachable edge breaks the handoff, its conditions, its scope or its acknowledgements. */
  lemma NoRunViolates(groups: nat, states: seq<State>, actions: seq<Action>, i: nat)
    requires IsRun(groups, states, actions) && i < |actions|
    ensures Violation(states[i], actions[i], states[i + 1]) == None
  {
    RunKeepsInv(groups, states, actions, i);
    assert Next(states[i], actions[i]) == Some(states[i + 1]);
    StepIsSound(groups, states[i], actions[i]);
  }

  // ------------------------------------------------------------------- once only

  predicate Publishes(a: Action) {
    a.ConditionalPublish? || a.RacedOriginal?
  }

  /** Originals are never withdrawn, and a publication adds exactly the present group's. */
  ghost predicate Grows(s: State, a: Action, t: State) {
    && |t.source.originals| == |s.source.originals| && s.group <= t.group <= |s.source.originals|
    && (forall k :: 0 <= k < |s.source.originals| && s.source.originals[k] ==> t.source.originals[k])
    && (if Publishes(a) then s.group < |s.source.originals| && !s.source.originals[s.group]
        && t.source.originals == s.source.originals[s.group := true]
        else t.source.originals == s.source.originals)
  }

  lemma StepGrows(groups: nat, s: State, a: Action)
    requires Inv(groups, s) && Next(s, a).Some?
    ensures Grows(s, a, Next(s, a).value)
  {
    StepIsSound(groups, s, a);
  }

  lemma {:induction false} OriginalsStay(groups: nat, states: seq<State>, actions: seq<Action>, i: nat, j: nat, k: nat)
    requires IsRun(groups, states, actions) && i <= j < |states| && k < groups
    requires Inv(groups, states[i]) && states[i].source.originals[k]
    ensures |states[j].source.originals| == groups && states[j].source.originals[k]
    decreases j - i
  {
    if i < j {
      assert Next(states[i], actions[i]) == Some(states[i + 1]);
      StepGrows(groups, states[i], actions[i]);
      StepKeepsInv(groups, states[i], actions[i]);
      OriginalsStay(groups, states, actions, i + 1, j, k);
    }
  }

  /** Each group is published at most once in a run, whether by this operation or by a racing one. */
  lemma PublishedOnce(groups: nat, states: seq<State>, actions: seq<Action>, i: nat, j: nat)
    requires IsRun(groups, states, actions) && i < |actions| && j < |actions|
    requires Publishes(actions[i]) && Publishes(actions[j]) && states[i].group == states[j].group
    ensures i == j
  {
    var first, second := if i <= j then i else j, if i <= j then j else i;
    RunKeepsInv(groups, states, actions, first);
    RunKeepsInv(groups, states, actions, second);
    assert Next(states[first], actions[first]) == Some(states[first + 1]);
    assert Next(states[second], actions[second]) == Some(states[second + 1]);
    StepGrows(groups, states[first], actions[first]);
    StepGrows(groups, states[second], actions[second]);
    if first < second {
      StepKeepsInv(groups, states[first], actions[first]);
      OriginalsStay(groups, states, actions, first + 1, second, states[first].group);
    }
  }

  /**
   * The acknowledgements are the groups in order, each published; the operation ends with all of them,
   * or at one group whose outcome is unknown. An acknowledgement rests on a complete prefix at the present head.
   */
  lemma AcknowledgedInOrder(groups: nat, states: seq<State>, actions: seq<Action>, i: nat)
    requires IsRun(groups, states, actions) && i < |states|
    ensures states[i].acknowledged == UpTo(states[i].group) && states[i].group <= groups == |states[i].source.originals|
    ensures forall k :: 0 <= k < states[i].group ==> states[i].source.originals[k]
    ensures forall k :: states[i].group < k < groups ==> !states[i].source.originals[k]
    ensures i < |actions| && actions[i].ResolveOriginal? ==>
              && states[i].bound.complete && states[i].cut.Some? && states[i].cut.value.head == states[i].source.head
              && states[i].cut.value.originals == states[i].source.originals
    ensures i > 0 && states[i].phase.Done? ==> states[i].group == groups || actions[i - 1].ReturnUnknown?
  {
    RunKeepsInv(groups, states, actions, i);
    if i > 0 {
      RunKeepsInv(groups, states, actions, i - 1);
      assert Next(states[i - 1], actions[i - 1]) == Some(states[i]);
    }
    if i < |actions| {
      assert Next(states[i], actions[i]) == Some(states[i + 1]);
    }
  }

  // --------------------------------------------------------------------- unknown

  /** The bound prefix is resolved as read at `j`: only the environment has acted since. */
  ghost predicate ReadAt(states: seq<State>, actions: seq<Action>, j: nat, i: nat) {
    && j < i < |states| && i <= |actions|
    && (actions[j].PostRecoverFullPrefix? || actions[j].PostReadWithoutNewFence?)
    && (forall k :: j < k < i ==> Environment(actions[k]))
    && states[i].cut == states[j + 1].cut && states[i].prepared == states[j + 1].prepared
  }

  lemma ResolvingEntered(s: State, a: Action)
    requires Next(s, a).Some? && Next(s, a).value.phase.Resolving?
    ensures Environment(a) || a.PostRecoverFullPrefix? || a.PostReadWithoutNewFence?
    ensures Environment(a) ==>
        s.phase.Resolving? && Next(s, a).value.cut == s.cut && Next(s, a).value.prepared == s.prepared
  {
  }

  lemma {:induction false} ResolvingWasRead(groups: nat, states: seq<State>, actions: seq<Action>, i: nat)
    returns (j: nat)
    requires IsRun(groups, states, actions) && i < |states| && states[i].phase.Resolving?
    ensures ReadAt(states, actions, j, i)
  {
    assert Next(states[i - 1], actions[i - 1]) == Some(states[i]);
    ResolvingEntered(states[i - 1], actions[i - 1]);
    if Environment(actions[i - 1]) {
      j := ResolvingWasRead(groups, states, actions, i - 1);
    } else {
      j := i - 1;
    }
  }

  lemma FencedReadIsNewer(groups: nat, s: State, a: Action)
    requires Inv(groups, s) && Next(s, a).Some? && a.PostRecoverFullPrefix? && s.prepared.submitted.Some?
    ensures NewerFence(Next(s, a).value)
  {
  }

  /**
   * An unknown outcome is returned only for a group that was submitted, is absent from the present prefix,
   * and whose last recovery acquired no fence newer than the submission's.
   */
  lemma UnknownOnlyUnfenced(groups: nat, states: seq<State>, actions: seq<Action>, i: nat) returns (j: nat)
    requires IsRun(groups, states, actions) && i < |actions| && actions[i].ReturnUnknown?
    ensures ReadAt(states, actions, j, i) && actions[j].PostReadWithoutNewFence?
    ensures states[i].group < |states[i].source.originals| && !states[i].source.originals[states[i].group]
    ensures states[i].cut.Some? && states[i].prepared.submitted == Some(states[i].cut.value.epoch)
  {
    RunKeepsInv(groups, states, actions, i);
    assert Next(states[i], actions[i]) == Some(states[i + 1]);
    j := ResolvingWasRead(groups, states, actions, i);
    RunKeepsInv(groups, states, actions, j);
    assert Next(states[j], actions[j]) == Some(states[j + 1]);
    if actions[j].PostRecoverFullPrefix? && states[j].prepared.submitted.Some? {
      FencedReadIsNewer(groups, states[j], actions[j]);
    }
  }
}
