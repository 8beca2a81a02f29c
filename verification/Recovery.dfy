/**
 * Ownership and recovery: owners take turns behind a storage fence, commands are published conditionally
 * to a durable log, and a projection applies the log again after every crash. Any number of owners,
 * commands, epochs and crashes.
 */
module Recovery {
  import opened Options

  // ----------------------------------------------------------------------- state

  datatype Control = Control(epoch: nat, controlEpoch: nat, owner: Option<nat>, pending: bool, fenced: bool,
                             sessions: seq<nat>)

  datatype Phase = Idle | Submitted | Published | Acknowledged

  datatype Job = Job(phase: Phase, credential: nat)

  datatype Record = Record(command: nat, fence: nat)

  datatype Store = Store(log: seq<Record>, published: set<nat>, uploaded: set<nat>, hint: nat)

  datatype State = State(control: Control, jobs: seq<Job>, store: Store, ack: set<nat>, applied: seq<nat>, up: bool)

  datatype Action =
    | Reopen | Crash | Apply
    | ExpireOwner | Acquire(owner: nat) | Fence | Confirm | Reaffirm
    | Submit(req: nat, owner: nat) | UploadSegment(req: nat) | CancelCaller(req: nat) | Publish(req: nat)
    | RejectFence(req: nat) | Ack(req: nat) | LostResponse(req: nat) | Replay(req: nat)

  function Initial(owners: nat, commands: nat): State {
    State(Control(0, 0, None, false, false, seq(owners, _ => 0)), seq(commands, _ => Job(Idle, 0)),
          Store([], {}, {}, 0), {}, [], true)
  }

  // ----------------------------------------------------------------------- steps

  function NextControl(k: Control, a: Action): Option<Control> {
    match a
    case ExpireOwner => if k.owner.Some? && !k.pending then Some(k.(owner := None)) else None
    case Acquire(owner) =>
      if k.owner.None? && owner < |k.sessions| then
        Some(k.(owner := Some(owner), controlEpoch := k.controlEpoch + 1, pending := true, fenced := false))
      else None
    case Fence => if k.pending && !k.fenced then Some(k.(epoch := k.epoch + 1, fenced := true)) else None
    case Confirm =>
      if k.pending && k.fenced && k.owner.Some? && k.owner.value < |k.sessions| then
        Some(k.(pending := false, sessions := k.sessions[k.owner.value := k.epoch]))
      else None
    case Reaffirm => if k.owner.Some? && !k.pending then Some(k) else None
    case _ => None
  }

  function SubmitStep(s: State, req: nat, owner: nat): Option<State>
    requires req < |s.jobs|
  {
    var k := s.control;
    if s.jobs[req].phase.Idle? && owner < |k.sessions| && k.sessions[owner] != 0 && k.owner == Some(owner)
        && !k.pending then
      Some(s.(jobs := s.jobs[req := Job(Submitted, k.sessions[owner])]))
    else None
  }

  /** The conditional publication: the segment is uploaded and the cached credential is the storage epoch. */
  predicate MayPublish(s: State, req: nat)
    requires req < |s.jobs|
  {
    req in s.store.uploaded && s.jobs[req].credential == s.control.epoch
  }

  function PublishStep(s: State, req: nat): State
    requires req < |s.jobs|
  {
    var credential := s.jobs[req].credential;
    var log := s.store.log + [Record(req, credential)];
    s.(jobs := s.jobs[req := Job(Published, credential)],
       store := s.store.(log := log, published := s.store.published + {req},
                         hint := if |log| == 1 then |log| else s.store.hint))
  }

  function NextJob(s: State, a: Action): Option<State> {
    match a
    case Submit(req, owner) => if req < |s.jobs| then SubmitStep(s, req, owner) else None
    case UploadSegment(req) =>
      if req < |s.jobs| && s.jobs[req].phase.Submitted? && req !in s.store.uploaded then
        Some(s.(store := s.store.(uploaded := s.store.uploaded + {req})))
      else None
    case CancelCaller(req) => if req < |s.jobs| && s.jobs[req].phase.Submitted? then Some(s) else None
    case Publish(req) =>
      if req < |s.jobs| && s.jobs[req].phase.Submitted? && MayPublish(s, req) then Some(PublishStep(s, req)) else None
    case RejectFence(req) =>
      if req < |s.jobs| && s.jobs[req].phase.Submitted? && !MayPublish(s, req) then
        Some(s.(jobs := s.jobs[req := Job(Idle, 0)]))
      else None
    case Ack(req) =>
      if req < |s.jobs| && s.jobs[req].phase.Published? then
        Some(s.(jobs := s.jobs[req := Job(Acknowledged, s.jobs[req].credential)], ack := s.ack + {req}))
      else None
    case LostResponse(req) => if req < |s.jobs| && s.jobs[req].phase.Published? then Some(s) else None
    case Replay(req) => if req < |s.jobs| && s.jobs[req].phase.Acknowledged? then Some(s) else None
    case _ => None
  }

  function Commands(log: seq<Record>): seq<nat> {
    seq(|log|, i requires 0 <= i < |log| => log[i].command)
  }

  /** Only durable storage survives: ownership, cached sessions, unpublished submissions and the projection are lost. */
  function CrashStep(s: State): State {
    s.(up := false, applied := [],
       control := Control(s.control.epoch, 0, None, false, false, seq(|s.control.sessions|, _ => 0)),
       jobs := seq(|s.jobs|, i requires 0 <= i < |s.jobs| => if s.jobs[i].phase.Submitted? then Job(Idle, 0)
                   else s.jobs[i]))
  }

  function Next(s: State, a: Action): Option<State> {
    if a.Reopen? then (if !s.up then Some(s.(up := true, applied := [])) else None)
    else if !s.up then None
    else if a.Crash? then Some(CrashStep(s))
    else if a.Apply? then
      if |s.applied| < |s.store.log| then Some(s.(applied := s.applied + [s.store.log[|s.applied|].command])) else None
    else if a.ExpireOwner? || a.Acquire? || a.Fence? || a.Confirm? || a.Reaffirm? then
      var k := NextControl(s.control, a);
      if k.Some? then Some(s.(control := k.value)) else None
    else NextJob(s, a)
  }

  ghost predicate IsRun(owners: nat, commands: nat, states: seq<State>, actions: seq<Action>) {
    && |states| == |actions| + 1 && states[0] == Initial(owners, commands)
    && forall i :: 0 <= i < |actions| ==> Next(states[i], actions[i]) == Some(states[i + 1])
  }

  // ------------------------------------------------------------------- violation

  datatype Fault = AckLost | PrefixBroken | FenceBroken

  ghost function Committed(log: seq<Record>): set<nat> {
    set i | 0 <= i < |log| :: log[i].command
  }

  /** The property checked on every explored edge. */
  ghost function Violation(before: State, a: Action, s: State): Option<Fault> {
    if !(s.ack <= Committed(s.store.log)) then Some(AckLost)
    else if Committed(s.store.log) != s.store.published || !(s.applied <= Commands(s.store.log)) then Some(PrefixBroken)
    else if a.Publish? && (s.store.log == [] || s.store.log[|s.store.log| - 1].fence != before.control.epoch) then
      Some(FenceBroken)
    else if s.control.epoch < before.control.epoch || (a.Reaffirm? && s.control.epoch != before.control.epoch) then
      Some(FenceBroken)
    else if a.Submit? && before.control.pending then Some(FenceBroken)
    else None
  }

  // ------------------------------------------------------------------- invariant

  /** A confirmed owner, and no other session, holds the storage epoch; between fence and confirmation nobody does. */
  ghost predicate ControlInv(k: Control) {
    && (k.owner.Some? ==> k.owner.value < |k.sessions| && k.controlEpoch > 0)
    && (k.pending ==> k.owner.Some?)
    && (forall i :: 0 <= i < |k.sessions| ==> k.sessions[i] <= k.epoch)
    && (k.pending && k.fenced ==> forall i :: 0 <= i < |k.sessions| ==> k.sessions[i] < k.epoch)
    && (k.owner.Some? && !k.pending ==> k.sessions[k.owner.value] == k.epoch > 0)
    && (forall i, j :: 0 <= i < j < |k.sessions| && k.sessions[i] == k.sessions[j] ==>
          k.sessions[i] < k.epoch || k.sessions[i] == 0)
  }

  ghost predicate LogInv(log: seq<Record>, epoch: nat) {
    && (forall i, j :: 0 <= i < j < |log| ==> log[i].command != log[j].command && log[i].fence <= log[j].fence)
    && (forall i :: 0 <= i < |log| ==> log[i].fence <= epoch)
  }

  /** A job is past submission exactly when its command is in the log, and acknowledged exactly when told so. */
  ghost predicate JobsInv(s: State) {
    && (forall c :: c in s.store.published ==> c < |s.jobs|)
    && (forall c :: c in s.ack ==> c < |s.jobs|)
    && (forall c: nat :: c < |s.jobs| ==>
          && (c in s.store.published <==> s.jobs[c].phase.Published? || s.jobs[c].phase.Acknowledged?)
          && (c in s.ack <==> s.jobs[c].phase.Acknowledged?))
  }

  ghost predicate StoreInv(s: State) {
    && LogInv(s.store.log, s.control.epoch)
    && Committed(s.store.log) == s.store.published
    && s.applied <= Commands(s.store.log)
    && s.store.published <= s.store.uploaded && s.store.hint == if s.store.log == [] then 0 else 1
  }

  ghost predicate Inv(s: State) {
    ControlInv(s.control) && JobsInv(s) && StoreInv(s)
  }

  lemma ControlStep(k: Control, a: Action)
    requires ControlInv(k) && NextControl(k, a).Some?
    ensures ControlInv(NextControl(k, a).value) && k.epoch <= NextControl(k, a).value.epoch
    ensures a.Reaffirm? ==> NextControl(k, a).value.epoch == k.epoch
  {
  }

  lemma PublishKeepsInv(s: State, req: nat)
    requires Inv(s) && req < |s.jobs| && s.jobs[req].phase.Submitted? && MayPublish(s, req)
    ensures Inv(PublishStep(s, req))
  {
    var t := PublishStep(s, req);
    var n := |s.store.log|;
    assert forall i :: 0 <= i < n ==> t.store.log[i] == s.store.log[i];
    assert t.store.log[n] == Record(req, s.jobs[req].credential);
    forall i | 0 <= i < n
      ensures s.store.log[i].command != req
    {
      assert s.store.log[i].command in Committed(s.store.log);
    }
    assert forall c :: c in Committed(t.store.log) <==> c in Committed(s.store.log) || c == req by {
      forall c | c in Committed(s.store.log)
        ensures c in Committed(t.store.log)
      {
        var i :| 0 <= i < n && s.store.log[i].command == c;
        assert t.store.log[i].command == c;
      }
    }
    assert Commands(t.store.log) == Commands(s.store.log) + [req];
  }

  lemma JobStepKeepsInv(s: State, a: Action)
    requires Inv(s) && NextJob(s, a).Some?
    ensures Inv(NextJob(s, a).value) && NextJob(s, a).value.control == s.control
  {
    if a.Publish? { PublishKeepsInv(s, a.req); }
  }

  lemma CrashKeepsInv(s: State)
    requires Inv(s)
    ensures Inv(CrashStep(s))
  {
  }

  /** Every step keeps the invariant. */
  lemma StepKeepsInv(s: State, a: Action)
    requires Inv(s) && Next(s, a).Some?
    ensures Inv(Next(s, a).value)
  {
    var t := Next(s, a).value;
    if a.Crash? {
      CrashKeepsInv(s);
    } else if a.ExpireOwner? || a.Acquire? || a.Fence? || a.Confirm? || a.Reaffirm? {
      ControlStep(s.control, a);
    } else if a.Apply? {
      assert Commands(s.store.log)[|s.applied|] == s.store.log[|s.applied|].command;
    } else if !a.Reopen? {
      JobStepKeepsInv(s, a);
    }
  }

  lemma InitialInv(owners: nat, commands: nat)
    ensures Inv(Initial(owners, commands))
  {
  }

  lemma {:induction false} RunKeepsInv(owners: nat, commands: nat, states: seq<State>, actions: seq<Action>, i: nat)
    requires IsRun(owners, commands, states, actions) && i < |states|
    ensures Inv(states[i])
  {
    if i == 0 {
      InitialInv(owners, commands);
    } else {
      RunKeepsInv(owners, commands, states, actions, i - 1);
      assert Next(states[i - 1], actions[i - 1]) == Some(states[i]);
      StepKeepsInv(states[i - 1], actions[i - 1]);
    }
  }

  // ---------------------------------------------------------------------- safety

  /** Whatever happens, durable facts only grow. */
  ghost predicate Durable(s: State, t: State) {
    s.store.log <= t.store.log && s.ack <= t.ack && s.control.epoch <= t.control.epoch
  }

  lemma StepIsDurable(s: State, a: Action)
    requires Inv(s) && Next(s, a).Some?
    ensures Durable(s, Next(s, a).value)
  {
    if a.ExpireOwner? || a.Acquire? || a.Fence? || a.Confirm? || a.Reaffirm? {
      ControlStep(s.control, a);
    }
  }

  lemma InvIsSound(before: State, a: Action, s: State)
    requires Inv(s) && before.control.epoch <= s.control.epoch
    requires a.Publish? ==> s.store.log != [] && s.store.log[|s.store.log| - 1].fence == before.control.epoch
    requires (a.Submit? ==> !before.control.pending) && (a.Reaffirm? ==> s.control.epoch == before.control.epoch)
    ensures Violation(before, a, s) == None
  {
  }

  lemma StepIsSound(s: State, a: Action)
    requires Inv(s) && Next(s, a).Some?
    ensures Violation(s, a, Next(s, a).value) == None
  {
    StepKeepsInv(s, a);
    StepIsDurable(s, a);
    InvIsSound(s, a, Next(s, a).value);
  }

  /** No reachable edge violates acknowledgement durability, prefix application or fencing. */
  lemma NoRunViolates(owners: nat, commands: nat, states: seq<State>, actions: seq<Action>, i: nat)
    requires IsRun(owners, commands, states, actions) && i < |actions|
    ensures Violation(states[i], actions[i], states[i + 1]) == None
  {
    RunKeepsInv(owners, commands, states, actions, i);
    assert Next(states[i], actions[i]) == Some(states[i + 1]);
    StepIsSound(states[i], actions[i]);
  }

  lemma {:induction false} RunIsDurable(owners: nat, commands: nat, states: seq<State>, actions: seq<Action>, i: nat,
                                        j: nat)
    requires IsRun(owners, commands, states, actions) && i <= j < |states|
    ensures Durable(states[i], states[j])
    decreases j - i
  {
    if i < j {
      RunKeepsInv(owners, commands, states, actions, i);
      assert Next(states[i], actions[i]) == Some(states[i + 1]);
      StepIsDurable(states[i], actions[i]);
      RunIsDurable(owners, commands, states, actions, i + 1, j);
    }
  }

  /**
   * A command acknowledged at any moment stays acknowledged and stays at one and the same place of the
   * log, which is appended to only, holds no command twice, and whose fences never go back.
   */
  lemma AcknowledgedStaysLogged(owners: nat, commands: nat, states: seq<State>, actions: seq<Action>, i: nat, j: nat,
                                c: nat)
    returns (at: nat)
    requires IsRun(owners, commands, states, actions) && i <= j < |states| && c in states[i].ack
    ensures states[i].store.log <= states[j].store.log && c in states[j].ack
    ensures at < |states[i].store.log| && states[j].store.log[at] == states[i].store.log[at]
    ensures states[i].store.log[at].command == c
    ensures forall k :: 0 <= k < |states[j].store.log| && states[j].store.log[k].command == c ==> k == at
    ensures forall k, l :: 0 <= k < l < |states[j].store.log| ==>
        states[j].store.log[k].fence <= states[j].store.log[l].fence
  {
    RunKeepsInv(owners, commands, states, actions, i);
    RunKeepsInv(owners, commands, states, actions, j);
    RunIsDurable(owners, commands, states, actions, i, j);
    assert c in Committed(states[i].store.log);
    var k :| 0 <= k < |states[i].store.log| && states[i].store.log[k].command == c;
    at := k;
  }

  /** At most one session ever holds the current epoch, and a confirmed owner does hold it. */
  lemma SingleHolder(owners: nat, commands: nat, states: seq<State>, actions: seq<Action>, i: nat)
    requires IsRun(owners, commands, states, actions) && i < |states|
    ensures var k := states[i].control;
            forall a, b :: 0 <= a < b < |k.sessions| ==> !(k.sessions[a] == k.sessions[b] == k.epoch != 0)
    ensures var k := states[i].control;
            k.owner.Some? && !k.pending ==> k.owner.value < |k.sessions| && k.sessions[k.owner.value] == k.epoch != 0
  {
    RunKeepsInv(owners, commands, states, actions, i);
  }

  // -------------------------------------------------------------------- liveness

  /** How many applications a logged command still waits for. */
  ghost function Distance(s: State, c: nat): int
    requires c in Committed(s.store.log)
  {
    Place(s.store.log, c) + 1 - |s.applied|
  }

  ghost function Place(log: seq<Record>, c: nat): (at: nat)
    requires c in Committed(log)
    ensures at < |log| && log[at].command == c
  {
    var at: nat :| at < |log| && log[at].command == c;
    at
  }

  /** A step of a stretch without crashes. */
  ghost predicate Undisturbed(s: State, a: Action) {
    s.up && !a.Crash? && !a.Reopen?
  }

  /** A published command is applied exactly when nothing is left to wait for; until then Apply is enabled. */
  lemma WaitingMeansEnabled(s: State, c: nat)
    requires Inv(s) && c in s.store.published
    ensures c in s.applied <==> Distance(s, c) <= 0
    ensures s.up && c !in s.applied ==> Next(s, Apply).Some?
  {
    var at := Place(s.store.log, c);
    assert forall k :: 0 <= k < |s.applied| ==> s.applied[k] == s.store.log[k].command by {
      assert forall k :: 0 <= k < |s.applied| ==> s.applied[k] == Commands(s.store.log)[k];
    }
    if at < |s.applied| {
      assert s.applied[at] == c;
    }
  }

  lemma StepShortens(s: State, a: Action, c: nat)
    requires Inv(s) && c in s.store.published && Undisturbed(s, a) && Next(s, a).Some?
    ensures var t := Next(s, a).value;
            && t.up && c in t.store.published && Inv(t)
            && Distance(t, c) == Distance(s, c) - (if a.Apply? then 1 else 0)
  {
    var t := Next(s, a).value;
    StepKeepsInv(s, a);
    StepIsDurable(s, a);
    var at := Place(s.store.log, c);
    assert t.store.log[at].command == c;
  }

  function Applies(actions: seq<Action>): nat {
    if actions == [] then 0
    else Applies(actions[..|actions| - 1]) + (if actions[|actions| - 1].Apply? then 1 else 0)
  }

  lemma AppliesMore(actions: seq<Action>, i: nat, j: nat)
    requires i < j <= |actions|
    ensures Applies(actions[i..j]) == Applies(actions[i..j - 1]) + (if actions[j - 1].Apply? then 1 else 0)
  {
    assert actions[i..j][..j - i - 1] == actions[i..j - 1];
  }

  /** The command is published and within `distance` applications of being applied. */
  ghost predicate Waits(s: State, c: nat, distance: int) {
    Inv(s) && s.up && c in s.store.published && c in Committed(s.store.log) && Distance(s, c) == distance
  }

  lemma StepNears(s: State, a: Action, t: State, c: nat, distance: int)
    requires Waits(s, c, distance) && !a.Crash? && !a.Reopen? && Next(s, a) == Some(t)
    ensures Waits(t, c, distance - (if a.Apply? then 1 else 0))
  {
    StepShortens(s, a, c);
  }

  lemma {:induction false} RunShortens(owners: nat, commands: nat, states: seq<State>, actions: seq<Action>, i: nat,
                                       j: nat, c: nat, distance: int)
    requires IsRun(owners, commands, states, actions) && i <= j < |states| && Waits(states[i], c, distance)
    requires forall k :: i <= k < j ==> !actions[k].Crash? && !actions[k].Reopen?
    ensures Waits(states[j], c, distance - Applies(actions[i..j]))
    decreases j
  {
    if i == j {
      assert actions[i..j] == [];
    } else {
      RunShortens(owners, commands, states, actions, i, j - 1, c, distance);
      assert Next(states[j - 1], actions[j - 1]) == Some(states[j]);
      StepNears(states[j - 1], actions[j - 1], states[j], c, distance - Applies(actions[i..j - 1]));
      AppliesMore(actions, i, j);
    }
  }

  /**
   * In a stretch without crashes, a published command is applied exactly when the Apply steps taken
   * have covered its initial distance, and until then Apply remains enabled.
   */
  lemma EventuallyApplied(owners: nat, commands: nat, states: seq<State>, actions: seq<Action>, i: nat, j: nat, c: nat)
    requires IsRun(owners, commands, states, actions) && i <= j < |states| && c in states[i].store.published
    requires states[i].up && forall k :: i <= k < j ==> !actions[k].Crash? && !actions[k].Reopen?
    ensures c in Committed(states[i].store.log)
    ensures c in states[j].applied <==> Applies(actions[i..j]) >= Distance(states[i], c)
    ensures c !in states[j].applied ==> Next(states[j], Apply).Some?
  {
    RunKeepsInv(owners, commands, states, actions, i);
    RunShortens(owners, commands, states, actions, i, j, c, Distance(states[i], c));
    WaitingMeansEnabled(states[j], c);
  }
}
