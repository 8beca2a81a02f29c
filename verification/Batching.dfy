/**
 * Batched claims: requests reserve whole units while planning, publish in reservation order and respond.
 * Any number of requests and of units; a unit is one item, or a cohort that must not be split.
 */
module Batching {
  import opened Options

  datatype Config = Config(units: seq<seq<nat>>, requests: nat)

  predicate Shares(u: seq<nat>, v: seq<nat>) {
    exists i :: i in u && i in v
  }

  /** No unit is empty and no item is listed twice. */
  ghost predicate WellFormed(c: Config) {
    && (forall m :: 0 <= m < |c.units| ==> c.units[m] != [] && Distinct(c.units[m]))
    && (forall m, n :: 0 <= m < n < |c.units| ==> !Shares(c.units[m], c.units[n]))
  }

  ghost predicate Distinct(xs: seq<nat>) {
    forall i, j :: 0 <= i < j < |xs| ==> xs[i] != xs[j]
  }

  // ----------------------------------------------------------------------- state

  datatype Phase = Queued | Planned | Published | Responded

  /** What a request is told of one addressed entry. */
  datatype Outcome = Leased(item: nat) | Rejected(item: nat)

  const INVALID := 99

  datatype Plan = Plan(selection: seq<nat>, outcomes: seq<Outcome>, token: nat)

  const NO_PLAN := Plan([], [], 0)

  datatype State = State(phases: seq<Phase>, plans: seq<Plan>, order: seq<nat>, log: seq<nat>, applied: nat,
                         completed: seq<nat>, changed: bool)

  datatype Action =
    | PlanRequest(req: nat) | Publish(req: nat) | Respond(req: nat) | LoseResponse(req: nat) | Replay(req: nat)
    | Apply | ChangePriority | CompleteApplied | Poll(leased: bool)

  function Initial(c: Config): State {
    State(seq(c.requests, _ => Queued), seq(c.requests, _ => NO_PLAN), [], [], 0, [], false)
  }

  // ----------------------------------------------------------------------- steps

  /** Some plan has reserved the item. */
  predicate Reserved(s: State, item: nat) {
    exists r :: 0 <= r < |s.plans| && item in s.plans[r].selection
  }

  predicate Free(s: State, unit: seq<nat>) {
    forall k :: 0 <= k < |unit| ==> !Reserved(s, unit[k]) && unit[k] !in s.completed
  }

  /** The free ones among the units, in unit order. */
  function FreeUnits(s: State, units: seq<seq<nat>>): seq<seq<nat>> {
    if units == [] then []
    else
      var last := units[|units| - 1];
      FreeUnits(s, units[..|units| - 1]) + (if Free(s, last) then [last] else [])
  }

  function Outcomes(selected: seq<nat>): seq<Outcome> {
    seq(|selected|, k requires 0 <= k < |selected| => Leased(selected[k])) + [Rejected(INVALID)]
  }

  function PlanStep(c: Config, s: State, req: nat): State
    requires req < |s.phases| && req < |s.plans|
  {
    var free := FreeUnits(s, c.units);
    var selected := if free == [] then [] else if s.changed then free[|free| - 1] else free[0];
    s.(phases := s.phases[req := Planned], plans := s.plans[req := Plan(selected, Outcomes(selected), req + 1)],
       order := s.order + [req])
  }

  /** The items leased by the applied part of the log. */
  predicate AnyVisible(s: State) {
    exists k :: 0 <= k < |s.log| && k < s.applied && s.log[k] < |s.plans| && s.plans[s.log[k]].selection != []
  }

  predicate AllPlanned(s: State) {
    forall r :: 0 <= r < |s.phases| ==> !s.phases[r].Queued?
  }

  function NextRequest(c: Config, s: State, a: Action): Option<State> {
    match a
    case PlanRequest(req) =>
      if req < |s.phases| && req < |s.plans| && s.phases[req].Queued? then Some(PlanStep(c, s, req)) else None
    case Publish(req) =>
      if req < |s.phases| && s.phases[req].Planned? && |s.log| < |s.order| && s.order[|s.log|] == req then
        Some(s.(phases := s.phases[req := Published], log := s.log + [req]))
      else None
    case Respond(req) =>
      if req < |s.phases| && s.phases[req].Published? then Some(s.(phases := s.phases[req := Responded])) else None
    case LoseResponse(req) => if req < |s.phases| && s.phases[req].Published? then Some(s) else None
    case Replay(req) => if req < |s.phases| && s.phases[req].Responded? then Some(s) else None
    case _ => None
  }

  function Next(c: Config, s: State, a: Action): Option<State> {
    match a
    case Apply => if s.applied < |s.log| then Some(s.(applied := s.applied + 1)) else None
    case ChangePriority => if !s.changed then Some(s.(changed := true)) else None
    case CompleteApplied =>
      if s.applied > 0 && s.completed == [] && AllPlanned(s) && s.log != [] && s.log[0] < |s.plans| then
        Some(s.(completed := s.plans[s.log[0]].selection))
      else None
    case Poll(leased) => if leased == AnyVisible(s) then Some(s) else None
    case _ => NextRequest(c, s, a)
  }

  ghost predicate IsRun(c: Config, states: seq<State>, actions: seq<Action>) {
    && |states| == |actions| + 1 && states[0] == Initial(c)
    && forall i :: 0 <= i < |actions| ==> Next(c, states[i], actions[i]) == Some(states[i + 1])
  }

  // ------------------------------------------------------------ serial execution

  /** One request after another takes the front unit of what is left, or the back one once the priority changed. */
  datatype Serial = Serial(left: seq<seq<nat>>, changed: bool, picks: seq<seq<nat>>)

  function SerialStep(r: Serial, a: Action): Serial {
    if a.ChangePriority? then r.(changed := true)
    else if !a.PlanRequest? then r
    else if r.left == [] then r.(picks := r.picks + [[]])
    else if r.changed then Serial(r.left[..|r.left| - 1], true, r.picks + [r.left[|r.left| - 1]])
    else Serial(r.left[1..], false, r.picks + [r.left[0]])
  }

  function SerialRun(units: seq<seq<nat>>, actions: seq<Action>): Serial {
    if actions == [] then Serial(units, false, [])
    else SerialStep(SerialRun(units, actions[..|actions| - 1]), actions[|actions| - 1])
  }

  /** The unit the `k`-th request gets when the priority changed after `change` requests. */
  function Pick(units: seq<seq<nat>>, change: nat, k: nat): seq<nat> {
    if k >= |units| then [] else if k < change then units[k] else units[|units| - 1 - (k - change)]
  }

  /** After `picked` requests the units left are those from `Low` up to `High`. */
  function Low(n: nat, change: nat): nat {
    if change < n then change else n
  }

  function High(n: nat, change: nat, picked: nat): int {
    if picked >= n then Low(n, change) else n - (picked - change)
  }

  ghost predicate Solves(units: seq<seq<nat>>, r: Serial, change: nat) {
    var n := |units|;
    && change <= |r.picks| && (!r.changed ==> change == |r.picks|)
    && 0 <= Low(n, change) <= High(n, change, |r.picks|) <= n
    && r.left == units[Low(n, change)..High(n, change, |r.picks|)]
    && forall k :: 0 <= k < |r.picks| ==> r.picks[k] == Pick(units, change, k)
  }

  /** The request after `change` takes the unit at one of the two ends of what is left. */
  lemma FrontSolves(units: seq<seq<nat>>, r: Serial, change: nat, req: nat)
    requires Solves(units, r, change) && r.left != [] && !r.changed
    ensures Solves(units, SerialStep(r, PlanRequest(req)), change + 1)
  {
    assert r.left[0] == units[change] && r.left[1..] == units[change + 1..];
  }

  lemma BackSolves(units: seq<seq<nat>>, r: Serial, change: nat, req: nat)
    requires Solves(units, r, change) && r.left != [] && r.changed
    ensures Solves(units, SerialStep(r, PlanRequest(req)), change)
  {
    var high := High(|units|, change, |r.picks|);
    assert r.left[|r.left| - 1] == units[high - 1] && r.left[..|r.left| - 1] == units[change..high - 1];
  }

  lemma SerialStepSolves(units: seq<seq<nat>>, r: Serial, change: nat, a: Action)
    requires Solves(units, r, change)
    ensures Solves(units, SerialStep(r, a), if a.PlanRequest? && !r.changed then change + 1 else change)
  {
    if a.PlanRequest? && r.left != [] {
      if r.changed { BackSolves(units, r, change, a.req); } else { FrontSolves(units, r, change, a.req); }
    }
  }

  /** The serial execution in closed form. */
  lemma {:induction false} SerialSolved(units: seq<seq<nat>>, actions: seq<Action>) returns (change: nat)
    ensures Solves(units, SerialRun(units, actions), change)
  {
    if actions == [] {
      change := 0;
    } else {
      var r := SerialRun(units, actions[..|actions| - 1]);
      change := SerialSolved(units, actions[..|actions| - 1]);
      SerialStepSolves(units, r, change, actions[|actions| - 1]);
      if actions[|actions| - 1].PlanRequest? && !r.changed { change := change + 1; }
    }
  }

  // ---------------------------------------------------------------- reservations

  /** Requests enter the plan order once, and the log is the part of it published so far. */
  ghost predicate OrderInv(c: Config, s: State) {
    && |s.phases| == |s.plans| == c.requests
    && Distinct(s.order) && (forall k :: 0 <= k < |s.order| ==> s.order[k] < c.requests)
    && (forall q: nat :: q < c.requests ==> (s.phases[q].Queued? <==> q !in s.order))
    && s.log <= s.order && s.applied <= |s.log|
    && (forall k :: 0 <= k < |s.order| ==> (s.phases[s.order[k]].Planned? <==> |s.log| <= k))
  }

  /** The plans are the serial picks, in plan order. */
  ghost predicate Follows(c: Config, s: State, r: Serial) {
    && OrderInv(c, s) && |r.picks| == |s.order| && r.changed == s.changed
    && (forall k :: 0 <= k < |s.order| ==>
          s.plans[s.order[k]] == Plan(r.picks[k], Outcomes(r.picks[k]), s.order[k] + 1))
    && (forall q :: 0 <= q < c.requests && s.phases[q].Queued? ==> s.plans[q] == NO_PLAN)
    && (s.completed != [] ==> s.log != [] && s.completed == s.plans[s.log[0]].selection)
  }

  lemma ReservedPicked(c: Config, s: State, r: Serial, item: nat) returns (k: nat)
    requires Follows(c, s, r) && (Reserved(s, item) || item in s.completed)
    ensures k < |r.picks| && item in r.picks[k]
  {
    var q: nat;
    if item in s.completed {
      q := s.log[0];
    } else {
      var p :| 0 <= p < |s.plans| && item in s.plans[p].selection;
      q := p;
    }
    assert !s.phases[q].Queued?;
    var m :| 0 <= m < |s.order| && s.order[m] == q;
    k := m;
  }

  lemma PickedReserved(c: Config, s: State, r: Serial, k: nat, item: nat)
    requires Follows(c, s, r) && k < |r.picks| && item in r.picks[k]
    ensures Reserved(s, item)
  {
    assert item in s.plans[s.order[k]].selection;
  }

  /** Exactly the units between the two ends are free. */
  lemma FreeBetween(c: Config, s: State, r: Serial, change: nat, m: nat)
    requires WellFormed(c) && Follows(c, s, r) && Solves(c.units, r, change) && m < |c.units|
    ensures Free(s, c.units[m]) <==> Low(|c.units|, change) <= m < High(|c.units|, change, |r.picks|)
  {
    var n, unit := |c.units|, c.units[m];
    if m < Low(n, change) {
      assert r.picks[m] == unit;
      PickedReserved(c, s, r, m, unit[0]);
    } else if m >= High(n, change, |r.picks|) {
      var k := change + (n - 1 - m);
      assert r.picks[k] == Pick(c.units, change, k) == unit;
      PickedReserved(c, s, r, k, unit[0]);
    } else {
      forall j | 0 <= j < |unit|
        ensures !Reserved(s, unit[j]) && unit[j] !in s.completed
      {
        if Reserved(s, unit[j]) || unit[j] in s.completed {
          var k := ReservedPicked(c, s, r, unit[j]);
          PickApart(c, change, k, m, unit[j]);
        }
      }
    }
  }

  lemma PickApart(c: Config, change: nat, k: nat, m: nat, item: nat)
    requires WellFormed(c) && m < |c.units| && item in c.units[m] && item in Pick(c.units, change, k)
    ensures k < |c.units| && m == if k < change then k else |c.units| - 1 - (k - change)
  {
    var other := if k < change then k else |c.units| - 1 - (k - change);
    assert item in c.units[other];
    assert Shares(c.units[m], c.units[other]) && Shares(c.units[other], c.units[m]);
  }

  lemma {:induction false} FreeIsSlice(s: State, units: seq<seq<nat>>, low: nat, high: nat, m: nat)
    requires low <= high <= |units| && m <= |units|
    requires forall j :: 0 <= j < |units| ==> (Free(s, units[j]) <==> low <= j < high)
    ensures FreeUnits(s, units[..m]) == if m <= low then [] else units[low..(if m < high then m else high)]
  {
    if m > 0 {
      FreeIsSlice(s, units, low, high, m - 1);
      assert units[..m][..m - 1] == units[..m - 1];
      assert Free(s, units[m - 1]) <==> low <= m - 1 < high;
    }
  }

  /** What the reservations leave free is what the serial execution has left. */
  lemma FreeIsLeft(c: Config, s: State, r: Serial, change: nat)
    requires WellFormed(c) && Follows(c, s, r) && Solves(c.units, r, change)
    ensures FreeUnits(s, c.units) == r.left
  {
    var n := |c.units|;
    forall m | 0 <= m < n
      ensures Free(s, c.units[m]) <==> Low(n, change) <= m < High(n, change, |r.picks|)
    {
      FreeBetween(c, s, r, change, m);
    }
    FreeIsSlice(s, c.units, Low(n, change), High(n, change, |r.picks|), n);
    assert c.units[..n] == c.units;
  }

  /** The state once `req` is planned with `pick`. */
  ghost function Entered(s: State, req: nat, pick: seq<nat>): State
    requires req < |s.phases| && req < |s.plans|
  {
    s.(phases := s.phases[req := Planned], plans := s.plans[req := Plan(pick, Outcomes(pick), req + 1)],
       order := s.order + [req])
  }

  lemma EnteredOrder(c: Config, s: State, req: nat, pick: seq<nat>)
    requires OrderInv(c, s) && req < c.requests && s.phases[req].Queued?
    ensures OrderInv(c, Entered(s, req, pick))
  {
    var t := Entered(s, req, pick);
    assert forall k :: 0 <= k < |s.order| ==> t.order[k] == s.order[k] && s.order[k] != req;
    assert t.order[|s.order|] == req;
    assert forall q :: q in t.order <==> q in s.order || q == req;
    assert s.log <= t.order;
  }

  lemma EnteredFollows(c: Config, s: State, r: Serial, req: nat, u: Serial, pick: seq<nat>)
    requires Follows(c, s, r) && req < c.requests && s.phases[req].Queued?
    requires u.picks == r.picks + [pick] && u.changed == r.changed
    ensures Follows(c, Entered(s, req, pick), u)
  {
    var t := Entered(s, req, pick);
    EnteredOrder(c, s, req, pick);
    forall k | 0 <= k < |t.order|
      ensures t.plans[t.order[k]] == Plan(u.picks[k], Outcomes(u.picks[k]), t.order[k] + 1)
    {
      if k < |s.order| {
        assert t.order[k] == s.order[k] && s.order[k] in s.order && s.order[k] != req;
      }
    }
    if s.completed != [] {
      assert s.log[0] == s.order[0] && s.order[0] in s.order;
    }
  }

  lemma PlanFollows(c: Config, s: State, r: Serial, change: nat, req: nat)
    requires WellFormed(c) && Follows(c, s, r) && Solves(c.units, r, change) && req < c.requests
    requires s.phases[req].Queued?
    ensures Follows(c, PlanStep(c, s, req), SerialStep(r, PlanRequest(req)))
  {
    FreeIsLeft(c, s, r, change);
    var pick := if r.left == [] then [] else if s.changed then r.left[|r.left| - 1] else r.left[0];
    EnteredFollows(c, s, r, req, SerialStep(r, PlanRequest(req)), pick);
  }

  lemma PublishFollows(c: Config, s: State, r: Serial, req: nat)
    requires Follows(c, s, r) && Next(c, s, Publish(req)).Some?
    ensures Follows(c, Next(c, s, Publish(req)).value, r)
  {
    var t := Next(c, s, Publish(req)).value;
    assert s.order[|s.log|] == req;
    assert t.log == s.order[..|s.log| + 1];
  }

  lemma CompleteFollows(c: Config, s: State, r: Serial)
    requires Follows(c, s, r) && Next(c, s, CompleteApplied).Some?
    ensures Follows(c, Next(c, s, CompleteApplied).value, r)
  {
  }

  /** The other actions leave the plans, their order and the log as they are. */
  lemma OtherFollows(c: Config, s: State, r: Serial, a: Action)
    requires Follows(c, s, r) && Next(c, s, a).Some? && !a.PlanRequest? && !a.Publish? && !a.CompleteApplied?
    ensures Follows(c, Next(c, s, a).value, SerialStep(r, a))
  {
  }

  lemma StepFollows(c: Config, s: State, r: Serial, change: nat, a: Action)
    requires WellFormed(c) && Follows(c, s, r) && Solves(c.units, r, change) && Next(c, s, a).Some?
    ensures Follows(c, Next(c, s, a).value, SerialStep(r, a))
  {
    if a.PlanRequest? {
      PlanFollows(c, s, r, change, a.req);
    } else if a.Publish? {
      PublishFollows(c, s, r, a.req);
    } else if a.CompleteApplied? {
      CompleteFollows(c, s, r);
    } else {
      OtherFollows(c, s, r, a);
    }
  }

  /** The planning, publishing and completing of every run is the serial execution of its plan order. */
  lemma {:induction false} PlansAreSerial(c: Config, states: seq<State>, actions: seq<Action>, i: nat)
    requires WellFormed(c) && IsRun(c, states, actions) && i < |states|
    ensures Follows(c, states[i], SerialRun(c.units, actions[..i]))
  {
    if i == 0 {
      assert actions[..0] == [];
    } else {
      PlansAreSerial(c, states, actions, i - 1);
      var change := SerialSolved(c.units, actions[..i - 1]);
      assert Next(c, states[i - 1], actions[i - 1]) == Some(states[i]);
      StepFollows(c, states[i - 1], SerialRun(c.units, actions[..i - 1]), change, actions[i - 1]);
      assert actions[..i][..i - 1] == actions[..i - 1];
    }
  }

  // -------------------------------------------------------------------- findings

  /** Selections are disjoint whole units, in the closed form of the serial execution. */
  lemma SelectionsAreUnits(c: Config, states: seq<State>, actions: seq<Action>, i: nat) returns (change: nat)
    requires WellFormed(c) && IsRun(c, states, actions) && i < |states|
    ensures OrderInv(c, states[i])
    ensures change <= |states[i].order| && (!states[i].changed ==> change == |states[i].order|)
    ensures forall k :: 0 <= k < |states[i].order| ==>
              states[i].plans[states[i].order[k]].selection == Pick(c.units, change, k)
    ensures forall q, p :: 0 <= q < c.requests && 0 <= p < c.requests && q != p ==>
              !Shares(states[i].plans[q].selection, states[i].plans[p].selection)
  {
    PlansAreSerial(c, states, actions, i);
    var r := SerialRun(c.units, actions[..i]);
    change := SerialSolved(c.units, actions[..i]);
    forall q, p | 0 <= q < c.requests && 0 <= p < c.requests && q != p
      ensures !Shares(states[i].plans[q].selection, states[i].plans[p].selection)
    {
      PlansApart(c, states[i], r, change, q, p);
    }
  }

  lemma PicksApart(c: Config, change: nat, k: nat, l: nat)
    requires WellFormed(c) && k != l
    ensures !Shares(Pick(c.units, change, k), Pick(c.units, change, l))
  {
    var n := |c.units|;
    if k < n && l < n {
      var x, y := if k < change then k else n - 1 - (k - change), if l < change then l else n - 1 - (l - change);
      assert Shares(c.units[x], c.units[y]) <==> Shares(c.units[y], c.units[x]);
      assert !Shares(c.units[if x < y then x else y], c.units[if x < y then y else x]);
    }
  }

  lemma PlansApart(c: Config, s: State, r: Serial, change: nat, q: nat, p: nat)
    requires WellFormed(c) && Follows(c, s, r) && Solves(c.units, r, change) && q < c.requests && p < c.requests
    requires q != p
    ensures !Shares(s.plans[q].selection, s.plans[p].selection)
  {
    if !s.phases[q].Queued? && !s.phases[p].Queued? {
      var k :| 0 <= k < |s.order| && s.order[k] == q;
      var l :| 0 <= l < |s.order| && s.order[l] == p;
      PicksApart(c, change, k, l);
    }
  }

  datatype Fault = BatchBroken | PrefixBroken

  /** Every item selected or completed so far. */
  ghost function Used(b: State): set<nat> {
    (set r, i | 0 <= r < |b.plans| && i in b.plans[r].selection :: i) + (set i | i in b.completed)
  }

  ghost function Unused(used: set<nat>, units: seq<seq<nat>>): seq<seq<nat>> {
    if units == [] then []
    else (if exists i :: i in units[0] && i in used then [] else [units[0]]) + Unused(used, units[1..])
  }

  /** The unit a plan must select, derived from the used items alone. */
  ghost function ExpectedSelection(c: Config, b: State): seq<nat> {
    var unused := Unused(Used(b), c.units);
    if unused == [] then [] else if b.changed then unused[|unused| - 1] else unused[0]
  }

  lemma FreeIsUnused(s: State, unit: seq<nat>)
    ensures Free(s, unit) <==> !exists i :: i in unit && i in Used(s)
  {
    forall i
      ensures i in Used(s) <==> Reserved(s, i) || i in s.completed
    {
    }
    if Free(s, unit) {
      forall i | i in unit
        ensures i !in Used(s)
      {
        var k :| 0 <= k < |unit| && unit[k] == i;
      }
    }
  }

  lemma {:induction false} UnusedSnoc(used: set<nat>, units: seq<seq<nat>>, unit: seq<nat>)
    ensures Unused(used, units + [unit]) == Unused(used, units)
        + (if exists i :: i in unit && i in used then [] else [unit])
  {
    if units != [] {
      UnusedSnoc(used, units[1..], unit);
      assert (units + [unit])[1..] == units[1..] + [unit];
    }
  }

  lemma {:induction false} FreeUnitsAreUnused(s: State, units: seq<seq<nat>>)
    ensures FreeUnits(s, units) == Unused(Used(s), units)
  {
    if units != [] {
      var init, last := units[..|units| - 1], units[|units| - 1];
      FreeUnitsAreUnused(s, init);
      UnusedSnoc(Used(s), init, last);
      FreeIsUnused(s, last);
      assert units == init + [last];
    }
  }

  /** The property checked on every explored edge. */
  ghost function Violation(c: Config, b: State, a: Action, s: State): Option<Fault> {
    if exists q, p :: 0 <= q < p < |s.plans| && Shares(s.plans[q].selection, s.plans[p].selection) then
      Some(BatchBroken)
    else if exists q :: 0 <= q < |s.plans| && !Distinct(s.plans[q].selection) then Some(BatchBroken)
    else if AllPlanned(s) && exists q, p :: 0 <= q < p < |s.plans| && s.plans[q].token == s.plans[p].token then
      Some(BatchBroken)
    else if exists q :: 0 <= q < |s.plans| && s.plans[q].selection != [] && s.plans[q].selection !in c.units then
      Some(BatchBroken)
    else if a.PlanRequest? && !(a.req < |s.plans| && s.plans[a.req].selection == ExpectedSelection(c, b)
                                && s.plans[a.req].outcomes == Outcomes(ExpectedSelection(c, b))) then Some(BatchBroken)
    else if s.applied > |s.log| then Some(PrefixBroken)
    else None
  }

  lemma PlanIsUnit(c: Config, s: State, r: Serial, change: nat, q: nat)
    requires WellFormed(c) && Follows(c, s, r) && Solves(c.units, r, change) && q < c.requests
    ensures s.plans[q].selection == [] || s.plans[q].selection in c.units
    ensures Distinct(s.plans[q].selection)
    ensures !s.phases[q].Queued? ==> s.plans[q].token == q + 1
  {
    if !s.phases[q].Queued? {
      var k :| 0 <= k < |s.order| && s.order[k] == q;
      assert s.plans[q].selection == Pick(c.units, change, k);
    }
  }

  /** Disjoint whole units, and a token of its own for every planned request. */
  ghost predicate PlansSound(c: Config, s: State) {
    && |s.plans| == |s.phases| && s.applied <= |s.log|
    && (forall q, p :: 0 <= q < p < |s.plans| ==> !Shares(s.plans[q].selection, s.plans[p].selection))
    && (forall q :: 0 <= q < |s.plans| ==>
          Distinct(s.plans[q].selection) && (s.plans[q].selection == [] || s.plans[q].selection in c.units))
    && (forall q :: 0 <= q < |s.plans| && !s.phases[q].Queued? ==> s.plans[q].token == q + 1)
  }

  lemma SerialPlansSound(c: Config, s: State, r: Serial, change: nat)
    requires WellFormed(c) && Follows(c, s, r) && Solves(c.units, r, change)
    ensures PlansSound(c, s)
  {
    forall q | 0 <= q < c.requests
      ensures Distinct(s.plans[q].selection) && (s.plans[q].selection == [] || s.plans[q].selection in c.units)
      ensures !s.phases[q].Queued? ==> s.plans[q].token == q + 1
    {
      PlanIsUnit(c, s, r, change, q);
    }
    forall q, p | 0 <= q < p < c.requests
      ensures !Shares(s.plans[q].selection, s.plans[p].selection)
    {
      PlansApart(c, s, r, change, q, p);
    }
  }

  /** The planned selection is the one derived from the used items. */
  lemma PlanAsExpected(c: Config, b: State, a: Action, s: State)
    requires Next(c, b, a) == Some(s) && a.PlanRequest?
    ensures a.req < |s.plans| && s.plans[a.req].selection == ExpectedSelection(c, b)
    ensures s.plans[a.req].outcomes == Outcomes(ExpectedSelection(c, b))
  {
    FreeUnitsAreUnused(b, c.units);
  }

  lemma SoundIsQuiet(c: Config, b: State, a: Action, s: State)
    requires PlansSound(c, s)
    requires a.PlanRequest? ==> a.req < |s.plans| && s.plans[a.req].selection == ExpectedSelection(c, b)
    requires a.PlanRequest? ==> s.plans[a.req].outcomes == Outcomes(ExpectedSelection(c, b))
    ensures Violation(c, b, a, s) == None
  {
  }

  /** No reachable edge overlaps selections, splits a unit, shares a token or strays from the reference. */
  lemma NoRunViolates(c: Config, states: seq<State>, actions: seq<Action>, i: nat)
    requires WellFormed(c) && IsRun(c, states, actions) && i < |actions|
    ensures Violation(c, states[i], actions[i], states[i + 1]) == None
  {
    PlansAreSerial(c, states, actions, i + 1);
    var change := SerialSolved(c.units, actions[..i + 1]);
    SerialPlansSound(c, states[i + 1], SerialRun(c.units, actions[..i + 1]), change);
    assert Next(c, states[i], actions[i]) == Some(states[i + 1]);
    if actions[i].PlanRequest? {
      PlanAsExpected(c, states[i], actions[i], states[i + 1]);
    }
    SoundIsQuiet(c, states[i], actions[i], states[i + 1]);
  }

  /** Every published request was planned before those published after it; a planned one can always be reached. */
  lemma LogFollowsOrder(c: Config, states: seq<State>, actions: seq<Action>, i: nat)
    requires WellFormed(c) && IsRun(c, states, actions) && i < |states|
    ensures states[i].log <= states[i].order && Distinct(states[i].order) && states[i].applied <= |states[i].log|
    ensures (exists q :: 0 <= q < |states[i].phases| && states[i].phases[q].Planned?) ==>
              |states[i].log| < |states[i].order| && Next(c, states[i], Publish(states[i].order[|states[i].log|])).Some?
  {
    PlansAreSerial(c, states, actions, i);
    var s := states[i];
    if q :| 0 <= q < |s.phases| && s.phases[q].Planned? {
      assert !s.phases[q].Queued?;
      var k :| 0 <= k < |s.order| && s.order[k] == q;
      assert s.phases[s.order[|s.log|]].Planned?;
    }
  }
}
