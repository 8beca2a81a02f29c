/**
 * One leased item, request receipts with limited retention, and deduplicating item keys, in any number of
 * scopes with any number of requests each. Time, lease generations and bodies are unbounded.
 */
module Lifecycle {
  import opened Options

  const RECEIPT_RETENTION := 2
  const KEY_RETENTION := 3

  datatype Config = Config(scopes: nat, requests: nat)

  /** The item's lease: `receipt` is what the current token was told when it was claimed. */
  datatype Lease = Lease(token: nat, expiry: nat, completed: bool, receipt: (nat, nat), history: seq<nat>)

  /** Receipts of all scopes, one row of `requests` entries for each scope in turn. */
  datatype Ledger = Ledger(bodies: seq<Option<nat>>, deadlines: seq<nat>)

  /** The items created under each scope's key. */
  datatype Keys = Keys(items: seq<seq<nat>>, deadlines: seq<nat>)

  datatype State = State(now: nat, lease: Lease, ledger: Ledger, keys: Keys)

  datatype Action =
    | Tick | Claim | Finalize(offered: nat) | Renew(offered: nat) | RejectToken(offered: nat)
    | ReplayClaim(active: bool) | ReplayOldClaim(original: nat, active: bool)
    | Push(scope: nat, req: nat, body: nat) | ReplayPush(scope: nat, req: nat, body: nat)
    | Conflict(scope: nat, req: nat, body: nat)

  /** Where a scope's row starts, counted row by row. */
  function RowStart(c: Config, scope: nat): nat {
    if scope == 0 then 0 else RowStart(c, scope - 1) + c.requests
  }

  lemma {:induction false} RowStartIsProduct(c: Config, scope: nat)
    ensures RowStart(c, scope) == scope * c.requests
  {
    if scope > 0 {
      RowStartIsProduct(c, scope - 1);
      assert scope * c.requests == (scope - 1) * c.requests + c.requests;
    }
  }

  /** Rows follow one another without overlap. */
  lemma {:induction false} RowsInOrder(c: Config, scope: nat, other: nat)
    requires scope < other
    ensures RowStart(c, scope) + c.requests <= RowStart(c, other)
  {
    if scope < other - 1 { RowsInOrder(c, scope, other - 1); }
  }

  function Initial(c: Config): State {
    State(0, Lease(0, 0, false, (0, 0), []),
          Ledger(seq(RowStart(c, c.scopes), _ => None), seq(RowStart(c, c.scopes), _ => 0)),
          Keys(seq(c.scopes, _ => []), seq(c.scopes, _ => 0)))
  }

  // ----------------------------------------------------------------------- steps

  /** The offered token is the current one, unexpired and not yet completed. */
  predicate Holds(now: nat, l: Lease, offered: nat) {
    offered == l.token && now < l.expiry && !l.completed
  }

  function NextLease(now: nat, l: Lease, a: Action): Option<Lease> {
    match a
    case Claim =>
      if !l.completed && (l.token == 0 || l.expiry <= now) then
        var token := l.token + 1;
        Some(l.(token := token, expiry := now + 1, receipt := (token, now + 1), history := l.history + [token]))
      else None
    case Finalize(offered) => if l.token != 0 && Holds(now, l, offered) then Some(l.(completed := true)) else None
    case Renew(offered) => if l.token != 0 && Holds(now, l, offered) then Some(l.(expiry := l.expiry + 1)) else None
    case RejectToken(offered) => if l.token != 0 && offered != 0 && !Holds(now, l, offered) then Some(l) else None
    case ReplayClaim(active) => if l.token != 0 && active == (now < l.expiry && !l.completed) then Some(l) else None
    case ReplayOldClaim(original, active) =>
      if original in l.history && original != l.token && !active then Some(l)
      else None
    case _ => None
  }

  predicate Retained(s: State, pos: nat)
    requires pos < |s.ledger.bodies| && pos < |s.ledger.deadlines|
  {
    s.ledger.bodies[pos].Some? && s.now < s.ledger.deadlines[pos]
  }

  predicate KeyRetained(s: State, scope: nat)
    requires scope < |s.keys.items| && scope < |s.keys.deadlines|
  {
    s.keys.items[scope] != [] && s.now < s.keys.deadlines[scope]
  }

  function Position(c: Config, scope: nat, req: nat): nat {
    RowStart(c, scope) + req
  }

  predicate Fits(c: Config, s: State) {
    && |s.ledger.bodies| == |s.ledger.deadlines| == RowStart(c, c.scopes)
    && |s.keys.items| == |s.keys.deadlines| == c.scopes
  }

  lemma PositionFits(c: Config, scope: nat, req: nat)
    requires scope < c.scopes && req < c.requests
    ensures Position(c, scope, req) < RowStart(c, c.scopes)
    ensures Position(c, scope, req) == scope * c.requests + req
  {
    RowsInOrder(c, scope, c.scopes);
    RowStartIsProduct(c, scope);
  }

  function PushStep(s: State, pos: nat, scope: nat, body: nat): State
    requires pos < |s.ledger.bodies| && pos < |s.ledger.deadlines|
    requires scope < |s.keys.items| && scope < |s.keys.deadlines|
  {
    State(s.now, s.lease,
          Ledger(s.ledger.bodies[pos := Some(body)], s.ledger.deadlines[pos := s.now + RECEIPT_RETENTION]),
          if KeyRetained(s, scope) then s.keys
          else Keys(s.keys.items[scope := s.keys.items[scope] + [|s.keys.items[scope]| + 1]],
                    s.keys.deadlines[scope := s.now + KEY_RETENTION]))
  }

  function NextPush(c: Config, s: State, a: Action): (r: Option<State>)
    requires Fits(c, s)
    ensures r.Some? ==> Fits(c, r.value)
  {
    if (a.Push? || a.ReplayPush? || a.Conflict?) && a.scope < c.scopes && a.req < c.requests then
      PositionFits(c, a.scope, a.req);
      var pos := Position(c, a.scope, a.req);
      if Retained(s, pos) then
        if s.ledger.bodies[pos] != Some(a.body) then (if a.Conflict? then Some(s) else None)
        else (if a.ReplayPush? then Some(s) else None)
      else (if a.Push? then Some(PushStep(s, pos, a.scope, a.body)) else None)
    else None
  }

  predicate Pushes(a: Action) {
    a.Push? || a.ReplayPush? || a.Conflict?
  }

  function Next(c: Config, s: State, a: Action): (r: Option<State>)
    requires Fits(c, s)
    ensures r.Some? ==> Fits(c, r.value)
  {
    if a.Tick? then Some(s.(now := s.now + 1))
    else if Pushes(a) then NextPush(c, s, a)
    else
      var l := NextLease(s.now, s.lease, a);
      if l.Some? then Some(s.(lease := l.value)) else None
  }

  ghost predicate IsRun(c: Config, states: seq<State>, actions: seq<Action>) {
    && |states| == |actions| + 1 && states[0] == Initial(c)
    && (forall i :: 0 <= i < |states| ==> Fits(c, states[i]))
    && forall i :: 0 <= i < |actions| ==> Next(c, states[i], actions[i]) == Some(states[i + 1])
  }

  // ------------------------------------------------------------------- violation

  datatype Fault = LeaseBroken | ReplayBroken | KeyBroken

  predicate LeaseFault(b: State, a: Action) {
    (a.Finalize? || a.Renew?) && (a.offered != b.lease.token || b.now >= b.lease.expiry || b.lease.completed)
  }

  predicate PushFault(c: Config, b: State, a: Action, s: State)
    requires Fits(c, b) && Fits(c, s)
  {
    Pushes(a) && a.scope < c.scopes && a.req < c.requests &&
    (PositionFits(c, a.scope, a.req);
     var pos := Position(c, a.scope, a.req);
     if a.Push? then Retained(b, pos) && (b.ledger.bodies[pos] != Some(a.body) || s.keys.items != b.keys.items)
     else !Retained(b, pos) || (a.ReplayPush? != (b.ledger.bodies[pos] == Some(a.body))))
  }

  predicate ClaimFault(b: State, a: Action, s: State) {
    || (a.ReplayOldClaim? && (a.active != Holds(b.now, b.lease, a.original)))
    || (a.ReplayClaim? && a.active && !(s.lease.receipt.0 == s.lease.token && s.now < s.lease.expiry))
  }

  /** The property checked on every explored edge. */
  ghost function Violation(c: Config, b: State, a: Action, s: State): Option<Fault>
    requires Fits(c, b) && Fits(c, s)
  {
    if LeaseFault(b, a) then Some(LeaseBroken)
    else if PushFault(c, b, a, s) then Some(ReplayBroken)
    else if exists k: nat :: k < c.scopes && KeyRetained(b, k) && s.keys.items[k] != b.keys.items[k] then
      Some(KeyBroken)
    else if ClaimFault(b, a, s) then Some(ReplayBroken)
    else None
  }

  // ------------------------------------------------------------------- invariant

  /** The current token is the last one claimed, and its receipt says when. */
  ghost predicate LeaseInv(now: nat, l: Lease) {
    && |l.history| == l.token && (forall k :: 0 <= k < l.token ==> l.history[k] == k + 1)
    && (l.token == 0 ==> !l.completed)
    && (l.token != 0 ==> l.receipt.0 == l.token && 0 < l.receipt.1 <= l.expiry && l.receipt.1 <= now + 1)
  }

  /** Items are numbered from one, and each further one was created a whole key retention after the one before. */
  ghost predicate KeysInv(now: nat, items: seq<nat>, deadline: nat) {
    && (forall k :: 0 <= k < |items| ==> items[k] == k + 1)
    && (items != [] ==> KEY_RETENTION * |items| <= deadline <= now + KEY_RETENTION)
  }

  ghost predicate Inv(c: Config, s: State) {
    && Fits(c, s) && LeaseInv(s.now, s.lease)
    && forall k :: 0 <= k < c.scopes ==> KeysInv(s.now, s.keys.items[k], s.keys.deadlines[k])
  }

  lemma LeaseStep(now: nat, l: Lease, a: Action)
    requires LeaseInv(now, l) && NextLease(now, l, a).Some?
    ensures LeaseInv(now, NextLease(now, l, a).value)
  {
  }

  lemma StepKeepsInv(c: Config, s: State, a: Action)
    requires Inv(c, s) && Next(c, s, a).Some?
    ensures Inv(c, Next(c, s, a).value)
  {
    if !a.Tick? && !Pushes(a) { LeaseStep(s.now, s.lease, a); }
  }

  lemma {:induction false} RunKeepsInv(c: Config, states: seq<State>, actions: seq<Action>, i: nat)
    requires IsRun(c, states, actions) && i < |states|
    ensures Inv(c, states[i])
  {
    if i > 0 {
      RunKeepsInv(c, states, actions, i - 1);
      assert Next(c, states[i - 1], actions[i - 1]) == Some(states[i]);
      StepKeepsInv(c, states[i - 1], actions[i - 1]);
    }
  }

  lemma StepIsSound(c: Config, s: State, a: Action)
    requires Inv(c, s) && Next(c, s, a).Some?
    ensures Violation(c, s, a, Next(c, s, a).value) == None
  {
    var t := Next(c, s, a).value;
    StepKeepsInv(c, s, a);
    assert !ClaimFault(s, a, t);
  }

  /** No reachable edge breaks a lease, a receipt's replay or a key's deduplication. */
  lemma NoRunViolates(c: Config, states: seq<State>, actions: seq<Action>, i: nat)
    requires IsRun(c, states, actions) && i < |actions|
    ensures Violation(c, states[i], actions[i], states[i + 1]) == None
  {
    RunKeepsInv(c, states, actions, i);
    assert Next(c, states[i], actions[i]) == Some(states[i + 1]);
    StepIsSound(c, states[i], actions[i]);
  }

  // ---------------------------------------------------------------------- leases

  /** The time from which the current token holds the item. */
  function ClaimTime(l: Lease): int {
    l.receipt.1 - 1
  }

  /** Time `x` lies in the interval the current token holds, as far as it has been extended. */
  predicate Covers(l: Lease, x: int) {
    l.token != 0 && ClaimTime(l) <= x < l.expiry
  }

  /** Either the same token holds on, or a later one took over after the earlier one's expiry. */
  ghost predicate Succeeds(l: Lease, m: Lease) {
    if m.token == l.token then m.receipt == l.receipt && l.expiry <= m.expiry && (l.completed ==> m.completed)
    else l.token < m.token && !l.completed && (l.token != 0 ==> l.expiry <= ClaimTime(m))
  }

  ghost predicate Chained(states: seq<State>) {
    && (forall i :: 0 <= i < |states| ==> LeaseInv(states[i].now, states[i].lease))
    && (forall i :: 0 <= i < |states| - 1 ==> Succeeds(states[i].lease, states[i + 1].lease))
  }

  lemma RunIsChained(c: Config, states: seq<State>, actions: seq<Action>)
    requires IsRun(c, states, actions)
    ensures Chained(states)
  {
    forall i | 0 <= i < |states|
      ensures Inv(c, states[i])
    {
      RunKeepsInv(c, states, actions, i);
    }
    forall i | 0 <= i < |states| - 1
      ensures Succeeds(states[i].lease, states[i + 1].lease)
    {
      assert Next(c, states[i], actions[i]) == Some(states[i + 1]);
    }
  }

  lemma {:induction false} ChainSucceeds(states: seq<State>, i: nat, j: nat)
    requires Chained(states) && i <= j < |states|
    ensures Succeeds(states[i].lease, states[j].lease)
    decreases j
  {
    if i < j {
      ChainSucceeds(states, i, j - 1);
      assert Succeeds(states[j - 1].lease, states[j - 1 + 1].lease);
    }
  }

  /** The intervals held by different tokens, with all their renewals, never share a moment. */
  lemma LeasesDisjoint(c: Config, states: seq<State>, actions: seq<Action>, i: nat, j: nat, x: int)
    requires IsRun(c, states, actions) && i < |states| && j < |states|
    requires Covers(states[i].lease, x) && Covers(states[j].lease, x)
    ensures states[i].lease.token == states[j].lease.token && states[i].lease.receipt == states[j].lease.receipt
  {
    RunIsChained(c, states, actions);
    if i <= j {
      ChainSucceeds(states, i, j);
    } else {
      ChainSucceeds(states, j, i);
    }
  }

  /** The item is completed at most once, by the token that holds it at that moment. */
  lemma CompletedOnce(c: Config, states: seq<State>, actions: seq<Action>, i: nat, j: nat)
    requires IsRun(c, states, actions) && i < |actions| && j < |actions| && actions[i].Finalize? && actions[j].Finalize?
    ensures i == j
    ensures actions[i].offered == states[i].lease.token && Covers(states[i].lease, states[i].now)
  {
    var first, second := if i <= j then i else j, if i <= j then j else i;
    assert Next(c, states[first], actions[first]) == Some(states[first + 1]);
    assert Next(c, states[second], actions[second]) == Some(states[second + 1]);
    RunKeepsInv(c, states, actions, i);
    if first < second {
      RunIsChained(c, states, actions);
      ChainSucceeds(states, first + 1, second);
    }
  }

  // ------------------------------------------------------------------------ keys

  /** Under one key, at most one item per whole retention elapsed, and one more. */
  lemma ItemsBounded(c: Config, states: seq<State>, actions: seq<Action>, i: nat, scope: nat)
    requires IsRun(c, states, actions) && i < |states| && scope < c.scopes
    ensures |states[i].keys.items[scope]| <= states[i].now / KEY_RETENTION + 1
    ensures forall k :: 0 <= k < |states[i].keys.items[scope]| ==> states[i].keys.items[scope][k] == k + 1
  {
    RunKeepsInv(c, states, actions, i);
    assert KeysInv(states[i].now, states[i].keys.items[scope], states[i].keys.deadlines[scope]);
  }

  /** What is retained at one moment stays as it is for as long as its retention lasts. */
  ghost predicate Keeps(c: Config, s: State, t: State)
    requires Fits(c, s) && Fits(c, t)
  {
    && s.now <= t.now
    && (forall p :: 0 <= p < |s.ledger.bodies| && s.ledger.bodies[p].Some? && t.now < s.ledger.deadlines[p] ==>
          t.ledger.bodies[p] == s.ledger.bodies[p] && t.ledger.deadlines[p] == s.ledger.deadlines[p])
    && (forall k :: 0 <= k < c.scopes && s.keys.items[k] != [] && t.now < s.keys.deadlines[k] ==>
          t.keys.items[k] == s.keys.items[k] && t.keys.deadlines[k] == s.keys.deadlines[k])
  }

  lemma StepKeeps(c: Config, s: State, a: Action)
    requires Fits(c, s) && Next(c, s, a).Some?
    ensures Keeps(c, s, Next(c, s, a).value)
  {
  }

  /** A retained receipt keeps its body, and a retained key creates no further item, until the deadline passes. */
  lemma {:induction false} RetainedStays(c: Config, states: seq<State>, actions: seq<Action>, i: nat, j: nat)
    requires IsRun(c, states, actions) && i <= j < |states|
    ensures Keeps(c, states[i], states[j])
    decreases j
  {
    if i < j {
      RetainedStays(c, states, actions, i, j - 1);
      assert Next(c, states[j - 1], actions[j - 1]) == Some(states[j]);
      StepKeeps(c, states[j - 1], actions[j - 1]);
    }
  }

  // ---------------------------------------------------------------------- scopes

  function Alone(c: Config): Config {
    Config(1, c.requests)
  }

  lemma AloneRow(c: Config)
    ensures RowStart(Alone(c), 0) == 0 && RowStart(Alone(c), 1) == c.requests
  {
  }

  /** The same system as one scope alone sees it. */
  function View(c: Config, s: State, scope: nat): (v: State)
    requires Fits(c, s) && scope < c.scopes
    ensures Fits(Alone(c), v)
  {
    AloneRow(c);
    RowsInOrder(c, scope, c.scopes);
    var from := RowStart(c, scope);
    State(s.now, s.lease,
          Ledger(s.ledger.bodies[from..from + c.requests], s.ledger.deadlines[from..from + c.requests]),
          Keys([s.keys.items[scope]], [s.keys.deadlines[scope]]))
  }

  predicate Concerns(a: Action, scope: nat) {
    Pushes(a) ==> a.scope == scope
  }

  function Localised(a: Action): Action {
    if Pushes(a) then a.(scope := 0) else a
  }

  /** The actions that concern one scope, seen from inside it. */
  function Seen(actions: seq<Action>, scope: nat): seq<Action> {
    if actions == [] then []
    else
      var last := actions[|actions| - 1];
      Seen(actions[..|actions| - 1], scope) + (if Concerns(last, scope) then [Localised(last)] else [])
  }

  lemma PushProjects(c: Config, s: State, scope: nat, req: nat, body: nat)
    requires Fits(c, s) && scope < c.scopes && req < c.requests
    ensures Position(c, scope, req) < |s.ledger.bodies|
    ensures var t := PushStep(s, Position(c, scope, req), scope, body);
            Fits(c, t) && View(c, t, scope) == PushStep(View(c, s, scope), req, 0, body)
  {
    RowsInOrder(c, scope, c.scopes);
    var t, u := PushStep(s, Position(c, scope, req), scope, body), PushStep(View(c, s, scope), req, 0, body);
    assert View(c, t, scope).ledger.bodies == u.ledger.bodies;
    assert View(c, t, scope).ledger.deadlines == u.ledger.deadlines;
    assert View(c, t, scope).keys == u.keys;
  }

  lemma InnerProjects(c: Config, s: State, a: Action, scope: nat)
    requires Fits(c, s) && scope < c.scopes && Pushes(a) && a.scope == scope
    ensures Next(c, s, a).Some? <==> Next(Alone(c), View(c, s, scope), Localised(a)).Some?
    ensures Next(c, s, a).Some? ==>
        Next(Alone(c), View(c, s, scope), Localised(a)) == Some(View(c, Next(c, s, a).value, scope))
  {
    RowsInOrder(c, scope, c.scopes);
    if a.req < c.requests {
      PositionFits(c, scope, a.req);
      var v, pos := View(c, s, scope), Position(c, scope, a.req);
      AloneRow(c);
      assert Position(Alone(c), 0, a.req) == a.req;
      assert v.ledger.bodies[a.req] == s.ledger.bodies[pos] && v.ledger.deadlines[a.req] == s.ledger.deadlines[pos];
      PushProjects(c, s, scope, a.req, a.body);
    }
  }

  lemma OuterProjects(c: Config, s: State, a: Action, scope: nat)
    requires Fits(c, s) && scope < c.scopes && Pushes(a) && a.scope != scope && Next(c, s, a).Some?
    ensures View(c, Next(c, s, a).value, scope) == View(c, s, scope)
  {
    RowsInOrder(c, scope, c.scopes);
    if a.scope < scope { RowsInOrder(c, a.scope, scope); } else { RowsInOrder(c, scope, a.scope); }
    var t := Next(c, s, a).value;
    assert View(c, t, scope).ledger == View(c, s, scope).ledger;
  }

  lemma StepProjects(c: Config, s: State, a: Action, scope: nat)
    requires Fits(c, s) && scope < c.scopes
    ensures Concerns(a, scope) ==> (Next(c, s, a).Some? <==> Next(Alone(c), View(c, s, scope), Localised(a)).Some?)
    ensures Next(c, s, a).Some? ==>
              if Concerns(a, scope) then
                Next(Alone(c), View(c, s, scope), Localised(a)) == Some(View(c, Next(c, s, a).value, scope))
              else View(c, Next(c, s, a).value, scope) == View(c, s, scope)
  {
    if Pushes(a) {
      if a.scope == scope {
        InnerProjects(c, s, a, scope);
      } else if Next(c, s, a).Some? {
        OuterProjects(c, s, a, scope);
      }
    }
  }

  /** The state after `actions`, if each is enabled in turn. */
  function Outcome(c: Config, actions: seq<Action>): (r: Option<State>)
    ensures r.Some? ==> Fits(c, r.value)
  {
    if actions == [] then Some(Initial(c))
    else
      var before := Outcome(c, actions[..|actions| - 1]);
      if before.None? then None else Next(c, before.value, actions[|actions| - 1])
  }

  /**
   * Scopes do not interfere: what one scope sees after any run is what it would see had it been alone,
   * with every other scope's pushes left out.
   */
  lemma {:induction false} ScopesIndependent(c: Config, actions: seq<Action>, scope: nat)
    requires scope < c.scopes && Outcome(c, actions).Some?
    ensures Outcome(Alone(c), Seen(actions, scope)) == Some(View(c, Outcome(c, actions).value, scope))
  {
    if actions == [] {
      RowsInOrder(c, scope, c.scopes);
      AloneRow(c);
      assert View(c, Initial(c), scope) == Initial(Alone(c));
    } else {
      var init, last := actions[..|actions| - 1], actions[|actions| - 1];
      ScopesIndependent(c, init, scope);
      StepProjects(c, Outcome(c, init).value, last, scope);
      if Concerns(last, scope) {
        var seen := Seen(init, scope) + [Localised(last)];
        assert seen[..|seen| - 1] == Seen(init, scope);
      } else {
        assert Seen(init, scope) + [] == Seen(init, scope);
      }
    }
  }
}
