/** The promises of the publication protocol, over whole runs of every configuration. */
module PublicationTheorems {
  import opened Options
  import opened Publication
  import opened PublicationSafety

  // ------------------------------------------------- the specification's own check

  datatype Property = FAck | FPrefix | FFence | FReplay | FGroup

  /** What a resolution must answer, read off durable history and the cache before the step. */
  ghost function Answer(before: State, actor: nat, caller: Caller): Outcome {
    var original := Lookup(Expected(before.storage.history), actor);
    var cached := Lookup(before.view.receipts, actor);
    if original.None? || cached != original then Unknown
    else if caller.body != original.value then Conflict
    else if actor in before.expired then Expired
    else if caller.replay != NoReplay then Replayed
    else Success
  }

  ghost predicate Repeats(history: seq<Frame>) {
    exists i, j :: 0 <= i < j < |history| && history[i].identity == history[j].identity
  }

  ghost predicate ComponentsAre(v: View, history: seq<Frame>) {
    && v.work == Effects(history) && v.workflow == Effects(history) && v.newWork == Effects(history)
    && v.receipts == Expected(history)
  }

  /** The property a step breaks, if any, in the order the properties are checked. */
  ghost function Violation(before: State, a: Action, s: State): Option<Property> {
    var h := s.storage.history;
    if exists k :: 0 <= k < |s.acknowledged| && !Durable(h, s.acknowledged[k]) then Some(FAck)
    else if s.view.applied > |h| then Some(FPrefix)
    else if s.served && exists k :: 0 <= k < |s.acknowledged| && !Durable(h[..s.view.applied], s.acknowledged[k]) then
      Some(FAck)
    else if |h| < |before.storage.history| then Some(FPrefix)
    else if a.CASStore? && a.number < |before.storage.attempts| && !Fits(before, a.number) then Some(FFence)
    else if exists n :: 0 <= n < |s.storage.attempts| && s.storage.attempts[n].reply == SawConflict
                     && s.storage.attempts[n].disposition == Stored then Some(FFence)
    else if a.Resolution? && a.resolution == Resolve && a.actor < |s.callers|
            && s.callers[a.actor].outcome != Answer(before, a.actor, s.callers[a.actor]) then Some(FReplay)
    else if Repeats(h) then Some(FReplay)
    else if a == Projection(CommitApply) && !ComponentsAre(s.view, h[..s.view.applied]) then Some(FGroup)
    else if s.served && !ComponentsAre(s.view, h) then Some(FPrefix)
    else None
  }

  lemma ResolveAnswers(c: Config, s: State, i: nat, t: State)
    requires Inv(s) && ResolveStep(c, s, i, Resolve) == Some(t)
    ensures i < |t.callers| && t.callers[i].outcome == Answer(s, i, t.callers[i])
  {
    CutTellsOriginal(s, i);
  }

  /** History, acknowledgements and submissions only grow; a caller's latest submission is kept or is new. */
  ghost predicate Advances(s: State, t: State) {
    && s.storage.history <= t.storage.history && s.acknowledged <= t.acknowledged
    && |s.storage.attempts| <= |t.storage.attempts| && |s.callers| == |t.callers|
    && (forall n :: 0 <= n < |s.storage.attempts| ==> t.storage.attempts[n].actor == s.storage.attempts[n].actor)
    && (forall i :: 0 <= i < |s.callers| ==>
          t.callers[i].attempt == s.callers[i].attempt || t.callers[i].attempt == Some(|s.storage.attempts|))
  }

  lemma StartAdvances(c: Config, s: State, a: StartAction, t: State)
    requires StartStep(c, s, a) == Some(t)
    ensures Advances(s, t)
  {
  }

  lemma ReplyAdvances(s: State, i: nat, a: ReplyAction, t: State)
    requires ReplyStep(s, i, a) == Some(t)
    ensures Advances(s, t)
  {
  }

  lemma ResolveAdvances(c: Config, s: State, i: nat, a: ResolveAction, t: State)
    requires ResolveStep(c, s, i, a) == Some(t)
    ensures Advances(s, t)
  {
  }

  lemma ReplayAdvances(c: Config, s: State, i: nat, a: ReplayAction, t: State)
    requires ReplayStep(c, s, i, a) == Some(t)
    ensures Advances(s, t)
  {
  }

  lemma StorageAdvances(s: State, n: nat, t: State)
    requires StoreStep(s, n) == Some(t) || RejectStep(s, n) == Some(t)
    ensures Advances(s, t)
  {
  }

  lemma ProjectionAdvances(c: Config, s: State, a: ProjectionAction, t: State)
    requires ProjectionStep(c, s, a) == Some(t)
    ensures Advances(s, t)
  {
  }

  lemma AuthorityAdvances(c: Config, s: State, a: AuthorityAction, t: State)
    requires AuthorityStep(c, s, a) == Some(t)
    ensures Advances(s, t)
  {
  }

  lemma StepAdvances(c: Config, s: State, a: Action, t: State)
    requires Step(c, s, a) == Some(t)
    ensures Advances(s, t)
  {
    if s.provider.up {
      match a
      case Start(x) => StartAdvances(c, s, x, t);
      case Reply(i, x) => ReplyAdvances(s, i, x, t);
      case Resolution(i, x) => ResolveAdvances(c, s, i, x, t);
      case Again(i, x) => ReplayAdvances(c, s, i, x, t);
      case CASStore(n) => StorageAdvances(s, n, t);
      case CASReject(n) => StorageAdvances(s, n, t);
      case Projection(x) => ProjectionAdvances(c, s, x, t);
      case Authority(x) => AuthorityAdvances(c, s, x, t);
      case _ =>
    }
  }

  /** The checks that look at the new state alone. */
  lemma InvIsSound(s: State)
    requires Inv(s)
    ensures s.view.applied <= |s.storage.history| && !Repeats(s.storage.history)
    ensures forall k :: 0 <= k < |s.acknowledged| ==> Durable(s.storage.history, s.acknowledged[k])
    ensures s.served ==> s.view.applied == |s.storage.history| && ComponentsAre(s.view, s.storage.history)
    ensures forall n :: 0 <= n < |s.storage.attempts| ==>
              !(s.storage.attempts[n].reply == SawConflict && s.storage.attempts[n].disposition == Stored)
  {
    var h := s.storage.history;
    assert h[..|h|] == h;
    forall n | 0 <= n < |s.storage.attempts|
      ensures !(s.storage.attempts[n].reply == SawConflict && s.storage.attempts[n].disposition == Stored)
    {
      assert AttemptOk(s, n);
    }
  }

  /** No enabled step of a state that keeps the invariant breaks a property. */
  lemma StepIsSound(c: Config, s: State, a: Action, t: State)
    requires Inv(s) && Step(c, s, a) == Some(t)
    ensures Violation(s, a, t) == None
  {
    StepKeepsInv(c, s, a, t);
    StepAdvances(c, s, a, t);
    InvIsSound(t);
    assert t.storage.history[..|t.storage.history|] == t.storage.history;
    if a.Resolution? && a.resolution == Resolve && s.provider.up {
      ResolveAnswers(c, s, a.actor, t);
    }
  }

  // ----------------------------------------------------------------------- runs

  ghost predicate IsRun(c: Config, states: seq<State>, actions: seq<Action>) {
    && |states| == |actions| + 1 && states[0] == Initial(c)
    && forall i :: 0 <= i < |actions| ==> Step(c, states[i], actions[i]) == Some(states[i + 1])
  }

  lemma {:induction false} RunKeepsInv(c: Config, states: seq<State>, actions: seq<Action>, i: nat)
    requires IsRun(c, states, actions) && i < |states|
    ensures Inv(states[i])
  {
    if i == 0 {
      InitialInv(c);
    } else {
      RunKeepsInv(c, states, actions, i - 1);
      StepKeepsInv(c, states[i - 1], actions[i - 1], states[i]);
    }
  }

  /** F-ACK, F-PREFIX, F-FENCE, F-REPLAY and F-GROUP hold at every step of every run. */
  lemma NoRunViolates(c: Config, states: seq<State>, actions: seq<Action>, i: nat)
    requires IsRun(c, states, actions) && i < |actions|
    ensures Violation(states[i], actions[i], states[i + 1]) == None
  {
    RunKeepsInv(c, states, actions, i);
    StepIsSound(c, states[i], actions[i], states[i + 1]);
  }

  /** Each state of the sequence advances the one before. */
  ghost predicate Chain(states: seq<State>) {
    forall i :: 0 <= i < |states| - 1 ==> Advances(states[i], states[i + 1])
  }

  lemma RunIsChain(c: Config, states: seq<State>, actions: seq<Action>)
    requires IsRun(c, states, actions)
    ensures Chain(states)
  {
    forall i | 0 <= i < |states| - 1
      ensures Advances(states[i], states[i + 1])
    {
      StepAdvances(c, states[i], actions[i], states[i + 1]);
    }
  }

  lemma {:induction false} ChainGrows(states: seq<State>, i: nat, j: nat)
    requires Chain(states) && i <= j < |states|
    ensures states[i].storage.history <= states[j].storage.history
    ensures states[i].acknowledged <= states[j].acknowledged
    decreases j
  {
    if i < j {
      ChainGrows(states, i, j - 1);
      assert Advances(states[j - 1], states[j]);
    }
  }

  lemma {:induction false} LookupPrefix(a: seq<(nat, nat)>, b: seq<(nat, nat)>, identity: nat)
    requires a <= b && Lookup(a, identity).Some?
    ensures Lookup(b, identity) == Lookup(a, identity)
  {
    if a[0].0 != identity {
      assert a[1..] <= b[1..];
      LookupPrefix(a[1..], b[1..], identity);
    }
  }

  /** An identity is stored at most once, and its original body never changes afterwards. */
  lemma OriginalIsFixed(c: Config, states: seq<State>, actions: seq<Action>, i: nat, j: nat, identity: nat)
    requires IsRun(c, states, actions) && i <= j < |states|
    requires Lookup(Expected(states[i].storage.history), identity).Some?
    ensures Lookup(Expected(states[j].storage.history), identity) == Lookup(Expected(states[i].storage.history),
          identity)
    ensures !Repeats(states[j].storage.history)
  {
    RunIsChain(c, states, actions);
    ChainGrows(states, i, j);
    var a, b := Expected(states[i].storage.history), Expected(states[j].storage.history);
    assert forall k :: 0 <= k < |a| ==> a[k] == b[k];
    LookupPrefix(a, b, identity);
    RunKeepsInv(c, states, actions, j);
  }

  /** The caller has prepared a later submission than `n`. */
  ghost predicate Superseded(s: State, n: nat) {
    && n < |s.storage.attempts| && s.storage.attempts[n].actor < |s.callers|
    && s.callers[s.storage.attempts[n].actor].attempt != Some(n)
  }

  lemma ReprepareSupersedes(c: Config, s: State, i: nat, t: State)
    requires Inv(s) && ResolveStep(c, s, i, Reprepare) == Some(t)
    ensures Superseded(t, s.callers[i].attempt.value)
  {
    assert CallerOk(s, i);
  }

  lemma {:induction false} SupersededForever(states: seq<State>, i: nat, j: nat, n: nat)
    requires Chain(states) && i <= j < |states| && Superseded(states[i], n)
    ensures Superseded(states[j], n)
    decreases j
  {
    if i < j {
      SupersededForever(states, i, j - 1, n);
      assert Advances(states[j - 1], states[j]);
    }
  }

  /** Once a caller has re-prepared, no earlier submission is ever stored, even if the store still holds it. */
  lemma SupersededIsNeverStored(c: Config, states: seq<State>, actions: seq<Action>, i: nat, j: nat, n: nat)
    requires IsRun(c, states, actions) && i <= j < |states| && Superseded(states[i], n)
    ensures n < |states[j].storage.attempts| && states[j].storage.attempts[n].disposition != Stored
    ensures j < |actions| ==> actions[j] != CASStore(n)
  {
    RunIsChain(c, states, actions);
    SupersededForever(states, i, j, n);
    RunKeepsInv(c, states, actions, j);
    assert AttemptOk(states[j], n);
    if j < |actions| { assert Step(c, states[j], actions[j]) == Some(states[j + 1]); }
  }

  /** Whatever was acknowledged is durable then and ever after, through every crash, reset and loss. */
  lemma AcknowledgedIsDurable(c: Config, states: seq<State>, actions: seq<Action>, i: nat, j: nat, k: nat)
    requires IsRun(c, states, actions) && i <= j < |states| && k < |states[i].acknowledged|
    ensures Durable(states[j].storage.history, states[i].acknowledged[k])
  {
    RunIsChain(c, states, actions);
    ChainGrows(states, i, j);
    RunKeepsInv(c, states, actions, j);
    assert states[j].acknowledged[k] == states[i].acknowledged[k];
  }

  /** A served read shows exactly the effects and receipts of the whole history, each identity once. */
  lemma ServedShowsAllHistory(c: Config, states: seq<State>, actions: seq<Action>, i: nat)
    requires IsRun(c, states, actions) && i < |states| && states[i].served
    ensures ComponentsAre(states[i].view, states[i].storage.history)
    ensures forall id: nat :: (id, 0) in states[i].view.work <==> Durable(states[i].storage.history, (id, 0))
    ensures forall p, q :: 0 <= p < q < |states[i].view.work| ==> states[i].view.work[p].0 != states[i].view.work[q].0
  {
    RunKeepsInv(c, states, actions, i);
    var h := states[i].storage.history;
    assert h[..|h|] == h;
    EffectsExact(h);
  }

  lemma {:induction false} EffectsSound(h: seq<Frame>, p: nat)
    requires p < |Effects(h)|
    ensures Effects(h)[p].1 == 0 && Durable(h, Effects(h)[p])
  {
    var rest := h[..|h| - 1];
    if p < |Effects(rest)| {
      EffectsSound(rest, p);
      var k :| 0 <= k < |rest| && rest[k].identity == Effects(rest)[p].0 && rest[k].body == Effects(rest)[p].1;
      assert h[k] == rest[k];
    } else {
      assert h[|h| - 1].identity == Effects(h)[p].0;
    }
  }

  lemma {:induction false} EffectsComplete(h: seq<Frame>, k: nat)
    requires k < |h| && h[k].body == 0
    ensures (h[k].identity, 0) in Effects(h)
  {
    var rest := h[..|h| - 1];
    if k < |rest| { EffectsComplete(rest, k); }
  }

  lemma {:induction false} EffectsDistinct(h: seq<Frame>, p: nat, q: nat)
    requires DistinctIdentities(h) && p < q < |Effects(h)|
    ensures Effects(h)[p].0 != Effects(h)[q].0
  {
    var rest := h[..|h| - 1];
    if q < |Effects(rest)| {
      EffectsDistinct(rest, p, q);
    } else {
      EffectsSound(rest, p);
      var k :| 0 <= k < |rest| && rest[k].identity == Effects(rest)[p].0 && rest[k].body == Effects(rest)[p].1;
      assert h[k] == rest[k];
    }
  }

  /** The effects of a history without repetition are its acting frames, once each. */
  lemma EffectsExact(h: seq<Frame>)
    requires DistinctIdentities(h)
    ensures forall id: nat :: (id, 0) in Effects(h) <==> Durable(h, (id, 0))
    ensures forall p, q :: 0 <= p < q < |Effects(h)| ==> Effects(h)[p].0 != Effects(h)[q].0
  {
    forall id: nat
      ensures (id, 0) in Effects(h) <==> Durable(h, (id, 0))
    {
      if (id, 0) in Effects(h) {
        var p :| 0 <= p < |Effects(h)| && Effects(h)[p] == (id, 0);
        EffectsSound(h, p);
      }
      if Durable(h, (id, 0)) {
        var k :| 0 <= k < |h| && h[k].identity == id && h[k].body == 0;
        EffectsComplete(h, k);
      }
    }
    forall p, q | 0 <= p < q < |Effects(h)|
      ensures Effects(h)[p].0 != Effects(h)[q].0
    {
      EffectsDistinct(h, p, q);
    }
  }
}
