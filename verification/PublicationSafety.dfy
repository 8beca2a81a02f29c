/** What every run of the publication protocol keeps, for every configuration. */
module PublicationSafety {
  import opened Options
  import opened Publication

  ghost predicate Holds(history: seq<Frame>, identity: nat) {
    exists k :: 0 <= k < |history| && history[k].identity == identity
  }

  /** A submission carries its caller's identity, was granted an epoch no later than now, and a
      conflict is only ever reported for a submission the store refused. */
  ghost predicate AttemptOk(s: State, n: nat)
    requires n < |s.storage.attempts|
  {
    var a := s.storage.attempts[n];
    && a.actor < |s.callers| && a.identity == a.actor && a.epoch <= s.storage.epoch
    && (a.reply == SawConflict ==> a.disposition == Conflicted)
    && (a.disposition == Stored ==> InHistory(s.storage.history, n))
    // Only the latest submission of a caller can still be, or have been, stored.
    && (s.callers[a.actor].attempt != Some(n) ==> a.disposition != Stored && a.epoch < s.storage.epoch)
  }

  ghost predicate InHistory(history: seq<Frame>, n: nat) {
    exists k :: 0 <= k < |history| && history[k].attempt == n
  }

  ghost predicate CallerOk(s: State, i: nat)
    requires i < |s.callers|
  {
    var c := s.callers[i];
    && (c.attempt.None? ==> (c.phase.Idle? || c.phase.Unresolved?) && forall n :: 0 <= n < |s.storage.attempts| ==>
          s.storage.attempts[n].actor != i)
    && (c.attempt.Some? ==>
          c.attempt.value < |s.storage.attempts| && s.storage.attempts[c.attempt.value].actor == i && c.phase != Idle)
    && (c.phase == Prepared ==>
          && s.storage.attempts[c.attempt.value].disposition == Unsubmitted
          && s.storage.attempts[c.attempt.value].reply == Unobserved)
    && (c.phase == Witnessing ==>
          && c.witnessEpoch <= s.storage.epoch && c.witnessHead <= |s.storage.history|
          && (c.witnessPresent <==> Holds(s.storage.history[..c.witnessHead], i)))
  }

  ghost predicate FrameOk(s: State, k: nat)
    requires k < |s.storage.history|
  {
    var f := s.storage.history[k];
    && f.attempt < |s.storage.attempts| && s.storage.attempts[f.attempt].disposition == Stored
    && f.identity == s.storage.attempts[f.attempt].identity && f.body == s.storage.attempts[f.attempt].body
  }

  /** The history holds this identity with this body. */
  ghost predicate Durable(history: seq<Frame>, item: (nat, nat)) {
    exists k :: 0 <= k < |history| && history[k].identity == item.0 && history[k].body == item.1
  }

  ghost predicate DistinctIdentities(history: seq<Frame>) {
    forall i, j :: 0 <= i < j < |history| ==> history[i].identity != history[j].identity
  }

  ghost predicate StorageInv(s: State) {
    && (forall n :: 0 <= n < |s.storage.attempts| ==> AttemptOk(s, n))
    && (forall i :: 0 <= i < |s.callers| ==> CallerOk(s, i))
    && (forall k :: 0 <= k < |s.storage.history| ==> FrameOk(s, k))
    && DistinctIdentities(s.storage.history)
  }

  lemma KnownHolds(history: seq<Frame>, identity: nat)
    ensures Lookup(Expected(history), identity).Some? <==> Holds(history, identity)
  {
    var r := Expected(history);
    if Lookup(r, identity).Some? {
      var i :| 0 <= i < |r| && r[i] == (identity, Lookup(r, identity).value);
      assert history[i].identity == identity;
    } else {
      assert forall k :: 0 <= k < |history| ==> r[k].0 == history[k].identity;
    }
  }

  /** Only a caller's own submissions are stored under its identity. */
  lemma HoldsMeansStored(s: State, i: nat)
    requires StorageInv(s) && i < |s.callers| && Holds(s.storage.history, i)
    ensures s.callers[i].attempt.Some? && s.callers[i].attempt.value < |s.storage.attempts|
    ensures s.storage.attempts[s.callers[i].attempt.value].disposition == Stored
  {
    var k :| 0 <= k < |s.storage.history| && s.storage.history[k].identity == i;
    assert FrameOk(s, k);
    assert AttemptOk(s, s.storage.history[k].attempt);
    assert CallerOk(s, i);
  }

  lemma StoredHolds(s: State, n: nat)
    requires StorageInv(s) && n < |s.storage.attempts| && s.storage.attempts[n].disposition == Stored
    ensures Holds(s.storage.history, s.storage.attempts[n].identity)
  {
    assert AttemptOk(s, n);
    var k :| 0 <= k < |s.storage.history| && s.storage.history[k].attempt == n;
    assert FrameOk(s, k);
  }

  // -------------------------------------------------- kinds of change to storage

  /** A caller moves on, and the epoch may grow; its latest submission stays the same. */
  lemma CallerMoves(s: State, t: State, i: nat)
    requires StorageInv(s) && t.storage.history == s.storage.history && t.storage.attempts == s.storage.attempts
    requires s.storage.epoch <= t.storage.epoch
    requires i < |s.callers| == |t.callers| && forall j :: 0 <= j < |s.callers| && j != i ==>
        t.callers[j] == s.callers[j]
    requires t.callers[i].attempt == s.callers[i].attempt && CallerOk(t, i)
    ensures StorageInv(t)
  {
    forall n | 0 <= n < |t.storage.attempts| ensures AttemptOk(t, n) { assert AttemptOk(s, n); }
    forall j | 0 <= j < |t.callers| ensures CallerOk(t, j) { assert CallerOk(s, j); }
    forall k | 0 <= k < |t.storage.history| ensures FrameOk(t, k) { assert FrameOk(s, k); }
  }

  /** The store or the caller learns something about a submission, short of storing it. */
  lemma AttemptMoves(s: State, t: State, n: nat)
    requires StorageInv(s) && t.storage.history == s.storage.history && t.callers == s.callers
    requires t.storage.epoch == s.storage.epoch
    requires n < |s.storage.attempts| == |t.storage.attempts| && forall m ::
        0 <= m < |s.storage.attempts| && m != n ==> t.storage.attempts[m] == s.storage.attempts[m]
    requires t.storage.attempts[n] == s.storage.attempts[n].(disposition := t.storage.attempts[n].disposition,
                                                             reply := t.storage.attempts[n].reply)
    requires t.storage.attempts[n].disposition == Stored <==> s.storage.attempts[n].disposition == Stored
    requires t.storage.attempts[n].reply == SawConflict ==> t.storage.attempts[n].disposition == Conflicted
    requires s.storage.attempts[n].actor < |s.callers|
    requires s.callers[s.storage.attempts[n].actor].attempt == Some(n) ==>
        s.callers[s.storage.attempts[n].actor].phase != Prepared
    ensures StorageInv(t)
  {
    forall m | 0 <= m < |t.storage.attempts| ensures AttemptOk(t, m) { assert AttemptOk(s, m); }
    forall j | 0 <= j < |t.callers| ensures CallerOk(t, j) { assert CallerOk(s, j); }
    forall k | 0 <= k < |t.storage.history| ensures FrameOk(t, k) { assert FrameOk(s, k); }
  }

  /** A caller submits anew: whatever it had submitted before is neither stored nor storable. */
  lemma Submits(s: State, t: State, i: nat)
    requires StorageInv(s) && t.storage.history == s.storage.history && s.storage.epoch <= t.storage.epoch
    requires i < |s.callers| == |t.callers| && forall j :: 0 <= j < |s.callers| && j != i ==>
        t.callers[j] == s.callers[j]
    requires |t.storage.attempts| == |s.storage.attempts| + 1
    requires t.storage.attempts[..|s.storage.attempts|] == s.storage.attempts
    requires var a := t.storage.attempts[|s.storage.attempts|];
             && a.actor == a.identity == i && a.epoch <= t.storage.epoch && a.disposition == Unsubmitted
                 && a.reply == Unobserved
             && (forall n :: 0 <= n < |s.storage.attempts| && s.callers[i].attempt == Some(n) ==>
                   s.storage.attempts[n].epoch < a.epoch)
    requires t.callers[i].attempt == Some(|s.storage.attempts|) && !t.callers[i].phase.Idle?
    requires !t.callers[i].phase.Witnessing?
    requires !Holds(s.storage.history, i)
    ensures StorageInv(t)
  {
    assert CallerOk(s, i);
    forall n | 0 <= n < |t.storage.attempts|
      ensures AttemptOk(t, n)
    {
      if n < |s.storage.attempts| {
        assert t.storage.attempts[n] == t.storage.attempts[..|s.storage.attempts|][n] == s.storage.attempts[n];
        assert AttemptOk(s, n);
        if s.storage.attempts[n].disposition == Stored { StoredHolds(s, n); }
      }
    }
    forall j | 0 <= j < |t.callers|
      ensures CallerOk(t, j)
    {
      assert CallerOk(s, j);
      assert forall n :: 0 <= n < |s.storage.attempts| ==>
          t.storage.attempts[n] == t.storage.attempts[..|s.storage.attempts|][n];
    }
    forall k | 0 <= k < |t.storage.history|
      ensures FrameOk(t, k)
    {
      assert FrameOk(s, k);
      var n := s.storage.history[k].attempt;
      assert t.storage.attempts[n] == t.storage.attempts[..|s.storage.attempts|][n];
    }
  }

  /** A submission that still fits its epoch is its caller's latest, so nothing under its identity is stored yet. */
  lemma FreshAtStore(s: State, n: nat)
    requires StorageInv(s) && n < |s.storage.attempts| && s.storage.attempts[n].disposition == Pending
    requires s.storage.attempts[n].epoch == s.storage.epoch
    ensures var a := s.storage.attempts[n];
            a.actor < |s.callers| && s.callers[a.actor].attempt == Some(n) && !Holds(s.storage.history, a.identity)
  {
    assert AttemptOk(s, n);
    if Holds(s.storage.history, s.storage.attempts[n].identity) {
      HoldsMeansStored(s, s.storage.attempts[n].actor);
    }
  }

  lemma Stores(s: State, n: nat, t: State)
    requires StorageInv(s) && StoreStep(s, n) == Some(t)
    ensures StorageInv(t)
  {
    FreshAtStore(s, n);
    var h := |s.storage.history|;
    forall m | 0 <= m < |t.storage.attempts|
      ensures AttemptOk(t, m)
    {
      assert AttemptOk(s, m);
      if m == n {
        assert t.storage.history[h].attempt == n;
      } else if s.storage.attempts[m].disposition == Stored {
        var k :| 0 <= k < h && s.storage.history[k].attempt == m;
        assert t.storage.history[k].attempt == m;
      }
    }
    forall j | 0 <= j < |t.callers|
      ensures CallerOk(t, j)
    {
      assert CallerOk(s, j);
      if t.callers[j].phase == Witnessing {
        assert t.storage.history[..t.callers[j].witnessHead] == s.storage.history[..s.callers[j].witnessHead];
      }
    }
    forall k | 0 <= k < |t.storage.history|
      ensures FrameOk(t, k)
    {
      if k < h { assert FrameOk(s, k); }
    }
  }

  lemma Crashes(s: State, t: State)
    requires StorageInv(s) && t.storage.history == s.storage.history && t.storage.epoch == s.storage.epoch
    requires t.callers == Interrupted(s.callers) && t.storage.attempts == Abandoned(s.storage.attempts)
    ensures StorageInv(t)
  {
    forall n | 0 <= n < |t.storage.attempts| ensures AttemptOk(t, n) { assert AttemptOk(s, n); }
    forall j | 0 <= j < |t.callers| ensures CallerOk(t, j) { assert CallerOk(s, j); }
    forall k | 0 <= k < |t.storage.history| ensures FrameOk(t, k) { assert FrameOk(s, k); }
  }

  // ------------------------------------------------------------------- each step

  ghost predicate SameProjection(s: State, t: State) {
    && t.storage.history == s.storage.history && t.acknowledged == s.acknowledged
    && t.view.applied == s.view.applied && t.view.receipts == s.view.receipts
    && t.view.work == s.view.work && t.view.workflow == s.view.workflow && t.view.newWork == s.view.newWork
    && (t.served ==> s.served)
  }

  lemma StartKeepsStorage(c: Config, s: State, a: StartAction, t: State)
    requires StorageInv(s) && StartStep(c, s, a) == Some(t)
    ensures StorageInv(t) && SameProjection(s, t)
  {
    var i := if a.PrepareGrantedEpoch? then a.publisher else 0;
    assert CallerOk(s, i);
    if Holds(s.storage.history, i) { HoldsMeansStored(s, i); }
    KnownHolds(s.storage.history, i);
    if a.Prepare? || a.PrepareGrantedEpoch? {
      Submits(s, t, i);
    } else {
      CallerMoves(s, t, i);
    }
  }

  lemma ReplyKeepsStorage(s: State, i: nat, a: ReplyAction, t: State)
    requires StorageInv(s) && ReplyStep(s, i, a) == Some(t)
    ensures StorageInv(t) && SameProjection(s, t)
  {
    assert CallerOk(s, i);
    var n := s.callers[i].attempt.value;
    assert AttemptOk(s, n);
    var m := WithCaller(s, i, t.callers[i]);
    CallerMoves(s, m, i);
    AttemptMoves(m, t, n);
  }

  lemma WitnessKeepsStorage(c: Config, s: State, i: nat, t: State)
    requires StorageInv(s) && ResolveStep(c, s, i, AcquireWitness) == Some(t)
    ensures StorageInv(t)
  {
    assert CallerOk(s, i);
    KnownHolds(s.storage.history, i);
    assert s.storage.history[..|s.storage.history|] == s.storage.history;
    CallerMoves(s, t, i);
  }

  /** The absent witness is current, so the identity is absent now. */
  lemma ReprepareKeepsStorage(c: Config, s: State, i: nat, t: State)
    requires StorageInv(s) && ResolveStep(c, s, i, Reprepare) == Some(t)
    ensures StorageInv(t)
  {
    assert CallerOk(s, i);
    assert s.storage.history[..s.callers[i].witnessHead] == s.storage.history;
    Submits(s, t, i);
  }

  lemma ResolveKeepsStorage(c: Config, s: State, i: nat, a: ResolveAction, t: State)
    requires StorageInv(s) && ResolveStep(c, s, i, a) == Some(t)
    ensures StorageInv(t) && (!a.Resolve? ==> SameProjection(s, t))
  {
    if a.Reprepare? {
      ReprepareKeepsStorage(c, s, i, t);
    } else if a.AcquireWitness? {
      WitnessKeepsStorage(c, s, i, t);
    } else {
      assert CallerOk(s, i);
      CallerMoves(s, t, i);
    }
  }

  lemma ReplayKeepsStorage(c: Config, s: State, i: nat, a: ReplayAction, t: State)
    requires StorageInv(s) && ReplayStep(c, s, i, a) == Some(t)
    ensures StorageInv(t) && SameProjection(s, t)
  {
    assert CallerOk(s, i);
    CallerMoves(s, t, i);
  }

  lemma RejectKeepsStorage(s: State, n: nat, t: State)
    requires StorageInv(s) && RejectStep(s, n) == Some(t)
    ensures StorageInv(t) && SameProjection(s, t)
  {
    assert AttemptOk(s, n);
    assert CallerOk(s, s.storage.attempts[n].actor);
    AttemptMoves(s, t, n);
  }

  /** The epoch grows or nothing of the storage changes. */
  lemma EpochGrows(s: State, t: State)
    requires StorageInv(s) && s.storage.epoch <= t.storage.epoch
    requires t.storage.history == s.storage.history && t.storage.attempts == s.storage.attempts
    requires t.callers == s.callers
    ensures StorageInv(t)
  {
    forall n | 0 <= n < |t.storage.attempts| ensures AttemptOk(t, n) { assert AttemptOk(s, n); }
    forall j | 0 <= j < |t.callers| ensures CallerOk(t, j) { assert CallerOk(s, j); }
    forall k | 0 <= k < |t.storage.history| ensures FrameOk(t, k) { assert FrameOk(s, k); }
  }

  // ----------------------------------------------------------------- projection

  /** The cached receipts are those of the applied prefix, or lost, or the one invented before any history. */
  ghost predicate CacheOk(s: State)
    requires s.view.applied <= |s.storage.history|
  {
    s.view.receipts == Expected(s.storage.history[..s.view.applied]) || s.view.receipts == []
        || (s.view.applied == 0 && s.view.receipts == [(0, 0)])
  }

  ghost predicate ProjectionInv(s: State) {
    && s.view.applied <= |s.storage.history|
    && s.view.work == s.view.workflow == s.view.newWork == Effects(s.storage.history[..s.view.applied])
    && CacheOk(s)
    && (forall k :: 0 <= k < |s.acknowledged| ==> Durable(s.storage.history, s.acknowledged[k]))
    && (s.served ==> s.view.applied == |s.storage.history| && s.view.receipts == Expected(s.storage.history))
  }

  /** At a current cut whose witness and cache agree on presence, the cache holds the true original. */
  lemma CutTellsOriginal(s: State, i: nat)
    requires StorageInv(s) && ProjectionInv(s) && CutCurrent(s, i)
    requires s.callers[i].witnessPresent && Lookup(s.view.receipts, i).Some?
    ensures s.view.receipts == Expected(s.storage.history) && Lookup(s.view.receipts, i) == Known(s, i)
  {
    assert CallerOk(s, i);
    assert s.storage.history[..s.callers[i].witnessHead] == s.storage.history;
    assert s.storage.history[..s.view.applied] == s.storage.history;
  }

  lemma LookupDurable(history: seq<Frame>, identity: nat)
    requires Lookup(Expected(history), identity).Some?
    ensures Durable(history, (identity, Lookup(Expected(history), identity).value))
  {
    var r := Expected(history);
    var i :| 0 <= i < |r| && r[i] == (identity, Lookup(r, identity).value);
    assert history[i].identity == identity && history[i].body == r[i].1;
  }

  lemma ResolveKeepsProjection(c: Config, s: State, i: nat, t: State)
    requires StorageInv(s) && ProjectionInv(s) && ResolveStep(c, s, i, Resolve) == Some(t)
    ensures ProjectionInv(t)
  {
    CutTellsOriginal(s, i);
    LookupDurable(s.storage.history, i);
  }

  lemma StoreKeepsProjection(s: State, n: nat, t: State)
    requires ProjectionInv(s) && StoreStep(s, n) == Some(t)
    ensures ProjectionInv(t)
  {
    assert t.storage.history[..t.view.applied] == s.storage.history[..s.view.applied];
    forall k | 0 <= k < |t.acknowledged|
      ensures Durable(t.storage.history, t.acknowledged[k])
    {
      assert Durable(s.storage.history, s.acknowledged[k]);
      var j :| 0 <= j < |s.storage.history| && s.storage.history[j].identity == s.acknowledged[k].0
          && s.storage.history[j].body == s.acknowledged[k].1;
      assert t.storage.history[j] == s.storage.history[j];
    }
  }

  lemma ProjectionStepKeeps(c: Config, s: State, a: ProjectionAction, t: State)
    requires ProjectionInv(s) && ProjectionStep(c, s, a) == Some(t)
    ensures ProjectionInv(t) && t.storage.history == s.storage.history && t.storage.attempts == s.storage.attempts
    ensures t.callers == s.callers && t.storage.epoch == s.storage.epoch
  {
    assert s.storage.history[..|s.storage.history|] == s.storage.history;
    assert s.storage.history[..0] == [];
  }

  // ------------------------------------------------------------------ every step

  ghost predicate Inv(s: State) {
    StorageInv(s) && ProjectionInv(s)
  }

  lemma InitialInv(c: Config)
    ensures Inv(Initial(c))
  {
  }

  lemma QuietKeeps(s: State, t: State)
    requires Inv(s) && SameProjection(s, t) && StorageInv(t)
    ensures Inv(t)
  {
  }

  lemma ProjectionKeeps(c: Config, s: State, a: ProjectionAction, t: State)
    requires Inv(s) && ProjectionStep(c, s, a) == Some(t)
    ensures Inv(t)
  {
    ProjectionStepKeeps(c, s, a, t);
    EpochGrows(s, t);
  }

  lemma AuthorityKeeps(c: Config, s: State, a: AuthorityAction, t: State)
    requires Inv(s) && AuthorityStep(c, s, a) == Some(t)
    ensures Inv(t)
  {
    if a.CrashDuringApply? {
      Crashes(s, t);
    } else {
      EpochGrows(s, t);
    }
    QuietKeeps(s, t);
  }

  /** Every step of every configuration keeps the invariant. */
  lemma StepKeepsInv(c: Config, s: State, a: Action, t: State)
    requires Inv(s) && Step(c, s, a) == Some(t)
    ensures Inv(t)
  {
    if !s.provider.up || a == Observe || a == BackgroundFence {
      EpochGrows(s, t);
      QuietKeeps(s, t);
    } else {
      match a
      case Start(x) => StartKeepsStorage(c, s, x, t); QuietKeeps(s, t);
      case Reply(i, x) => ReplyKeepsStorage(s, i, x, t); QuietKeeps(s, t);
      case Resolution(i, x) =>
        ResolveKeepsStorage(c, s, i, x, t);
        if x.Resolve? { ResolveKeepsProjection(c, s, i, t); } else { QuietKeeps(s, t); }
      case Again(i, x) => ReplayKeepsStorage(c, s, i, x, t); QuietKeeps(s, t);
      case CASStore(n) => Stores(s, n, t); StoreKeepsProjection(s, n, t);
      case CASReject(n) => RejectKeepsStorage(s, n, t); QuietKeeps(s, t);
      case Projection(x) => ProjectionKeeps(c, s, x, t);
      case Authority(x) => AuthorityKeeps(c, s, x, t);
      case _ =>
    }
  }
}
