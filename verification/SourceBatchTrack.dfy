/** A composition whose every probe, plan and size agrees with a script goes exactly through the script's places. */
module SourceBatchTrack {
  import opened Options
  import opened SourceBatch
  import opened SourceBatchMachine
  import opened SourceBatchSearch
  import opened SourceBatchOracle

  // --------------------------------------------------------------------- agreement

  /** Probing group `i` gives what the script has. */
  ghost predicate ProbesAs(c: Case, sc: Script, i: nat)
    requires Whole(c, sc) && i < |c.groups|
  {
    var x, y := sc.indexes[i], sc.probed[i];
    && (!OnState(c.groups[i]) ==> c.groups[i].key < |x.image.work|)
    && y == Index(x.image, LoadOwners(c.initial, x.owners, x.loaded, Probes(c.groups[i], x.image)), x.loaded
                  + Probes(c.groups[i], x.image))
  }

  /** Planning group `i` gives what the script has. */
  ghost predicate PlansAs(c: Case, sc: Script, i: nat)
    requires Whole(c, sc) && i < |c.groups|
  {
    var x, y := sc.probed[i], sc.indexes[i + 1];
    && GroupOk(|x.owners|, |x.image.work|, c.groups[i]) && |x.image.work| == |x.image.highwater|
    && PlanGroup(c.groups[i], x.image, x.owners) == Planned(y.image, y.owners, sc.outcomes[i])
    && y.loaded == x.loaded && sc.images[i] == y.image
  }

  ghost predicate SizesAs(c: Case, sc: Script, n: nat)
    requires Whole(c, sc) && 0 < n <= |c.groups|
  {
    SameRows(c.initial, sc.images[n - 1]) && (FitsIn(c, sc.images[n - 1], n) <==> sc.fits[n - 1])
  }

  ghost predicate Agrees(c: Case, sc: Script) {
    && Whole(c, sc) && sc.indexes[0] == Index(c.initial, seq(c.uniques, _ => None), {})
    && (forall i {:trigger ProbesAs(c, sc, i)} :: 0 <= i < |c.groups| ==> ProbesAs(c, sc, i))
    && (forall i {:trigger PlansAs(c, sc, i)} :: 0 <= i < |c.groups| ==> PlansAs(c, sc, i))
    && (forall n {:trigger SizesAs(c, sc, n)} :: 0 < n <= |c.groups| ==> SizesAs(c, sc, n))
  }

  // --------------------------------------------------------------------- the track

  /** Admitted, valid and readable up to group `n`. */
  ghost predicate Open(c: Case, n: nat) {
    && c.gates.admission && c.gates.response && !c.failure.FieldsFailure?
    && (c.failure.ProbeFailure? ==> n <= c.failure.at)
  }

  ghost predicate Packable(c: Case, sc: Script) {
    |sc.fits| == |c.groups| > 0 && Open(c, |c.groups|) && c.gates.output && 0 < Retained(sc.fits) <= |c.groups|
  }

  ghost predicate OnTrack(c: Case, sc: Script, p: Place)
    requires Whole(c, sc)
  {
    var total := |c.groups|;
    && InRange(total, p)
    && match p
       case OnAdmit => true
       case OnValidate => c.gates.admission
       case OnFields => c.gates.admission && c.gates.response
       case OnProbe(i) => Open(c, i)
       case OnClock(i) => Open(c, i + 1)
       case OnPlan(i) => Open(c, i + 1)
       case OnEncode(n) => Open(c, total) && Searching(sc.fits, n) && (n < total ==> c.gates.output)
       case OnResult(n) => Open(c, total) && Searching(sc.fits, n) && c.gates.output
       case OnBind => Packable(c, sc)
       case OnBorrow => Packable(c, sc) && c.requested == OURS
       case OnDrop => Packable(c, sc) && c.requested == OURS
  }

  /** Where the next step leads; nowhere once the batch completes. */
  ghost function NextPlace(c: Case, sc: Script, p: Place): Option<Place>
    requires Whole(c, sc) && InRange(|c.groups|, p)
  {
    var total := |c.groups|;
    match p
    case OnAdmit => if c.gates.admission then Some(OnValidate) else None
    case OnValidate => if c.gates.response then Some(OnFields) else None
    case OnFields => if c.failure.FieldsFailure? then None else Some(OnProbe(0))
    case OnProbe(i) => if c.failure == ProbeFailure(i) then None else Some(OnClock(i))
    case OnClock(i) => Some(OnPlan(i))
    case OnPlan(i) => if i + 1 == total then Some(OnEncode(total)) else Some(OnProbe(i + 1))
    case OnEncode(n) => if c.gates.output then Some(OnResult(n)) else None
    case OnResult(n) =>
      if FitsAt(sc.fits, n) then (if n + 1 >= total then Some(OnBind) else Some(OnEncode(n + 1)))
      else if n == total && total > 1 then Some(OnEncode(1))
      else if n < total && n > 1 then Some(OnBind)
      else None
    case OnBind => if c.requested == OURS then Some(OnBorrow) else None
    case OnBorrow => Some(OnDrop)
    case OnDrop => None
  }

  lemma ResultContinues(c: Case, sc: Script, n: nat)
    requires Whole(c, sc) && OnTrack(c, sc, OnResult(n)) && NextPlace(c, sc, OnResult(n)).Some?
    ensures OnTrack(c, sc, NextPlace(c, sc, OnResult(n)).value)
  {
    if n < |c.groups| {
      SearchEnds(sc.fits, n);
    }
    RetainsLongest(sc.fits);
  }

  // ------------------------------------------------------------------- planning steps

  lemma OpeningMoves(c: Case)
    ensures c.gates.admission ==> Step(c, Early(c, AtAdmit, [], false)) == Some(Early(c, AtValidate, [Admit], true))
    ensures c.gates.response ==>
        Step(c, Early(c, AtValidate, [Admit], true)) == Some(Early(c, AtFields, [Admit, Validate], true))
    ensures !c.failure.FieldsFailure? ==>
        Step(c, Early(c, AtFields, [Admit, Validate], true)) == Some(Early(c, AtProbe, OPENING, true))
  {
    assert [] + [Admit] == [Admit];
    assert [Admit] + [Validate] == [Admit, Validate];
    assert [Admit, Validate] + [Fields] == OPENING;
  }

  lemma FirstProbe(c: Case, sc: Script)
    requires Agrees(c, sc)
    ensures Early(c, AtProbe, OPENING, true) == At(c, sc, OnProbe(0))
  {
    assert OPENING + PlanWords(0) == OPENING;
    assert HistoryAt(sc, 0, 0) == History(0, [], [], []);
  }

  lemma ProbeArrives(c: Case, sc: Script, i: nat)
    requires Agrees(c, sc) && i < |c.groups| && c.failure != ProbeFailure(i)
    ensures Step(c, At(c, sc, OnProbe(i))) == Some(At(c, sc, OnClock(i)))
  {
    assert ProbesAs(c, sc, i);
    assert OPENING + PlanWords(i) + [Probe(i)] == OPENING + (PlanWords(i) + [Probe(i)]);
  }

  lemma ClockArrives(c: Case, sc: Script, i: nat)
    requires Whole(c, sc) && i < |c.groups|
    ensures Step(c, At(c, sc, OnClock(i))) == Some(At(c, sc, OnPlan(i)))
  {
    assert UpTo(i) + [i] == UpTo(i + 1);
    assert OPENING + (PlanWords(i) + [Probe(i)]) + [Clock(i)] == OPENING + (PlanWords(i) + [Probe(i), Clock(i)]);
  }

  lemma PlanGrows(sc: Script, i: nat)
    requires i < |sc.images| && i < |sc.outcomes|
    ensures sc.images[..i] + [sc.images[i]] == sc.images[..i + 1]
    ensures sc.outcomes[..i] + [sc.outcomes[i]] == sc.outcomes[..i + 1]
    ensures OPENING + (PlanWords(i) + [Probe(i), Clock(i)]) + [Plan(i)] == OPENING + PlanWords(i + 1)
  {
    assert PlanWords(i) + [Probe(i), Clock(i)] + [Plan(i)] == PlanWords(i) + [Probe(i), Clock(i), Plan(i)];
    assert OPENING + (PlanWords(i) + [Probe(i), Clock(i)]) + [Plan(i)] == OPENING
        + (PlanWords(i) + [Probe(i), Clock(i)] + [Plan(i)]);
  }

  /** The state planning group `i` leads to. */
  ghost function PlanTarget(c: Case, sc: Script, i: nat): State
    requires Whole(c, sc) && i < |c.groups|
  {
    if i + 1 == |c.groups| then
      State(AtEncode, OPENING + PlanWords(i + 1), sc.indexes[i + 1], HistoryAt(sc, i + 1, i + 1),
            Pack([], i + 1, 0, 0), Live(true, false, false), NoResult, None)
    else Planning(AtProbe, PlanWords(i + 1), sc.indexes[i + 1], HistoryAt(sc, i + 1, i + 1))
  }

  lemma PlanReaches(c: Case, sc: Script, i: nat)
    requires Whole(c, sc) && i < |c.groups| && PlansAs(c, sc, i)
    ensures Step(c, At(c, sc, OnPlan(i))) == Some(PlanTarget(c, sc, i))
  {
    PlanGrows(sc, i);
  }

  lemma PlanTargetIs(c: Case, sc: Script, i: nat)
    requires Whole(c, sc) && i < |c.groups|
    ensures i + 1 == |c.groups| ==> PlanTarget(c, sc, i) == At(c, sc, OnEncode(i + 1))
    ensures i + 1 < |c.groups| ==> PlanTarget(c, sc, i) == At(c, sc, OnProbe(i + 1))
  {
    assert OPENING + PlanWords(i + 1) + EncodeWords([]) == OPENING + PlanWords(i + 1);
  }

  lemma PlanArrives(c: Case, sc: Script, i: nat)
    requires Agrees(c, sc) && i < |c.groups|
    ensures i + 1 == |c.groups| ==> Step(c, At(c, sc, OnPlan(i))) == Some(At(c, sc, OnEncode(i + 1)))
    ensures i + 1 < |c.groups| ==> Step(c, At(c, sc, OnPlan(i))) == Some(At(c, sc, OnProbe(i + 1)))
  {
    assert PlansAs(c, sc, i);
    PlanReaches(c, sc, i);
    PlanTargetIs(c, sc, i);
  }

  // -------------------------------------------------------------------- packing steps

  lemma WordsTried(total: nat, tried: seq<nat>, n: nat)
    ensures PackWords(total, tried) + [Encode(n)] == PackWords(total, tried + [n])
  {
    assert EncodeWords(tried + [n]) == EncodeWords(tried) + [Encode(n)];
    assert PackWords(total, tried) + [Encode(n)] == OPENING + PlanWords(total) + (EncodeWords(tried) + [Encode(n)]);
  }

  lemma EncodeArrives(c: Case, sc: Script, n: nat)
    requires Whole(c, sc) && 0 < n <= |c.groups| && c.gates.output
    ensures Step(c, At(c, sc, OnEncode(n))) == Some(At(c, sc, OnResult(n)))
  {
    WordsTried(|c.groups|, TriedBefore(|c.groups|, n), n);
  }

  lemma ResultSteps(c: Case, sc: Script, n: nat, tried: seq<nat>)
    requires Agrees(c, sc) && 0 < n <= |c.groups|
    ensures var total := |c.groups|;
            var s, j := Packing(c, sc, AtResult, Trying(total, n, tried)),
                Judged(total, Trying(total, n, tried), FitsAt(sc.fits, n));
            Step(c, s) == Some(if j.Some? then Packing(c, sc, j.value.0, j.value.1) else Refuse(s, TooLarge))
  {
    assert SizesAs(c, sc, n);
    assert sc.images[..|c.groups|][n - 1] == sc.images[n - 1];
  }

  /** The place a judged size leads to, in terms of its pack. */
  lemma JudgedPlace(c: Case, sc: Script, n: nat)
    requires Whole(c, sc) && OnTrack(c, sc, OnResult(n))
    ensures var total := |c.groups|;
            var j, q := Judged(total, Trying(total, n, TriedBefore(total, n) + [n]), FitsAt(sc.fits, n)),
                NextPlace(c, sc, OnResult(n));
            && (j.Some? <==> q.Some?)
            && (q.Some? && q.value.OnBind? ==> j.value == (AtBind, Packed(sc.fits)))
            && (q.Some? && !q.value.OnBind? ==>
                  q.value.OnEncode? && 0 < q.value.n <= total
                      && j.value == (AtEncode, Trying(total, q.value.n, TriedBefore(total, q.value.n))))
            && (q.None? ==>
                  && Retained(sc.fits) == 0 && TriedBefore(total, n) + [n] == Tried(sc.fits)
                  && LastTried(sc.fits) == 1 && n == 1)
  {
    if n == |c.groups| {
      FullRunJudged(sc.fits);
    } else {
      PrefixJudged(sc.fits, n);
    }
  }

  lemma ResultArrives(c: Case, sc: Script, n: nat)
    requires Agrees(c, sc) && OnTrack(c, sc, OnResult(n)) && NextPlace(c, sc, OnResult(n)).Some?
    ensures OnTrack(c, sc, NextPlace(c, sc, OnResult(n)).value)
    ensures Step(c, At(c, sc, OnResult(n))) == Some(At(c, sc, NextPlace(c, sc, OnResult(n)).value))
  {
    ResultContinues(c, sc, n);
    JudgedPlace(c, sc, n);
    ResultSteps(c, sc, n, TriedBefore(|c.groups|, n) + [n]);
  }

  lemma BindArrives(c: Case, sc: Script)
    requires Whole(c, sc) && 0 < Retained(sc.fits) <= |c.groups| && c.requested == OURS
    ensures Step(c, At(c, sc, OnBind)) == Some(At(c, sc, OnBorrow))
  {
    var total := |c.groups|;
    assert sc.images[..total] == sc.images && sc.outcomes[..total] == sc.outcomes;
    assert Packed(sc.fits).retained == Retained(sc.fits);
  }

  lemma RecordMoves(c: Case, words: seq<Word>, n: nat, s: State)
    requires s.phase.AtBorrow? && s.events == words + [Seal(n)]
    ensures Step(c, s) == Some(s.(phase := AtDrop, events := words + [Seal(n), Borrow]))
    ensures Step(c, Step(c, s).value) == Some(s.(phase := AtDone, events := words + [Seal(n), Borrow, Drop],
                                                 live := s.live.(output := false, credit := false)))
  {
    assert words + [Seal(n)] + [Borrow] == words + [Seal(n), Borrow];
    assert words + [Seal(n), Borrow] + [Drop] == words + [Seal(n), Borrow, Drop];
  }

  lemma SealedArrives(c: Case, sc: Script)
    requires Whole(c, sc) && OnTrack(c, sc, OnDrop)
    ensures Step(c, At(c, sc, OnBorrow)) == Some(At(c, sc, OnDrop))
    ensures Step(c, At(c, sc, OnDrop)) == Some(Completed(c, sc))
  {
    RecordMoves(c, PackWords(|c.groups|, Packed(sc.fits).attempts), Retained(sc.fits), At(c, sc, OnBorrow));
  }

  // ------------------------------------------------------------------------- endings

  lemma RefusedIsEnded(s: State, kind: Result)
    ensures Refuse(s, kind) == Ended(s, kind)
  {
  }

  lemma ResultEnds(c: Case, sc: Script, n: nat)
    requires Agrees(c, sc) && OnTrack(c, sc, OnResult(n)) && NextPlace(c, sc, OnResult(n)).None?
    ensures Retained(sc.fits) == 0 && Step(c, At(c, sc, OnResult(n))) == Some(Completed(c, sc))
  {
    JudgedPlace(c, sc, n);
    ResultSteps(c, sc, n, Tried(sc.fits));
    RefusedIsEnded(At(c, sc, OnResult(n)), TooLarge);
  }

  lemma EarlyEnds(c: Case, sc: Script, p: Place)
    requires Whole(c, sc) && OnTrack(c, sc, p) && NextPlace(c, sc, p).None? && Retained(sc.fits) <= |c.groups|
    requires p.OnAdmit? || p.OnValidate? || p.OnFields?
    ensures Step(c, At(c, sc, p)) == Some(Completed(c, sc))
  {
    RefusedIsEnded(At(c, sc, p), if p.OnValidate? then Invalid else Unknown);
  }

  lemma ProbeEnds(c: Case, sc: Script, i: nat)
    requires Agrees(c, sc) && OnTrack(c, sc, OnProbe(i)) && c.failure == ProbeFailure(i)
    requires Retained(sc.fits) <= |c.groups|
    ensures Step(c, At(c, sc, OnProbe(i))) == Some(Completed(c, sc))
  {
    assert ProbesAs(c, sc, i);
    RefusedIsEnded(At(c, sc, OnProbe(i)), Unknown);
  }

  /** Without output admission the search never leaves the full run. */
  lemma EncodeEnds(c: Case, sc: Script, n: nat)
    requires Whole(c, sc) && OnTrack(c, sc, OnEncode(n)) && !c.gates.output && Retained(sc.fits) <= |c.groups|
    ensures Step(c, At(c, sc, OnEncode(n))) == Some(Completed(c, sc))
  {
    RefusedIsEnded(At(c, sc, OnEncode(n)), Unknown);
  }

  lemma BindEnds(c: Case, sc: Script)
    requires Whole(c, sc) && OnTrack(c, sc, OnBind) && c.requested != OURS
    ensures Step(c, At(c, sc, OnBind)) == Some(Completed(c, sc))
  {
    RefusedIsEnded(At(c, sc, OnBind), Unknown);
  }

  // ------------------------------------------------------------------------ every run

  /** The step from a place leads to the next place of the track, or completes. */
  ghost predicate Arrives(c: Case, sc: Script, p: Place)
    requires Whole(c, sc) && OnTrack(c, sc, p) && Retained(sc.fits) <= |c.groups|
  {
    var q := NextPlace(c, sc, p);
    if q.Some? then OnTrack(c, sc, q.value) && Step(c, At(c, sc, p)) == Some(At(c, sc, q.value))
    else Step(c, At(c, sc, p)) == Some(Completed(c, sc))
  }

  lemma EarlyArrives(c: Case, sc: Script, p: Place)
    requires Agrees(c, sc) && OnTrack(c, sc, p) && Retained(sc.fits) <= |c.groups|
    requires (p.OnAdmit? || p.OnValidate? || p.OnFields?)
    ensures Arrives(c, sc, p)
  {
    if NextPlace(c, sc, p).None? {
      EarlyEnds(c, sc, p);
    } else {
      OpeningMoves(c);
      FirstProbe(c, sc);
    }
  }

  lemma PlanningArrives(c: Case, sc: Script, p: Place)
    requires Agrees(c, sc) && OnTrack(c, sc, p) && Retained(sc.fits) <= |c.groups|
    requires (p.OnProbe? || p.OnClock? || p.OnPlan?)
    ensures Arrives(c, sc, p)
  {
    if p.OnClock? {
      ClockArrives(c, sc, p.i);
    } else if p.OnPlan? {
      PlanArrives(c, sc, p.i);
    } else if c.failure == ProbeFailure(p.i) {
      ProbeEnds(c, sc, p.i);
    } else {
      ProbeArrives(c, sc, p.i);
    }
  }

  lemma SizeArrives(c: Case, sc: Script, p: Place)
    requires Agrees(c, sc) && OnTrack(c, sc, p) && Retained(sc.fits) <= |c.groups| && (p.OnEncode? || p.OnResult?)
    ensures Arrives(c, sc, p)
  {
    if p.OnEncode? && c.gates.output {
      EncodeArrives(c, sc, p.n);
    } else if p.OnEncode? {
      EncodeEnds(c, sc, p.n);
    } else if NextPlace(c, sc, p).Some? {
      ResultArrives(c, sc, p.n);
    } else {
      ResultEnds(c, sc, p.n);
    }
  }

  lemma RecordArrives(c: Case, sc: Script, p: Place)
    requires Agrees(c, sc) && OnTrack(c, sc, p) && Retained(sc.fits) <= |c.groups|
    requires (p.OnBind? || p.OnBorrow? || p.OnDrop?)
    ensures Arrives(c, sc, p)
  {
    if p.OnBind? && c.requested == OURS {
      BindArrives(c, sc);
    } else if p.OnBind? {
      BindEnds(c, sc);
    } else {
      SealedArrives(c, sc);
    }
  }

  lemma TrackArrives(c: Case, sc: Script, p: Place)
    requires Agrees(c, sc) && OnTrack(c, sc, p) && Retained(sc.fits) <= |c.groups|
    ensures Arrives(c, sc, p)
  {
    if p.OnAdmit? || p.OnValidate? || p.OnFields? {
      EarlyArrives(c, sc, p);
    } else if p.OnProbe? || p.OnClock? || p.OnPlan? {
      PlanningArrives(c, sc, p);
    } else if p.OnEncode? || p.OnResult? {
      SizeArrives(c, sc, p);
    } else {
      RecordArrives(c, sc, p);
    }
  }

  /** Steps left, at most. */
  ghost function Rank(total: nat, p: Place): int {
    match p
    case OnAdmit => 5 * total + 7
    case OnValidate => 5 * total + 6
    case OnFields => 5 * total + 5
    case OnProbe(i) => 2 * total + 4 + 3 * (total - i)
    case OnClock(i) => 2 * total + 3 + 3 * (total - i)
    case OnPlan(i) => 2 * total + 2 + 3 * (total - i)
    case OnEncode(n) => if n == total then 2 * total + 4 else 2 * (total - n) + 4
    case OnResult(n) => if n == total then 2 * total + 3 else 2 * (total - n) + 3
    case OnBind => 3
    case OnBorrow => 2
    case OnDrop => 1
  }

  lemma RankFalls(c: Case, sc: Script, p: Place)
    requires Whole(c, sc) && InRange(|c.groups|, p)
    ensures Rank(|c.groups|, p) > 0
    ensures NextPlace(c, sc, p).Some? ==> Rank(|c.groups|, NextPlace(c, sc, p).value) < Rank(|c.groups|, p)
  {
  }

  ghost predicate IsRun(c: Case, states: seq<State>) {
    && |states| > 0 && states[0] == Start(c)
    && forall i :: 0 <= i < |states| - 1 ==> Step(c, states[i]) == Some(states[i + 1])
  }

  /** The state is the one expected at a place of the track with at most `left` steps to go, or the completed one. */
  ghost predicate Tracked(c: Case, sc: Script, s: State, left: int)
    requires Whole(c, sc) && Retained(sc.fits) <= |c.groups|
  {
    || (s == Completed(c, sc) && left >= 0)
    || exists p {:trigger OnTrack(c, sc, p)} :: OnTrack(c, sc, p) && s == At(c, sc, p) && Rank(|c.groups|, p) <= left
  }

  lemma CompletedIsDone(c: Case, sc: Script)
    requires Whole(c, sc) && Retained(sc.fits) <= |c.groups|
    ensures Completed(c, sc).phase.AtDone?
  {
  }

  lemma AtIsOpen(c: Case, sc: Script, p: Place)
    requires Whole(c, sc) && OnTrack(c, sc, p)
    ensures !At(c, sc, p).phase.AtDone?
  {
  }

  lemma DoneStops(c: Case, s: State)
    requires s.phase.AtDone?
    ensures Step(c, s) == None
  {
  }

  lemma StepIsTracked(c: Case, sc: Script, s: State, t: State, left: int)
    requires Agrees(c, sc) && Retained(sc.fits) <= |c.groups| && Tracked(c, sc, s, left) && Step(c, s) == Some(t)
    ensures Tracked(c, sc, t, left - 1)
  {
    CompletedIsDone(c, sc);
    if s == Completed(c, sc) {
      DoneStops(c, s);
    }
    var p :| OnTrack(c, sc, p) && s == At(c, sc, p) && Rank(|c.groups|, p) <= left;
    RankFalls(c, sc, p);
    TrackArrives(c, sc, p);
  }

  lemma {:induction false} RunIsTracked(c: Case, sc: Script, states: seq<State>, i: nat)
    requires Agrees(c, sc) && Retained(sc.fits) <= |c.groups| && IsRun(c, states) && i < |states|
    ensures Tracked(c, sc, states[i], 5 * |c.groups| + 7 - i)
  {
    if i == 0 {
      assert OnTrack(c, sc, OnAdmit) && Start(c) == At(c, sc, OnAdmit);
    } else {
      RunIsTracked(c, sc, states, i - 1);
      StepIsTracked(c, sc, states[i - 1], states[i], 5 * |c.groups| + 8 - i);
    }
  }

  lemma TrackGoesOn(c: Case, sc: Script, s: State, left: int)
    requires Agrees(c, sc) && Retained(sc.fits) <= |c.groups| && Tracked(c, sc, s, left) && s != Completed(c, sc)
    ensures !s.phase.AtDone? && Step(c, s).Some? && left > 0
  {
    var p :| OnTrack(c, sc, p) && s == At(c, sc, p) && Rank(|c.groups|, p) <= left;
    AtIsOpen(c, sc, p);
    RankFalls(c, sc, p);
    TrackArrives(c, sc, p);
  }
}
