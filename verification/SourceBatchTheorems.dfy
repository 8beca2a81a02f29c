/** The composition follows the relational reference from admission to the sealed record, however it is split. */
module SourceBatchTheorems {
  import opened Options
  import opened SourceBatch
  import opened SourceBatchReference
  import opened SourceBatchPlanning
  import opened SourceBatchMachine
  import opened SourceBatchSearch
  import opened SourceBatchOracle
  import opened SourceBatchTrack

  // --------------------------------------------------------------------- planning

  lemma {:induction false} RowsInRange(initial: Image, groups: seq<Group>, n: nat)
    requires Addressed(|initial.highwater|, groups) && n <= |groups| && |initial.work| == |initial.highwater|
    ensures forall k :: k in After(initial, groups, n).rows ==> k < |initial.highwater|
  {
    if n > 0 { RowsInRange(initial, groups, n - 1); }
  }

  lemma OwnersExact(uniques: nat, initial: Image, image: Image, owners: seq<Option<nat>>, loaded: set<nat>)
    requires IndexFits(uniques, initial, image, owners, loaded)
    ensures owners == OwnersIn(uniques, image, loaded)
  {
    forall u: nat | u < uniques
      ensures owners[u] == OwnersIn(uniques, image, loaded)[u]
    {
      assert EntryFits(initial, image, owners, loaded, u);
    }
  }

  /** After `n` groups the index is exact for what was probed, and everything else has its starting owner. */
  ghost predicate PlanningFits(c: Case, n: nat)
    requires Sound(c) && n <= |c.groups|
  {
    var image := ImageAfter(c.initial, c.groups, n);
    ValidImage(c.uniques, image)
        && IndexFits(c.uniques, c.initial, image, OwnersIn(c.uniques, image, Loaded(c, n)), Loaded(c, n))
  }

  /** Probing the next group loads the present owners of its uniques. */
  lemma ProbeExact(c: Case, n: nat)
    requires CaseOk(c) && Sound(c) && n < |c.groups| && PlanningFits(c, n)
    ensures var image := ImageAfter(c.initial, c.groups, n);
            && LoadOwners(c.initial, OwnersIn(c.uniques, image, Loaded(c, n)), Loaded(c, n), Probes(c.groups[n], image))
               == OwnersIn(c.uniques, image, Loaded(c, n + 1))
            && IndexFits(c.uniques, c.initial, image, OwnersIn(c.uniques, image, Loaded(c, n + 1)), Loaded(c, n + 1))
  {
    var image, loaded := ImageAfter(c.initial, c.groups, n), Loaded(c, n);
    var owners := OwnersIn(c.uniques, image, loaded);
    ProbingKeepsIndex(c.uniques, c.initial, image, owners, loaded, c.groups[n]);
    OwnersExact(c.uniques, c.initial, image, LoadOwners(c.initial, owners, loaded, Probes(c.groups[n], image)),
                Loaded(c, n + 1));
  }

  /** Planning the next group on the index gives the relation's next image, outcome and owners. */
  lemma PlanExact(c: Case, n: nat)
    requires CaseOk(c) && Sound(c) && n < |c.groups| && PlanningFits(c, n)
    ensures var image, next := ImageAfter(c.initial, c.groups, n), ImageAfter(c.initial, c.groups, n + 1);
            && GroupOk(c.uniques, |image.work|, c.groups[n])
            && PlanGroup(c.groups[n], image, OwnersIn(c.uniques, image, Loaded(c, n + 1)))
               == Planned(next, OwnersIn(c.uniques, next, Loaded(c, n + 1)), OutcomeAt(c.initial, c.groups, n))
            && PlanningFits(c, n + 1)
  {
    var image, r, g := ImageAfter(c.initial, c.groups, n), After(c.initial, c.groups, n), c.groups[n];
    var owners := OwnersIn(c.uniques, image, Loaded(c, n + 1));
    ProbeExact(c, n);
    RowsInRange(c.initial, c.groups, n);
    GroupAlike(c.uniques, c.initial, image, owners, Loaded(c, n + 1), r, g);
    var p := PlanGroup(g, image, owners);
    OwnersExact(c.uniques, c.initial, p.image, p.owners, Loaded(c, n + 1));
  }

  lemma PlanKeepsExact(c: Case, n: nat)
    requires CaseOk(c) && Sound(c) && n < |c.groups| && PlanningFits(c, n)
    ensures PlanningFits(c, n + 1)
  {
    PlanExact(c, n);
  }

  lemma StartsExact(c: Case)
    requires CaseOk(c) && Sound(c)
    ensures PlanningFits(c, 0)
  {
    RoundTrip(c.initial);
    forall u: nat | u < c.uniques
      ensures EntryFits(c.initial, c.initial, OwnersIn(c.uniques, c.initial, {}), {}, u)
    {
    }
  }

  lemma {:induction false} PlanningStaysExact(c: Case, n: nat)
    requires CaseOk(c) && Sound(c) && n <= |c.groups|
    ensures PlanningFits(c, n)
  {
    if n == 0 {
      StartsExact(c);
    } else {
      PlanningStaysExact(c, n - 1);
      PlanKeepsExact(c, n - 1);
    }
  }

  // -------------------------------------------------------------------- the script

  lemma ScriptStarts(c: Case)
    requires CaseOk(c) && Sound(c)
    ensures ScriptOf(c).indexes[0] == Index(c.initial, seq(c.uniques, _ => None), {})
  {
    RoundTrip(c.initial);
    assert OwnersIn(c.uniques, c.initial, {}) == seq(c.uniques, _ => None);
  }

  lemma ScriptProbes(c: Case, i: nat)
    requires CaseOk(c) && Sound(c) && i < |c.groups|
    ensures ProbesAs(c, ScriptOf(c), i)
  {
    PlanningStaysExact(c, i);
    ProbeExact(c, i);
  }

  lemma IndexedAt(c: Case, i: nat, loaded: set<nat>)
    requires Sound(c) && i <= |c.groups| && loaded == Loaded(c, i)
    ensures Indexes(c)[i] == IndexAt(c, i, loaded)
  {
  }

  lemma OutcomesAt(c: Case, i: nat)
    requires Sound(c) && i < |c.groups|
    ensures Images(c.initial, c.groups, |c.groups|)[i] == ImageAfter(c.initial, c.groups, i + 1)
    ensures Outcomes(c.initial, c.groups, |c.groups|)[i] == OutcomeAt(c.initial, c.groups, i)
  {
  }

  lemma PlansExactly(c: Case, i: nat)
    requires CaseOk(c) && Sound(c) && i < |c.groups|
    ensures var x, y := IndexAt(c, i, Loaded(c, i + 1)), IndexAt(c, i + 1, Loaded(c, i + 1));
            && GroupOk(|x.owners|, |x.image.work|, c.groups[i]) && |x.image.work| == |x.image.highwater|
            && PlanGroup(c.groups[i], x.image, x.owners) == Planned(y.image, y.owners,
                  OutcomeAt(c.initial, c.groups, i))
  {
    PlanningStaysExact(c, i);
    PlanExact(c, i);
  }

  lemma ScriptPlans(c: Case, i: nat)
    requires CaseOk(c) && Sound(c) && i < |c.groups|
    ensures PlansAs(c, ScriptOf(c), i)
  {
    IndexedAt(c, i + 1, Loaded(c, i + 1));
    OutcomesAt(c, i);
    PlansExactly(c, i);
  }

  lemma ScriptSizes(c: Case, n: nat)
    requires Sound(c) && 0 < n <= |c.groups|
    ensures SizesAs(c, ScriptOf(c), n)
  {
    SizesAgree(c.initial, ImageAfter(c.initial, c.groups, n), n);
  }

  /**
   * For every group list and every starting image without a shared unique, planning through the lazily loaded
   * index, and sizing by accumulation, agree group by group with the relational history and its write sets.
   */
  lemma ReferenceAgrees(c: Case)
    requires CaseOk(c) && Sound(c)
    ensures Agrees(c, ScriptOf(c))
  {
    var sc := ScriptOf(c);
    ScriptStarts(c);
    forall i | 0 <= i < |c.groups|
      ensures ProbesAs(c, sc, i)
    {
      ScriptProbes(c, i);
    }
    forall i | 0 <= i < |c.groups|
      ensures PlansAs(c, sc, i)
    {
      ScriptPlans(c, i);
    }
    forall n | 0 < n <= |c.groups|
      ensures SizesAs(c, sc, n)
    {
      ScriptSizes(c, n);
    }
  }

  // ------------------------------------------------------------------------ every run

  /** The size of the packed prefix, and the completed batch, as the relational reference has them. */
  function PackedSize(c: Case): nat
    requires Sound(c)
  {
    Retained(Fitting(c))
  }

  function Expected(c: Case): State
    requires Sound(c) && PackedSize(c) <= |c.groups|
  {
    Completed(c, ScriptOf(c))
  }

  /**
   * The packed prefix is the full run if that fits; otherwise it is the longest proper prefix all of whose
   * prefixes fit both limits, whatever the sizes of longer ones.
   */
  lemma PacksLongestPrefix(c: Case)
    requires Sound(c)
    ensures PackedSize(c) <= |c.groups| && (PackedSize(c) == |c.groups| <==> Fits(c, |c.groups|))
    ensures PackedSize(c) < |c.groups| ==> forall k :: 0 < k <= PackedSize(c) ==> Fits(c, k)
    ensures PackedSize(c) + 1 < |c.groups| ==> !Fits(c, PackedSize(c) + 1)
  {
    var fits, n := Fitting(c), PackedSize(c);
    RetainsLongest(fits);
    assert forall k :: 0 < k <= |c.groups| ==> fits[k - 1] == Fits(c, k);
    forall k | 0 < k <= n < |c.groups|
      ensures Fits(c, k)
    {
      assert FitsAt(fits, k);
    }
  }

  /**
   * Every run completes within a number of steps linear in the groups, and what it completes with is, in every
   * component, what the relational reference expects of the case.
   */
  lemma CompletesAsExpected(c: Case, states: seq<State>, i: nat)
    requires CaseOk(c) && IsRun(c, states) && i < |states|
    ensures Sound(c) && PackedSize(c) <= |c.groups| && i <= 5 * |c.groups| + 7
    ensures states[i].phase.AtDone? ==> states[i] == Expected(c)
    ensures !states[i].phase.AtDone? ==> Step(c, states[i]).Some?
  {
    PacksLongestPrefix(c);
    ReferenceAgrees(c);
    RunCompletes(c, ScriptOf(c), states, i);
  }

  lemma RunCompletes(c: Case, sc: Script, states: seq<State>, i: nat)
    requires Agrees(c, sc) && Retained(sc.fits) <= |c.groups| && IsRun(c, states) && i < |states|
    ensures i <= 5 * |c.groups| + 7
    ensures states[i].phase.AtDone? ==> states[i] == Completed(c, sc)
    ensures !states[i].phase.AtDone? ==> Step(c, states[i]).Some?
  {
    RunIsTracked(c, sc, states, i);
    CompletedIsDone(c, sc);
    if states[i] != Completed(c, sc) {
      TrackGoesOn(c, sc, states[i], 5 * |c.groups| + 7 - i);
    }
  }

  lemma RecordIs(c: Case)
    requires Sound(c) && 0 < PackedSize(c) <= |c.groups|
    ensures var n := PackedSize(c);
            TheRecord(c, ScriptOf(c)) == Record(ImageAfter(c.initial, c.groups, n), Positions(c.offset, n),
                                                Pairs(c.ids, Outcomes(c.initial, c.groups, n), n), OURS)
  {
    var n := PackedSize(c);
    SamePairs(c.ids, Outcomes(c.initial, c.groups, |c.groups|), Outcomes(c.initial, c.groups, n), n);
  }

  /** A sealed record carries exactly the effects, positions and receipts of the packed prefix. */
  lemma SealedExactly(c: Case, states: seq<State>, i: nat)
    requires CaseOk(c) && IsRun(c, states) && i < |states| && states[i].phase.AtDone? && states[i].result.Sealed?
    ensures Sound(c) && 0 < PackedSize(c) <= |c.groups|
    ensures var n := PackedSize(c);
            states[i].returned == Some(Record(ImageAfter(c.initial, c.groups, n), Positions(c.offset, n),
                                              Pairs(c.ids, Outcomes(c.initial, c.groups, n), n), OURS))
  {
    CompletesAsExpected(c, states, i);
    RecordIs(c);
  }

  lemma SamePairs(ids: seq<string>, all: seq<Outcome>, some: seq<Outcome>, n: nat)
    requires n <= |ids| && n <= |all| && n <= |some| && forall i :: 0 <= i < n ==> all[i] == some[i]
    ensures Pairs(ids, all, n) == Pairs(ids, some, n)
  {
    var a := seq(n, i requires 0 <= i < n => (ids[i], all[i]));
    var b := seq(n, i requires 0 <= i < n => (ids[i], some[i]));
    assert a == b;
  }

  // ------------------------------------------------------------------------ replanning

  /** What is left after `n` groups, planned afresh from the image they gave. */
  function Remainder(c: Case, n: nat): Case
    requires Sound(c) && n < |c.groups|
  {
    c.(initial := ImageAfter(c.initial, c.groups, n), groups := c.groups[n..], ids := c.ids[n..], offset := c.offset
       + n)
  }

  lemma BackFromImage(r: Relation)
    requires forall k :: k in r.rows ==> k < |r.highwater|
    ensures RelationOf(ImageOf(r)) == r
  {
    var back := RelationOf(ImageOf(r));
    assert forall k :: k in back.rows <==> k in r.rows;
  }

  lemma {:induction false} RemainderAfter(c: Case, n: nat, k: nat)
    requires Sound(c) && n < |c.groups| && n + k <= |c.groups|
    ensures Sound(Remainder(c, n)) && k <= |Remainder(c, n).groups|
    ensures After(Remainder(c, n).initial, Remainder(c, n).groups, k) == After(c.initial, c.groups, n + k)
  {
    if k == 0 {
      RowsInRange(c.initial, c.groups, n);
      BackFromImage(After(c.initial, c.groups, n));
    } else {
      RemainderAfter(c, n, k - 1);
    }
  }

  lemma RemainderOk(c: Case, n: nat)
    requires CaseOk(c) && Sound(c) && n < |c.groups|
    ensures CaseOk(Remainder(c, n)) && Sound(Remainder(c, n))
  {
    PlanningStaysExact(c, n);
    RemainderAfter(c, n, 0);
  }

  lemma RemainderAt(c: Case, n: nat, k: nat)
    requires Sound(c) && n < |c.groups| && n + k < |c.groups|
    ensures var d := Remainder(c, n);
            && Sound(d) && k < |d.groups|
            && ImageAfter(d.initial, d.groups, k + 1) == ImageAfter(c.initial, c.groups, n + k + 1)
            && OutcomeAt(d.initial, d.groups, k) == OutcomeAt(c.initial, c.groups, n + k)
  {
    RemainderAfter(c, n, k);
    RemainderAfter(c, n, k + 1);
  }

  /**
   * Splitting is invisible: the remainder after any prefix is again a well-formed case. The composition plans it
   * from that prefix's image with an empty index, and what it plans are the very images and outcomes of the
   * unsplit run.
   */
  lemma RemainderReplans(c: Case, n: nat)
    requires CaseOk(c) && Sound(c) && n < |c.groups|
    ensures CaseOk(Remainder(c, n)) && Sound(Remainder(c, n))
    ensures Start(Remainder(c, n)).index == Index(ImageAfter(c.initial, c.groups, n), seq(c.uniques, _ => None), {})
    ensures Agrees(Remainder(c, n), ScriptOf(Remainder(c, n)))
    ensures ScriptOf(Remainder(c, n)).images == ScriptOf(c).images[n..]
    ensures ScriptOf(Remainder(c, n)).outcomes == ScriptOf(c).outcomes[n..]
  {
    RemainderOk(c, n);
    RemainderTail(c, n);
    ReferenceAgrees(Remainder(c, n));
  }

  lemma RemainderTail(c: Case, n: nat)
    requires Sound(c) && n < |c.groups| && Sound(Remainder(c, n))
    ensures var d, rest := Remainder(c, n), |c.groups| - n;
            && Images(d.initial, d.groups, rest) == Images(c.initial, c.groups, |c.groups|)[n..]
            && Outcomes(d.initial, d.groups, rest) == Outcomes(c.initial, c.groups, |c.groups|)[n..]
  {
    var d, rest := Remainder(c, n), |c.groups| - n;
    var images, outcomes := Images(d.initial, d.groups, rest), Outcomes(d.initial, d.groups, rest);
    forall k | 0 <= k < rest
      ensures images[k] == Images(c.initial, c.groups, |c.groups|)[n..][k]
      ensures outcomes[k] == Outcomes(c.initial, c.groups, |c.groups|)[n..][k]
    {
      RemainderAt(c, n, k);
    }
  }

  lemma PairsSplit(ids: seq<string>, all: seq<Outcome>, tail: seq<Outcome>, n: nat)
    requires n <= |all| <= |ids| && tail == all[n..]
    ensures Pairs(ids, all, n) + Pairs(ids[n..], tail, |tail|) == Pairs(ids, all, |all|)
  {
    var whole := seq(|all|, i requires 0 <= i < |all| => (ids[i], all[i]));
    var front := seq(n, i requires 0 <= i < n => (ids[i], all[i]));
    var back := seq(|tail|, i requires 0 <= i < |tail| => (ids[n..][i], tail[i]));
    assert whole == front + back;
  }

  /** A sealed run of the remainder returns what the same groups have in the unsplit run. */
  lemma RemainderSealed(c: Case, n: nat, states: seq<State>, i: nat) returns (m: nat)
    requires CaseOk(c) && Sound(c) && n < |c.groups| && IsRun(Remainder(c, n), states) && i < |states|
    requires states[i].phase.AtDone? && states[i].result.Sealed?
    ensures Sound(Remainder(c, n)) && m == PackedSize(Remainder(c, n)) && 0 < m <= |c.groups| - n
    ensures states[i].returned ==
              Some(Record(ImageAfter(c.initial, c.groups, n + m), Positions(c.offset + n, m),
                          Pairs(c.ids[n..], Outcomes(c.initial, c.groups, |c.groups|)[n..], m), OURS))
  {
    var d := Remainder(c, n);
    RemainderOk(c, n);
    RemainderTail(c, n);
    SealedExactly(d, states, i);
    m := PackedSize(d);
    RemainderAt(c, n, m - 1);
    SamePairs(d.ids, Outcomes(c.initial, c.groups, |c.groups|)[n..], Outcomes(d.initial, d.groups, m), m);
  }

  // -------------------------------------------------------------------------- draining

  /** Some run of the case seals this record. */
  ghost predicate Seals(c: Case, r: Record) {
    exists states: seq<State> {:trigger IsRun(c, states)} ::
      && IsRun(c, states) && states[|states| - 1].phase.AtDone? && states[|states| - 1].result.Sealed?
      && states[|states| - 1].returned == Some(r)
  }

  /** The case that takes up where a sealed record leaves off, starting from the image the record carries. */
  function Continued(c: Case, r: Record): Case
    requires |r.positions| <= |c.groups| && |r.positions| <= |c.ids|
  {
    var m := |r.positions|;
    c.(initial := r.effect, groups := c.groups[m..], ids := c.ids[m..], offset := c.offset + m)
  }

  /** The case is drained by sealing one record after another, each from the image of the one before. */
  ghost predicate Drains(c: Case, records: seq<Record>)
    decreases |records|
  {
    && records != [] && Seals(c, records[0])
    && |records[0].positions| <= |c.groups| && |records[0].positions| <= |c.ids|
    && if |records[0].positions| == |c.groups| then |records| == 1 else Drains(Continued(c, records[0]), records[1..])
  }

  function Receipts(records: seq<Record>): multiset<(string, Outcome)> {
    if records == [] then multiset{} else records[0].receipts + Receipts(records[1..])
  }

  function AllPositions(records: seq<Record>): seq<nat> {
    if records == [] then [] else records[0].positions + AllPositions(records[1..])
  }

  lemma FirstSealed(c: Case, r: Record) returns (m: nat)
    requires CaseOk(c) && Seals(c, r)
    ensures Sound(c) && m == PackedSize(c) && 0 < m <= |c.groups|
    ensures r == Record(ImageAfter(c.initial, c.groups, m), Positions(c.offset, m),
                        Pairs(c.ids, Outcomes(c.initial, c.groups, |c.groups|), m), OURS)
  {
    var states: seq<State> :|
      && IsRun(c, states) && states[|states| - 1].phase.AtDone? && states[|states| - 1].result.Sealed?
      && states[|states| - 1].returned == Some(r);
    SealedExactly(c, states, |states| - 1);
    m := PackedSize(c);
    SamePairs(c.ids, Outcomes(c.initial, c.groups, |c.groups|), Outcomes(c.initial, c.groups, m), m);
  }

  /** The records together are the whole batch: its final effects, its positions in order, and all its receipts. */
  ghost predicate AddUp(c: Case, records: seq<Record>) {
    && Sound(c) && records != []
    && records[|records| - 1].effect == ImageAfter(c.initial, c.groups, |c.groups|)
    && AllPositions(records) == Positions(c.offset, |c.groups|)
    && Receipts(records) == Pairs(c.ids, Outcomes(c.initial, c.groups, |c.groups|), |c.groups|)
  }

  lemma EffectsJoin(c: Case, m: nat)
    requires Sound(c) && m < |c.groups| && Sound(Remainder(c, m))
    ensures var d := Remainder(c, m);
            ImageAfter(d.initial, d.groups, |d.groups|) == ImageAfter(c.initial, c.groups, |c.groups|)
  {
    RemainderAfter(c, m, |c.groups| - m);
  }

  lemma ReceiptsJoin(c: Case, m: nat)
    requires Sound(c) && m < |c.groups| && Sound(Remainder(c, m))
    ensures var d, all := Remainder(c, m), Outcomes(c.initial, c.groups, |c.groups|);
            Pairs(c.ids, all, m) + Pairs(d.ids, Outcomes(d.initial, d.groups, |d.groups|), |d.groups|)
            == Pairs(c.ids, all, |c.groups|)
  {
    var d, all := Remainder(c, m), Outcomes(c.initial, c.groups, |c.groups|);
    RemainderTail(c, m);
    PairsSplit(c.ids, all, Outcomes(d.initial, d.groups, |d.groups|), m);
  }

  lemma AddsUp(c: Case, m: nat, records: seq<Record>)
    requires Sound(c) && 0 < m < |c.groups| && |records| > 1 && AddUp(Remainder(c, m), records[1..])
    requires records[0].positions == Positions(c.offset, m)
    requires records[0].receipts == Pairs(c.ids, Outcomes(c.initial, c.groups, |c.groups|), m)
    ensures AddUp(c, records)
  {
    EffectsJoin(c, m);
    ReceiptsJoin(c, m);
  }

  lemma AddsUpAlone(c: Case, records: seq<Record>)
    requires Sound(c) && |records| == 1
    requires records[0] == Record(ImageAfter(c.initial, c.groups, |c.groups|), Positions(c.offset, |c.groups|),
                                  Pairs(c.ids, Outcomes(c.initial, c.groups, |c.groups|), |c.groups|), OURS)
    ensures AddUp(c, records)
  {
    assert records[1..] == [];
  }

  lemma ContinuesRemainder(c: Case, m: nat, r: Record)
    requires Sound(c) && m < |c.groups| && r.effect == ImageAfter(c.initial, c.groups, m)
    requires r.positions == Positions(c.offset, m)
    ensures Continued(c, r) == Remainder(c, m)
  {
  }

  /**
   * However the sizes force a batch to be split, draining it record by record, each planned afresh from the image
   * of the one before with an empty index, loses and repeats nothing: the last record carries the effects of the
   * unsplit run, the positions are those of the whole batch in order, and the receipts together are all of its.
   */
  lemma {:induction false} DrainsUnsplit(c: Case, records: seq<Record>)
    requires CaseOk(c) && Drains(c, records)
    ensures AddUp(c, records)
    decreases |records|
  {
    var m := FirstSealed(c, records[0]);
    if m == |c.groups| {
      AddsUpAlone(c, records);
    } else {
      ContinuesRemainder(c, m, records[0]);
      RemainderOk(c, m);
      DrainsUnsplit(Remainder(c, m), records[1..]);
      AddsUp(c, m, records);
    }
  }
}
