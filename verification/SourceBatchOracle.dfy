/** What the relational reference expects of a batch at every place, and in the end. */
module SourceBatchOracle {
  import opened Options
  import opened SourceBatch
  import opened SourceBatchReference
  import opened SourceBatchMachine
  import opened SourceBatchSearch

  // -------------------------------------------------------------------- the script

  /** The reference history of a case, with the owner index it implies before and after each probe. */
  datatype Script = Script(indexes: seq<Index>, probed: seq<Index>, images: seq<Image>, outcomes: seq<Outcome>,
                           fits: seq<bool>)

  /** The uniques a group touches: that of the row it replaces or removes, and the one it claims. */
  function Touched(g: Group, image: Image): (uniques: set<nat>)
    requires !OnState(g) ==> g.key < |image.work|
    ensures uniques == Probes(g, image)
  {
    match g.action
    case Put => UniqueAt(g, image) + {g.unique}
    case Delete => UniqueAt(g, image)
    case _ => {}
  }

  function UniqueAt(g: Group, image: Image): set<nat>
    requires !OnState(g) ==> g.key < |image.work|
  {
    if OnState(g) then {}
    else match image.work[g.key]
      case None => {}
      case Some(row) => {row.unique}
  }

  /** The uniques probed by the first `n` groups, read off the full relational images. */
  function Loaded(c: Case, n: nat): set<nat>
    requires Sound(c) && n <= |c.groups|
  {
    if n == 0 then {} else Loaded(c, n - 1) + Touched(c.groups[n - 1], ImageAfter(c.initial, c.groups, n - 1))
  }

  predicate Sound(c: Case) {
    Addressed(|c.initial.highwater|, c.groups) && 0 < |c.groups| <= |c.ids| && |c.initial.work| == |c.initial.highwater|
  }

  /** The owners of the loaded uniques in an image. */
  function OwnersIn(uniques: nat, image: Image, loaded: set<nat>): seq<Option<nat>> {
    seq(uniques, u requires 0 <= u < uniques => if u in loaded then OwnerOf(image.work, u) else None)
  }

  function IndexAt(c: Case, n: nat, loaded: set<nat>): Index
    requires Sound(c) && n <= |c.groups|
  {
    var image := ImageAfter(c.initial, c.groups, n);
    Index(image, OwnersIn(c.uniques, image, loaded), loaded)
  }

  /** The first `n` groups fit both limits as one record. */
  predicate Fits(c: Case, n: nat)
    requires Sound(c) && 0 < n <= |c.groups|
  {
    var size := ReferenceSize(c.initial, ImageAfter(c.initial, c.groups, n), n);
    size.0 <= c.limits.frame && size.1 <= c.limits.record
  }

  function Fitting(c: Case): seq<bool>
    requires Sound(c)
  {
    seq(|c.groups|, k requires 0 <= k < |c.groups| => Fits(c, k + 1))
  }

  /** The index before each group, and after the last. */
  function Indexes(c: Case): seq<Index>
    requires Sound(c)
  {
    seq(|c.groups| + 1, i requires 0 <= i <= |c.groups| => IndexAt(c, i, Loaded(c, i)))
  }

  /** The index each group is planned on. */
  function Probed(c: Case): seq<Index>
    requires Sound(c)
  {
    seq(|c.groups|, i requires 0 <= i < |c.groups| => IndexAt(c, i, Loaded(c, i + 1)))
  }

  function ScriptOf(c: Case): (sc: Script)
    requires Sound(c)
    ensures Whole(c, sc)
  {
    Script(Indexes(c), Probed(c), Images(c.initial, c.groups, |c.groups|), Outcomes(c.initial, c.groups, |c.groups|),
           Fitting(c))
  }

  /** The script covers every group. */
  predicate Whole(c: Case, sc: Script) {
    && 0 < |c.groups| <= |c.ids| && |sc.indexes| == |c.groups| + 1
    && |sc.probed| == |sc.images| == |sc.outcomes| == |sc.fits| == |c.groups|
  }

  // ----------------------------------------------------------------------- places

  datatype Place =
    | OnAdmit | OnValidate | OnFields | OnProbe(i: nat) | OnClock(i: nat) | OnPlan(i: nat) | OnEncode(n: nat)
    | OnResult(n: nat)
    | OnBind | OnBorrow | OnDrop

  predicate InRange(total: nat, p: Place) {
    match p
    case OnProbe(i) => i < total
    case OnClock(i) => i < total
    case OnPlan(i) => i < total
    case OnEncode(n) => 0 < n <= total
    case OnResult(n) => 0 < n <= total
    case _ => true
  }

  const OPENING: seq<Word> := [Admit, Validate, Fields]

  function UpTo(n: nat): seq<nat> {
    seq(n, i requires 0 <= i < n => i)
  }

  function PlanWords(n: nat): seq<Word> {
    if n == 0 then [] else PlanWords(n - 1) + [Probe(n - 1), Clock(n - 1), Plan(n - 1)]
  }

  function EncodeWords(tried: seq<nat>): seq<Word> {
    seq(|tried|, i requires 0 <= i < |tried| => Encode(tried[i]))
  }

  function HistoryAt(sc: Script, n: nat, clocks: nat): History
    requires n <= |sc.images| && n <= |sc.outcomes|
  {
    History(n, sc.images[..n], sc.outcomes[..n], UpTo(clocks))
  }

  function Early(c: Case, phase: Phase, events: seq<Word>, plan: bool): State {
    State(phase, events, Index(c.initial, seq(c.uniques, _ => None), {}), History(0, [], [], []), Pack([], 0, 0, 0),
          Live(plan, false, false), NoResult, None)
  }

  /** Between admission and packing. */
  function Planning(phase: Phase, events: seq<Word>, index: Index, history: History): State {
    State(phase, OPENING + events, index, history, Pack([], 0, 0, 0), Live(true, false, false), NoResult, None)
  }

  function PackWords(total: nat, tried: seq<nat>): seq<Word> {
    OPENING + PlanWords(total) + EncodeWords(tried)
  }

  /** Once all groups are planned, and before anything is sealed. */
  function Packing(c: Case, sc: Script, phase: Phase, pack: Pack): State
    requires Whole(c, sc)
  {
    var n := |c.groups|;
    State(phase, PackWords(n, pack.attempts), sc.indexes[n], HistoryAt(sc, n, n), pack, Live(true, false, false),
          NoResult, None)
  }

  function TheRecord(c: Case, sc: Script): Record
    requires Whole(c, sc) && 0 < Retained(sc.fits) <= |c.groups|
  {
    var n := Retained(sc.fits);
    Record(sc.images[n - 1], Positions(c.offset, n), Pairs(c.ids, sc.outcomes, n), OURS)
  }

  /** Once the record is sealed. */
  function Sealing(c: Case, sc: Script, phase: Phase, tail: seq<Word>, live: Live): State
    requires Whole(c, sc) && 0 < Retained(sc.fits) <= |c.groups|
  {
    var n := |c.groups|;
    State(phase, PackWords(n, Packed(sc.fits).attempts) + tail, sc.indexes[n], HistoryAt(sc, n, n), Packed(sc.fits),
          live, Sealed, Some(TheRecord(c, sc)))
  }

  /** The exact state expected at each place. */
  function At(c: Case, sc: Script, p: Place): State
    requires Whole(c, sc) && InRange(|c.groups|, p)
    requires (p.OnBorrow? || p.OnDrop? ==> 0 < Retained(sc.fits) <= |c.groups|)
  {
    var total := |c.groups|;
    match p
    case OnAdmit => Early(c, AtAdmit, [], false)
    case OnValidate => Early(c, AtValidate, [Admit], true)
    case OnFields => Early(c, AtFields, [Admit, Validate], true)
    case OnProbe(i) => Planning(AtProbe, PlanWords(i), sc.indexes[i], HistoryAt(sc, i, i))
    case OnClock(i) => Planning(AtClock, PlanWords(i) + [Probe(i)], sc.probed[i], HistoryAt(sc, i, i))
    case OnPlan(i) => Planning(AtPlan, PlanWords(i) + [Probe(i), Clock(i)], sc.probed[i], HistoryAt(sc, i, i + 1))
    case OnEncode(n) => Packing(c, sc, AtEncode, Trying(total, n, TriedBefore(total, n)))
    case OnResult(n) => Packing(c, sc, AtResult, Trying(total, n, TriedBefore(total, n) + [n]))
    case OnBind => Packing(c, sc, AtBind, Packed(sc.fits))
    case OnBorrow => Sealing(c, sc, AtBorrow, [Seal(Retained(sc.fits))], Live(false, true, true))
    case OnDrop => Sealing(c, sc, AtDrop, [Seal(Retained(sc.fits)), Borrow], Live(false, true, true))
  }

  /** An error ends the batch where it stands. */
  function Ended(s: State, kind: Result): State {
    State(AtDone, s.events + [Refused(kind)], s.index, s.history, s.pack, Live(false, s.live.output, s.live.credit),
          kind, s.returned)
  }

  /** The completed batch, as the script has it. */
  function Completed(c: Case, sc: Script): State
    requires Whole(c, sc) && Retained(sc.fits) <= |c.groups|
  {
    if !c.gates.admission then Ended(At(c, sc, OnAdmit), Unknown)
    else if !c.gates.response then Ended(At(c, sc, OnValidate), Invalid)
    else if c.failure.FieldsFailure? then Ended(At(c, sc, OnFields), Unknown)
    else if c.failure.ProbeFailure? && c.failure.at < |c.groups| then Ended(At(c, sc, OnProbe(c.failure.at)), Unknown)
    else if !c.gates.output then Ended(At(c, sc, OnEncode(|c.groups|)), Unknown)
    else if Retained(sc.fits) == 0 then
      Ended(Packing(c, sc, AtResult, Pack(Tried(sc.fits), LastTried(sc.fits), 0, 0)), TooLarge)
    else if c.requested != OURS then Ended(At(c, sc, OnBind), Unknown)
    else Sealing(c, sc, AtDone, [Seal(Retained(sc.fits)), Borrow, Drop], Live(false, false, false))
  }
}
