/** Each step of the batch emits the next word of its independent reference. */
module OriginalBatchRefinement {
  import opened Options
  import opened Ordering
  import opened OriginalBatch
  import opened OriginalBatchOracle

  /** One receipt for each frame, domain and literal. */
  ghost predicate Unique(receipts: seq<Receipt>) {
    forall i, j :: 0 <= i < j < |receipts| ==>
      (receipts[i].offset, receipts[i].domain, receipts[i].literal)
      != (receipts[j].offset, receipts[j].domain, receipts[j].literal)
  }

  lemma {:induction false} NoCandidates(receipts: seq<Receipt>, offset: nat, domain: int, literal: string)
    requires forall i :: 0 <= i < |receipts| ==>
        (receipts[i].offset, receipts[i].domain, receipts[i].literal) != (offset, domain, literal)
    ensures Candidates(receipts, offset, domain, literal) == [] && Actual(receipts, offset, domain, literal) == None
  {
    if receipts != [] { NoCandidates(receipts[1..], offset, domain, literal); }
  }

  lemma {:induction false} OneCandidate(receipts: seq<Receipt>, offset: nat, domain: int, literal: string)
    requires Unique(receipts)
    ensures var actual := Actual(receipts, offset, domain, literal);
            Candidates(receipts, offset, domain, literal) == if actual.Some? then [actual.value] else []
  {
    if receipts != [] {
      if (receipts[0].offset, receipts[0].domain, receipts[0].literal) == (offset, domain, literal) {
        NoCandidates(receipts[1..], offset, domain, literal);
      } else {
        OneCandidate(receipts[1..], offset, domain, literal);
      }
    }
  }

  /** The first match and the only candidate are the same test. */
  lemma GenuineMatches(c: Case, i: nat, offset: nat)
    requires Unique(c.receipts) && i < |c.requests|
    ensures Genuine(c, i, offset) <==> Matches(c, i, offset)
  {
    OneCandidate(c.receipts, offset, c.requests[i].domain, c.requests[i].literal);
  }

  // ------------------------------------------------------------------- positions

  ghost function Kinds(c: Case): (ks: seq<Kind>)
    ensures Known(c, ks)
  {
    seq(|c.requests|, i requires 0 <= i < |c.requests| => KindOf(c.requests[i]))
  }

  /** The place just after the `k`-th flagged position. */
  ghost function After(ps: seq<nat>, k: nat): nat
    requires k <= |ps|
  {
    if k == 0 then 0 else ps[k - 1] + 1
  }

  /** Nothing is flagged between one flagged position and the next. */
  lemma Gap(flags: seq<bool>, k: nat, i: nat)
    requires k <= |Where(flags)| && After(Where(flags), k) <= i < |flags|
    requires (k < |Where(flags)| ==> i < Where(flags)[k])
    ensures !flags[i]
  {
    var ps := Where(flags);
    if flags[i] {
      assert i in ps;
      var j :| 0 <= j < |ps| && ps[j] == i;
    }
  }

  lemma OffsetsAgree(c: Case)
    ensures Offsets(c, Kinds(c)) == Sorted(PresentOffsets(c))
  {
    var ks := Kinds(c);
    var these := set i | 0 <= i < |ks| && ks[i].Present? :: c.requests[i].fact.value.offset;
    forall o | o in PresentOffsets(c)
      ensures o in these
    {
      var r :| r in c.requests && KindOf(r).Present? && r.fact.value.offset == o;
      var i :| 0 <= i < |c.requests| && c.requests[i] == r;
      assert ks[i].Present?;
    }
    assert these == PresentOffsets(c);
  }

  // ---------------------------------------------------------------- words to come

  lemma {:induction false} SkipNonpresent(c: Case, i: nat, j: nat)
    requires i <= j <= |c.requests| && forall k :: i <= k < j ==> !c.stream || KindOf(c.requests[k]).Present?
    ensures NonpresentWords(c, i) == NonpresentWords(c, j)
    decreases j - i
  {
    if i < j { SkipNonpresent(c, i + 1, j); }
  }

  lemma {:induction false} SkipVerify(c: Case, offsets: seq<nat>, i: nat, j: nat)
    requires offsets != [] && i <= j <= |c.requests| && forall k :: i <= k < j ==> !Wants(c, k, offsets[0])
    ensures VerifyWords(c, offsets, i) == VerifyWords(c, offsets, j)
    decreases j - i
  {
    if i < j { SkipVerify(c, offsets, i + 1, j); }
  }

  /** From one converted position to the next. */
  lemma NonpresentTo(c: Case, k: nat)
    requires k <= |Nonpresent(c, Kinds(c))|
    ensures var ps := Nonpresent(c, Kinds(c));
            After(ps, k) <= |c.requests| &&
            NonpresentWords(c, After(ps, k)) == NonpresentWords(c, if k < |ps| then ps[k] else |c.requests|)
  {
    var ps, ks := Nonpresent(c, Kinds(c)), Kinds(c);
    var flags := seq(|ks|, i requires 0 <= i < |ks| => c.stream && !ks[i].Present?);
    var to := if k < |ps| then ps[k] else |c.requests|;
    forall i | After(ps, k) <= i < to
      ensures !c.stream || KindOf(c.requests[i]).Present?
    {
      Gap(flags, k, i);
    }
    SkipNonpresent(c, After(ps, k), to);
  }

  lemma MembersGap(c: Case, offset: nat, k: nat)
    requires k <= |Members(c, Kinds(c), offset)|
    ensures var ps := Members(c, Kinds(c), offset);
            var to := if k < |ps| then ps[k] else |c.requests|;
            After(ps, k) <= to <= |c.requests| && forall i :: After(ps, k) <= i < to ==> !Wants(c, i, offset)
  {
    var ps, ks := Members(c, Kinds(c), offset), Kinds(c);
    var flags := seq(|ks|, i requires 0 <= i < |ks| => ks[i].Present? && c.requests[i].fact.value.offset == offset);
    var to := if k < |ps| then ps[k] else |c.requests|;
    forall i | After(ps, k) <= i < to
      ensures !Wants(c, i, offset)
    {
      Gap(flags, k, i);
    }
  }

  lemma VerifyTo(c: Case, offsets: seq<nat>, k: nat)
    requires offsets != [] && k <= |Members(c, Kinds(c), offsets[0])|
    ensures var ps := Members(c, Kinds(c), offsets[0]);
            After(ps, k) <= |c.requests| &&
            VerifyWords(c, offsets, After(ps, k)) == VerifyWords(c, offsets, if k < |ps| then ps[k] else |c.requests|)
  {
    var ps := Members(c, Kinds(c), offsets[0]);
    MembersGap(c, offsets[0], k);
    SkipVerify(c, offsets, After(ps, k), if k < |ps| then ps[k] else |c.requests|);
  }

  lemma ConvertTo(c: Case, offsets: seq<nat>, k: nat)
    requires offsets != [] && k <= |Members(c, Kinds(c), offsets[0])|
    ensures var ps := Members(c, Kinds(c), offsets[0]);
            After(ps, k) <= |c.requests| &&
            ConvertWords(c, offsets, After(ps, k)) == ConvertWords(c, offsets, if k < |ps| then ps[k] else |c.requests|)
  {
    var ps := Members(c, Kinds(c), offsets[0]);
    MembersGap(c, offsets[0], k);
    SkipConvert(c, offsets, After(ps, k), if k < |ps| then ps[k] else |c.requests|);
  }

  // ------------------------------------------------------------------- invariant

  /** What has been classified so far is what the requests say. */
  ghost predicate FactsFit(c: Case, f: Facts, n: nat) {
    && n <= |c.requests| && |f.classes| == |f.observations| == n
    && forall i :: 0 <= i < n ==>
        f.classes[i] == KindOf(c.requests[i]) && f.observations[i] == Observation(c.requests[i].fact)
  }

  /** Where the batch stands among the frames. */
  ghost predicate FrameFit(c: Case, s: State) {
    var offsets := Offsets(c, Kinds(c));
    && s.cursor.group < |offsets|
    && s.cursor.member <= |Members(c, Kinds(c), offsets[s.cursor.group])|
  }

  ghost predicate CursorFit(c: Case, s: State) {
    var n, k := |c.requests|, s.cursor;
    match s.phase
    case AtAdmit => s == Start(c)
    case AtDeclare => k.index <= n && s.ledger.facts == NOTHING.facts
    case AtPoint => FactsFit(c, s.ledger.facts, k.index)
    case AtClassify => k.index < n && FactsFit(c, s.ledger.facts, k.index)
    case AtNonpresent => FactsFit(c, s.ledger.facts, n) && k.index <= |Nonpresent(c, Kinds(c))|
    case AtDispatch => FactsFit(c, s.ledger.facts, n) && k.group <= |Offsets(c, Kinds(c))|
    case AtRead => FactsFit(c, s.ledger.facts, n) && k.group < |Offsets(c, Kinds(c))|
    case AtVerify => FactsFit(c, s.ledger.facts, n) && FrameFit(c, s)
    case AtConvert => FactsFit(c, s.ledger.facts, n) && FrameFit(c, s) && c.stream
    case _ => true
  }

  lemma FactsKnown(c: Case, f: Facts)
    requires FactsFit(c, f, |c.requests|)
    ensures f.classes == Kinds(c) && Known(c, f.classes)
  {
  }

  /** Inside a frame the step depends on the frame's offset and the known kinds only. */
  lemma StepInFrame(c: Case, s: State, offset: nat)
    requires CursorFit(c, s) && (s.phase.AtRead? || s.phase.AtVerify? || s.phase.AtConvert?)
    requires offset == Offsets(c, Kinds(c))[s.cursor.group]
    ensures s.ledger.facts.classes == Kinds(c)
    ensures Step(c, s) == if s.phase.AtRead? then Some(ReadStep(c, s, offset))
                          else if s.phase.AtVerify? then VerifyStep(c, s, offset) else ConvertStep(c, s, offset)
  {
    FactsKnown(c, s.ledger.facts);
  }

  lemma StepInList(c: Case, s: State)
    requires CursorFit(c, s) && (s.phase.AtNonpresent? || s.phase.AtDispatch?)
    ensures s.ledger.facts.classes == Kinds(c)
    ensures Step(c, s) == if s.phase.AtNonpresent? then NonpresentStep(c, s) else DispatchStep(c, s)
  {
    FactsKnown(c, s.ledger.facts);
  }

  ghost function NonpresentRest(c: Case, k: nat): seq<Word>
    requires k <= |Nonpresent(c, Kinds(c))|
  {
    NonpresentTo(c, k);
    NonpresentWords(c, After(Nonpresent(c, Kinds(c)), k))
  }

  ghost function FramesFrom(c: Case, group: nat): seq<nat>
    requires group <= |Offsets(c, Kinds(c))|
  {
    Offsets(c, Kinds(c))[group..]
  }

  ghost function VerifyRest(c: Case, offsets: seq<nat>, k: nat): seq<Word>
    requires offsets != [] && k <= |Members(c, Kinds(c), offsets[0])|
  {
    VerifyTo(c, offsets, k);
    VerifyWords(c, offsets, After(Members(c, Kinds(c), offsets[0]), k))
  }

  ghost function ConvertRest(c: Case, offsets: seq<nat>, k: nat): seq<Word>
    requires offsets != [] && k <= |Members(c, Kinds(c), offsets[0])|
  {
    ConvertTo(c, offsets, k);
    ConvertWords(c, offsets, After(Members(c, Kinds(c), offsets[0]), k))
  }

  /** The words the reference still expects. */
  ghost function Rest(c: Case, s: State): seq<Word>
    requires CursorFit(c, s)
  {
    match s.phase
    case AtAdmit => Words(c)
    case AtDeclare => DeclareWords(c, s.cursor.index)
    case AtPoint => PointWords(c, s.cursor.index)
    case AtClassify => ClassifyWords(c, s.cursor.index)
    case AtNonpresent => NonpresentRest(c, s.cursor.index)
    case AtDispatch => FrameWords(c, FramesFrom(c, s.cursor.group))
    case AtRead => ReadWords(c, FramesFrom(c, s.cursor.group))
    case AtVerify => VerifyRest(c, FramesFrom(c, s.cursor.group), s.cursor.member)
    case AtConvert => ConvertRest(c, FramesFrom(c, s.cursor.group), s.cursor.member)
    case AtError => [Fail]
    case AtBorrow => [Borrow, Drop]
    case AtDrop => [Drop]
    case AtRetire => [Retire]
    case AtDone => []
  }

  ghost predicate Emits(s: State, t: State, w: Word) {
    t.events == s.events + [w] && t.cut == s.cut
  }

  /** A step emits the next expected word and leaves the batch where the following one is expected. */
  ghost predicate Follows(c: Case, s: State, t: State)
    requires CursorFit(c, s)
  {
    CursorFit(c, t) && exists w :: Emits(s, t, w) && Rest(c, s) == [w] + Rest(c, t)
  }

  lemma AdmitFollows(c: Case, s: State, t: State)
    requires CursorFit(c, s) && Step(c, s) == Some(t) && s.phase.AtAdmit?
    ensures Follows(c, s, t)
  {
    assert Emits(s, t, if c.admission then Admit else Fail);
  }

  lemma DeclareFollows(c: Case, s: State, t: State)
    requires CursorFit(c, s) && Step(c, s) == Some(t) && s.phase.AtDeclare?
    ensures Follows(c, s, t)
  {
    var i := s.cursor.index;
    assert Emits(s, t, if i == |c.requests| then Declared else if c.requests[i].declaration then Declare(i) else Fail);
  }

  lemma PointFollows(c: Case, s: State, t: State)
    requires CursorFit(c, s) && Step(c, s) == Some(t) && s.phase.AtPoint?
    ensures Follows(c, s, t)
  {
    var i := s.cursor.index;
    assert Emits(s, t, if i == |c.requests| then Classified else Point(i));
  }

  lemma ClassifyFollows(c: Case, s: State, t: State)
    requires CursorFit(c, s) && Step(c, s) == Some(t) && s.phase.AtClassify?
    ensures Follows(c, s, t)
  {
    var i := s.cursor.index;
    assert Emits(s, t, if BadPoint(c, i) then Fail else Classify(i, KindOf(c.requests[i])));
  }

  lemma NonpresentLast(c: Case, k: nat)
    requires k == |Nonpresent(c, Kinds(c))|
    ensures NonpresentRest(c, k) == [Groups] + FrameWords(c, Offsets(c, Kinds(c)))
  {
    NonpresentTo(c, k);
    OffsetsAgree(c);
  }

  lemma NonpresentNext(c: Case, ps: seq<nat>, k: nat)
    requires ps == Nonpresent(c, Kinds(c)) && k < |ps|
    ensures NonpresentRest(c, k) ==
              if c.faults.conversion == ps[k] then [Fail] else [Convert(ps[k])] + NonpresentRest(c, k + 1)
  {
    NonpresentTo(c, k);
    assert After(ps, k + 1) == ps[k] + 1;
  }

  lemma NextFrames(c: Case, group: nat)
    requires group < |Offsets(c, Kinds(c))|
    ensures FramesFrom(c, group)[0] == Offsets(c, Kinds(c))[group]
    ensures FramesFrom(c, group)[1..] == FramesFrom(c, group + 1)
  {
  }

  ghost predicate Moves(c: Case, s: State, t: State, w: Word, phase: Phase, cursor: Cursor) {
    CursorFit(c, t) && Emits(s, t, w) && t.phase == phase && t.cursor == cursor
  }

  lemma RestVerify(c: Case, s: State)
    requires CursorFit(c, s) && s.phase.AtVerify?
    ensures FramesFrom(c, s.cursor.group) != []
    ensures s.cursor.member <= |Members(c, Kinds(c), FramesFrom(c, s.cursor.group)[0])|
    ensures Rest(c, s) == VerifyRest(c, FramesFrom(c, s.cursor.group), s.cursor.member)
  {
  }

  lemma RestDispatch(c: Case, s: State)
    requires CursorFit(c, s) && s.phase.AtDispatch?
    ensures s.cursor.group <= |Offsets(c, Kinds(c))| && Rest(c, s) == FrameWords(c, FramesFrom(c, s.cursor.group))
  {
  }

  lemma RestConvert(c: Case, s: State)
    requires CursorFit(c, s) && s.phase.AtConvert?
    ensures FramesFrom(c, s.cursor.group) != []
    ensures s.cursor.member <= |Members(c, Kinds(c), FramesFrom(c, s.cursor.group)[0])|
    ensures Rest(c, s) == ConvertRest(c, FramesFrom(c, s.cursor.group), s.cursor.member)
  {
  }

  /** A step that emits `w` and then expects `after` follows the reference. */
  lemma Chains(c: Case, s: State, t: State, w: Word, after: seq<Word>)
    requires CursorFit(c, s) && CursorFit(c, t) && Emits(s, t, w) && Rest(c, s) == [w] + after && Rest(c, t) == after
    ensures Follows(c, s, t)
  {
  }

  lemma NonpresentMoves(c: Case, s: State, t: State, ps: seq<nat>)
    requires CursorFit(c, s) && Step(c, s) == Some(t) && s.phase.AtNonpresent? && ps == Nonpresent(c, Kinds(c))
    ensures var k := s.cursor;
            if k.index == |ps| then Moves(c, s, t, Groups, AtDispatch, k.(group := 0))
            else if c.faults.conversion == ps[k.index] then Moves(c, s, t, Fail, AtDone, k)
            else Moves(c, s, t, Convert(ps[k.index]), AtNonpresent, k.(index := k.index + 1))
  {
    FactsKnown(c, s.ledger.facts);
  }

  lemma RestNonpresent(c: Case, s: State)
    requires CursorFit(c, s) && s.phase.AtNonpresent?
    ensures s.cursor.index <= |Nonpresent(c, Kinds(c))| && Rest(c, s) == NonpresentRest(c, s.cursor.index)
  {
  }

  lemma NonpresentEnds(c: Case, s: State, t: State)
    requires CursorFit(c, s) && s.phase.AtNonpresent? && s.cursor.index == |Nonpresent(c, Kinds(c))|
    requires Moves(c, s, t, Groups, AtDispatch, s.cursor.(group := 0))
    ensures Follows(c, s, t)
  {
    RestNonpresent(c, s);
    NonpresentLast(c, s.cursor.index);
    RestDispatch(c, t);
    assert FramesFrom(c, 0) == Offsets(c, Kinds(c));
    Chains(c, s, t, Groups, FrameWords(c, Offsets(c, Kinds(c))));
  }

  lemma NonpresentGoesOn(c: Case, s: State, t: State, ps: seq<nat>, k: nat)
    requires CursorFit(c, s) && CursorFit(c, t) && ps == Nonpresent(c, Kinds(c)) && k < |ps|
    requires Rest(c, s) == NonpresentRest(c, k)
    requires if c.faults.conversion == ps[k] then Emits(s, t, Fail) && Rest(c, t) == []
             else Emits(s, t, Convert(ps[k])) && Rest(c, t) == NonpresentRest(c, k + 1)
    ensures Follows(c, s, t)
  {
    NonpresentNext(c, ps, k);
  }

  lemma NonpresentFollows(c: Case, s: State, t: State)
    requires CursorFit(c, s) && Step(c, s) == Some(t) && s.phase.AtNonpresent?
    ensures Follows(c, s, t)
  {
    var k, ps := s.cursor.index, Nonpresent(c, Kinds(c));
    NonpresentMoves(c, s, t, ps);
    if k == |ps| {
      NonpresentEnds(c, s, t);
    } else {
      RestNonpresent(c, s);
      if t.phase.AtNonpresent? { RestNonpresent(c, t); }
      NonpresentGoesOn(c, s, t, ps, k);
    }
  }

  lemma DispatchMoves(c: Case, s: State, t: State, offsets: seq<nat>)
    requires CursorFit(c, s) && Step(c, s) == Some(t) && s.phase.AtDispatch? && offsets == Offsets(c, Kinds(c))
    ensures if s.cursor.group == |offsets| then Moves(c, s, t, Return, AtBorrow, s.cursor)
            else Moves(c, s, t, Dispatch(offsets[s.cursor.group]), AtRead, s.cursor)
  {
    FactsKnown(c, s.ledger.facts);
  }

  lemma DispatchNext(c: Case, frames: seq<nat>)
    ensures FrameWords(c, frames) == if frames == [] then [Return] + [Borrow, Drop]
        else [Dispatch(frames[0])] + ReadWords(c, frames)
  {
  }

  lemma DispatchFollows(c: Case, s: State, t: State)
    requires CursorFit(c, s) && Step(c, s) == Some(t) && s.phase.AtDispatch?
    ensures Follows(c, s, t)
  {
    var offsets, group := Offsets(c, Kinds(c)), s.cursor.group;
    DispatchMoves(c, s, t, offsets);
    RestDispatch(c, s);
    DispatchNext(c, FramesFrom(c, group));
    if group == |offsets| {
      Chains(c, s, t, Return, [Borrow, Drop]);
    } else {
      NextFrames(c, group);
      Chains(c, s, t, Dispatch(offsets[group]), ReadWords(c, FramesFrom(c, group)));
    }
  }

  lemma ReadMoves(c: Case, s: State, t: State, offset: nat)
    requires CursorFit(c, s) && Step(c, s) == Some(t) && s.phase.AtRead?
    requires offset == Offsets(c, Kinds(c))[s.cursor.group]
    ensures if c.faults.read == offset then Moves(c, s, t, ReadError(offset), AtError, s.cursor)
            else if c.faults.cancel == offset then Moves(c, s, t, Cancel, AtRetire, s.cursor)
            else Moves(c, s, t, Read(offset), AtVerify, s.cursor.(member := 0))
  {
    FactsKnown(c, s.ledger.facts);
  }

  lemma ReadNext(c: Case, offsets: seq<nat>)
    requires offsets != []
    ensures ReadWords(c, offsets) ==
              if c.faults.read == offsets[0] then [ReadError(offsets[0])] + [Fail]
              else if c.faults.cancel == offsets[0] then [Cancel] + [Retire]
              else [Read(offsets[0])] + VerifyRest(c, offsets, 0)
  {
  }

  lemma ReadGoesOn(c: Case, s: State, t: State, frames: seq<nat>)
    requires CursorFit(c, s) && CursorFit(c, t) && frames != [] && Rest(c, s) == ReadWords(c, frames)
    requires if c.faults.read == frames[0] then Emits(s, t, ReadError(frames[0])) && Rest(c, t) == [Fail]
             else if c.faults.cancel == frames[0] then Emits(s, t, Cancel) && Rest(c, t) == [Retire]
             else Emits(s, t, Read(frames[0])) && Rest(c, t) == VerifyRest(c, frames, 0)
    ensures Follows(c, s, t)
  {
    ReadNext(c, frames);
  }

  lemma ReadFollows(c: Case, s: State, t: State)
    requires CursorFit(c, s) && Step(c, s) == Some(t) && s.phase.AtRead?
    ensures Follows(c, s, t)
  {
    var frames := FramesFrom(c, s.cursor.group);
    NextFrames(c, s.cursor.group);
    ReadMoves(c, s, t, frames[0]);
    if t.phase.AtVerify? {
      RestVerify(c, t);
    }
    ReadGoesOn(c, s, t, frames);
  }

  lemma VerifyNext(c: Case, offsets: seq<nat>, k: nat)
    requires Unique(c.receipts) && offsets != [] && k <= |Members(c, Kinds(c), offsets[0])|
    ensures var ps := Members(c, Kinds(c), offsets[0]);
            VerifyRest(c, offsets, k) ==
              if k == |ps| then
                (if c.stream then [VerifiedGroup(offsets[0])] + ConvertRest(c, offsets, 0)
                 else [Retained(offsets[0])] + FrameWords(c, offsets[1..]))
              else if !Matches(c, ps[k], offsets[0]) then [Fail]
              else [Verify(ps[k])] + VerifyRest(c, offsets, k + 1)
  {
    VerifyTo(c, offsets, k);
    var ps := Members(c, Kinds(c), offsets[0]);
    if k < |ps| {
      GenuineMatches(c, ps[k], offsets[0]);
      assert After(ps, k + 1) == ps[k] + 1;
    }
  }

  lemma ConvertNext(c: Case, offsets: seq<nat>, k: nat)
    requires offsets != [] && k <= |Members(c, Kinds(c), offsets[0])|
    ensures var ps := Members(c, Kinds(c), offsets[0]);
            ConvertRest(c, offsets, k) ==
              if k == |ps| then [Release(offsets[0])] + FrameWords(c, offsets[1..])
              else if c.faults.conversion == ps[k] then [Fail]
              else [Convert(ps[k])] + ConvertRest(c, offsets, k + 1)
  {
    ConvertTo(c, offsets, k);
    var ps := Members(c, Kinds(c), offsets[0]);
    if k < |ps| {
      assert After(ps, k + 1) == ps[k] + 1;
    }
  }

  lemma VerifyEndMoves(c: Case, s: State, t: State, offset: nat)
    requires CursorFit(c, s) && Step(c, s) == Some(t) && s.phase.AtVerify?
    requires offset == Offsets(c, Kinds(c))[s.cursor.group]
    requires s.cursor.member == |Members(c, Kinds(c), offset)|
    ensures if c.stream then Moves(c, s, t, VerifiedGroup(offset), AtConvert, s.cursor.(member := 0))
            else Moves(c, s, t, Retained(offset), AtDispatch, s.cursor.(group := s.cursor.group + 1))
  {
    FactsKnown(c, s.ledger.facts);
  }

  lemma VerifyEnds(c: Case, s: State, t: State, frames: seq<nat>)
    requires Unique(c.receipts) && CursorFit(c, s) && s.phase.AtVerify? && frames == FramesFrom(c, s.cursor.group)
    requires frames != [] && s.cursor.member == |Members(c, Kinds(c), frames[0])|
    requires frames[1..] == FramesFrom(c, s.cursor.group + 1)
    requires if c.stream then Moves(c, s, t, VerifiedGroup(frames[0]), AtConvert, s.cursor.(member := 0))
             else Moves(c, s, t, Retained(frames[0]), AtDispatch, s.cursor.(group := s.cursor.group + 1))
    ensures Follows(c, s, t)
  {
    RestVerify(c, s);
    VerifyNext(c, frames, s.cursor.member);
    if c.stream {
      RestConvert(c, t);
      Chains(c, s, t, VerifiedGroup(frames[0]), ConvertRest(c, frames, 0));
    } else {
      RestDispatch(c, t);
      Chains(c, s, t, Retained(frames[0]), FrameWords(c, frames[1..]));
    }
  }

  lemma VerifyMoves(c: Case, s: State, t: State, offset: nat, i: nat)
    requires CursorFit(c, s) && Step(c, s) == Some(t) && s.phase.AtVerify?
    requires offset == Offsets(c, Kinds(c))[s.cursor.group]
    requires s.cursor.member < |Members(c, Kinds(c), offset)| && i == Members(c, Kinds(c), offset)[s.cursor.member]
    ensures if Matches(c, i, offset) then Moves(c, s, t, Verify(i), AtVerify, s.cursor.(member := s.cursor.member + 1))
            else Moves(c, s, t, Fail, AtDone, s.cursor)
  {
    FactsKnown(c, s.ledger.facts);
  }

  lemma VerifyGoesOn(c: Case, s: State, t: State, frames: seq<nat>, k: nat)
    requires Unique(c.receipts) && CursorFit(c, s) && CursorFit(c, t) && frames != []
    requires k < |Members(c, Kinds(c), frames[0])|
    requires Rest(c, s) == VerifyRest(c, frames, k)
    requires var i := Members(c, Kinds(c), frames[0])[k];
             if Matches(c, i, frames[0]) then Emits(s, t, Verify(i)) && Rest(c, t) == VerifyRest(c, frames, k + 1)
             else Emits(s, t, Fail) && Rest(c, t) == []
    ensures Follows(c, s, t)
  {
    VerifyNext(c, frames, k);
  }

  lemma VerifyOnward(c: Case, s: State, t: State, frames: seq<nat>, i: nat)
    requires Unique(c.receipts) && CursorFit(c, s) && CursorFit(c, t) && s.phase.AtVerify?
    requires frames == FramesFrom(c, s.cursor.group)
    requires frames != [] && s.cursor.member < |Members(c, Kinds(c), frames[0])|
    requires i == Members(c, Kinds(c), frames[0])[s.cursor.member]
    requires if Matches(c, i, frames[0]) then
        Moves(c, s, t, Verify(i), AtVerify, s.cursor.(member := s.cursor.member + 1))
             else Moves(c, s, t, Fail, AtDone, s.cursor)
    ensures Follows(c, s, t)
  {
    RestVerify(c, s);
    if t.phase.AtVerify? {
      RestVerify(c, t);
    }
    VerifyGoesOn(c, s, t, frames, s.cursor.member);
  }

  lemma VerifyFollows(c: Case, s: State, t: State)
    requires Unique(c.receipts) && CursorFit(c, s) && Step(c, s) == Some(t) && s.phase.AtVerify?
    ensures Follows(c, s, t)
  {
    var frames, k := FramesFrom(c, s.cursor.group), s.cursor.member;
    NextFrames(c, s.cursor.group);
    if k == |Members(c, Kinds(c), frames[0])| {
      VerifyEndMoves(c, s, t, frames[0]);
      VerifyEnds(c, s, t, frames);
    } else {
      VerifyMoves(c, s, t, frames[0], Members(c, Kinds(c), frames[0])[k]);
      VerifyOnward(c, s, t, frames, Members(c, Kinds(c), frames[0])[k]);
    }
  }

  lemma ConvertMoves(c: Case, s: State, t: State, offset: nat, ms: seq<nat>)
    requires CursorFit(c, s) && Step(c, s) == Some(t) && s.phase.AtConvert?
    requires offset == Offsets(c, Kinds(c))[s.cursor.group] && ms == Members(c, Kinds(c), offset)
    ensures var k := s.cursor;
            if k.member == |ms| then Moves(c, s, t, Release(offset), AtDispatch, k.(group := k.group + 1))
            else if c.faults.conversion == ms[k.member] then Moves(c, s, t, Fail, AtDone, k)
            else Moves(c, s, t, Convert(ms[k.member]), AtConvert, k.(member := k.member + 1))
  {
    FactsKnown(c, s.ledger.facts);
  }

  lemma ConvertEnds(c: Case, s: State, t: State, frames: seq<nat>)
    requires CursorFit(c, s) && s.phase.AtConvert? && frames == FramesFrom(c, s.cursor.group) && frames != []
    requires s.cursor.member == |Members(c, Kinds(c), frames[0])| && frames[1..] == FramesFrom(c, s.cursor.group + 1)
    requires Moves(c, s, t, Release(frames[0]), AtDispatch, s.cursor.(group := s.cursor.group + 1))
    ensures Follows(c, s, t)
  {
    RestConvert(c, s);
    ConvertNext(c, frames, s.cursor.member);
    RestDispatch(c, t);
    Chains(c, s, t, Release(frames[0]), FrameWords(c, frames[1..]));
  }

  lemma ConvertFails(c: Case, s: State, t: State, frames: seq<nat>, i: nat)
    requires CursorFit(c, s) && s.phase.AtConvert? && frames == FramesFrom(c, s.cursor.group) && frames != []
    requires s.cursor.member < |Members(c, Kinds(c), frames[0])|
    requires i == Members(c, Kinds(c), frames[0])[s.cursor.member]
    requires c.faults.conversion == i && Moves(c, s, t, Fail, AtDone, s.cursor)
    ensures Follows(c, s, t)
  {
    RestConvert(c, s);
    ConvertNext(c, frames, s.cursor.member);
    Chains(c, s, t, Fail, []);
  }

  lemma ConvertGoesOn(c: Case, s: State, t: State, frames: seq<nat>, i: nat)
    requires CursorFit(c, s) && s.phase.AtConvert? && frames == FramesFrom(c, s.cursor.group) && frames != []
    requires s.cursor.member < |Members(c, Kinds(c), frames[0])|
    requires i == Members(c, Kinds(c), frames[0])[s.cursor.member]
    requires c.faults.conversion != i && Moves(c, s, t, Convert(i), AtConvert, s.cursor.(member := s.cursor.member + 1))
    ensures Follows(c, s, t)
  {
    RestConvert(c, s);
    RestConvert(c, t);
    ConvertNext(c, frames, s.cursor.member);
    Chains(c, s, t, Convert(i), ConvertRest(c, frames, s.cursor.member + 1));
  }

  lemma ConvertFollows(c: Case, s: State, t: State)
    requires CursorFit(c, s) && Step(c, s) == Some(t) && s.phase.AtConvert?
    ensures Follows(c, s, t)
  {
    var frames := FramesFrom(c, s.cursor.group);
    NextFrames(c, s.cursor.group);
    ConvertMoves(c, s, t, frames[0], Members(c, Kinds(c), frames[0]));
    if s.cursor.member == |Members(c, Kinds(c), frames[0])| {
      ConvertEnds(c, s, t, frames);
    } else if c.faults.conversion == Members(c, Kinds(c), frames[0])[s.cursor.member] {
      ConvertFails(c, s, t, frames, Members(c, Kinds(c), frames[0])[s.cursor.member]);
    } else {
      ConvertGoesOn(c, s, t, frames, Members(c, Kinds(c), frames[0])[s.cursor.member]);
    }
  }

  lemma EndFollows(c: Case, s: State, t: State)
    requires CursorFit(c, s) && Step(c, s) == Some(t)
    requires (s.phase.AtError? || s.phase.AtBorrow? || s.phase.AtDrop? || s.phase.AtRetire?)
    ensures Follows(c, s, t)
  {
    assert Emits(s, t, if s.phase.AtError? then Fail
                       else if s.phase.AtBorrow? then Borrow
                       else if s.phase.AtDrop? then Drop else Retire);
  }

  lemma StepFollows(c: Case, s: State, t: State)
    requires Unique(c.receipts) && CursorFit(c, s) && Step(c, s) == Some(t)
    ensures Follows(c, s, t)
  {
    match s.phase
    case AtAdmit => AdmitFollows(c, s, t);
    case AtDeclare => DeclareFollows(c, s, t);
    case AtPoint => PointFollows(c, s, t);
    case AtClassify => ClassifyFollows(c, s, t);
    case AtNonpresent => NonpresentFollows(c, s, t);
    case AtDispatch => DispatchFollows(c, s, t);
    case AtRead => ReadFollows(c, s, t);
    case AtVerify => VerifyFollows(c, s, t);
    case AtConvert => ConvertFollows(c, s, t);
    case _ => EndFollows(c, s, t);
  }
}
