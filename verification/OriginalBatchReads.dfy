/** Which frames a batch reads, and when: each present offset once, ascending, after all classification. */
module OriginalBatchReads {
  import opened Ordering
  import opened OriginalBatch
  import opened OriginalBatchOracle
  import opened OriginalBatchRefinement
  import opened OriginalBatchTheorems

  function Dispatches(words: seq<Word>): seq<nat> {
    if words == [] then []
    else (if words[0].Dispatch? then [words[0].offset] else []) + Dispatches(words[1..])
  }

  /** The words read a prefix of the offsets, and all of them if they come to return. */
  ghost predicate ReadsFrom(words: seq<Word>, offsets: seq<nat>) {
    Dispatches(words) <= offsets && (Return in words ==> Dispatches(words) == offsets)
  }

  lemma ReadsCons(w: Word, words: seq<Word>, offsets: seq<nat>)
    requires !w.Dispatch? && !w.Return? && ReadsFrom(words, offsets)
    ensures ReadsFrom([w] + words, offsets)
  {
    assert ([w] + words)[1..] == words;
  }

  lemma {:induction false} FramesRead(c: Case, offsets: seq<nat>)
    ensures ReadsFrom(FrameWords(c, offsets), offsets)
    decreases |offsets|, 2
  {
    if offsets == [] {
      assert Dispatches([Borrow, Drop]) == [] by {
        assert [Borrow, Drop][1..] == [Drop];
      }
      assert [Return, Borrow, Drop][1..] == [Borrow, Drop];
    } else {
      FrameReads(c, offsets);
      assert ([Dispatch(offsets[0])] + ReadWords(c, offsets))[1..] == ReadWords(c, offsets);
      assert offsets == [offsets[0]] + offsets[1..];
    }
  }

  lemma {:induction false} FrameReads(c: Case, offsets: seq<nat>)
    requires offsets != []
    ensures ReadsFrom(ReadWords(c, offsets), offsets[1..])
    decreases |offsets|, 1, |c.requests| + 1
  {
    if c.faults.read == offsets[0] {
      ReadsCons(ReadError(offsets[0]), [Fail], offsets[1..]);
      assert [ReadError(offsets[0])] + [Fail] == [ReadError(offsets[0]), Fail];
    } else if c.faults.cancel == offsets[0] {
      ReadsCons(Cancel, [Retire], offsets[1..]);
      assert [Cancel] + [Retire] == [Cancel, Retire];
    } else {
      VerifyReads(c, offsets, 0);
      ReadsCons(Read(offsets[0]), VerifyWords(c, offsets, 0), offsets[1..]);
    }
  }

  lemma {:induction false} VerifyReads(c: Case, offsets: seq<nat>, i: nat)
    requires offsets != [] && i <= |c.requests|
    ensures ReadsFrom(VerifyWords(c, offsets, i), offsets[1..])
    decreases |offsets|, 1, |c.requests| - i
  {
    if i == |c.requests| {
      if c.stream {
        ConvertReads(c, offsets, 0);
        ReadsCons(VerifiedGroup(offsets[0]), ConvertWords(c, offsets, 0), offsets[1..]);
      } else {
        FramesRead(c, offsets[1..]);
        ReadsCons(Retained(offsets[0]), FrameWords(c, offsets[1..]), offsets[1..]);
      }
    } else if !Wants(c, i, offsets[0]) || Genuine(c, i, offsets[0]) {
      VerifyReads(c, offsets, i + 1);
      ReadsCons(Verify(i), VerifyWords(c, offsets, i + 1), offsets[1..]);
    }
  }

  lemma {:induction false} ConvertReads(c: Case, offsets: seq<nat>, i: nat)
    requires offsets != [] && i <= |c.requests|
    ensures ReadsFrom(ConvertWords(c, offsets, i), offsets[1..])
    decreases |offsets|, 0, |c.requests| - i
  {
    if i == |c.requests| {
      FramesRead(c, offsets[1..]);
      ReadsCons(Release(offsets[0]), FrameWords(c, offsets[1..]), offsets[1..]);
    } else if !Wants(c, i, offsets[0]) || c.faults.conversion != i {
      ConvertReads(c, offsets, i + 1);
      ReadsCons(Convert(i), ConvertWords(c, offsets, i + 1), offsets[1..]);
    }
  }

  lemma {:induction false} NonpresentReads(c: Case, i: nat)
    requires i <= |c.requests|
    ensures ReadsFrom(NonpresentWords(c, i), Sorted(PresentOffsets(c)))
    decreases |c.requests| - i
  {
    var offsets := Sorted(PresentOffsets(c));
    if !c.stream || i == |c.requests| {
      FramesRead(c, offsets);
      ReadsCons(Groups, FrameWords(c, offsets), offsets);
    } else if KindOf(c.requests[i]).Present? || c.faults.conversion != i {
      NonpresentReads(c, i + 1);
      ReadsCons(Convert(i), NonpresentWords(c, i + 1), offsets);
    }
  }

  lemma {:induction false} PointReads(c: Case, i: nat)
    requires i <= |c.requests|
    ensures ReadsFrom(PointWords(c, i), Sorted(PresentOffsets(c)))
    decreases |c.requests| - i
  {
    var offsets := Sorted(PresentOffsets(c));
    if i == |c.requests| {
      NonpresentReads(c, 0);
      ReadsCons(Classified, NonpresentWords(c, 0), offsets);
    } else {
      if !BadPoint(c, i) {
        PointReads(c, i + 1);
        ReadsCons(Classify(i, KindOf(c.requests[i])), PointWords(c, i + 1), offsets);
      }
      ReadsCons(Point(i), ClassifyWords(c, i), offsets);
    }
  }

  lemma {:induction false} DeclareReads(c: Case, i: nat)
    requires i <= |c.requests|
    ensures ReadsFrom(DeclareWords(c, i), Sorted(PresentOffsets(c)))
    decreases |c.requests| - i
  {
    var offsets := Sorted(PresentOffsets(c));
    if i == |c.requests| {
      PointReads(c, 0);
      ReadsCons(Declared, PointWords(c, 0), offsets);
    } else if c.requests[i].declaration {
      DeclareReads(c, i + 1);
      ReadsCons(Declare(i), DeclareWords(c, i + 1), offsets);
    }
  }

  // ----------------------------------------------------------- classification first

  ghost predicate Judged(c: Case, words: seq<Word>, n: nat)
    requires n <= |c.requests|
  {
    forall i: nat :: i < n ==> Classify(i, KindOf(c.requests[i])) in words
  }

  /** Before any frame is dispatched every request has been classified. */
  ghost predicate ReadsLate(c: Case, words: seq<Word>) {
    forall k :: 0 <= k < |words| && words[k].Dispatch? ==> Judged(c, words[..k], |c.requests|)
  }

  ghost predicate NoReads(words: seq<Word>) {
    forall k :: 0 <= k < |words| ==> !words[k].Dispatch?
  }

  lemma JudgedThenLate(c: Case, before: seq<Word>, rest: seq<Word>)
    requires NoReads(before) && Judged(c, before, |c.requests|)
    ensures ReadsLate(c, before + rest)
  {
    var words := before + rest;
    forall k | 0 <= k < |words| && words[k].Dispatch?
      ensures Judged(c, words[..k], |c.requests|)
    {
      assert k >= |before|;
      assert words[..k][..|before|] == before;
      forall i: nat | i < |c.requests|
        ensures Classify(i, KindOf(c.requests[i])) in words[..k]
      {
        assert Classify(i, KindOf(c.requests[i])) in before;
      }
    }
  }

  lemma NoneThenLate(c: Case, words: seq<Word>)
    requires NoReads(words)
    ensures ReadsLate(c, words)
  {
  }

  lemma JudgedMore(c: Case, before: seq<Word>, i: nat)
    requires i < |c.requests| && NoReads(before) && Judged(c, before, i)
    ensures var more := before + [Point(i), Classify(i, KindOf(c.requests[i]))]; NoReads(more) && Judged(c, more, i + 1)
  {
    var more := before + [Point(i), Classify(i, KindOf(c.requests[i]))];
    assert more[|before| + 1] == Classify(i, KindOf(c.requests[i]));
    forall j: nat | j < i
      ensures Classify(j, KindOf(c.requests[j])) in more
    {
      assert Classify(j, KindOf(c.requests[j])) in before;
    }
  }

  lemma {:induction false} PointLate(c: Case, before: seq<Word>, i: nat)
    requires i <= |c.requests| && NoReads(before) && Judged(c, before, i)
    ensures ReadsLate(c, before + PointWords(c, i))
    decreases |c.requests| - i, 1
  {
    if i == |c.requests| {
      JudgedThenLate(c, before, PointWords(c, i));
    } else if BadPoint(c, i) {
      PointUnfolds(c, i);
      NoneThenLate(c, before + [Point(i), Fail]);
    } else {
      ClassifyLate(c, before, i);
    }
  }

  lemma {:induction false} ClassifyLate(c: Case, before: seq<Word>, i: nat)
    requires i < |c.requests| && NoReads(before) && Judged(c, before, i) && !BadPoint(c, i)
    ensures ReadsLate(c, before + PointWords(c, i))
    decreases |c.requests| - i, 0
  {
    var two := [Point(i), Classify(i, KindOf(c.requests[i]))];
    JudgedMore(c, before, i);
    PointLate(c, before + two, i + 1);
    assert before + PointWords(c, i) == before + two + PointWords(c, i + 1) by {
      PointUnfolds(c, i);
      Joined(before, two, PointWords(c, i + 1));
    }
  }

  lemma Joined(a: seq<Word>, b: seq<Word>, c: seq<Word>)
    ensures a + (b + c) == a + b + c
  {
  }

  lemma {:induction false} DeclareLate(c: Case, before: seq<Word>, i: nat)
    requires i <= |c.requests| && NoReads(before)
    ensures ReadsLate(c, before + DeclareWords(c, i))
    decreases |c.requests| - i
  {
    if i == |c.requests| {
      PointLate(c, before + [Declared], 0);
      assert before + DeclareWords(c, i) == before + [Declared] + PointWords(c, 0);
    } else if c.requests[i].declaration {
      DeclareLate(c, before + [Declare(i)], i + 1);
      assert before + DeclareWords(c, i) == before + [Declare(i)] + DeclareWords(c, i + 1);
    } else {
      NoneThenLate(c, before + [Fail]);
    }
  }

  // ---------------------------------------------------------------------- every run

  lemma {:induction false} DispatchesPrefix(words: seq<Word>, n: nat)
    requires n <= |words|
    ensures Dispatches(words[..n]) <= Dispatches(words)
  {
    if n > 0 {
      DispatchesPrefix(words[1..], n - 1);
      assert words[..n][1..] == words[1..][..n - 1];
    }
  }

  /**
   * Whatever the run has read is a prefix of the distinct offsets of the present requests in ascending order,
   * so nothing is read twice and nothing is read for an absent or conflicting request; a returned batch has read
   * them all; and every request was classified before the first read.
   */
  lemma ReadsEachFrameOnce(c: Case, states: seq<State>, i: nat)
    requires Unique(c.receipts) && IsRun(c, states) && i < |states|
    ensures Dispatches(states[i].events) <= Sorted(PresentOffsets(c))
    ensures states[i].phase.AtDone? && states[i].ledger.output.result.Batch? ==>
        Dispatches(states[i].events) == Sorted(PresentOffsets(c))
    ensures ReadsLate(c, states[i].events)
  {
    AnswersOrNothing(c, states, i);
    RunKeeps(c, states, i);
    RunCounts(c, states, i);
    WordsRead(c);
    var n := |states[i].events|;
    assert states[i].events == Words(c)[..n];
    DispatchesPrefix(Words(c), n);
    LatePrefix(c, Words(c), n);
    if states[i].phase.AtDone? {
      assert Words(c)[..n] == Words(c);
    }
  }

  lemma LatePrefix(c: Case, words: seq<Word>, n: nat)
    requires ReadsLate(c, words) && n <= |words|
    ensures ReadsLate(c, words[..n])
  {
    forall k | 0 <= k < n && words[..n][k].Dispatch?
      ensures Judged(c, words[..n][..k], |c.requests|)
    {
      assert words[..n][..k] == words[..k];
    }
  }

  lemma WordsRead(c: Case)
    ensures ReadsFrom(Words(c), Sorted(PresentOffsets(c))) && ReadsLate(c, Words(c))
  {
    if c.admission {
      DeclareReads(c, 0);
      ReadsCons(Admit, DeclareWords(c, 0), Sorted(PresentOffsets(c)));
      DeclareLate(c, [Admit], 0);
    }
  }
}
