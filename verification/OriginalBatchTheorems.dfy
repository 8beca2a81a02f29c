/** Batch originals over whole runs: the oracle accepts, the answer is positional or absent, frames are read once. */
module OriginalBatchTheorems {
  import opened Options
  import opened OriginalBatch
  import opened OriginalBatchOracle
  import opened OriginalBatchRefinement
  import opened OriginalBatchAnswers

  // --------------------------------------------------------------------- the answer

  lemma PresentHasFrame(c: Case, i: nat) returns (g: nat)
    requires i < |c.requests| && KindOf(c.requests[i]).Present?
    ensures g < |Offsets(c, Kinds(c))| && Offsets(c, Kinds(c))[g] == c.requests[i].fact.value.offset
  {
    OffsetsAgree(c);
    assert c.requests[i].fact.value.offset in PresentOffsets(c);
    var offsets := Offsets(c, Kinds(c));
    assert c.requests[i].fact.value.offset in offsets;
    var k :| 0 <= k < |offsets| && offsets[k] == c.requests[i].fact.value.offset;
    g := k;
  }

  /** Once every frame is done with, each request is verified or needs no frame, and is kept if streamed. */
  lemma AllReady(c: Case, k: Cursor, values: seq<(nat, Value)>, i: nat)
    requires FramesSettled(c, k, values) && k.group == |Offsets(c, Kinds(c))| && i < |c.requests|
    ensures c.stream ==> Has(values, i)
    ensures KindOf(c.requests[i]).Present? ==> Matches(c, i, c.requests[i].fact.value.offset)
  {
    if KindOf(c.requests[i]).Present? {
      var g := PresentHasFrame(c, i);
      assert Verified(c, Offsets(c, Kinds(c))[g]);
      assert Wants(c, i, Offsets(c, Kinds(c))[g]);
    }
  }

  lemma RetainedAnswers(c: Case, k: Cursor, values: seq<(nat, Value)>)
    requires FramesSettled(c, k, values) && k.group == |Offsets(c, Kinds(c))|
    ensures Answers(c, Kinds(c)) == FullAnswer(c)
  {
    forall i: nat | i < |c.requests|
      ensures Answers(c, Kinds(c))[i] == FullAnswer(c)[i]
    {
      AllReady(c, k, values, i);
      AnswerIsValue(c, i);
    }
  }

  lemma StreamedAnswers(c: Case, k: Cursor, values: seq<(nat, Value)>)
    requires FramesSettled(c, k, values) && k.group == |Offsets(c, Kinds(c))| && c.stream && ValuesFit(c, values)
    ensures Collected(values, |c.requests|) == Some(FullAnswer(c))
  {
    forall i: nat | i < |c.requests|
      ensures Has(values, i)
    {
      AllReady(c, k, values, i);
    }
    CollectedFits(c, values, |c.requests|);
    assert FullAnswer(c)[..|c.requests|] == FullAnswer(c);
  }

  lemma ReturnsFullAnswer(c: Case, s: State)
    requires CursorFit(c, s) && Settled(c, s) && s.phase.AtDispatch? && s.cursor.group == |Offsets(c, Kinds(c))|
    ensures Step(c, s) == Some(Emit(s, Return, AtBorrow, s.cursor, s.ledger.(output := Output(FullAnswer(c), Batch))))
  {
    FactsKnown(c, s.ledger.facts);
    if c.stream {
      StreamedAnswers(c, s.cursor, s.ledger.owned.values);
    } else {
      RetainedAnswers(c, s.cursor, s.ledger.owned.values);
    }
  }

  lemma FrameTotal(c: Case, s: State)
    requires CursorFit(c, s) && (s.phase.AtRead? || s.phase.AtVerify? || s.phase.AtConvert?)
    ensures Step(c, s).Some?
  {
    StepInFrame(c, s, Offsets(c, Kinds(c))[s.cursor.group]);
  }

  lemma OtherTotal(c: Case, s: State)
    requires CursorFit(c, s) && !s.phase.AtDone? && !s.phase.AtNonpresent? && !s.phase.AtDispatch?
    requires !s.phase.AtRead? && !s.phase.AtVerify? && !s.phase.AtConvert?
    ensures Step(c, s).Some?
  {
  }

  /** The batch never gets stuck before it is done. */
  lemma StepTotal(c: Case, s: State)
    requires CursorFit(c, s) && Settled(c, s) && !s.phase.AtDone?
    ensures Step(c, s).Some?
  {
    if s.phase.AtDispatch? && s.cursor.group == |Offsets(c, Kinds(c))| {
      ReturnsFullAnswer(c, s);
    } else if s.phase.AtNonpresent? || s.phase.AtDispatch? {
      StepInList(c, s);
    } else if s.phase.AtRead? || s.phase.AtVerify? || s.phase.AtConvert? {
      FrameTotal(c, s);
    } else {
      OtherTotal(c, s);
    }
  }

  // ---------------------------------------------------------------------- the books

  /** The step does to the ledger what its word says. */
  ghost predicate Accounts(c: Case, s: State, t: State) {
    forall w {:trigger Emits(s, t, w)} :: Emits(s, t, w) ==> t.ledger == Account(c, s.ledger, w)
  }

  lemma OneWord(s: State, t: State, w: Word, v: Word)
    requires Emits(s, t, w) && Emits(s, t, v)
    ensures w == v
  {
    assert t.events[|s.events|] == w && t.events[|s.events|] == v;
  }

  lemma AccountsBy(c: Case, s: State, t: State, w: Word)
    requires Emits(s, t, w) && t.ledger == Account(c, s.ledger, w)
    ensures Accounts(c, s, t)
  {
    forall v | Emits(s, t, v)
      ensures t.ledger == Account(c, s.ledger, v)
    {
      OneWord(s, t, w, v);
    }
  }

  lemma EarlyAccounts(c: Case, s: State, t: State)
    requires CursorFit(c, s) && Step(c, s) == Some(t)
    requires s.phase.AtAdmit? || s.phase.AtDeclare? || s.phase.AtPoint? || s.phase.AtClassify?
    ensures Accounts(c, s, t)
  {
    var i := s.cursor.index;
    var w := if s.phase.AtAdmit? then (if c.admission then Admit else Fail)
             else if s.phase.AtDeclare? then
               (if i == |c.requests| then Declared else if c.requests[i].declaration then Declare(i) else Fail)
             else if s.phase.AtPoint? then (if i == |c.requests| then Classified else Point(i))
             else if BadPoint(c, i) then Fail else Classify(i, KindOf(c.requests[i]));
    AccountsBy(c, s, t, w);
  }

  lemma EndAccounts(c: Case, s: State, t: State)
    requires CursorFit(c, s) && Step(c, s) == Some(t)
    requires (s.phase.AtError? || s.phase.AtBorrow? || s.phase.AtDrop? || s.phase.AtRetire?)
    ensures Accounts(c, s, t)
  {
    AccountsBy(c, s, t, if s.phase.AtError? then Fail else if s.phase.AtBorrow? then Borrow
               else if s.phase.AtDrop? then Drop else Retire);
  }

  /** A conversion keeps what the books say it must: the verified receipt itself. */
  lemma ConversionAccounts(c: Case, l: Ledger, i: nat)
    requires FactsFit(c, l.facts, |c.requests|) && i < |c.requests|
    requires KindOf(c.requests[i]).Present? ==> Matches(c, i, c.requests[i].fact.value.offset)
    ensures Account(c, l, Convert(i)) == Converted(l, i, ValueFor(c.requests[i], KindOf(c.requests[i])))
  {
    AnswerIsValue(c, i);
  }

  lemma NonpresentAccounts(c: Case, s: State, t: State)
    requires CursorFit(c, s) && Step(c, s) == Some(t) && s.phase.AtNonpresent?
    ensures Accounts(c, s, t)
  {
    FactsKnown(c, s.ledger.facts);
    var ps, k := Nonpresent(c, Kinds(c)), s.cursor.index;
    if k < |ps| {
      var ks := Kinds(c);
      var flags := seq(|ks|, i requires 0 <= i < |ks| => c.stream && !ks[i].Present?);
      assert flags[ps[k]];
      ConversionAccounts(c, s.ledger, ps[k]);
    }
    AccountsBy(c, s, t, if k == |ps| then Groups else if c.faults.conversion == ps[k] then Fail else Convert(ps[k]));
  }

  lemma DispatchAccounts(c: Case, s: State, t: State)
    requires s.ledger.facts.classes == Kinds(c) && s.cursor.group < |Offsets(c, Kinds(c))|
    requires DispatchStep(c, s) == Some(t)
    ensures Accounts(c, s, t)
  {
    AccountsBy(c, s, t, Dispatch(Offsets(c, Kinds(c))[s.cursor.group]));
  }

  lemma ReadAccounts(c: Case, s: State, offset: nat)
    ensures Accounts(c, s, ReadStep(c, s, offset))
  {
    AccountsBy(c, s, ReadStep(c, s, offset),
               if c.faults.read == offset then ReadError(offset) else if c.faults.cancel == offset then Cancel
                   else Read(offset));
  }

  lemma VerifyAccounts(c: Case, s: State, t: State, offset: nat)
    requires s.ledger.facts.classes == Kinds(c) && VerifyStep(c, s, offset) == Some(t)
    ensures Accounts(c, s, t)
  {
    var k, ms := s.cursor.member, Members(c, Kinds(c), offset);
    AccountsBy(c, s, t, if k == |ms| then (if c.stream then VerifiedGroup(offset) else Retained(offset))
                        else if Matches(c, ms[k], offset) then Verify(ms[k]) else Fail);
  }

  lemma ConvertAccounts(c: Case, s: State, t: State, offset: nat)
    requires s.ledger.facts.classes == Kinds(c) && FactsFit(c, s.ledger.facts, |c.requests|) && Verified(c, offset)
    requires ConvertStep(c, s, offset) == Some(t)
    ensures Accounts(c, s, t)
  {
    var k, ms := s.cursor.member, Members(c, Kinds(c), offset);
    if k < |ms| {
      MemberListed(c, offset, ms[k]);
      ConversionAccounts(c, s.ledger, ms[k]);
    }
    AccountsBy(c, s, t, if k == |ms| then Release(offset) else if c.faults.conversion == ms[k] then Fail
               else Convert(ms[k]));
  }

  lemma FrameAccounts(c: Case, s: State, t: State)
    requires CursorFit(c, s) && Settled(c, s) && Step(c, s) == Some(t)
    requires (s.phase.AtRead? || s.phase.AtVerify? || s.phase.AtConvert?)
    ensures Accounts(c, s, t)
  {
    var offset := Offsets(c, Kinds(c))[s.cursor.group];
    StepInFrame(c, s, offset);
    if s.phase.AtRead? {
      ReadAccounts(c, s, offset);
    } else if s.phase.AtVerify? {
      VerifyAccounts(c, s, t, offset);
    } else {
      ConvertAccounts(c, s, t, offset);
    }
  }

  lemma ReturnAccounts(c: Case, s: State, answer: seq<Value>)
    requires answer == Expected(c)
    ensures Accounts(c, s, Emit(s, Return, AtBorrow, s.cursor, s.ledger.(output := Output(answer, Batch))))
  {
    AccountsBy(c, s, Emit(s, Return, AtBorrow, s.cursor, s.ledger.(output := Output(answer, Batch))), Return);
  }

  lemma StepAccounts(c: Case, s: State, t: State)
    requires CursorFit(c, s) && Settled(c, s) && Step(c, s) == Some(t)
    requires s.phase.AtDispatch? && s.cursor.group == |Offsets(c, Kinds(c))| ==> Expected(c) == FullAnswer(c)
    ensures Accounts(c, s, t)
  {
    if s.phase.AtNonpresent? {
      NonpresentAccounts(c, s, t);
    } else if s.phase.AtDispatch? && s.cursor.group == |Offsets(c, Kinds(c))| {
      ReturnsFullAnswer(c, s);
      ReturnAccounts(c, s, FullAnswer(c));
    } else if s.phase.AtDispatch? {
      FactsKnown(c, s.ledger.facts);
      DispatchAccounts(c, s, t);
    } else if s.phase.AtRead? || s.phase.AtVerify? || s.phase.AtConvert? {
      FrameAccounts(c, s, t);
    } else if s.phase.AtError? || s.phase.AtBorrow? || s.phase.AtDrop? || s.phase.AtRetire? {
      EndAccounts(c, s, t);
    } else {
      EarlyAccounts(c, s, t);
    }
  }

  // ------------------------------------------------------------------ every run

  /** What is still to come completes the reference words. */
  ghost predicate Tracked(c: Case, s: State) {
    CursorFit(c, s) && s.events + Rest(c, s) == Words(c) && s.cut == c.cut
  }

  /** The books are what the words so far make of them. */
  ghost predicate Kept(c: Case, s: State) {
    Settled(c, s) && s.ledger == Books(c, s.events)
  }

  lemma StartTracked(c: Case)
    ensures Tracked(c, Start(c)) && Kept(c, Start(c))
  {
    assert [] + Words(c) == Words(c);
  }

  lemma StepTracks(c: Case, s: State, t: State)
    requires Unique(c.receipts) && Tracked(c, s) && Step(c, s) == Some(t)
    ensures Tracked(c, t)
  {
    StepFollows(c, s, t);
    Shifted(c, s, t);
  }

  lemma Shifted(c: Case, s: State, t: State)
    requires Tracked(c, s) && Follows(c, s, t)
    ensures Tracked(c, t)
  {
    var w :| Emits(s, t, w) && Rest(c, s) == [w] + Rest(c, t);
    Regrouped(s.events, w, Rest(c, t));
  }

  lemma Regrouped(before: seq<Word>, w: Word, after: seq<Word>)
    ensures (before + [w]) + after == before + ([w] + after)
  {
  }

  lemma ReturnExpected(c: Case, s: State)
    requires Tracked(c, s) && s.phase.AtDispatch? && s.cursor.group == |Offsets(c, Kinds(c))|
    ensures Expected(c) == FullAnswer(c)
  {
    assert Rest(c, s)[0] == Return;
    assert (s.events + Rest(c, s))[|s.events|] == Return;
  }

  lemma StepKeeps(c: Case, s: State, t: State)
    requires Unique(c.receipts) && Tracked(c, s) && Kept(c, s) && Step(c, s) == Some(t)
    ensures Kept(c, t)
  {
    StepSettles(c, s, t);
    if s.phase.AtDispatch? && s.cursor.group == |Offsets(c, Kinds(c))| {
      ReturnExpected(c, s);
    }
    StepAccounts(c, s, t);
    StepFollows(c, s, t);
    BooksKept(c, s, t);
  }

  lemma BooksKept(c: Case, s: State, t: State)
    requires CursorFit(c, s) && Follows(c, s, t) && Accounts(c, s, t) && s.ledger == Books(c, s.events)
    ensures t.ledger == Books(c, t.events)
  {
    var w :| Emits(s, t, w) && Rest(c, s) == [w] + Rest(c, t);
    assert t.events[..|s.events|] == s.events && t.events[|s.events|] == w;
  }

  /** The states the batch goes through; it is deterministic. */
  ghost predicate IsRun(c: Case, states: seq<State>) {
    && |states| > 0 && states[0] == Start(c)
    && forall i :: 0 <= i < |states| - 1 ==> Step(c, states[i]) == Some(states[i + 1])
  }

  lemma {:induction false} RunKeeps(c: Case, states: seq<State>, i: nat)
    requires Unique(c.receipts) && IsRun(c, states) && i < |states|
    ensures Tracked(c, states[i]) && Kept(c, states[i])
  {
    if i == 0 {
      StartTracked(c);
    } else {
      RunKeeps(c, states, i - 1);
      StepTracks(c, states[i - 1], states[i]);
      StepKeeps(c, states[i - 1], states[i]);
    }
  }

  /** The independent oracle accepts every reachable state. */
  lemma OracleAccepts(c: Case, states: seq<State>, i: nat)
    requires Unique(c.receipts) && IsRun(c, states) && i < |states|
    ensures Verdict(c, states[i]) == None
  {
    RunKeeps(c, states, i);
    assert states[i].events <= Words(c);
  }

  // ------------------------------------------------------------- answer or nothing

  /** The output is empty until the full answer is returned, and stays as returned. */
  ghost predicate OutputFit(c: Case, s: State) {
    var out := s.ledger.output;
    && (Return in s.events ==> out.result.Batch?)
    && match s.phase
       case AtBorrow => out == Output(FullAnswer(c), Batch)
       case AtDrop => out == Output(FullAnswer(c), Batch)
       case AtRetire => out == Output([], Cancelled)
       case AtDone => out == Output(FullAnswer(c), Batch) || out == Output([], Unknown) || out == Output([], Cancelled)
       case _ => out == Output([], NoResult)
  }

  lemma ReadOutput(c: Case, s: State, offset: nat)
    requires OutputFit(c, s) && s.phase.AtRead?
    ensures OutputFit(c, ReadStep(c, s, offset))
  {
  }

  lemma MemberOutput(c: Case, s: State, t: State, offset: nat)
    requires OutputFit(c, s) && s.ledger.facts.classes == Kinds(c)
    requires (s.phase.AtVerify? && VerifyStep(c, s, offset) == Some(t))
        || (s.phase.AtConvert? && ConvertStep(c, s, offset) == Some(t))
    ensures OutputFit(c, t)
  {
  }

  lemma FrameOutput(c: Case, s: State, t: State)
    requires CursorFit(c, s) && OutputFit(c, s) && Step(c, s) == Some(t)
    requires (s.phase.AtRead? || s.phase.AtVerify? || s.phase.AtConvert?)
    ensures OutputFit(c, t)
  {
    var offset := Offsets(c, Kinds(c))[s.cursor.group];
    StepInFrame(c, s, offset);
    if s.phase.AtRead? {
      ReadOutput(c, s, offset);
    } else {
      MemberOutput(c, s, t, offset);
    }
  }

  lemma ConvertingOutput(c: Case, s: State, t: State)
    requires OutputFit(c, s) && s.phase.AtNonpresent? && Known(c, s.ledger.facts.classes)
    requires s.cursor.index <= |Nonpresent(c, s.ledger.facts.classes)| && NonpresentStep(c, s) == Some(t)
    ensures OutputFit(c, t)
  {
  }

  lemma ListOutput(c: Case, s: State, t: State)
    requires CursorFit(c, s) && Settled(c, s) && OutputFit(c, s) && Step(c, s) == Some(t)
    requires (s.phase.AtNonpresent? || s.phase.AtDispatch?)
    ensures OutputFit(c, t)
  {
    StepInList(c, s);
    if s.phase.AtNonpresent? {
      ConvertingOutput(c, s, t);
    } else if s.cursor.group == |Offsets(c, Kinds(c))| {
      ReturnsFullAnswer(c, s);
    }
  }

  lemma StepOutput(c: Case, s: State, t: State)
    requires CursorFit(c, s) && Settled(c, s) && OutputFit(c, s) && Step(c, s) == Some(t)
    ensures OutputFit(c, t)
  {
    if s.phase.AtNonpresent? || s.phase.AtDispatch? {
      ListOutput(c, s, t);
    } else if s.phase.AtRead? || s.phase.AtVerify? || s.phase.AtConvert? {
      FrameOutput(c, s, t);
    }
  }

  lemma {:induction false} RunOutput(c: Case, states: seq<State>, i: nat)
    requires Unique(c.receipts) && IsRun(c, states) && i < |states|
    ensures OutputFit(c, states[i])
  {
    if i > 0 {
      RunOutput(c, states, i - 1);
      RunKeeps(c, states, i - 1);
      StepOutput(c, states[i - 1], states[i]);
    }
  }

  lemma {:induction false} RunCounts(c: Case, states: seq<State>, i: nat)
    requires Unique(c.receipts) && IsRun(c, states) && i < |states|
    ensures |states[i].events| == i
  {
    if i > 0 {
      RunCounts(c, states, i - 1);
      RunKeeps(c, states, i - 1);
      StepFollows(c, states[i - 1], states[i]);
    }
  }

  /**
   * The batch ends after exactly the reference words and never gets stuck before. Nothing is returned on the way;
   * at the end either the whole positional answer is returned, or nothing at all.
   */
  lemma AnswersOrNothing(c: Case, states: seq<State>, i: nat)
    requires Unique(c.receipts) && IsRun(c, states) && i < |states|
    ensures i <= |Words(c)| && (states[i].phase.AtDone? <==> i == |Words(c)|)
    ensures !states[i].phase.AtDone? ==> Step(c, states[i]).Some?
    ensures states[i].ledger.output.returned == [] || states[i].ledger.output == Output(FullAnswer(c), Batch)
    ensures states[i].phase.AtDone? ==> states[i].ledger.output.returned == Expected(c)
    ensures states[i].phase.AtDone? ==> (states[i].ledger.output.result.Batch? <==> Return in Words(c))
  {
    RunKeeps(c, states, i);
    RunOutput(c, states, i);
    RunCounts(c, states, i);
    RestEmpty(c, states[i]);
    if states[i].phase.AtDone? {
      assert states[i].events == Words(c);
      ReturnBooked(c, states[i].events);
    } else {
      StepTotal(c, states[i]);
    }
  }

  lemma RestEmpty(c: Case, s: State)
    requires CursorFit(c, s)
    ensures Rest(c, s) == [] <==> s.phase.AtDone?
  {
    if s.phase.AtNonpresent? {
      RestNonpresent(c, s);
      NonpresentNonempty(c, Nonpresent(c, Kinds(c)), s.cursor.index);
    } else if s.phase.AtVerify? {
      RestVerify(c, s);
      VerifyNonempty(c, FramesFrom(c, s.cursor.group), s.cursor.member);
    } else if s.phase.AtConvert? {
      RestConvert(c, s);
      ConvertNext(c, FramesFrom(c, s.cursor.group), s.cursor.member);
    } else {
      PlainNonempty(c, s);
    }
  }

  /** Outside the lists of converted positions and members the next word is plain to see. */
  lemma PlainNonempty(c: Case, s: State)
    requires CursorFit(c, s) && !s.phase.AtNonpresent? && !s.phase.AtVerify? && !s.phase.AtConvert?
    ensures Rest(c, s) == [] <==> s.phase.AtDone?
  {
  }

  lemma NonpresentNonempty(c: Case, ps: seq<nat>, k: nat)
    requires ps == Nonpresent(c, Kinds(c)) && k <= |ps|
    ensures NonpresentRest(c, k) != []
  {
    if k == |ps| {
      NonpresentLast(c, k);
    } else {
      NonpresentNext(c, ps, k);
    }
  }

  lemma VerifyNonempty(c: Case, offsets: seq<nat>, k: nat)
    requires offsets != [] && k <= |Members(c, Kinds(c), offsets[0])|
    ensures VerifyRest(c, offsets, k) != []
  {
    VerifyTo(c, offsets, k);
  }

  /** A result is booked by the word that gives it. */
  lemma {:induction false} ReturnBooked(c: Case, events: seq<Word>)
    ensures Return !in events ==> !Books(c, events).output.result.Batch?
    ensures Books(c, events).output.result.Batch? ==> Return in events
  {
    if events != [] {
      ReturnBooked(c, events[..|events| - 1]);
    }
  }
}
