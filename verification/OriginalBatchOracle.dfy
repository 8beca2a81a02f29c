/**
 * The independent reference for batch originals: the full word list and positional answer of a case, read
 * off the immutable requests alone, and the bookkeeping that must follow from any prefix of the words.
 */
module OriginalBatchOracle {
  import opened Options
  import opened Ordering
  import opened OriginalBatch

  // ---------------------------------------------------------------------- words

  // The reference derives nothing with the batch's helpers: it has its own, each proved to agree.

  /** Every receipt of the frame with the identity. */
  function Candidates(receipts: seq<Receipt>, offset: nat, domain: int, literal: string): (found: seq<Receipt>)
    ensures Actual(receipts, offset, domain, literal) == if found == [] then None else Some(found[0])
  {
    if receipts == [] then []
    else
      var r := receipts[0];
      (if r.offset == offset && r.domain == domain && r.literal == literal then [r] else [])
      + Candidates(receipts[1..], offset, domain, literal)
  }

  function Classification(r: Request): (kind: Kind)
    ensures kind == KindOf(r)
  {
    match r.fact
    case None => Absent
    case Some(fact) =>
      if r.expected.None? then Present
      else if r.expected.value == fact.fingerprint && r.expectedFormat == fact.format then Present
      else Conflict
  }

  /** The fields of a receipt that identify and locate it. */
  function Fields(r: Receipt): (stamp: Stamp)
    ensures stamp == StampOf(r)
  {
    Stamp(offset := r.offset, domain := r.domain, literal := r.literal, format := r.format,
          fingerprint := r.fingerprint, checksum := r.checksum,
          start := r.start, length := r.length, digest := r.digest)
  }

  function FactFields(fact: Option<Receipt>): (stamp: Option<Stamp>)
    ensures stamp == Observation(fact)
  {
    match fact
    case None => None
    case Some(receipt) => Some(Fields(receipt))
  }

  /** What the frame holds for a request, as outcome and fields; nothing unless the request is present. */
  function Held(c: Case, r: Request, kind: Kind): Option<(string, Stamp)> {
    if !kind.Present? || r.fact.None? then None
    else
      var found := Candidates(c.receipts, r.fact.value.offset, r.domain, r.literal);
      if found == [] then None else Some((found[0].outcome, Fields(found[0])))
  }

  /** The request wants its original from the frame. */
  predicate Wants(c: Case, i: nat, offset: nat)
    requires i < |c.requests|
  {
    Classification(c.requests[i]).Present? && c.requests[i].fact.value.offset == offset
  }

  /** The frame holds one receipt of the identity, and it is the observed one. */
  predicate Genuine(c: Case, i: nat, offset: nat)
    requires i < |c.requests|
  {
    var r := c.requests[i];
    var found := Candidates(c.receipts, offset, r.domain, r.literal);
    |found| == 1 && r.fact == Some(found[0])
  }

  function PresentOffsets(c: Case): set<nat> {
    set r | r in c.requests && Classification(r).Present? :: r.fact.value.offset
  }

  function DeclareWords(c: Case, i: nat): seq<Word>
    requires i <= |c.requests|
    decreases |c.requests| - i
  {
    if i == |c.requests| then [Declared] + PointWords(c, 0)
    else if !c.requests[i].declaration then [Fail]
    else [Declare(i)] + DeclareWords(c, i + 1)
  }

  function PointWords(c: Case, i: nat): seq<Word>
    requires i <= |c.requests|
    decreases |c.requests| - i, 1
  {
    if i == |c.requests| then [Classified] + NonpresentWords(c, 0)
    else [Point(i)] + ClassifyWords(c, i)
  }

  function ClassifyWords(c: Case, i: nat): seq<Word>
    requires i < |c.requests|
    decreases |c.requests| - i, 0
  {
    if BadPoint(c, i) then [Fail] else [Classify(i, Classification(c.requests[i]))] + PointWords(c, i + 1)
  }

  function NonpresentWords(c: Case, i: nat): seq<Word>
    requires i <= |c.requests|
    decreases |c.requests| - i
  {
    if !c.stream || i == |c.requests| then [Groups] + FrameWords(c, Sorted(PresentOffsets(c)))
    else if Classification(c.requests[i]).Present? then NonpresentWords(c, i + 1)
    else if c.faults.conversion == i then [Fail]
    else [Convert(i)] + NonpresentWords(c, i + 1)
  }

  function FrameWords(c: Case, offsets: seq<nat>): seq<Word>
    decreases |offsets|, 2
  {
    if offsets == [] then [Return, Borrow, Drop] else [Dispatch(offsets[0])] + ReadWords(c, offsets)
  }

  function ReadWords(c: Case, offsets: seq<nat>): seq<Word>
    requires offsets != []
    decreases |offsets|, 1, |c.requests| + 1
  {
    if c.faults.read == offsets[0] then [ReadError(offsets[0]), Fail]
    else if c.faults.cancel == offsets[0] then [Cancel, Retire]
    else [Read(offsets[0])] + VerifyWords(c, offsets, 0)
  }

  function VerifyWords(c: Case, offsets: seq<nat>, i: nat): seq<Word>
    requires offsets != [] && i <= |c.requests|
    decreases |offsets|, 1, |c.requests| - i
  {
    if i == |c.requests| then
      if c.stream then [VerifiedGroup(offsets[0])] + ConvertWords(c, offsets, 0)
      else [Retained(offsets[0])] + FrameWords(c, offsets[1..])
    else if !Wants(c, i, offsets[0]) then VerifyWords(c, offsets, i + 1)
    else if !Genuine(c, i, offsets[0]) then [Fail]
    else [Verify(i)] + VerifyWords(c, offsets, i + 1)
  }

  function ConvertWords(c: Case, offsets: seq<nat>, i: nat): seq<Word>
    requires offsets != [] && i <= |c.requests|
    decreases |offsets|, 0, |c.requests| - i
  {
    if i == |c.requests| then [Release(offsets[0])] + FrameWords(c, offsets[1..])
    else if !Wants(c, i, offsets[0]) then ConvertWords(c, offsets, i + 1)
    else if c.faults.conversion == i then [Fail]
    else [Convert(i)] + ConvertWords(c, offsets, i + 1)
  }

  /** Every word of the case, from admission to the end. */
  function Words(c: Case): seq<Word> {
    if !c.admission then [Fail] else [Admit] + DeclareWords(c, 0)
  }

  /** The positional answer for one request. */
  function Answer(c: Case, r: Request): Value {
    var kind := Classification(r);
    Value(kind, r.domain, r.literal, FactFields(r.fact), Held(c, r, kind))
  }

  function FullAnswer(c: Case): seq<Value> {
    seq(|c.requests|, i requires 0 <= i < |c.requests| => Answer(c, c.requests[i]))
  }

  /** The answer of the case: everything, or nothing at all. */
  function Expected(c: Case): seq<Value> {
    if Return in Words(c) then FullAnswer(c) else []
  }

  // ------------------------------------------------------------------- reference

  /** `words` have been said, none of them a return, and `rest` completes the whole. */
  ghost predicate Said(words: seq<Word>, rest: seq<Word>, whole: seq<Word>) {
    words + rest == whole && Return !in words
  }

  lemma SayNothing(whole: seq<Word>)
    ensures Said([], whole, whole)
  {
  }

  lemma Say(words: seq<Word>, more: seq<Word>, rest: seq<Word>, whole: seq<Word>)
    requires Said(words, more + rest, whole) && Return !in more
    ensures Said(words + more, rest, whole)
  {
    assert (words + more) + rest == words + (more + rest);
  }

  lemma SayLast(words: seq<Word>, more: seq<Word>, whole: seq<Word>)
    requires Said(words, more, whole) && Return !in more
    ensures words + more == whole && Return !in whole
  {
  }

  method VerifyFrame(c: Case, offsets: seq<nat>) returns (words: seq<Word>, selected: seq<nat>, stopped: bool)
    requires offsets != []
    ensures if stopped then words == VerifyWords(c, offsets, 0) && Return !in words
            else Said(words, VerifyWords(c, offsets, |c.requests|), VerifyWords(c, offsets, 0))
    ensures !stopped ==> forall i :: i in selected <==> 0 <= i < |c.requests| && Wants(c, i, offsets[0])
    ensures Ascending(selected)
  {
    words, selected, stopped := [], [], false;
    ghost var whole := VerifyWords(c, offsets, 0);
    SayNothing(whole);
    for i := 0 to |c.requests|
      invariant Said(words, VerifyWords(c, offsets, i), whole)
      invariant forall k :: k in selected <==> 0 <= k < i && Wants(c, k, offsets[0])
      invariant Ascending(selected) && forall k :: 0 <= k < |selected| ==> selected[k] < i
    {
      if Wants(c, i, offsets[0]) {
        selected := selected + [i];
        if !Genuine(c, i, offsets[0]) {
          SayLast(words, [Fail], whole);
          return words + [Fail], selected, true;
        }
        Say(words, [Verify(i)], VerifyWords(c, offsets, i + 1), whole);
        words := words + [Verify(i)];
      }
    }
  }

  /** Requests of other frames leave no word. */
  lemma {:induction false} SkipConvert(c: Case, offsets: seq<nat>, i: nat, j: nat)
    requires offsets != [] && i <= j <= |c.requests| && forall k :: i <= k < j ==> !Wants(c, k, offsets[0])
    ensures ConvertWords(c, offsets, i) == ConvertWords(c, offsets, j)
    decreases j - i
  {
    if i < j { SkipConvert(c, offsets, i + 1, j); }
  }

  method ConvertFrame(c: Case, offsets: seq<nat>, selected: seq<nat>) returns (words: seq<Word>, stopped: bool)
    requires offsets != [] && Ascending(selected)
    requires forall i :: i in selected <==> 0 <= i < |c.requests| && Wants(c, i, offsets[0])
    ensures if stopped then words == ConvertWords(c, offsets, 0) && Return !in words
            else Said(words, ConvertWords(c, offsets, |c.requests|), ConvertWords(c, offsets, 0))
  {
    words, stopped := [], false;
    ghost var next: nat, whole := 0, ConvertWords(c, offsets, 0);
    SayNothing(whole);
    for k := 0 to |selected|
      invariant next <= |c.requests| && next == if k == 0 then 0 else selected[k - 1] + 1
      invariant Said(words, ConvertWords(c, offsets, next), whole)
    {
      var i := selected[k];
      assert i in selected;
      SkipConvert(c, offsets, next, i);
      if c.faults.conversion == i {
        SayLast(words, [Fail], whole);
        return words + [Fail], true;
      }
      Say(words, [Convert(i)], ConvertWords(c, offsets, i + 1), whole);
      words := words + [Convert(i)];
      next := i + 1;
    }
    SkipConvert(c, offsets, next, |c.requests|);
  }

  method DeclareAll(c: Case) returns (words: seq<Word>, stopped: bool)
    ensures if stopped then words == DeclareWords(c, 0) && Return !in words
        else Said(words, PointWords(c, 0), DeclareWords(c, 0))
  {
    words, stopped := [], false;
    ghost var whole := DeclareWords(c, 0);
    SayNothing(whole);
    for i := 0 to |c.requests|
      invariant Said(words, DeclareWords(c, i), whole)
    {
      if !c.requests[i].declaration {
        SayLast(words, [Fail], whole);
        return words + [Fail], true;
      }
      Say(words, [Declare(i)], DeclareWords(c, i + 1), whole);
      words := words + [Declare(i)];
    }
    Say(words, [Declared], PointWords(c, 0), whole);
    words := words + [Declared];
  }

  lemma PointUnfolds(c: Case, i: nat)
    requires i < |c.requests|
    ensures PointWords(c, i) == if BadPoint(c, i) then [Point(i), Fail]
        else [Point(i), Classify(i, Classification(c.requests[i]))] + PointWords(c, i + 1)
  {
  }

  method ClassifyAll(c: Case) returns (words: seq<Word>, statuses: seq<Kind>, stopped: bool)
    ensures if stopped then words == PointWords(c, 0) && Return !in words
        else Said(words, NonpresentWords(c, 0), PointWords(c, 0))
    ensures !stopped ==> |statuses| == |c.requests| && forall i :: 0 <= i < |statuses| ==>
        statuses[i] == Classification(c.requests[i])
  {
    words, statuses, stopped := [], [], false;
    ghost var whole := PointWords(c, 0);
    SayNothing(whole);
    for i := 0 to |c.requests|
      invariant Said(words, PointWords(c, i), whole)
      invariant |statuses| == i && forall k :: 0 <= k < i ==> statuses[k] == Classification(c.requests[k])
    {
      PointUnfolds(c, i);
      if BadPoint(c, i) {
        SayLast(words, [Point(i), Fail], whole);
        return words + [Point(i), Fail], statuses, true;
      }
      statuses := statuses + [Classification(c.requests[i])];
      Say(words, [Point(i), Classify(i, Classification(c.requests[i]))], PointWords(c, i + 1), whole);
      words := words + [Point(i), Classify(i, Classification(c.requests[i]))];
    }
    Say(words, [Classified], NonpresentWords(c, 0), whole);
    words := words + [Classified];
  }

  lemma NonpresentUnfolds(c: Case, i: nat)
    requires i <= |c.requests|
    ensures NonpresentWords(c, i) ==
              if !c.stream || i == |c.requests| then [Groups] + FrameWords(c, Sorted(PresentOffsets(c)))
              else if Classification(c.requests[i]).Present? then NonpresentWords(c, i + 1)
              else if c.faults.conversion == i then [Fail] else [Convert(i)] + NonpresentWords(c, i + 1)
  {
  }

  method ConvertNonpresent(c: Case, statuses: seq<Kind>) returns (words: seq<Word>, stopped: bool)
    requires |statuses| == |c.requests| && forall i :: 0 <= i < |statuses| ==>
        statuses[i] == Classification(c.requests[i])
    ensures if stopped then words == NonpresentWords(c, 0) && Return !in words
            else Said(words, FrameWords(c, Sorted(PresentOffsets(c))), NonpresentWords(c, 0))
  {
    words, stopped := [], false;
    ghost var whole, frames := NonpresentWords(c, 0), FrameWords(c, Sorted(PresentOffsets(c)));
    SayNothing(whole);
    if c.stream {
      for i := 0 to |statuses|
        invariant Said(words, NonpresentWords(c, i), whole)
      {
        NonpresentUnfolds(c, i);
        if !statuses[i].Present? {
          if c.faults.conversion == i {
            SayLast(words, [Fail], whole);
            return words + [Fail], true;
          }
          Say(words, [Convert(i)], NonpresentWords(c, i + 1), whole);
          words := words + [Convert(i)];
        }
      }
      NonpresentUnfolds(c, |statuses|);
    } else {
      NonpresentUnfolds(c, 0);
    }
    Say(words, [Groups], frames, whole);
    words := words + [Groups];
  }

  method ReadFrame(c: Case, offsets: seq<nat>) returns (words: seq<Word>, stopped: bool)
    requires offsets != []
    ensures if stopped then words == FrameWords(c, offsets) && Return !in words
        else Said(words, FrameWords(c, offsets[1..]), FrameWords(c, offsets))
  {
    if c.faults.read == offsets[0] {
      return [Dispatch(offsets[0]), ReadError(offsets[0]), Fail], true;
    }
    if c.faults.cancel == offsets[0] {
      return [Dispatch(offsets[0]), Cancel, Retire], true;
    }
    words := [Dispatch(offsets[0]), Read(offsets[0])];
    var members, failed := ReadMembers(c, offsets);
    if failed {
      return words + members, true;
    }
    assert Said(words, members + FrameWords(c, offsets[1..]), FrameWords(c, offsets));
    Say(words, members, FrameWords(c, offsets[1..]), FrameWords(c, offsets));
    return words + members, false;
  }

  /** Verify the members of a frame, then convert them or retain it. */
  method ReadMembers(c: Case, offsets: seq<nat>) returns (words: seq<Word>, stopped: bool)
    requires offsets != []
    ensures if stopped then words == VerifyWords(c, offsets, 0) && Return !in words
            else Said(words, FrameWords(c, offsets[1..]), VerifyWords(c, offsets, 0))
  {
    ghost var whole, rest := VerifyWords(c, offsets, 0), FrameWords(c, offsets[1..]);
    var selected;
    words, selected, stopped := VerifyFrame(c, offsets);
    if stopped {
      return;
    }
    if !c.stream {
      Say(words, [Retained(offsets[0])], rest, whole);
      return words + [Retained(offsets[0])], false;
    }
    Say(words, [VerifiedGroup(offsets[0])], ConvertWords(c, offsets, 0), whole);
    words := words + [VerifiedGroup(offsets[0])];
    var converting, broken := ConvertFrame(c, offsets, selected);
    if broken {
      SayLast(words, converting, whole);
      return words + converting, true;
    }
    Say(words, converting, ConvertWords(c, offsets, |c.requests|), whole);
    words := words + converting;
    Say(words, [Release(offsets[0])], rest, whole);
    return words + [Release(offsets[0])], false;
  }

  method ReadFrames(c: Case) returns (words: seq<Word>, stopped: bool)
    ensures words == FrameWords(c, Sorted(PresentOffsets(c)))
    ensures stopped <==> Return !in words
  {
    var offsets := Sorted(PresentOffsets(c));
    ghost var whole := FrameWords(c, offsets);
    words := [];
    SayNothing(whole);
    for k := 0 to |offsets|
      invariant Said(words, FrameWords(c, offsets[k..]), whole)
    {
      var frame, ended := ReadFrame(c, offsets[k..]);
      if ended {
        SayLast(words, frame, whole);
        return words + frame, true;
      }
      assert offsets[k..][1..] == offsets[k + 1..];
      Say(words, frame, FrameWords(c, offsets[k + 1..]), whole);
      words := words + frame;
    }
    words, stopped := words + [Return, Borrow, Drop], false;
    assert words[|words| - 3] == Return;
  }

  method PositionalAnswer(c: Case) returns (output: seq<Value>)
    ensures output == FullAnswer(c)
  {
    output := [];
    for i := 0 to |c.requests|
      invariant output == FullAnswer(c)[..i]
    {
      output := output + [Answer(c, c.requests[i])];
    }
  }

  /** What follows silent words decides whether there is a return. */
  lemma SaidBefore(words: seq<Word>, rest: seq<Word>, whole: seq<Word>)
    requires Said(words, rest, whole)
    ensures words + rest == whole && (Return in whole <==> Return in rest)
  {
  }

  method FromConversion(c: Case, statuses: seq<Kind>) returns (words: seq<Word>, stopped: bool)
    requires |statuses| == |c.requests| && forall i :: 0 <= i < |statuses| ==>
        statuses[i] == Classification(c.requests[i])
    ensures words == NonpresentWords(c, 0) && (stopped <==> Return !in words)
  {
    words, stopped := ConvertNonpresent(c, statuses);
    if !stopped {
      var rest, ended := ReadFrames(c);
      SaidBefore(words, rest, NonpresentWords(c, 0));
      words, stopped := words + rest, ended;
    }
  }

  method FromPoints(c: Case) returns (words: seq<Word>, stopped: bool)
    ensures words == PointWords(c, 0) && (stopped <==> Return !in words)
  {
    var statuses;
    words, statuses, stopped := ClassifyAll(c);
    if !stopped {
      var rest, ended := FromConversion(c, statuses);
      SaidBefore(words, rest, PointWords(c, 0));
      words, stopped := words + rest, ended;
    }
  }

  method FromDeclarations(c: Case) returns (words: seq<Word>, stopped: bool)
    ensures words == DeclareWords(c, 0) && (stopped <==> Return !in words)
  {
    words, stopped := DeclareAll(c);
    if !stopped {
      var rest, ended := FromPoints(c);
      SaidBefore(words, rest, DeclareWords(c, 0));
      words, stopped := words + rest, ended;
    }
  }

  /** The complete history and answer of a case, computed from the immutable requests alone. */
  method Reference(c: Case) returns (words: seq<Word>, returned: seq<Value>)
    ensures words == Words(c) && returned == Expected(c)
  {
    if !c.admission {
      return [Fail], [];
    }
    var rest, stopped := FromDeclarations(c);
    words, returned := [Admit] + rest, [];
    if !stopped {
      returned := PositionalAnswer(c);
    }
  }

  // ----------------------------------------------------------------- bookkeeping

  /** What one more word must do to the books. */
  function Account(c: Case, l: Ledger, w: Word): Ledger {
    match w
    case Admit => l.(owned := l.owned.(containers := true))
    case Point(_) => l.(work := l.work.(points := l.work.points + 1))
    case Classify(i, kind) =>
      if i < |c.requests| then
        l.(facts := l.facts.(classes := l.facts.classes + [kind],
                             observations := l.facts.observations + [FactFields(c.requests[i].fact)]))
      else l
    case Dispatch(offset) =>
      l.(work := l.work.(dispatched := l.work.dispatched + 1), owned := l.owned.(pending := Some(offset)))
    case Read(offset) => l.(owned := l.owned.(pending := None, frames := l.owned.frames + [offset]))
    case ReadError(_) => l.(owned := l.owned.(pending := None))
    case Verify(i) => l.(facts := l.facts.(verified := l.facts.verified + [i]))
    case Convert(i) =>
      if i < |c.requests| && i < |l.facts.classes| && i < |l.facts.observations| then
        Converted(l, i, Accounted(c, l, i))
      else l
    case Release(offset) => l.(owned := l.owned.(frames := Without(l.owned.frames, offset)))
    case Return => l.(output := Output(Expected(c), Batch))
    case Fail => l.(owned := Emptied(l.owned), output := l.output.(result := Unknown))
    case Cancel => l.(owned := Emptied(l.owned), output := l.output.(result := Cancelled))
    case Drop => l.(owned := Emptied(l.owned))
    case Retire => l.(owned := l.owned.(pending := None))
    case _ => l
  }

  /** The value a conversion must have produced. */
  function Accounted(c: Case, l: Ledger, i: nat): Value
    requires i < |c.requests| && i < |l.facts.classes| && i < |l.facts.observations|
  {
    var r, kind := c.requests[i], l.facts.classes[i];
    Value(kind, r.domain, r.literal, l.facts.observations[i], Held(c, r, kind))
  }

  function Books(c: Case, events: seq<Word>): Ledger {
    if events == [] then NOTHING else Account(c, Books(c, events[..|events| - 1]), events[|events| - 1])
  }

  datatype Fault = CutFault | HistoryFault | WorkFault | OwnerFault | OutputFault

  /** The kept books against the rebuilt ones. */
  function Compare(s: State, books: Ledger, total: nat): Option<Fault> {
    if s.ledger.work != books.work then Some(WorkFault)
    else if (s.ledger.owned.containers, s.ledger.owned.pending) != (books.owned.containers, books.owned.pending) then
      Some(OwnerFault)
    else if (s.ledger.owned.frames, s.ledger.owned.dtos) != (books.owned.frames, books.owned.dtos) then Some(OwnerFault)
    else if (s.ledger.facts.classes, s.ledger.facts.verified) != (books.facts.classes, books.facts.verified) then
      Some(HistoryFault)
    else if (s.ledger.owned.values, s.ledger.output) != (books.owned.values, books.output) then Some(OutputFault)
    else if s.ledger.facts.observations != books.facts.observations then Some(OutputFault)
    else if s.phase.AtDone? && |s.events| != total then Some(HistoryFault)
    else None
  }

  function Verdict(c: Case, s: State): Option<Fault> {
    if s.cut != c.cut then Some(CutFault)
    else if !(s.events <= Words(c)) then Some(HistoryFault)
    else Compare(s, Books(c, s.events), |Words(c)|)
  }

  /** The oracle's check of one state: recompute the history, then keep the books event by event. */
  method PrefixViolation(c: Case, s: State) returns (fault: Option<Fault>)
    ensures fault == Verdict(c, s)
  {
    if s.cut != c.cut {
      return Some(CutFault);
    }
    var words, returned := Reference(c);
    if |s.events| > |words| || words[..|s.events|] != s.events {
      return Some(HistoryFault);
    }
    var books := NOTHING;
    for k := 0 to |s.events|
      invariant books == Books(c, s.events[..k])
    {
      books := Account(c, books, s.events[k]);
      assert s.events[..k + 1][..k] == s.events[..k];
    }
    assert s.events[..|s.events|] == s.events;
    fault := Compare(s, books, |words|);
  }
}
