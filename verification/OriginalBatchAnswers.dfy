/** What the batch keeps, reads and returns on its way through the reference words. */
module OriginalBatchAnswers {
  import opened Options
  import opened OriginalBatch
  import opened OriginalBatchOracle
  import opened OriginalBatchRefinement

  // ------------------------------------------------------------------ kept values

  ghost predicate Has(values: seq<(nat, Value)>, i: nat) {
    exists k :: 0 <= k < |values| && values[k].0 == i
  }

  /** Every kept value is the positional answer of its request. */
  ghost predicate ValuesFit(c: Case, values: seq<(nat, Value)>) {
    forall k :: 0 <= k < |values| ==> values[k].0 < |c.requests| && values[k].1 == Answer(c, c.requests[values[k].0])
  }

  lemma {:induction false} LookupFits(c: Case, values: seq<(nat, Value)>, i: nat)
    requires ValuesFit(c, values) && Has(values, i) && i < |c.requests|
    ensures Lookup(values, i) == Some(Answer(c, c.requests[i]))
  {
    if values[|values| - 1].0 != i {
      var init := values[..|values| - 1];
      var k :| 0 <= k < |values| && values[k].0 == i;
      assert init[k].0 == i;
      LookupFits(c, init, i);
    }
  }

  lemma {:induction false} CollectedFits(c: Case, values: seq<(nat, Value)>, n: nat)
    requires ValuesFit(c, values) && n <= |c.requests| && forall i: nat :: i < n ==> Has(values, i)
    ensures Collected(values, n) == Some(FullAnswer(c)[..n])
  {
    if n > 0 {
      CollectedFits(c, values, n - 1);
      LookupFits(c, values, n - 1);
      assert FullAnswer(c)[..n] == FullAnswer(c)[..n - 1] + [FullAnswer(c)[n - 1]];
    }
  }

  /** A verified observation answers as the receipt itself would. */
  lemma AnswerIsValue(c: Case, i: nat)
    requires i < |c.requests| && (KindOf(c.requests[i]).Present? ==> Matches(c, i, c.requests[i].fact.value.offset))
    ensures ValueFor(c.requests[i], KindOf(c.requests[i])) == Answer(c, c.requests[i])
  {
  }

  // ------------------------------------------------------------------- invariant

  /** The members of the frame at `offset` are verified. */
  ghost predicate Verified(c: Case, offset: nat) {
    forall i: nat :: i < |c.requests| && Wants(c, i, offset) ==> Matches(c, i, offset)
  }

  ghost predicate Delivered(c: Case, offset: nat, values: seq<(nat, Value)>) {
    forall i: nat :: i < |c.requests| && Wants(c, i, offset) ==> Has(values, i)
  }

  /** The first `group` frames are done with. */
  ghost predicate FramesDone(c: Case, group: nat, values: seq<(nat, Value)>)
    requires group <= |Offsets(c, Kinds(c))|
  {
    forall g :: 0 <= g < group ==>
      Verified(c, Offsets(c, Kinds(c))[g]) && (c.stream ==> Delivered(c, Offsets(c, Kinds(c))[g], values))
  }

  ghost predicate NonpresentDone(c: Case, values: seq<(nat, Value)>) {
    c.stream ==> forall i: nat :: i < |c.requests| && !KindOf(c.requests[i]).Present? ==> Has(values, i)
  }

  ghost predicate MembersVerified(c: Case, offset: nat, member: nat)
    requires member <= |Members(c, Kinds(c), offset)|
  {
    forall k :: 0 <= k < member ==> Matches(c, Members(c, Kinds(c), offset)[k], offset)
  }

  ghost predicate MembersDelivered(c: Case, offset: nat, member: nat, values: seq<(nat, Value)>)
    requires member <= |Members(c, Kinds(c), offset)|
  {
    forall k :: 0 <= k < member ==> Has(values, Members(c, Kinds(c), offset)[k])
  }

  ghost predicate VerifySettled(c: Case, k: Cursor) {
    var offsets := Offsets(c, Kinds(c));
    && k.group < |offsets| && k.member <= |Members(c, Kinds(c), offsets[k.group])|
    && MembersVerified(c, offsets[k.group], k.member)
  }

  ghost predicate ConvertSettled(c: Case, k: Cursor, values: seq<(nat, Value)>) {
    var offsets := Offsets(c, Kinds(c));
    && k.group < |offsets| && k.member <= |Members(c, Kinds(c), offsets[k.group])|
    && Verified(c, offsets[k.group]) && MembersDelivered(c, offsets[k.group], k.member, values)
  }

  ghost predicate FramesSettled(c: Case, k: Cursor, values: seq<(nat, Value)>) {
    k.group <= |Offsets(c, Kinds(c))| && NonpresentDone(c, values) && FramesDone(c, k.group, values)
  }

  ghost predicate NonpresentSettled(c: Case, k: Cursor, values: seq<(nat, Value)>) {
    k.index <= |Nonpresent(c, Kinds(c))| && forall j :: 0 <= j < k.index ==> Has(values, Nonpresent(c, Kinds(c))[j])
  }

  /** What is verified and kept at each place of the batch. */
  ghost predicate SettledAt(c: Case, phase: Phase, k: Cursor, values: seq<(nat, Value)>) {
    && ValuesFit(c, values)
    && match phase
       case AtNonpresent => NonpresentSettled(c, k, values)
       case AtDispatch => FramesSettled(c, k, values)
       case AtRead => FramesSettled(c, k, values)
       case AtVerify => FramesSettled(c, k, values) && VerifySettled(c, k)
       case AtConvert => FramesSettled(c, k, values) && ConvertSettled(c, k, values)
       case _ => true
  }

  ghost predicate Settled(c: Case, s: State) {
    SettledAt(c, s.phase, s.cursor, s.ledger.owned.values)
  }

  lemma HasMore(values: seq<(nat, Value)>, i: nat, v: Value)
    ensures Has(values + [(i, v)], i)
    ensures forall j :: Has(values, j) ==> Has(values + [(i, v)], j)
  {
    var more := values + [(i, v)];
    assert more[|values|].0 == i;
    forall j | Has(values, j)
      ensures Has(more, j)
    {
      var k :| 0 <= k < |values| && values[k].0 == j;
      assert more[k].0 == j;
    }
  }

  /** The listed positions are exactly the requests that need no frame. */
  lemma NonpresentListed(c: Case, values: seq<(nat, Value)>)
    requires forall k :: 0 <= k < |Nonpresent(c, Kinds(c))| ==> Has(values, Nonpresent(c, Kinds(c))[k])
    ensures NonpresentDone(c, values)
  {
    var ks := Kinds(c);
    var flags := seq(|ks|, i requires 0 <= i < |ks| => c.stream && !ks[i].Present?);
    if c.stream {
      forall i: nat | i < |c.requests| && !KindOf(c.requests[i]).Present?
        ensures Has(values, i)
      {
        assert flags[i] && i in Where(flags);
        var k :| 0 <= k < |Where(flags)| && Where(flags)[k] == i;
        assert Has(values, Nonpresent(c, ks)[k]);
      }
    }
  }

  lemma MemberListed(c: Case, offset: nat, i: nat)
    requires i < |c.requests|
    ensures Wants(c, i, offset) <==> i in Members(c, Kinds(c), offset)
  {
    var ks := Kinds(c);
    var flags := seq(|ks|, i requires 0 <= i < |ks| => ks[i].Present? && c.requests[i].fact.value.offset == offset);
    assert flags[i] <==> Wants(c, i, offset);
  }

  ghost predicate Goes(t: State, phase: Phase, cursor: Cursor, values: seq<(nat, Value)>) {
    t.phase == phase && t.cursor == cursor && t.ledger.owned.values == values
  }

  lemma EarlyGoes(c: Case, s: State, t: State)
    requires CursorFit(c, s) && Step(c, s) == Some(t)
    requires s.phase.AtAdmit? || s.phase.AtDeclare? || s.phase.AtPoint? || s.phase.AtClassify?
    ensures t.ledger.owned.values == [] || t.ledger.owned.values == s.ledger.owned.values
    ensures t.phase.AtDeclare? || t.phase.AtPoint? || t.phase.AtClassify? || t.phase.AtDone?
        || (t.phase.AtNonpresent? && t.cursor.index == 0)
  {
  }

  lemma NonpresentGoes(c: Case, s: State, t: State)
    requires CursorFit(c, s) && Step(c, s) == Some(t) && s.phase.AtNonpresent?
    ensures var ps, k, values := Nonpresent(c, Kinds(c)), s.cursor, s.ledger.owned.values;
            if k.index == |ps| then Goes(t, AtDispatch, k.(group := 0), values)
            else if c.faults.conversion == ps[k.index] then Goes(t, AtDone, k, [])
            else
              var r := c.requests[ps[k.index]];
              Goes(t, AtNonpresent, k.(index := k.index + 1), values + [(ps[k.index], ValueFor(r, KindOf(r)))])
  {
    FactsKnown(c, s.ledger.facts);
  }

  lemma DispatchGoes(c: Case, s: State, t: State)
    requires CursorFit(c, s) && Step(c, s) == Some(t) && s.phase.AtDispatch?
    ensures if s.cursor.group == |Offsets(c, Kinds(c))| then Goes(t, AtBorrow, s.cursor, s.ledger.owned.values)
            else Goes(t, AtRead, s.cursor, s.ledger.owned.values)
  {
    FactsKnown(c, s.ledger.facts);
  }

  lemma ReadGoes(c: Case, s: State, t: State)
    requires CursorFit(c, s) && Step(c, s) == Some(t) && s.phase.AtRead?
    ensures || Goes(t, AtError, s.cursor, s.ledger.owned.values) || Goes(t, AtRetire, s.cursor, [])
            || Goes(t, AtVerify, s.cursor.(member := 0), s.ledger.owned.values)
  {
    StepInFrame(c, s, Offsets(c, Kinds(c))[s.cursor.group]);
  }

  lemma VerifyGoes(c: Case, s: State, t: State, offset: nat)
    requires CursorFit(c, s) && Step(c, s) == Some(t) && s.phase.AtVerify?
    requires offset == Offsets(c, Kinds(c))[s.cursor.group]
    ensures var ms, k, values := Members(c, Kinds(c), offset), s.cursor, s.ledger.owned.values;
            if k.member == |ms| && c.stream then Goes(t, AtConvert, k.(member := 0), values)
            else if k.member == |ms| then Goes(t, AtDispatch, k.(group := k.group + 1), values)
            else if Matches(c, ms[k.member], offset) then Goes(t, AtVerify, k.(member := k.member + 1), values)
            else Goes(t, AtDone, k, [])
  {
    FactsKnown(c, s.ledger.facts);
  }

  lemma ConvertGoes(c: Case, s: State, t: State, offset: nat)
    requires CursorFit(c, s) && Step(c, s) == Some(t) && s.phase.AtConvert?
    requires offset == Offsets(c, Kinds(c))[s.cursor.group]
    ensures var ms, k, values := Members(c, Kinds(c), offset), s.cursor, s.ledger.owned.values;
            if k.member == |ms| then Goes(t, AtDispatch, k.(group := k.group + 1), values)
            else if c.faults.conversion == ms[k.member] then Goes(t, AtDone, k, [])
            else
              Goes(t, AtConvert, k.(member := k.member + 1),
                   values + [(ms[k.member], ValueFor(c.requests[ms[k.member]], KindOf(c.requests[ms[k.member]])))])
  {
    FactsKnown(c, s.ledger.facts);
  }

  lemma ValuesMore(c: Case, values: seq<(nat, Value)>, i: nat)
    requires ValuesFit(c, values) && i < |c.requests|
    requires (KindOf(c.requests[i]).Present? ==> Matches(c, i, c.requests[i].fact.value.offset))
    ensures ValuesFit(c, values + [(i, ValueFor(c.requests[i], KindOf(c.requests[i])))])
  {
    AnswerIsValue(c, i);
  }

  lemma NonpresentMore(c: Case, k: Cursor, values: seq<(nat, Value)>, i: nat)
    requires SettledAt(c, AtNonpresent, k, values) && k.index < |Nonpresent(c, Kinds(c))|
    requires i == Nonpresent(c, Kinds(c))[k.index]
    ensures SettledAt(c, AtNonpresent, k.(index := k.index + 1), values
                      + [(i, ValueFor(c.requests[i], KindOf(c.requests[i])))])
  {
    var ks := Kinds(c);
    var flags := seq(|ks|, i requires 0 <= i < |ks| => c.stream && !ks[i].Present?);
    assert flags[i];
    ValuesMore(c, values, i);
    HasMore(values, i, ValueFor(c.requests[i], KindOf(c.requests[i])));
  }

  lemma FramesMore(c: Case, k: Cursor, values: seq<(nat, Value)>, i: nat, v: Value)
    requires FramesSettled(c, k, values)
    ensures FramesSettled(c, k, values + [(i, v)])
  {
    HasMore(values, i, v);
    var more := values + [(i, v)];
    forall g | 0 <= g < k.group
      ensures c.stream ==> Delivered(c, Offsets(c, Kinds(c))[g], more)
    {
      assert Verified(c, Offsets(c, Kinds(c))[g]);
    }
  }

  lemma VerifyDone(c: Case, offset: nat)
    requires MembersVerified(c, offset, |Members(c, Kinds(c), offset)|)
    ensures Verified(c, offset)
  {
    forall i: nat | i < |c.requests| && Wants(c, i, offset)
      ensures Matches(c, i, offset)
    {
      MemberListed(c, offset, i);
      var k :| 0 <= k < |Members(c, Kinds(c), offset)| && Members(c, Kinds(c), offset)[k] == i;
    }
  }

  lemma DeliverDone(c: Case, offset: nat, values: seq<(nat, Value)>)
    requires MembersDelivered(c, offset, |Members(c, Kinds(c), offset)|, values)
    ensures Delivered(c, offset, values)
  {
    forall i: nat | i < |c.requests| && Wants(c, i, offset)
      ensures Has(values, i)
    {
      MemberListed(c, offset, i);
      var k :| 0 <= k < |Members(c, Kinds(c), offset)| && Members(c, Kinds(c), offset)[k] == i;
      assert Has(values, Members(c, Kinds(c), offset)[k]);
    }
  }

  lemma ConvertMore(c: Case, k: Cursor, values: seq<(nat, Value)>, offset: nat, i: nat)
    requires SettledAt(c, AtConvert, k, values) && offset == Offsets(c, Kinds(c))[k.group]
    requires k.member < |Members(c, Kinds(c), offset)| && i == Members(c, Kinds(c), offset)[k.member]
    ensures SettledAt(c, AtConvert, k.(member := k.member + 1), values
                      + [(i, ValueFor(c.requests[i], KindOf(c.requests[i])))])
  {
    var v := ValueFor(c.requests[i], KindOf(c.requests[i]));
    MemberListed(c, offset, i);
    ValuesMore(c, values, i);
    HasMore(values, i, v);
    FramesMore(c, k, values, i, v);
  }

  lemma NonpresentSettles(c: Case, s: State, t: State)
    requires CursorFit(c, s) && Settled(c, s) && Step(c, s) == Some(t) && s.phase.AtNonpresent?
    ensures Settled(c, t)
  {
    NonpresentGoes(c, s, t);
    var ps, k := Nonpresent(c, Kinds(c)), s.cursor;
    if k.index == |ps| {
      NonpresentListed(c, s.ledger.owned.values);
    } else {
      NonpresentMore(c, k, s.ledger.owned.values, ps[k.index]);
    }
  }

  lemma FrameCloses(c: Case, k: Cursor, values: seq<(nat, Value)>, offset: nat)
    requires FramesSettled(c, k, values) && k.group < |Offsets(c, Kinds(c))| && offset == Offsets(c, Kinds(c))[k.group]
    requires Verified(c, offset) && (c.stream ==> Delivered(c, offset, values))
    ensures FramesSettled(c, k.(group := k.group + 1), values)
  {
  }

  lemma VerifyAdvances(c: Case, k: Cursor, values: seq<(nat, Value)>, offset: nat)
    requires SettledAt(c, AtVerify, k, values) && offset == Offsets(c, Kinds(c))[k.group]
    ensures var ms := Members(c, Kinds(c), offset);
            if k.member == |ms| && c.stream then SettledAt(c, AtConvert, k.(member := 0), values)
            else if k.member == |ms| then SettledAt(c, AtDispatch, k.(group := k.group + 1), values)
            else Matches(c, ms[k.member], offset) ==> SettledAt(c, AtVerify, k.(member := k.member + 1), values)
  {
    if k.member == |Members(c, Kinds(c), offset)| {
      VerifyDone(c, offset);
      if !c.stream {
        FrameCloses(c, k, values, offset);
      }
    }
  }

  lemma VerifySettles(c: Case, s: State, t: State)
    requires CursorFit(c, s) && Settled(c, s) && Step(c, s) == Some(t) && s.phase.AtVerify?
    ensures Settled(c, t)
  {
    var offset := Offsets(c, Kinds(c))[s.cursor.group];
    VerifyGoes(c, s, t, offset);
    VerifyAdvances(c, s.cursor, s.ledger.owned.values, offset);
  }

  lemma ConvertAdvances(c: Case, k: Cursor, values: seq<(nat, Value)>, offset: nat)
    requires SettledAt(c, AtConvert, k, values) && offset == Offsets(c, Kinds(c))[k.group]
    ensures var ms := Members(c, Kinds(c), offset);
            if k.member == |ms| then SettledAt(c, AtDispatch, k.(group := k.group + 1), values)
            else
              SettledAt(c, AtConvert, k.(member := k.member + 1),
                        values + [(ms[k.member], ValueFor(c.requests[ms[k.member]], KindOf(c.requests[ms[k.member]])))])
  {
    if k.member == |Members(c, Kinds(c), offset)| {
      DeliverDone(c, offset, values);
      FrameCloses(c, k, values, offset);
    } else {
      ConvertMore(c, k, values, offset, Members(c, Kinds(c), offset)[k.member]);
    }
  }

  lemma ConvertSettles(c: Case, s: State, t: State)
    requires CursorFit(c, s) && Settled(c, s) && Step(c, s) == Some(t) && s.phase.AtConvert?
    ensures Settled(c, t)
  {
    var offset := Offsets(c, Kinds(c))[s.cursor.group];
    ConvertGoes(c, s, t, offset);
    ConvertAdvances(c, s.cursor, s.ledger.owned.values, offset);
  }

  lemma OtherSettles(c: Case, s: State, t: State)
    requires CursorFit(c, s) && Settled(c, s) && Step(c, s) == Some(t)
    requires s.phase.AtAdmit? || s.phase.AtDeclare? || s.phase.AtPoint? || s.phase.AtClassify? || s.phase.AtDispatch?
        || s.phase.AtRead?
    ensures Settled(c, t)
  {
    if s.phase.AtDispatch? {
      DispatchGoes(c, s, t);
    } else if s.phase.AtRead? {
      ReadGoes(c, s, t);
    } else {
      EarlyGoes(c, s, t);
    }
  }

  lemma StepSettles(c: Case, s: State, t: State)
    requires CursorFit(c, s) && Settled(c, s) && Step(c, s) == Some(t)
    ensures Settled(c, t)
  {
    if s.phase.AtNonpresent? {
      NonpresentSettles(c, s, t);
    } else if s.phase.AtVerify? {
      VerifySettles(c, s, t);
    } else if s.phase.AtConvert? {
      ConvertSettles(c, s, t);
    } else if s.phase.AtError? || s.phase.AtBorrow? || s.phase.AtDrop? || s.phase.AtRetire? {
      assert t.phase.AtDone? || t.phase.AtDrop?;
    } else {
      OtherSettles(c, s, t);
    }
  }
}
