/** The search for the prefix to pack, over the verdicts `fits[n - 1]` on the prefixes of each size `n`. */
module SourceBatchSearch {
  import opened Options
  import opened SourceBatchMachine

  predicate FitsAt(fits: seq<bool>, n: nat) {
    0 < n <= |fits| && fits[n - 1]
  }

  /** How far one gets from `n` taking one more group at a time, short of the full run. */
  function Furthest(fits: seq<bool>, n: nat): (best: nat)
    requires 0 < n <= |fits|
    decreases |fits| - n
  {
    if n == |fits| || !FitsAt(fits, n) then n - 1 else Furthest(fits, n + 1)
  }

  function Retained(fits: seq<bool>): nat
    requires fits != []
  {
    if FitsAt(fits, |fits|) then |fits| else Furthest(fits, 1)
  }

  /** The last prefix tried when the full run does not fit. */
  function LastTried(fits: seq<bool>): nat
    requires fits != []
  {
    if |fits| == 1 then 1 else if Furthest(fits, 1) + 1 < |fits| then Furthest(fits, 1) + 1 else |fits| - 1
  }

  function OneUpTo(n: nat): seq<nat> {
    seq(n, i requires 0 <= i < n => i + 1)
  }

  /** The sizes tried before size `n`: first the full run, then the shorter prefixes. */
  function TriedBefore(total: nat, n: nat): seq<nat> {
    if n == total then [] else [total] + OneUpTo(if n == 0 then 0 else n - 1)
  }

  /** The whole search when the full run does not fit. */
  function Tried(fits: seq<bool>): seq<nat>
    requires fits != []
  {
    if |fits| == 1 then [1] else TriedBefore(|fits|, LastTried(fits)) + [LastTried(fits)]
  }

  /** The packing while size `n` is tried. */
  function Trying(total: nat, n: nat, tried: seq<nat>): Pack
    requires n > 0
  {
    Pack(tried, n, if n == total then 0 else n - 1, 0)
  }

  /** The packing once the search is over. */
  function Packed(fits: seq<bool>): Pack
    requires fits != []
  {
    if FitsAt(fits, |fits|) then Pack([|fits|], |fits|, |fits|, |fits|)
    else Pack(Tried(fits), LastTried(fits), Retained(fits), Retained(fits))
  }

  /** The search has come to size `n`. */
  ghost predicate Searching(fits: seq<bool>, n: nat) {
    0 < n <= |fits| && (n < |fits| ==> !FitsAt(fits, |fits|) && forall k :: 0 < k < n ==> FitsAt(fits, k))
  }

  /** From `n` on, the search stops before the full run or at the first prefix that does not fit. */
  lemma {:induction false} FurthestStops(fits: seq<bool>, n: nat)
    requires 0 < n <= |fits|
    ensures n - 1 <= Furthest(fits, n) < |fits|
    ensures forall k :: n <= k <= Furthest(fits, n) ==> FitsAt(fits, k)
    ensures Furthest(fits, n) + 1 < |fits| ==> !FitsAt(fits, Furthest(fits, n) + 1)
    decreases |fits| - n
  {
    if n < |fits| && FitsAt(fits, n) {
      FurthestStops(fits, n + 1);
    }
  }

  lemma {:induction false} SearchPasses(fits: seq<bool>, n: nat)
    requires 0 < n <= |fits| && forall k :: 0 < k < n ==> FitsAt(fits, k)
    ensures Furthest(fits, 1) == Furthest(fits, n)
  {
    if n > 1 {
      SearchPasses(fits, n - 1);
      assert FitsAt(fits, n - 1);
    }
  }

  /**
   * The full run is kept if it fits; otherwise the longest proper prefix all of whose prefixes fit,
   * whatever the verdicts on longer ones.
   */
  lemma RetainsLongest(fits: seq<bool>)
    requires fits != []
    ensures Retained(fits) <= |fits| && (Retained(fits) == |fits| <==> FitsAt(fits, |fits|))
    ensures Retained(fits) < |fits| ==> forall k :: 0 < k <= Retained(fits) ==> FitsAt(fits, k)
    ensures Retained(fits) + 1 < |fits| ==> !FitsAt(fits, Retained(fits) + 1)
  {
    FurthestStops(fits, 1);
  }

  /** The size the search ends at: the first that does not fit, or the last that does. */
  lemma SearchEnds(fits: seq<bool>, n: nat)
    requires Searching(fits, n) && n < |fits|
    ensures !FitsAt(fits, n) ==> Retained(fits) == n - 1 && LastTried(fits) == n
    ensures FitsAt(fits, n) && n + 1 == |fits| ==> Retained(fits) == n && LastTried(fits) == n
  {
    SearchPasses(fits, n);
  }

  lemma TriedGrows(total: nat, n: nat)
    requires 0 < n < total
    ensures TriedBefore(total, n) + [n] == [total] + OneUpTo(n)
    ensures n + 1 < total ==> TriedBefore(total, n) + [n] == TriedBefore(total, n + 1)
  {
    assert OneUpTo(n - 1) + [n] == OneUpTo(n);
    assert [total] + OneUpTo(n - 1) + [n] == [total] + (OneUpTo(n - 1) + [n]);
  }

  /** The packing after a size has been judged, and whether the search goes on; none if nothing fits at all. */
  function Judged(total: nat, k: Pack, fits: bool): Option<(Phase, Pack)> {
    var n := k.candidate;
    if fits then
      Some(if n == total || n + 1 == total then (AtBind, k.(retained := n, best := n))
           else (AtEncode, k.(candidate := n + 1, best := n)))
    else if k.best == 0 && n == total && total > 1 then Some((AtEncode, k.(candidate := 1)))
    else if k.best > 0 then Some((AtBind, k.(retained := k.best)))
    else None
  }

  /** What judging the full run leads to. */
  lemma FullRunJudged(fits: seq<bool>)
    requires fits != []
    ensures var total := |fits|;
            var j := Judged(total, Trying(total, total, TriedBefore(total, total) + [total]), FitsAt(fits, total));
            && (FitsAt(fits, total) ==> j == Some((AtBind, Packed(fits))))
            && (!FitsAt(fits, total) && total > 1 ==> j == Some((AtEncode, Trying(total, 1, TriedBefore(total, 1)))))
            && (!FitsAt(fits, total) && total == 1 ==>
                  && j == None && Retained(fits) == 0
                  && TriedBefore(total, total) + [total] == Tried(fits) && LastTried(fits) == 1)
  {
    assert [] + [|fits|] == [|fits|];
    assert [|fits|] + OneUpTo(0) == [|fits|];
  }

  /** What judging a proper prefix leads to. */
  lemma PrefixJudged(fits: seq<bool>, n: nat)
    requires Searching(fits, n) && n < |fits|
    ensures var total := |fits|;
            var j := Judged(total, Trying(total, n, TriedBefore(total, n) + [n]), FitsAt(fits, n));
            && (FitsAt(fits, n) && n + 1 < total ==>
                  j == Some((AtEncode, Trying(total, n + 1, TriedBefore(total, n + 1)))))
            && (FitsAt(fits, n) && n + 1 == total ==> j == Some((AtBind, Packed(fits))))
            && (!FitsAt(fits, n) && n > 1 ==> j == Some((AtBind, Packed(fits))))
            && (!FitsAt(fits, n) && n == 1 ==>
                  && j == None && Retained(fits) == 0
                  && TriedBefore(total, n) + [n] == Tried(fits) && LastTried(fits) == 1)
  {
    SearchEnds(fits, n);
    TriedGrows(|fits|, n);
  }

  /** The packing the search ends with at size `n`. */
  lemma ChosenAt(fits: seq<bool>, n: nat)
    requires Searching(fits, n) && n < |fits| && (FitsAt(fits, n) ==> n + 1 == |fits|)
    ensures var best := if FitsAt(fits, n) then n else n - 1;
            Pack([|fits|] + OneUpTo(n), n, best, best) == if Retained(fits) > 0 then Packed(fits)
                else Pack(Tried(fits), LastTried(fits), 0, 0)
  {
    SearchEnds(fits, n);
    TriedGrows(|fits|, n);
  }

  /** The search of the reference: the full run first, then ever longer prefixes until one does not fit. */
  method ChoosePrefix(fits: seq<bool>) returns (pack: Pack)
    requires fits != []
    ensures pack == if Retained(fits) > 0 then Packed(fits) else Pack(Tried(fits), LastTried(fits), 0, 0)
  {
    var total := |fits|;
    if fits[total - 1] {
      return Pack([total], total, total, total);
    }
    var attempts, candidate, best := [total], total, 0;
    assert [total] + OneUpTo(0) == [total];
    for n := 1 to total
      invariant Searching(fits, n)
      invariant best == n - 1 && attempts == [total] + OneUpTo(n - 1) && candidate == if n == 1 then total else n - 1
      invariant n > 1 ==> FitsAt(fits, n - 1) && Searching(fits, n - 1)
    {
      candidate, attempts := n, attempts + [n];
      TriedGrows(total, n);
      if !fits[n - 1] {
        ChosenAt(fits, n);
        return Pack(attempts, n, best, best);
      }
      best := n;
    }
    if total > 1 {
      ChosenAt(fits, total - 1);
    }
    return Pack(attempts, candidate, best, best);
  }
}
