/** The relational meaning of a list of groups, over full rows and without any index. */
module SourceBatchReference {
  import opened Options
  import opened SourceBatch

  datatype Relation = Relation(rows: map<nat, Work>, highwater: seq<nat>, state: Option<(nat, int)>,
                               stateHighwater: nat,
                               sequence: nat)

  function RelationOf(image: Image): Relation {
    Relation(map k: nat | k < |image.work| && image.work[k].Some? :: image.work[k].value,
             image.highwater, image.state, image.stateHighwater, image.sequence)
  }

  function ImageOf(r: Relation): Image {
    Image(seq(|r.highwater|, k requires 0 <= k < |r.highwater| => if k in r.rows then Some(r.rows[k]) else None),
          r.highwater, r.state, r.stateHighwater, r.sequence)
  }

  lemma RoundTrip(image: Image)
    requires |image.work| == |image.highwater|
    ensures ImageOf(RelationOf(image)) == image
  {
    assert ImageOf(RelationOf(image)).work == image.work;
  }

  /** Some other row holds the unique the group asks for. */
  predicate TakenElsewhere(r: Relation, g: Group) {
    exists k :: k in r.rows && k != g.key && r.rows[k].unique == g.unique
  }

  function CurrentVersion(r: Relation, g: Group): nat {
    if OnState(g) then (if r.state.Some? then r.state.value.0 else 0)
    else if g.key in r.rows then r.rows[g.key].version else 0
  }

  predicate Acceptable(r: Relation, g: Group) {
    CurrentVersion(r, g) == g.expected && (g.action.Put? ==> !TakenElsewhere(r, g))
  }

  /** The relation after one group. */
  function Applied(r: Relation, g: Group): Relation
    requires !OnState(g) ==> g.key < |r.highwater|
  {
    if !Acceptable(r, g) || g.action.StateCheck? then r
    else if OnState(g) then
      r.(stateHighwater := r.stateHighwater + 1,
         state := if g.action.StateDelete? then None else Some((r.stateHighwater + 1, g.number)))
    else
      var version := r.highwater[g.key] + 1;
      var stamped := r.(highwater := r.highwater[g.key := version]);
      if g.action.Delete? then stamped.(rows := r.rows - {g.key})
      else if g.action.Put? then
        stamped.(rows := r.rows[g.key := Work(version, g.unique, g.payload, 1)],
                 sequence := r.sequence + if g.key in r.rows then 0 else 1)
      else if g.key in r.rows then
        stamped.(rows := r.rows[g.key := Work(version, r.rows[g.key].unique, r.rows[g.key].payload, g.number)])
      else stamped
  }

  function Verdict(r: Relation, g: Group): Outcome
    requires !OnState(g) ==> g.key < |r.highwater|
  {
    if !Acceptable(r, g) then Rejected
    else if g.action.StateCheck? then Committed(0)
    else if OnState(g) then Committed(r.stateHighwater + 1)
    else Committed(r.highwater[g.key] + 1)
  }

  // --------------------------------------------------------------------- history

  ghost predicate GroupsOk(uniques: nat, rows: nat, groups: seq<Group>) {
    forall i :: 0 <= i < |groups| ==> GroupOk(uniques, rows, groups[i])
  }

  predicate Addressed(rows: nat, groups: seq<Group>) {
    forall i :: 0 <= i < |groups| ==> !OnState(groups[i]) ==> groups[i].key < rows
  }

  /** The relation after the first `n` groups. */
  function After(initial: Image, groups: seq<Group>, n: nat): (r: Relation)
    requires Addressed(|initial.highwater|, groups) && n <= |groups|
    ensures |r.highwater| == |initial.highwater|
  {
    if n == 0 then RelationOf(initial) else Applied(After(initial, groups, n - 1), groups[n - 1])
  }

  function ImageAfter(initial: Image, groups: seq<Group>, n: nat): (image: Image)
    requires Addressed(|initial.highwater|, groups) && n <= |groups|
    ensures |image.work| == |image.highwater| == |initial.highwater|
  {
    ImageOf(After(initial, groups, n))
  }

  function OutcomeAt(initial: Image, groups: seq<Group>, i: nat): Outcome
    requires Addressed(|initial.highwater|, groups) && i < |groups|
  {
    Verdict(After(initial, groups, i), groups[i])
  }

  /** The images after each of the first `n` groups. */
  function Images(initial: Image, groups: seq<Group>, n: nat): seq<Image>
    requires Addressed(|initial.highwater|, groups) && n <= |groups|
  {
    seq(n, i requires 0 <= i < n => ImageAfter(initial, groups, i + 1))
  }

  function Outcomes(initial: Image, groups: seq<Group>, n: nat): seq<Outcome>
    requires Addressed(|initial.highwater|, groups) && n <= |groups|
  {
    seq(n, i requires 0 <= i < n => OutcomeAt(initial, groups, i))
  }

  /** The history as the reference computes it, updating rows, highwaters and counters group by group. */
  method ReferenceHistory(initial: Image, groups: seq<Group>) returns (images: seq<Image>, outcomes: seq<Outcome>)
    requires Addressed(|initial.highwater|, groups) && forall i :: 0 <= i < |groups| && groups[i].action.Number? ==>
        groups[i].expected > 0
    ensures images == Images(initial, groups, |groups|) && outcomes == Outcomes(initial, groups, |groups|)
  {
    var start := RelationOf(initial);
    var rows: map<nat, Work>, highwater: seq<nat>, state: Option<(nat, int)> := start.rows, start.highwater,
        start.state;
    var stateHighwater: nat, sequence: nat := start.stateHighwater, start.sequence;
    images, outcomes := [], [];
    for i := 0 to |groups|
      invariant Relation(rows, highwater, state, stateHighwater, sequence) == After(initial, groups, i)
      invariant images == Images(initial, groups, i) && outcomes == Outcomes(initial, groups, i)
    {
      var g := groups[i];
      ghost var before := Relation(rows, highwater, state, stateHighwater, sequence);
      var version := if OnState(g) then (if state.Some? then state.value.0 else 0)
                     else if g.key in rows then rows[g.key].version else 0;
      var valid := version == g.expected;
      if g.action.Put? {
        valid := valid && !exists k :: k in rows && k != g.key && rows[k].unique == g.unique;
      }
      assert valid <==> Acceptable(before, g);
      var outcome := Rejected;
      if valid {
        if g.action.StateCheck? {
          outcome := Committed(0);
        } else if OnState(g) {
          stateHighwater := stateHighwater + 1;
          state := if g.action.StateDelete? then None else Some((stateHighwater, g.number));
          outcome := Committed(stateHighwater);
        } else {
          highwater := highwater[g.key := highwater[g.key] + 1];
          if g.action.Delete? {
            rows := rows - {g.key};
          } else if g.action.Put? {
            sequence := sequence + if g.key in rows then 0 else 1;
            rows := rows[g.key := Work(highwater[g.key], g.unique, g.payload, 1)];
          } else {
            rows := rows[g.key := Work(highwater[g.key], rows[g.key].unique, rows[g.key].payload, g.number)];
          }
          outcome := Committed(highwater[g.key]);
        }
      }
      assert Relation(rows, highwater, state, stateHighwater, sequence) == Applied(before, g)
          && outcome == Verdict(before, g);
      images := images + [ImageOf(Relation(rows, highwater, state, stateHighwater, sequence))];
      outcomes := outcomes + [outcome];
    }
  }

  // ------------------------------------------------------------------------ sizes

  /** The write set of an image against the starting one: tombstones and rows by key, then the state. */
  function Commands(initial: Image, image: Image, rows: nat): seq<nat>
    requires SameRows(initial, image) && rows <= |image.work|
  {
    if rows == 0 then []
    else
      var row := image.work[rows - 1];
      Commands(initial, image, rows - 1)
      + (if row != initial.work[rows - 1] || image.highwater[rows - 1] != initial.highwater[rows - 1]
         then [if row.None? then 2 else row.value.payload] else [])
  }

  function Sum(xs: seq<nat>): nat {
    if xs == [] then 0 else Sum(xs[..|xs| - 1]) + xs[|xs| - 1]
  }

  function ReferenceSize(initial: Image, image: Image, count: nat): (nat, nat)
    requires SameRows(initial, image)
  {
    var commands := Commands(initial, image, |image.work|)
                    + if image.state != initial.state || image.stateHighwater != initial.stateHighwater then [2]
                        else [];
    var frame := 2 + Sum(commands) + count;
    (frame, frame + 2)
  }

  lemma SumSnoc(xs: seq<nat>, x: nat)
    ensures Sum(xs + [x]) == Sum(xs) + x
  {
    assert (xs + [x])[..|xs|] == xs;
  }

  lemma {:induction false} CommandsSum(initial: Image, image: Image, rows: nat)
    requires SameRows(initial, image) && rows <= |image.work|
    ensures Sum(Commands(initial, image, rows)) == RowsSize(initial, image, rows)
  {
    if rows > 0 {
      CommandsSum(initial, image, rows - 1);
      var before := Commands(initial, image, rows - 1);
      var row := image.work[rows - 1];
      SumSnoc(before, if row.None? then 2 else row.value.payload);
      assert before + [] == before;
    }
  }

  /** The accumulated size is the size of the canonical write set. */
  lemma SizesAgree(initial: Image, image: Image, count: nat)
    requires SameRows(initial, image)
    ensures Sizes(initial, image, count) == ReferenceSize(initial, image, count)
  {
    var commands := Commands(initial, image, |image.work|);
    CommandsSum(initial, image, |image.work|);
    SumSnoc(commands, 2);
    assert commands + [] == commands;
  }
}
