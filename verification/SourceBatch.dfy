/**
 * Speculative batch composition: groups are planned one after another on a shared image through an owner
 * index that is loaded only as uniques are probed, then the longest fitting physical prefix is packed and
 * sealed. Any number of rows, uniques and groups, from any image in which no two rows share a unique.
 */
module SourceBatch {
  import opened Options

  // ---------------------------------------------------------------------- images

  datatype Work = Work(version: nat, unique: nat, payload: nat, number: int)

  datatype Image = Image(work: seq<Option<Work>>, highwater: seq<nat>, state: Option<(nat, int)>, stateHighwater: nat,
                         sequence: nat)

  /** The row at `k` holds the unique. */
  predicate Owns(work: seq<Option<Work>>, k: nat, unique: nat) {
    k < |work| && work[k].Some? && work[k].value.unique == unique
  }

  /** No two rows share a unique. */
  ghost predicate ValidImage(uniques: nat, image: Image) {
    && |image.work| == |image.highwater|
    && (forall k: nat :: k < |image.work| && image.work[k].Some? ==> image.work[k].value.unique < uniques)
    && (forall j: nat, k: nat, u: nat {:trigger Owns(image.work, j, u), Owns(image.work, k, u)} ::
          Owns(image.work, j, u) && Owns(image.work, k, u) ==> j == k)
  }

  /** The first row that holds the unique. */
  function OwnerOf(work: seq<Option<Work>>, unique: nat): (owner: Option<nat>)
    ensures owner.Some? ==> Owns(work, owner.value, unique)
    ensures owner.None? ==> forall k: nat :: !Owns(work, k, unique)
  {
    FirstOwner(work, unique, 0)
  }

  function FirstOwner(work: seq<Option<Work>>, unique: nat, from: nat): (owner: Option<nat>)
    requires from <= |work| && forall k: nat :: k < from ==> !Owns(work, k, unique)
    ensures owner.Some? ==> Owns(work, owner.value, unique)
    ensures owner.None? ==> forall k: nat :: !Owns(work, k, unique)
    decreases |work| - from
  {
    if from == |work| then None else if Owns(work, from, unique) then Some(from) else FirstOwner(work, unique, from + 1)
  }

  // ---------------------------------------------------------------------- groups

  datatype Action = Put | Delete | Number | StatePut | StateDelete | StateCheck

  /** An expected version of zero means absent. */
  datatype Group = Group(action: Action, key: nat, expected: nat, unique: nat, payload: nat, number: int)

  datatype Outcome = Committed(version: nat) | Rejected

  predicate OnState(g: Group) {
    g.action.StatePut? || g.action.StateDelete? || g.action.StateCheck?
  }

  /** The group addresses a row and a unique of the batch, and patches no row it expects absent. */
  predicate GroupOk(uniques: nat, rows: nat, g: Group) {
    && (!OnState(g) ==> g.key < rows)
    && (g.action.Put? ==> g.unique < uniques)
    && (g.action.Number? ==> g.expected > 0)
  }

  // ---------------------------------------------------------------------- probing

  /** The uniques whose owners a group must know. */
  function Probes(g: Group, image: Image): set<nat>
    requires !OnState(g) ==> g.key < |image.work|
  {
    if !g.action.Put? && !g.action.Delete? then {}
    else
      var row := image.work[g.key];
      (if row.Some? then {row.value.unique} else {}) + (if g.action.Put? then {g.unique} else {})
  }

  /** Newly probed uniques get their starting owners; those loaded before keep what they have. */
  function LoadOwners(initial: Image, owners: seq<Option<nat>>, loaded: set<nat>, probes: set<nat>): seq<Option<nat>> {
    seq(|owners|, u requires 0 <= u < |owners| => if u in probes && u !in loaded then OwnerOf(initial.work, u)
        else owners[u])
  }

  /** Load the probed uniques one by one, in any order. */
  method LoadProbes(initial: Image, owners: seq<Option<nat>>, loaded: set<nat>, probes: set<nat>)
    returns (newOwners: seq<Option<nat>>, newLoaded: set<nat>)
    requires forall u :: u in probes ==> u < |owners|
    ensures newOwners == LoadOwners(initial, owners, loaded, probes) && newLoaded == loaded + probes
  {
    newOwners, newLoaded := owners, loaded;
    var left := probes;
    while left != {}
      invariant left <= probes && newLoaded == loaded + (probes - left)
      invariant newOwners == LoadOwners(initial, owners, loaded, probes - left)
      decreases |left|
    {
      var unique :| unique in left;
      if unique !in newLoaded {
        newOwners := newOwners[unique := OwnerOf(initial.work, unique)];
      }
      newLoaded := newLoaded + {unique};
      left := left - {unique};
    }
  }

  // --------------------------------------------------------------------- planning

  datatype Planned = Planned(image: Image, owners: seq<Option<nat>>, outcome: Outcome)

  predicate Admissible(g: Group, actual: nat, owner: Option<nat>) {
    actual == g.expected && (g.action.Put? ==> owner == None || owner == Some(g.key))
  }

  function PlanState(g: Group, image: Image, owners: seq<Option<nat>>): Planned {
    var actual := if image.state.Some? then image.state.value.0 else 0;
    if actual != g.expected then Planned(image, owners, Rejected)
    else if g.action.StateCheck? then Planned(image, owners, Committed(0))
    else
      var version := image.stateHighwater + 1;
      Planned(image.(stateHighwater := version, state := if g.action.StateDelete? then None
                     else Some((version, g.number))),
              owners, Committed(version))
  }

  function Released(owners: seq<Option<nat>>, row: Option<Work>): seq<Option<nat>> {
    if row.Some? && row.value.unique < |owners| then owners[row.value.unique := None] else owners
  }

  function PlanWork(g: Group, image: Image, owners: seq<Option<nat>>): Planned
    requires g.key < |image.work| == |image.highwater| && (g.action.Put? ==> g.unique < |owners|)
  {
    var row := image.work[g.key];
    var actual := if row.Some? then row.value.version else 0;
    if !Admissible(g, actual, if g.action.Put? then owners[g.unique] else None) then Planned(image, owners, Rejected)
    else
      var version := image.highwater[g.key] + 1;
      var stamped := image.(highwater := image.highwater[g.key := version]);
      if g.action.Delete? then
        Planned(stamped.(work := image.work[g.key := None]), Released(owners, row), Committed(version))
      else if g.action.Put? then
        Planned(stamped.(work := image.work[g.key := Some(Work(version, g.unique, g.payload, 1))],
                         sequence := image.sequence + if row.None? then 1 else 0),
                Released(owners, row)[g.unique := Some(g.key)], Committed(version))
      else
        Planned(stamped.(work := image.work[g.key := if row.Some? then
                  Some(row.value.(version := version, number := g.number)) else None]),
                owners, Committed(version))
  }

  /** Plan one group on the image and the owner index. */
  function PlanGroup(g: Group, image: Image, owners: seq<Option<nat>>): Planned
    requires GroupOk(|owners|, |image.work|, g) && |image.work| == |image.highwater|
  {
    if OnState(g) then PlanState(g, image, owners) else PlanWork(g, image, owners)
  }

  // ----------------------------------------------------------------------- sizes

  function RowSize(before: Image, after: Image, key: nat): nat
    requires key < |before.work| == |after.work| && |before.highwater| == |after.highwater| == |after.work|
  {
    if after.work[key] == before.work[key] && after.highwater[key] == before.highwater[key] then 0
    else if after.work[key].None? then 2 else after.work[key].value.payload
  }

  function RowsSize(before: Image, after: Image, rows: nat): nat
    requires rows <= |before.work| == |after.work| && |before.highwater| == |after.highwater| == |after.work|
  {
    if rows == 0 then 0 else RowsSize(before, after, rows - 1) + RowSize(before, after, rows - 1)
  }

  predicate SameRows(before: Image, after: Image) {
    |before.work| == |after.work| == |before.highwater| == |after.highwater|
  }

  /** The inner and outer sizes of a record carrying `count` receipts. */
  function Sizes(before: Image, after: Image, count: nat): (nat, nat)
    requires SameRows(before, after)
  {
    var body := RowsSize(before, after, |after.work|)
                + if after.state != before.state || after.stateHighwater != before.stateHighwater then 2 else 0;
    (2 + body + count, 4 + body + count)
  }

  method EncodedSizes(before: Image, after: Image, count: nat) returns (frame: nat, record: nat)
    requires SameRows(before, after)
    ensures (frame, record) == Sizes(before, after, count)
  {
    var body := 0;
    for key := 0 to |after.work|
      invariant body == RowsSize(before, after, key)
    {
      var row := after.work[key];
      if row != before.work[key] || after.highwater[key] != before.highwater[key] {
        body := body + if row.None? then 2 else row.value.payload;
      }
    }
    if after.state != before.state || after.stateHighwater != before.stateHighwater {
      body := body + 2;
    }
    frame, record := 2 + body + count, 4 + body + count;
  }
}
