/** Planning through the lazily loaded owner index gives the relational history. */
module SourceBatchPlanning {
  import opened Options
  import opened SourceBatch
  import opened SourceBatchReference

  // ----------------------------------------------------------------------- owners

  lemma OwnerIs(uniques: nat, image: Image, k: nat, u: nat)
    requires ValidImage(uniques, image) && Owns(image.work, k, u)
    ensures OwnerOf(image.work, u) == Some(k)
  {
  }

  lemma OwnerSame(uniques: nat, image: Image, other: Image, u: nat)
    requires ValidImage(uniques, image)
    requires forall k: nat :: Owns(image.work, k, u) <==> Owns(other.work, k, u)
    ensures OwnerOf(image.work, u) == OwnerOf(other.work, u)
  {
    var a, b := OwnerOf(image.work, u), OwnerOf(other.work, u);
    if a.Some? {
      assert Owns(other.work, a.value, u);
    }
    if b.Some? {
      assert Owns(image.work, b.value, u);
    }
  }

  /**
   * A loaded unique has its present owner; one that was never loaded has no entry,
   * and its present owner is still the starting one.
   */
  ghost predicate EntryFits(initial: Image, image: Image, owners: seq<Option<nat>>, loaded: set<nat>, u: nat)
    requires u < |owners|
  {
    if u in loaded then owners[u] == OwnerOf(image.work, u)
    else owners[u] == None && OwnerOf(image.work, u) == OwnerOf(initial.work, u)
  }

  ghost predicate IndexFits(uniques: nat, initial: Image, image: Image, owners: seq<Option<nat>>, loaded: set<nat>) {
    && |owners| == uniques && (forall u :: u in loaded ==> u < uniques)
    && forall u: nat {:trigger EntryFits(initial, image, owners, loaded, u)} :: u < uniques ==>
        EntryFits(initial, image, owners, loaded, u)
  }

  lemma ProbingKeepsIndex(uniques: nat, initial: Image, image: Image, owners: seq<Option<nat>>, loaded: set<nat>,
                          g: Group)
    requires ValidImage(uniques, image) && GroupOk(uniques, |image.work|, g)
    requires IndexFits(uniques, initial, image, owners, loaded)
    ensures IndexFits(uniques, initial, image, LoadOwners(initial, owners, loaded, Probes(g, image)), loaded
                      + Probes(g, image))
  {
    var probes := Probes(g, image);
    forall u: nat | u < uniques
      ensures EntryFits(initial, image, LoadOwners(initial, owners, loaded, probes), loaded + probes, u)
    {
      assert EntryFits(initial, image, owners, loaded, u);
    }
  }

  // --------------------------------------------------------------------- acceptance

  lemma AcceptsAlike(uniques: nat, image: Image, r: Relation, g: Group, owner: Option<nat>)
    requires ValidImage(uniques, image) && image == ImageOf(r) && (forall k :: k in r.rows ==> k < |r.highwater|)
    requires !OnState(g) && g.key < |image.work| && (g.action.Put? ==> owner == OwnerOf(image.work, g.unique))
    ensures Admissible(g, if image.work[g.key].Some? then image.work[g.key].value.version else 0, owner) <==>
        Acceptable(r, g)
  {
    assert image.work[g.key] == if g.key in r.rows then Some(r.rows[g.key]) else None;
    if g.action.Put? {
      OwnerElsewhere(uniques, image, r, g);
    }
  }

  lemma OwnerElsewhere(uniques: nat, image: Image, r: Relation, g: Group)
    requires ValidImage(uniques, image) && image == ImageOf(r) && (forall k :: k in r.rows ==> k < |r.highwater|)
    ensures TakenElsewhere(r, g) <==>
        OwnerOf(image.work, g.unique).Some? && OwnerOf(image.work, g.unique) != Some(g.key)
  {
    var owner := OwnerOf(image.work, g.unique);
    if TakenElsewhere(r, g) {
      var k :| k in r.rows && k != g.key && r.rows[k].unique == g.unique;
      assert Owns(image.work, k, g.unique);
      OwnerIs(uniques, image, k, g.unique);
    }
    if owner.Some? && owner.value != g.key {
      assert Owns(image.work, owner.value, g.unique);
      assert owner.value in r.rows;
    }
  }

  // ------------------------------------------------------------------- one group

  /** The plan of one group is its relational meaning, and the index stays right. */
  ghost predicate PlansAlike(uniques: nat, initial: Image, loaded: set<nat>, r: Relation, g: Group, p: Planned)
    requires !OnState(g) ==> g.key < |r.highwater|
  {
    && p.image == ImageOf(Applied(r, g)) && p.outcome == Verdict(r, g)
    && ValidImage(uniques, p.image) && IndexFits(uniques, initial, p.image, p.owners, loaded)
  }

  /** All that is known before a group is planned. */
  ghost predicate Ready(uniques: nat, initial: Image, image: Image, owners: seq<Option<nat>>, loaded: set<nat>,
                        r: Relation, g: Group) {
    && ValidImage(uniques, image) && IndexFits(uniques, initial, image, owners, loaded)
    && image == ImageOf(r) && (forall k :: k in r.rows ==> k < |r.highwater|)
    && GroupOk(uniques, |image.work|, g) && Probes(g, image) <= loaded
  }

  lemma StateAlike(uniques: nat, initial: Image, image: Image, owners: seq<Option<nat>>, loaded: set<nat>,
                   r: Relation, g: Group)
    requires Ready(uniques, initial, image, owners, loaded, r, g) && OnState(g)
    ensures PlansAlike(uniques, initial, loaded, r, g, PlanGroup(g, image, owners))
  {
    var p := PlanGroup(g, image, owners);
    assert p.image.work == image.work;
    assert ImageOf(Applied(r, g)).work == image.work;
    forall u: nat | u < uniques
      ensures EntryFits(initial, p.image, p.owners, loaded, u)
    {
      assert EntryFits(initial, image, owners, loaded, u);
    }
  }

  /** The rows after the group differ at its key only. */
  lemma RowsAfter(image: Image, r: Relation, g: Group, row: Option<Work>)
    requires image == ImageOf(r) && g.key < |r.highwater| && !OnState(g) && Acceptable(r, g)
    requires row == if g.key in Applied(r, g).rows then Some(Applied(r, g).rows[g.key]) else None
    ensures ImageOf(Applied(r, g)).work == image.work[g.key := row]
  {
  }

  lemma DeleteOwners(uniques: nat, image: Image, next: Image, key: nat, u: nat)
    requires ValidImage(uniques, image) && key < |image.work| && next.work == image.work[key := None]
    ensures OwnerOf(next.work, u) == if Owns(image.work, key, u) then None else OwnerOf(image.work, u)
  {
    forall k: nat
      ensures Owns(next.work, k, u) <==> k != key && Owns(image.work, k, u)
    {
    }
    if !Owns(image.work, key, u) {
      OwnerSame(uniques, image, next, u);
    }
  }

  lemma PutOwners(uniques: nat, image: Image, next: Image, key: nat, work: Work, u: nat)
    requires ValidImage(uniques, image) && key < |image.work| && next.work == image.work[key := Some(work)]
    requires OwnerOf(image.work, work.unique) == None || OwnerOf(image.work, work.unique) == Some(key)
    ensures OwnerOf(next.work, u) == if u == work.unique then Some(key) else if Owns(image.work, key, u) then None
        else OwnerOf(image.work, u)
  {
    forall k: nat
      ensures Owns(next.work, k, u) <==> if k == key then u == work.unique else Owns(image.work, k, u)
    {
    }
    if u == work.unique {
      assert Owns(next.work, key, u);
      OnlyOwner(uniques, image, next, key, u);
    } else if !Owns(image.work, key, u) {
      OwnerSame(uniques, image, next, u);
    }
  }

  lemma OnlyOwner(uniques: nat, image: Image, next: Image, key: nat, u: nat)
    requires ValidImage(uniques, image) && (OwnerOf(image.work, u) == None || OwnerOf(image.work, u) == Some(key))
    requires Owns(next.work, key, u) && forall k: nat :: k != key ==>
        (Owns(next.work, k, u) <==> Owns(image.work, k, u))
    ensures OwnerOf(next.work, u) == Some(key)
  {
    var owner := OwnerOf(next.work, u).value;
    if owner != key {
      assert Owns(image.work, owner, u);
      OwnerIs(uniques, image, owner, u);
    }
  }

  lemma RejectedAlike(uniques: nat, initial: Image, image: Image, owners: seq<Option<nat>>, loaded: set<nat>,
                      r: Relation, g: Group)
    requires Ready(uniques, initial, image, owners, loaded, r, g) && !OnState(g) && !Acceptable(r, g)
    ensures PlansAlike(uniques, initial, loaded, r, g, PlanGroup(g, image, owners))
  {
    if g.action.Put? {
      assert EntryFits(initial, image, owners, loaded, g.unique);
    }
    AcceptsAlike(uniques, image, r, g, if g.action.Put? then owners[g.unique] else None);
  }

  lemma DeletedValid(uniques: nat, image: Image, next: Image, key: nat)
    requires ValidImage(uniques, image) && key < |image.work| && next.work == image.work[key := None]
    requires |next.highwater| == |image.highwater|
    ensures ValidImage(uniques, next)
  {
    forall j: nat, k: nat, u: nat | Owns(next.work, j, u) && Owns(next.work, k, u)
      ensures j == k
    {
      assert Owns(image.work, j, u) && Owns(image.work, k, u);
    }
  }

  lemma PutValid(uniques: nat, image: Image, next: Image, key: nat, work: Work)
    requires ValidImage(uniques, image) && key < |image.work| && next.work == image.work[key := Some(work)]
    requires |next.highwater| == |image.highwater| && work.unique < uniques
    requires OwnerOf(image.work, work.unique) == None || OwnerOf(image.work, work.unique) == Some(key)
    ensures ValidImage(uniques, next)
  {
    forall j: nat, k: nat, u: nat | Owns(next.work, j, u) && Owns(next.work, k, u)
      ensures j == k
    {
      assert j != key ==> Owns(image.work, j, u);
      assert k != key ==> Owns(image.work, k, u);
      PutOwners(uniques, image, next, key, work, u);
      if j != key && u == work.unique {
        OwnerIs(uniques, image, j, u);
      }
      if k != key && u == work.unique {
        OwnerIs(uniques, image, k, u);
      }
    }
  }

  lemma DeleteAlike(uniques: nat, initial: Image, image: Image, owners: seq<Option<nat>>, loaded: set<nat>,
                    r: Relation, g: Group)
    requires Ready(uniques, initial, image, owners, loaded, r, g) && g.action.Delete? && Acceptable(r, g)
    ensures PlansAlike(uniques, initial, loaded, r, g, PlanGroup(g, image, owners))
  {
    AcceptsAlike(uniques, image, r, g, None);
    RowsAfter(image, r, g, None);
    var p := PlanGroup(g, image, owners);
    DeletedValid(uniques, image, p.image, g.key);
    forall u: nat | u < uniques
      ensures EntryFits(initial, p.image, p.owners, loaded, u)
    {
      assert EntryFits(initial, image, owners, loaded, u);
      DeleteOwners(uniques, image, p.image, g.key, u);
    }
  }

  lemma PutAlike(uniques: nat, initial: Image, image: Image, owners: seq<Option<nat>>, loaded: set<nat>, r: Relation,
                 g: Group)
    requires Ready(uniques, initial, image, owners, loaded, r, g) && g.action.Put? && Acceptable(r, g)
    ensures PlansAlike(uniques, initial, loaded, r, g, PlanGroup(g, image, owners))
  {
    assert g.unique in loaded && EntryFits(initial, image, owners, loaded, g.unique);
    AcceptsAlike(uniques, image, r, g, owners[g.unique]);
    var p := PlanGroup(g, image, owners);
    var work := Work(image.highwater[g.key] + 1, g.unique, g.payload, 1);
    RowsAfter(image, r, g, Some(work));
    PutValid(uniques, image, p.image, g.key, work);
    forall u: nat | u < uniques
      ensures EntryFits(initial, p.image, p.owners, loaded, u)
    {
      assert EntryFits(initial, image, owners, loaded, u);
      PutOwners(uniques, image, p.image, g.key, work, u);
    }
  }

  lemma NumberAlike(uniques: nat, initial: Image, image: Image, owners: seq<Option<nat>>, loaded: set<nat>,
                    r: Relation, g: Group)
    requires Ready(uniques, initial, image, owners, loaded, r, g) && g.action.Number? && Acceptable(r, g)
    ensures PlansAlike(uniques, initial, loaded, r, g, PlanGroup(g, image, owners))
  {
    AcceptsAlike(uniques, image, r, g, None);
    var p := PlanGroup(g, image, owners);
    assert g.key in r.rows;
    RowsAfter(image, r, g, p.image.work[g.key]);
    forall k: nat, u: nat
      ensures Owns(p.image.work, k, u) <==> Owns(image.work, k, u)
    {
    }
    forall u: nat | u < uniques
      ensures EntryFits(initial, p.image, p.owners, loaded, u)
    {
      assert EntryFits(initial, image, owners, loaded, u);
      OwnerSame(uniques, image, p.image, u);
    }
  }

  /** Every group is planned as the relation has it, whatever part of the index is loaded. */
  lemma GroupAlike(uniques: nat, initial: Image, image: Image, owners: seq<Option<nat>>, loaded: set<nat>,
                   r: Relation, g: Group)
    requires Ready(uniques, initial, image, owners, loaded, r, g)
    ensures PlansAlike(uniques, initial, loaded, r, g, PlanGroup(g, image, owners))
  {
    if OnState(g) {
      StateAlike(uniques, initial, image, owners, loaded, r, g);
    } else if !Acceptable(r, g) {
      RejectedAlike(uniques, initial, image, owners, loaded, r, g);
    } else if g.action.Delete? {
      DeleteAlike(uniques, initial, image, owners, loaded, r, g);
    } else if g.action.Put? {
      PutAlike(uniques, initial, image, owners, loaded, r, g);
    } else {
      NumberAlike(uniques, initial, image, owners, loaded, r, g);
    }
  }
}
