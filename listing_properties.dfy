/** What the `list` report promises, proved about the folds that specify it. */
module ListingProperties {
  import opened Cli
  import opened Session
  import opened CwdRecord
  import opened Paths
  import opened Catalog
  import opened Sections
  import opened Listing

  /** The names of `xs` in the client's enumeration order. */
  function Names<T>(xs: seq<T>, name: T -> string): (ns: seq<string>)
    ensures |ns| == |xs| && forall i :: 0 <= i < |xs| ==> ns[i] == name(xs[i])
  {
    if xs == [] then [] else [name(xs[0])] + Names(xs[1..], name)
  }

  /** A child-collection record holds only requested sections: `id` exactly
      when verbose, `acls` and `metadata` only when allowed and non-empty. */
  predicate CollectionEntryShaped(e: CollectionEntry, f: ListFlags, aclsAllowed: bool)
  {
    && (e.id.Some? <==> f.verbose)
    && (e.acls.Some? ==> aclsAllowed && e.acls.value != [])
    && (e.metadata.Some? ==> f.metadata && e.metadata.value != [])
  }

  /** A data-object record: like a collection record, plus `replicas`
      exactly when that flag is set. */
  predicate DataObjectEntryShaped(e: DataObjectEntry, f: ListFlags, aclsAllowed: bool)
  {
    && (e.id.Some? <==> f.verbose)
    && (e.acls.Some? ==> aclsAllowed && e.acls.value != [])
    && (e.metadata.Some? ==> f.metadata && e.metadata.value != [])
    && (e.replicas.Some? <==> f.replicas)
  }

  predicate CollectionsShaped(s: Section<CollectionEntry>, f: ListFlags, aclsAllowed: bool)
  {
    forall e :: e in s ==> CollectionEntryShaped(e.1, f, aclsAllowed)
  }

  predicate DataObjectsShaped(s: Section<DataObjectEntry>, f: ListFlags, aclsAllowed: bool)
  {
    forall e :: e in s ==> DataObjectEntryShaped(e.1, f, aclsAllowed)
  }

  // ---------------------------------------------------------------------
  // The loop over child collections

  lemma {:induction false} FoldCollectionsShaped(
    xs: seq<CollectionInfo>, f: ListFlags, show: bool, aclsAllowed: bool, acc: Section<CollectionEntry>)
    requires show ==> aclsAllowed
    requires CollectionsShaped(acc, f, aclsAllowed)
    ensures CollectionsShaped(FoldCollections(xs, f, show, acc).0, f, aclsAllowed)
    decreases |xs|
  {
    if xs != [] {
      var step := CollectionStep(xs[0], f, show);
      UpsertElements(acc, xs[0].name, step.0);
      FoldCollectionsShaped(xs[1..], f, step.1, aclsAllowed, Upsert(acc, xs[0].name, step.0));
    }
  }

  lemma {:induction false} FoldCollectionsDistinct(
    xs: seq<CollectionInfo>, f: ListFlags, show: bool, acc: Section<CollectionEntry>)
    requires DistinctKeys(acc)
    ensures DistinctKeys(FoldCollections(xs, f, show, acc).0)
    decreases |xs|
  {
    if xs != [] {
      var step := CollectionStep(xs[0], f, show);
      UpsertDistinct(acc, xs[0].name, step.0);
      FoldCollectionsDistinct(xs[1..], f, step.1, Upsert(acc, xs[0].name, step.0));
    }
  }

  /** The section's keys are the names already there plus every child's name. */
  lemma {:induction false} FoldCollectionsKeys(
    xs: seq<CollectionInfo>, f: ListFlags, show: bool, acc: Section<CollectionEntry>, n: string)
    ensures n in Keys(FoldCollections(xs, f, show, acc).0)
        <==> n in Keys(acc) || exists j :: 0 <= j < |xs| && xs[j].name == n
    decreases |xs|
  {
    if xs != [] {
      var step := CollectionStep(xs[0], f, show);
      KeysUpsert(acc, xs[0].name, step.0);
      FoldCollectionsKeys(xs[1..], f, step.1, Upsert(acc, xs[0].name, step.0), n);
      if exists j :: 0 <= j < |xs| && xs[j].name == n {
        var j :| 0 <= j < |xs| && xs[j].name == n;
        if j > 0 {
          assert xs[1..][j - 1].name == n;
        }
      }
      if exists j :: 0 <= j < |xs[1..]| && xs[1..][j].name == n {
        var j :| 0 <= j < |xs[1..]| && xs[1..][j].name == n;
        assert xs[j + 1].name == n;
      }
    }
  }

  /** Dict order over the whole loop: the keys are the old ones followed by
      each child's name the first time it occurs, in enumeration order. */
  lemma {:induction false} FoldCollectionsOrder(
    xs: seq<CollectionInfo>, f: ListFlags, show: bool, acc: Section<CollectionEntry>)
    ensures Keys(FoldCollections(xs, f, show, acc).0) == AddNew(Keys(acc), Names(xs, (x: CollectionInfo) => x.name))
    decreases |xs|
  {
    if xs != [] {
      var step := CollectionStep(xs[0], f, show);
      KeysUpsert(acc, xs[0].name, step.0);
      FoldCollectionsOrder(xs[1..], f, step.1, Upsert(acc, xs[0].name, step.0));
    }
  }

  /** A name no child carries keeps whatever the section held. */
  lemma {:induction false} FoldCollectionsUntouched(
    xs: seq<CollectionInfo>, f: ListFlags, show: bool, acc: Section<CollectionEntry>, n: string)
    requires forall j :: 0 <= j < |xs| ==> xs[j].name != n
    ensures Lookup(FoldCollections(xs, f, show, acc).0, n) == Lookup(acc, n)
    decreases |xs|
  {
    if xs != [] {
      var step := CollectionStep(xs[0], f, show);
      LookupUpsert(acc, xs[0].name, step.0, n);
      assert forall j :: 0 <= j < |xs[1..]| ==> xs[1..][j] == xs[j + 1];
      FoldCollectionsUntouched(xs[1..], f, step.1, Upsert(acc, xs[0].name, step.0), n);
    }
  }

  /** A name maps to the record of the LAST child with that name, built with
      the `acls` value that child found: truthy only if it started truthy and
      every earlier child had an access entry. */
  lemma {:induction false} FoldCollectionsLast(
    xs: seq<CollectionInfo>, f: ListFlags, show: bool, acc: Section<CollectionEntry>, k: nat)
    requires k < |xs|
    requires forall j :: k < j < |xs| ==> xs[j].name != xs[k].name
    ensures Lookup(FoldCollections(xs, f, show, acc).0, xs[k].name)
         == Some(CollectionStep(xs[k], f, show && forall j :: 0 <= j < k ==> xs[j].acls != []).0)
    decreases |xs|
  {
    var step := CollectionStep(xs[0], f, show);
    var acc' := Upsert(acc, xs[0].name, step.0);
    assert forall j :: 0 <= j < |xs[1..]| ==> xs[1..][j] == xs[j + 1];
    if k == 0 {
      FoldCollectionsUntouched(xs[1..], f, step.1, acc', xs[0].name);
      LookupUpsert(acc, xs[0].name, step.0, xs[0].name);
    } else {
      FoldCollectionsLast(xs[1..], f, step.1, acc', k - 1);
      assert (step.1 && forall j :: 0 <= j < k - 1 ==> xs[1..][j].acls != [])
          == (show && forall j :: 0 <= j < k ==> xs[j].acls != []);
    }
  }

  // ---------------------------------------------------------------------
  // The loop over data objects

  lemma {:induction false} FoldDataObjectsShaped(
    xs: seq<DataObjectInfo>, f: ListFlags, show: bool, aclsAllowed: bool, acc: Section<DataObjectEntry>)
    requires show ==> aclsAllowed
    requires DataObjectsShaped(acc, f, aclsAllowed)
    ensures DataObjectsShaped(FoldDataObjects(xs, f, show, acc).0, f, aclsAllowed)
    decreases |xs|
  {
    if xs != [] {
      var step := DataObjectStep(xs[0], f, show);
      UpsertElements(acc, xs[0].name, step.0);
      FoldDataObjectsShaped(xs[1..], f, step.1, aclsAllowed, Upsert(acc, xs[0].name, step.0));
    }
  }

  lemma {:induction false} FoldDataObjectsDistinct(
    xs: seq<DataObjectInfo>, f: ListFlags, show: bool, acc: Section<DataObjectEntry>)
    requires DistinctKeys(acc)
    ensures DistinctKeys(FoldDataObjects(xs, f, show, acc).0)
    decreases |xs|
  {
    if xs != [] {
      var step := DataObjectStep(xs[0], f, show);
      UpsertDistinct(acc, xs[0].name, step.0);
      FoldDataObjectsDistinct(xs[1..], f, step.1, Upsert(acc, xs[0].name, step.0));
    }
  }

  lemma {:induction false} FoldDataObjectsKeys(
    xs: seq<DataObjectInfo>, f: ListFlags, show: bool, acc: Section<DataObjectEntry>, n: string)
    ensures n in Keys(FoldDataObjects(xs, f, show, acc).0)
        <==> n in Keys(acc) || exists j :: 0 <= j < |xs| && xs[j].name == n
    decreases |xs|
  {
    if xs != [] {
      var step := DataObjectStep(xs[0], f, show);
      KeysUpsert(acc, xs[0].name, step.0);
      FoldDataObjectsKeys(xs[1..], f, step.1, Upsert(acc, xs[0].name, step.0), n);
      if exists j :: 0 <= j < |xs| && xs[j].name == n {
        var j :| 0 <= j < |xs| && xs[j].name == n;
        if j > 0 {
          assert xs[1..][j - 1].name == n;
        }
      }
      if exists j :: 0 <= j < |xs[1..]| && xs[1..][j].name == n {
        var j :| 0 <= j < |xs[1..]| && xs[1..][j].name == n;
        assert xs[j + 1].name == n;
      }
    }
  }

  /** Dict order over the data-object loop, as in `FoldCollectionsOrder`. */
  lemma {:induction false} FoldDataObjectsOrder(
    xs: seq<DataObjectInfo>, f: ListFlags, show: bool, acc: Section<DataObjectEntry>)
    ensures Keys(FoldDataObjects(xs, f, show, acc).0) == AddNew(Keys(acc), Names(xs, (x: DataObjectInfo) => x.name))
    decreases |xs|
  {
    if xs != [] {
      var step := DataObjectStep(xs[0], f, show);
      KeysUpsert(acc, xs[0].name, step.0);
      FoldDataObjectsOrder(xs[1..], f, step.1, Upsert(acc, xs[0].name, step.0));
    }
  }

  lemma {:induction false} FoldDataObjectsUntouched(
    xs: seq<DataObjectInfo>, f: ListFlags, show: bool, acc: Section<DataObjectEntry>, n: string)
    requires forall j :: 0 <= j < |xs| ==> xs[j].name != n
    ensures Lookup(FoldDataObjects(xs, f, show, acc).0, n) == Lookup(acc, n)
    decreases |xs|
  {
    if xs != [] {
      var step := DataObjectStep(xs[0], f, show);
      LookupUpsert(acc, xs[0].name, step.0, n);
      assert forall j :: 0 <= j < |xs[1..]| ==> xs[1..][j] == xs[j + 1];
      FoldDataObjectsUntouched(xs[1..], f, step.1, Upsert(acc, xs[0].name, step.0), n);
    }
  }

  lemma {:induction false} FoldDataObjectsLast(
    xs: seq<DataObjectInfo>, f: ListFlags, show: bool, acc: Section<DataObjectEntry>, k: nat)
    requires k < |xs|
    requires forall j :: k < j < |xs| ==> xs[j].name != xs[k].name
    ensures Lookup(FoldDataObjects(xs, f, show, acc).0, xs[k].name)
         == Some(DataObjectStep(xs[k], f, show && forall j :: 0 <= j < k ==> xs[j].acls != []).0)
    decreases |xs|
  {
    var step := DataObjectStep(xs[0], f, show);
    var acc' := Upsert(acc, xs[0].name, step.0);
    assert forall j :: 0 <= j < |xs[1..]| ==> xs[1..][j] == xs[j + 1];
    if k == 0 {
      FoldDataObjectsUntouched(xs[1..], f, step.1, acc', xs[0].name);
      LookupUpsert(acc, xs[0].name, step.0, xs[0].name);
    } else {
      FoldDataObjectsLast(xs[1..], f, step.1, acc', k - 1);
      assert (step.1 && forall j :: 0 <= j < k - 1 ==> xs[1..][j].acls != [])
          == (show && forall j :: 0 <= j < k ==> xs[j].acls != []);
    }
  }

  // ---------------------------------------------------------------------
  // The command

  /** A path that is neither a collection nor a data object prints
      `bad logical path`, exits 1 and emits no report. */
  lemma ListBadLogicalPath(s: Session, rec: Record, catalog: Catalog, path: Option<string>, f: ListFlags)
    requires ListTarget(s, rec, path).Success? && catalog.fault.None?
    requires ListTarget(s, rec, path).value !in catalog.collections
    requires ListTarget(s, rec, path).value !in catalog.dataObjects
    ensures ListOutcome(s, rec, catalog, path, f) == Exit(Text("bad logical path"), 1)
  {
  }

  /** On a data object the report has only `data_objects`, with the one
      entry `{size}` plus `id` when verbose and each requested section. */
  lemma ListDataObject(s: Session, rec: Record, catalog: Catalog, path: Option<string>, f: ListFlags)
    requires ListTarget(s, rec, path).Success? && catalog.fault.None?
    requires ListTarget(s, rec, path).value !in catalog.collections
    requires ListTarget(s, rec, path).value in catalog.dataObjects
    ensures var x := catalog.dataObjects[ListTarget(s, rec, path).value];
      ListOutcome(s, rec, catalog, path, f)
      == Exit(Document(Report(None, [(x.name, DataObjectEntry(
           x.size,
           if f.verbose then Some(x.id) else None,
           if f.acls && x.acls != [] then Some(AclViews(x.acls)) else None,
           if f.metadata && x.metadata != [] then Some(AvuViews(x.metadata)) else None,
           if f.replicas then Some(ReplicaViews(x.replicas)) else None))])), 0)
  {
    var x := catalog.dataObjects[ListTarget(s, rec, path).value];
    var step := DataObjectStep(x, f, f.acls);
    assert [x][1..] == [];
    assert Upsert([], x.name, step.0) == [(x.name, step.0)];
    assert FoldDataObjects([x], f, f.acls, []) == FoldDataObjects([], f, step.1, [(x.name, step.0)]);
  }

  /** On a collection the report has both sections, each a well-formed JSON
      object keyed by exactly the children's names, and every record holds
      only what was requested: child collections are `{}` or `{id}` plus
      non-empty `acls`/`metadata` when asked, every data object has `replicas`
      exactly when that flag is set. A name can be looked up exactly when it
      is one of the keys, and the keys follow the client's enumeration order,
      a repeated name staying where it first appeared. */
  lemma ListCollection(s: Session, rec: Record, catalog: Catalog, path: Option<string>, f: ListFlags)
    requires ListTarget(s, rec, path).Success? && catalog.fault.None?
    requires ListTarget(s, rec, path).value in catalog.collections
    ensures var c := catalog.collections[ListTarget(s, rec, path).value];
      var out := ListOutcome(s, rec, catalog, path, f);
      && out.Exit? && out.code == 0 && out.output.Document?
      && var rep := out.output.doc;
      && rep.collections.Some?
      && DistinctKeys(rep.collections.value) && DistinctKeys(rep.dataObjects)
      && CollectionsShaped(rep.collections.value, f, f.acls)
      && DataObjectsShaped(rep.dataObjects, f, f.acls)
      && (forall n :: n in Keys(rep.collections.value)
            <==> exists j :: 0 <= j < |c.subcollections| && c.subcollections[j].name == n)
      && (forall n :: n in Keys(rep.dataObjects)
            <==> exists j :: 0 <= j < |c.dataObjects| && c.dataObjects[j].name == n)
      && (forall n :: Lookup(rep.collections.value, n).Some? <==> n in Keys(rep.collections.value))
      && (forall n :: Lookup(rep.dataObjects, n).Some? <==> n in Keys(rep.dataObjects))
      && Keys(rep.collections.value) == AddNew([], Names(c.subcollections, (x: CollectionInfo) => x.name))
      && Keys(rep.dataObjects) == AddNew([], Names(c.dataObjects, (x: DataObjectInfo) => x.name))
  {
    var c := catalog.collections[ListTarget(s, rec, path).value];
    var colls := FoldCollections(c.subcollections, f, f.acls, []);
    FoldCollectionsShaped(c.subcollections, f, f.acls, f.acls, []);
    FoldCollectionsDistinct(c.subcollections, f, f.acls, []);
    FoldDataObjectsShaped(c.dataObjects, f, colls.1, f.acls, []);
    FoldDataObjectsDistinct(c.dataObjects, f, colls.1, []);
    FoldCollectionsOrder(c.subcollections, f, f.acls, []);
    FoldDataObjectsOrder(c.dataObjects, f, colls.1, []);
    forall n
      ensures n in Keys(colls.0)
          <==> exists j :: 0 <= j < |c.subcollections| && c.subcollections[j].name == n
      ensures Lookup(colls.0, n).Some? <==> n in Keys(colls.0)
    {
      FoldCollectionsKeys(c.subcollections, f, f.acls, [], n);
      LookupPresent(colls.0, n);
    }
    forall n
      ensures n in Keys(FoldDataObjects(c.dataObjects, f, colls.1, []).0)
          <==> exists j :: 0 <= j < |c.dataObjects| && c.dataObjects[j].name == n
      ensures Lookup(FoldDataObjects(c.dataObjects, f, colls.1, []).0, n).Some?
          <==> n in Keys(FoldDataObjects(c.dataObjects, f, colls.1, []).0)
    {
      FoldDataObjectsKeys(c.dataObjects, f, colls.1, [], n);
      LookupPresent(FoldDataObjects(c.dataObjects, f, colls.1, []).0, n);
    }
  }

  /** The record of a child collection (for the last child of that name):
      `acls` appears only if the flag was set, every earlier child had an
      access entry and this one has some. */
  lemma ListChildCollection(s: Session, rec: Record, catalog: Catalog, path: Option<string>, f: ListFlags, k: nat)
    requires ListTarget(s, rec, path).Success? && catalog.fault.None?
    requires ListTarget(s, rec, path).value in catalog.collections
    requires var xs := catalog.collections[ListTarget(s, rec, path).value].subcollections;
      k < |xs| && forall j :: k < j < |xs| ==> xs[j].name != xs[k].name
    ensures var xs := catalog.collections[ListTarget(s, rec, path).value].subcollections;
      var rep := ListOutcome(s, rec, catalog, path, f).output.doc;
      Lookup(rep.collections.value, xs[k].name) == Some(CollectionEntry(
        if f.verbose then Some(xs[k].id) else None,
        if f.acls && (forall j :: 0 <= j < k ==> xs[j].acls != []) && xs[k].acls != []
        then Some(AclViews(xs[k].acls)) else None,
        if f.metadata && xs[k].metadata != [] then Some(AvuViews(xs[k].metadata)) else None))
  {
    var xs := catalog.collections[ListTarget(s, rec, path).value].subcollections;
    FoldCollectionsLast(xs, f, f.acls, [], k);
  }

  /** The record of a data object in a collection (for the last object of that
      name): its size, its id when verbose, all its replicas in order when
      asked, and `acls` only if no child collection and no earlier data object
      lacked access entries. */
  lemma ListChildDataObject(s: Session, rec: Record, catalog: Catalog, path: Option<string>, f: ListFlags, k: nat)
    requires ListTarget(s, rec, path).Success? && catalog.fault.None?
    requires ListTarget(s, rec, path).value in catalog.collections
    requires var xs := catalog.collections[ListTarget(s, rec, path).value].dataObjects;
      k < |xs| && forall j :: k < j < |xs| ==> xs[j].name != xs[k].name
    ensures var c := catalog.collections[ListTarget(s, rec, path).value];
      var xs := c.dataObjects;
      var rep := ListOutcome(s, rec, catalog, path, f).output.doc;
      Lookup(rep.dataObjects, xs[k].name) == Some(DataObjectEntry(
        xs[k].size,
        if f.verbose then Some(xs[k].id) else None,
        if && f.acls
           && (forall j :: 0 <= j < |c.subcollections| ==> c.subcollections[j].acls != [])
           && (forall j :: 0 <= j < k ==> xs[j].acls != [])
           && xs[k].acls != []
        then Some(AclViews(xs[k].acls)) else None,
        if f.metadata && xs[k].metadata != [] then Some(AvuViews(xs[k].metadata)) else None,
        if f.replicas then Some(ReplicaViews(xs[k].replicas)) else None))
  {
    var c := catalog.collections[ListTarget(s, rec, path).value];
    var colls := FoldCollections(c.subcollections, f, f.acls, []);
    FoldDataObjectsLast(c.dataObjects, f, colls.1, [], k);
  }

  /** The `acls` flag is lost for good: once a child collection without access
      entries has been listed, no data object of the report carries `acls`. */
  lemma ListAclsLostAfterEmptyCollection(
    s: Session, rec: Record, catalog: Catalog, path: Option<string>, f: ListFlags, j: nat)
    requires ListTarget(s, rec, path).Success? && catalog.fault.None?
    requires ListTarget(s, rec, path).value in catalog.collections
    requires j < |catalog.collections[ListTarget(s, rec, path).value].subcollections|
    requires catalog.collections[ListTarget(s, rec, path).value].subcollections[j].acls == []
    ensures forall e :: e in ListOutcome(s, rec, catalog, path, f).output.doc.dataObjects ==> e.1.acls.None?
  {
    var c := catalog.collections[ListTarget(s, rec, path).value];
    var colls := FoldCollections(c.subcollections, f, f.acls, []);
    FoldDataObjectsShaped(c.dataObjects, f, colls.1, false, []);
  }

  /** `list` ends by the front end's exit convention. */
  lemma ListConventional(s: Session, rec: Record, catalog: Catalog, path: Option<string>, f: ListFlags)
    ensures Conventional(ListOutcome(s, rec, catalog, path, f))
  {
  }
}
