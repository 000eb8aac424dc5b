/** The `list` command: the report built from a collection's children or from
    a single data object. */
module Listing {
  import opened Cli
  import opened Session
  import opened CwdRecord
  import opened Paths
  import opened Catalog
  import opened Sections

  /** The `-v/--verbose`, `--acls`, `--metadata` and `--replicas` flags. */
  datatype ListFlags = ListFlags(verbose: bool, acls: bool, metadata: bool, replicas: bool)

  /** `{"access_name", "user_name", "user_zone"}` */
  datatype AclView = AclView(accessName: string, userName: string, userZone: string)

  /** `{"attribute", "value", "unit"}` */
  datatype AvuView = AvuView(attribute: string, value: string, unit: string)

  /** `{"number", "status", "size", "physical_path", "resc_hier",
      "resource_name", "modify_time", "create_time", "checksum"}` */
  datatype ReplicaView = ReplicaView(
    number: int, status: string, size: int, physicalPath: string, rescHier: string,
    resourceName: string, modifyTime: string, createTime: string,
    checksum: Option<string>)

  /** The record of one child collection; a `None` field is a key that is
      absent from the JSON object: `{"id"?, "acls"?, "metadata"?}`. */
  datatype CollectionEntry = CollectionEntry(
    id: Option<int>, acls: Option<seq<AclView>>, metadata: Option<seq<AvuView>>)

  /** The record of one data object: `{"size", "id"?, "acls"?, "metadata"?, "replicas"?}`. */
  datatype DataObjectEntry = DataObjectEntry(
    size: int, id: Option<int>, acls: Option<seq<AclView>>, metadata: Option<seq<AvuView>>,
    replicas: Option<seq<ReplicaView>>)

  /** The printed document: `{"collections"?: {...}, "data_objects": {...}}`,
      each section keyed by name. */
  datatype Report = Report(
    collections: Option<Section<CollectionEntry>>, dataObjects: Section<DataObjectEntry>)

  const BadLogicalPath: string := "bad logical path"

  function ViewAcl(a: Acl): (v: AclView)
  {
    AclView(a.accessName, a.userName, a.userZone)
  }

  function ViewAvu(a: Avu): (v: AvuView)
  {
    AvuView(a.name, a.value, a.units)
  }

  function ViewReplica(r: Replica): (v: ReplicaView)
  {
    ReplicaView(r.number, r.status, r.size, r.path, r.rescHier, r.resourceName,
                r.modifyTime, r.createTime, r.checksum)
  }

  /** One descriptor per access entry, in the client's order. */
  function AclViews(acls: seq<Acl>): (r: seq<AclView>)
    ensures |r| == |acls|
    ensures forall i :: 0 <= i < |acls| ==> r[i] == ViewAcl(acls[i])
  {
    if acls == [] then [] else AclViews(acls[..|acls| - 1]) + [ViewAcl(acls[|acls| - 1])]
  }

  /** One descriptor per metadata triple, in the client's order. */
  function AvuViews(avus: seq<Avu>): (r: seq<AvuView>)
    ensures |r| == |avus|
    ensures forall i :: 0 <= i < |avus| ==> r[i] == ViewAvu(avus[i])
  {
    if avus == [] then [] else AvuViews(avus[..|avus| - 1]) + [ViewAvu(avus[|avus| - 1])]
  }

  /** One nine-field descriptor per replica, in the client's order. */
  function ReplicaViews(reps: seq<Replica>): (r: seq<ReplicaView>)
    ensures |r| == |reps|
    ensures forall i :: 0 <= i < |reps| ==> r[i] == ViewReplica(reps[i])
  {
    if reps == [] then [] else ReplicaViews(reps[..|reps| - 1]) + [ViewReplica(reps[|reps| - 1])]
  }

  /** The record of one child collection and the new value of the `acls`
      variable. `showAcls` is that variable as this entity finds it: the source
      rebinds it to the entity's access list, so once an entity with no access
      entries has been described it stays falsy for every later entity. */
  function CollectionStep(x: CollectionInfo, f: ListFlags, showAcls: bool): (r: (CollectionEntry, bool))
  {
    (CollectionEntry(
       if f.verbose then Some(x.id) else None,
       if showAcls && x.acls != [] then Some(AclViews(x.acls)) else None,
       if f.metadata && x.metadata != [] then Some(AvuViews(x.metadata)) else None),
     showAcls && x.acls != [])
  }

  /** The record of one data object and the new value of the `acls` variable. */
  function DataObjectStep(x: DataObjectInfo, f: ListFlags, showAcls: bool): (r: (DataObjectEntry, bool))
  {
    (DataObjectEntry(
       x.size,
       if f.verbose then Some(x.id) else None,
       if showAcls && x.acls != [] then Some(AclViews(x.acls)) else None,
       if f.metadata && x.metadata != [] then Some(AvuViews(x.metadata)) else None,
       if f.replicas then Some(ReplicaViews(x.replicas)) else None),
     showAcls && x.acls != [])
  }

  /** The loop over child collections, from a section `acc` and an `acls`
      value `show`: each child is stored under its name with `update`. The
      final `acls` value is truthy only if it was and every child had an
      access entry. */
  function FoldCollections(xs: seq<CollectionInfo>, f: ListFlags, show: bool, acc: Section<CollectionEntry>)
    : (r: (Section<CollectionEntry>, bool))
    ensures r.1 == (show && forall j :: 0 <= j < |xs| ==> xs[j].acls != [])
    decreases |xs|
  {
    if xs == [] then (acc, show)
    else
      var step := CollectionStep(xs[0], f, show);
      var r := FoldCollections(xs[1..], f, step.1, Upsert(acc, xs[0].name, step.0));
      assert forall j :: 0 < j < |xs| ==> xs[j] == xs[1..][j - 1];
      r
  }

  /** The loop over data objects; same shape as `FoldCollections`. */
  function FoldDataObjects(xs: seq<DataObjectInfo>, f: ListFlags, show: bool, acc: Section<DataObjectEntry>)
    : (r: (Section<DataObjectEntry>, bool))
    ensures r.1 == (show && forall j :: 0 <= j < |xs| ==> xs[j].acls != [])
    decreases |xs|
  {
    if xs == [] then (acc, show)
    else
      var step := DataObjectStep(xs[0], f, show);
      var r := FoldDataObjects(xs[1..], f, step.1, Upsert(acc, xs[0].name, step.0));
      assert forall j :: 0 < j < |xs| ==> xs[j] == xs[1..][j - 1];
      r
  }

  /** The path `list` describes: the argument, or when it is missing or empty
      the present working collection, resolved in both cases. */
  function ListTarget(s: Session, rec: Record, path: Option<string>): (r: Result<string, Crash>)
    ensures path.Some? && path.value != "" ==> r == Resolve(s, rec, path.value)
    ensures (path.None? || path.value == "") && Pwd(s, rec).Success? && IsAbsolute(Pwd(s, rec).value)
        ==> r == Pwd(s, rec)
    ensures (path.None? || path.value == "") && Pwd(s, rec).Success? && !IsAbsolute(Pwd(s, rec).value)
        ==> r == Success(s.normalize(Pwd(s, rec).value + "/" + Pwd(s, rec).value))
    ensures r.Failure? <==> Pwd(s, rec).Failure? && (path.None? || !IsAbsolute(path.value))
  {
    if path.None? || path.value == "" then
      match Pwd(s, rec)
      case Failure(c) => Failure(c)
      case Success(w) => Resolve(s, rec, w)
    else Resolve(s, rec, path.value)
  }

  /** What `list` prints and how it exits. */
  function ListOutcome(s: Session, rec: Record, catalog: Catalog, path: Option<string>, f: ListFlags)
    : (r: Outcome<Report>)
    ensures r.Uncaught? <==> ListTarget(s, rec, path).Failure?
    ensures ListTarget(s, rec, path).Success? && catalog.fault.Some?
        ==> r == Exit(Text(catalog.fault.value.text), 1)
    ensures r.Exit? ==> (r.code == 0 <==> r.output.Document?)
    ensures r.Exit? && r.code == 0 ==> catalog.fault.None?
    ensures r.Exit? && r.code == 0 ==>
      (r.output.doc.collections.Some? <==> ListTarget(s, rec, path).value in catalog.collections)
  {
    match ListTarget(s, rec, path)
    case Failure(c) => Uncaught(c)
    case Success(p) =>
      if catalog.fault.Some? then Exit(Text(catalog.fault.value.text), 1)
      else if p in catalog.collections then
        var colls := FoldCollections(catalog.collections[p].subcollections, f, f.acls, []);
        var objs := FoldDataObjects(catalog.collections[p].dataObjects, f, colls.1, []);
        Exit(Document(Report(Some(colls.0), objs.0)), 0)
      else if p in catalog.dataObjects then
        var objs := FoldDataObjects([catalog.dataObjects[p]], f, f.acls, []);
        Exit(Document(Report(None, objs.0)), 0)
      else Exit(Text(BadLogicalPath), 1)
  }

  // ---------------------------------------------------------------------
  // The imperative implementation, loop by loop as in the source.

  /** The inner loop over access entries: the key is assigned inside the loop,
      so it is set only when there is at least one entry. */
  method AclListing(acls: seq<Acl>) returns (list: seq<AclView>, key: Option<seq<AclView>>)
    ensures list == AclViews(acls)
    ensures key == if acls == [] then None else Some(AclViews(acls))
  {
    list, key := [], None;
    for j := 0 to |acls|
      invariant list == AclViews(acls[..j])
      invariant key == if j == 0 then None else Some(list)
    {
      assert acls[..j + 1][..j] == acls[..j];
      list := list + [ViewAcl(acls[j])];
      key := Some(list);
    }
    assert acls[..|acls|] == acls;
  }

  /** The inner loop over metadata triples; same key rule as `AclListing`. */
  method AvuListing(avus: seq<Avu>) returns (key: Option<seq<AvuView>>)
    ensures key == if avus == [] then None else Some(AvuViews(avus))
  {
    var list: seq<AvuView> := [];
    key := None;
    for j := 0 to |avus|
      invariant list == AvuViews(avus[..j])
      invariant key == if j == 0 then None else Some(list)
    {
      assert avus[..j + 1][..j] == avus[..j];
      list := list + [ViewAvu(avus[j])];
      key := Some(list);
    }
    assert avus[..|avus|] == avus;
  }

  /** The loop over replicas: the list is stored after the loop, so it is
      there even when empty. */
  method ReplicaListing(reps: seq<Replica>) returns (list: seq<ReplicaView>)
    ensures list == ReplicaViews(reps)
  {
    list := [];
    for j := 0 to |reps|
      invariant list == ReplicaViews(reps[..j])
    {
      assert reps[..j + 1][..j] == reps[..j];
      list := list + [ViewReplica(reps[j])];
    }
    assert reps[..|reps|] == reps;
  }

  method DescribeCollection(x: CollectionInfo, f: ListFlags, showAcls: bool)
    returns (entry: CollectionEntry, stillShowAcls: bool)
    ensures (entry, stillShowAcls) == CollectionStep(x, f, showAcls)
  {
    entry := CollectionEntry(if f.verbose then Some(x.id) else None, None, None);
    stillShowAcls := showAcls;
    if showAcls {
      var list, key := AclListing(x.acls);
      entry := entry.(acls := key);
      stillShowAcls := list != [];
    }
    if f.metadata {
      var key := AvuListing(x.metadata);
      entry := entry.(metadata := key);
    }
  }

  method DescribeDataObject(x: DataObjectInfo, f: ListFlags, showAcls: bool)
    returns (entry: DataObjectEntry, stillShowAcls: bool)
    ensures (entry, stillShowAcls) == DataObjectStep(x, f, showAcls)
  {
    entry := DataObjectEntry(x.size, if f.verbose then Some(x.id) else None, None, None, None);
    stillShowAcls := showAcls;
    if showAcls {
      var list, key := AclListing(x.acls);
      entry := entry.(acls := key);
      stillShowAcls := list != [];
    }
    if f.metadata {
      var key := AvuListing(x.metadata);
      entry := entry.(metadata := key);
    }
    if f.replicas {
      var reps := ReplicaListing(x.replicas);
      entry := entry.(replicas := Some(reps));
    }
  }

  /** `list`: resolves the target, then runs the loop over child collections
      and the loop over data objects, carrying the `acls` variable from the
      first loop into the second. */
  method List(s: Session, rec: Record, catalog: Catalog, path: Option<string>, f: ListFlags)
    returns (out: Outcome<Report>)
    ensures out == ListOutcome(s, rec, catalog, path, f)
  {
    var target := ListTarget(s, rec, path);
    if target.Failure? {
      return Uncaught(target.error);
    }
    var p := target.value;
    if catalog.fault.Some? {
      return Exit(Text(catalog.fault.value.text), 1);
    }
    var showAcls := f.acls;
    var collections: Option<Section<CollectionEntry>> := None;
    var objects: seq<DataObjectInfo>;
    if p in catalog.collections {
      var subs := catalog.collections[p].subcollections;
      var section: Section<CollectionEntry> := [];
      for i := 0 to |subs|
        invariant FoldCollections(subs[i..], f, showAcls, section) == FoldCollections(subs, f, f.acls, [])
      {
        assert subs[i..][0] == subs[i] && subs[i..][1..] == subs[i + 1..];
        var entry;
        entry, showAcls := DescribeCollection(subs[i], f, showAcls);
        section := Upsert(section, subs[i].name, entry);
      }
      collections := Some(section);
      objects := catalog.collections[p].dataObjects;
    } else if p in catalog.dataObjects {
      objects := [catalog.dataObjects[p]];
    } else {
      return Exit(Text(BadLogicalPath), 1);
    }
    ghost var showAtStart := showAcls;
    var dataSection: Section<DataObjectEntry> := [];
    for i := 0 to |objects|
      invariant FoldDataObjects(objects[i..], f, showAcls, dataSection) == FoldDataObjects(objects, f, showAtStart, [])
    {
      assert objects[i..][0] == objects[i] && objects[i..][1..] == objects[i + 1..];
      var entry;
      entry, showAcls := DescribeDataObject(objects[i], f, showAcls);
      dataSection := Upsert(dataSection, objects[i].name, entry);
    }
    out := Exit(Document(Report(collections, dataSection)), 0);
  }
}
