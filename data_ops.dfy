/** The `remove` and `rename` commands: which catalog operation they call and
    with which options. */
module DataOps {
  import opened Cli
  import opened Session
  import opened CwdRecord
  import opened Paths
  import opened Catalog

  /** The option map of `remove`: `force` only when set, `recurse` (with the
      flag's value, false included) only for a collection. */
  predicate RemoveOptionsFor(o: Options, force: bool, isCollection: bool, recursive: bool)
  {
    && o.Keys <= {"force", "recurse"}
    && ("force" in o <==> force)
    && (force ==> o["force"] == Bool(true))
    && ("recurse" in o <==> isCollection)
    && (isCollection ==> o["recurse"] == Bool(recursive))
  }

  /** `remove`: a collection goes to `collections.remove`, anything else to
      `data_objects.unlink`; `reply` is the catalog's answer. */
  method Remove(s: Session, rec: Record, catalog: Catalog, path: string, recursive: bool, force: bool,
                reply: Option<CatalogError>)
    returns (run: Run<()>)
    ensures Resolve(s, rec, path).Failure? ==> run == Run(None, Uncaught(Pwd(s, rec).error))
    ensures Resolve(s, rec, path).Success? && catalog.fault.Some?
        ==> run == Run(None, Exit(Text(catalog.fault.value.text), 1))
    ensures Resolve(s, rec, path).Success? && catalog.fault.None? ==>
      var p := Resolve(s, rec, path).value;
      && run.outcome == Completion(reply)
      && run.request.Some?
      && (if p in catalog.collections then run.request.value.RemoveCollection?
          else run.request.value.UnlinkDataObject?)
      && run.request.value.path == p
      && RemoveOptionsFor(run.request.value.options, force, p in catalog.collections, recursive)
  {
    var target := Resolve(s, rec, path);
    if target.Failure? {
      return Run(None, Uncaught(target.error));
    }
    var p := target.value;
    var options: Options := map[];
    if force {
      options := options["force" := Bool(force)];
    }
    if catalog.fault.Some? {
      return Run(None, Exit(Text(catalog.fault.value.text), 1));
    }
    var request;
    if p in catalog.collections {
      options := options["recurse" := Bool(recursive)];
      request := RemoveCollection(p, options);
    } else {
      request := UnlinkDataObject(p, options);
    }
    run := Run(Some(request), Completion(reply));
  }

  /** `rename`: both paths are resolved, then the source decides between
      `collections.move` and `data_objects.move`. */
  function Rename(s: Session, rec: Record, catalog: Catalog, source: string, destination: string,
                  reply: Option<CatalogError>): (r: Run<()>)
    ensures r.outcome.Uncaught? <==> Resolve(s, rec, source).Failure? || Resolve(s, rec, destination).Failure?
    ensures r.request.Some? <==> r.outcome.Exit? && catalog.fault.None?
    ensures r.request.Some? ==> r.outcome == Completion(reply)
  {
    match Resolve(s, rec, source)
    case Failure(c) => Run(None, Uncaught(c))
    case Success(src) =>
      match Resolve(s, rec, destination)
      case Failure(c) => Run(None, Uncaught(c))
      case Success(dst) =>
        if catalog.fault.Some? then Run(None, Exit(Text(catalog.fault.value.text), 1))
        else if src in catalog.collections then Run(Some(MoveCollection(src, dst)), Completion(reply))
        else Run(Some(MoveDataObject(src, dst)), Completion(reply))
  }

  /** `rename` moves between the two resolved paths with the operation the
      source's kind selects. It is silent and exits 0 when the catalog
      accepts, and prints the exception's text and exits 1 when it refuses. */
  lemma RenameDispatch(s: Session, rec: Record, catalog: Catalog, source: string, destination: string,
                       reply: Option<CatalogError>)
    requires Resolve(s, rec, source).Success? && Resolve(s, rec, destination).Success?
    requires catalog.fault.None?
    ensures var src := Resolve(s, rec, source).value;
      var dst := Resolve(s, rec, destination).value;
      var run := Rename(s, rec, catalog, source, destination, reply);
      && run.request == Some(if src in catalog.collections then MoveCollection(src, dst) else MoveDataObject(src, dst))
      && run.outcome == Completion(reply)
      && (run.outcome.Exit? && run.outcome.code == 0 <==> reply.None?)
  {
  }

  /** With both paths resolved, an unusable server raises at the first catalog
      call: its text is printed and `rename` exits 1 without sending a move. */
  lemma RenameServerFault(s: Session, rec: Record, catalog: Catalog, source: string, destination: string,
                          reply: Option<CatalogError>)
    requires Resolve(s, rec, source).Success? && Resolve(s, rec, destination).Success?
    requires catalog.fault.Some?
    ensures Rename(s, rec, catalog, source, destination, reply) == Run(None, Exit(Text(catalog.fault.value.text), 1))
  {
  }

  /** A relative path on either side raises when the record is unreadable,
      before any catalog call. */
  lemma RenameUnresolvable(s: Session, rec: Record, catalog: Catalog, source: string, destination: string,
                           reply: Option<CatalogError>)
    requires Resolve(s, rec, source).Failure? || Resolve(s, rec, destination).Failure?
    ensures Rename(s, rec, catalog, source, destination, reply) == Run(None, Uncaught(Pwd(s, rec).error))
  {
  }
}
