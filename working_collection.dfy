/** The `cd` and `pwd` commands over the single per-shell record file. */
module WorkingCollection {
  import opened Cli
  import opened Session
  import opened CwdRecord
  import opened Paths
  import opened Catalog

  /** The record file of the invoking shell. Deleting and writing are the only
      two ways the front end changes it. */
  class CwdFile {
    var record: Record

    constructor (initial: Record)
      ensures record == initial
    {
      record := initial;
    }

    /** `os.remove`; an `OSError` (the file is already gone) is ignored. */
    method Delete()
      modifies this
      ensures record == NoFile
    {
      record := NoFile;
    }

    /** Overwrites the file with `{"irods_cwd": path}`. */
    method Write(path: string)
      modifies this
      ensures record == Saved(path)
    {
      record := Saved(path);
    }
  }

  function NoSuchCollection(path: string): (m: string)
  {
    "No such collection: " + path
  }

  /** The new record and the outcome of `cd`. A missing or empty argument
      deletes the record without touching the catalog. Otherwise the argument
      is resolved; the record is overwritten with the resolved path only if
      the catalog has that collection. */
  function CdEffect(s: Session, rec: Record, catalog: Catalog, collection: Option<string>)
    : (r: (Record, Outcome<()>))
    ensures r.1 != Exit(Silent, 0) ==> r.0 == rec
    ensures r.0 != rec && r.0 != NoFile
        ==> r.0.Object? && r.0.fields.Keys == {CwdKey} && r.0.fields[CwdKey] in catalog.collections
    ensures (collection.None? || collection == Some("")) ==> r.0 == NoFile
  {
    if collection.None? || collection.value == "" then (NoFile, Exit(Silent, 0))
    else
      match Resolve(s, rec, collection.value)
      case Failure(c) => (rec, Uncaught(c))
      case Success(p) =>
        if catalog.fault.Some? then (rec, Exit(Text(catalog.fault.value.text), 1))
        else if p in catalog.collections then (Saved(p), Exit(Silent, 0))
        else (rec, Exit(Text(NoSuchCollection(p)), 1))
  }

  method Cd(s: Session, file: CwdFile, catalog: Catalog, collection: Option<string>) returns (out: Outcome<()>)
    modifies file
    ensures (file.record, out) == CdEffect(s, old(file.record), catalog, collection)
  {
    if collection.None? || collection.value == "" {
      file.Delete();
      return Exit(Silent, 0);
    }
    var resolved := Resolve(s, file.record, collection.value);
    if resolved.Failure? {
      return Uncaught(resolved.error);
    }
    var p := resolved.value;
    if catalog.fault.Some? {
      return Exit(Text(catalog.fault.value.text), 1);
    }
    if p in catalog.collections {
      file.Write(p);
      out := Exit(Silent, 0);
    } else {
      out := Exit(Text(NoSuchCollection(p)), 1);
    }
  }

  /** `pwd`: prints the present working collection. */
  function PwdCommand(s: Session, rec: Record): (o: Outcome<()>)
    ensures Pwd(s, rec).Success? ==> o == Exit(Text(Pwd(s, rec).value), 0)
    ensures Pwd(s, rec).Failure? ==> o == Uncaught(Pwd(s, rec).error)
  {
    match Pwd(s, rec)
    case Success(w) => Exit(Text(w), 0)
    case Failure(c) => Uncaught(c)
  }

  /** `cd` with no or an empty argument clears the record and exits 0 for any
      catalog, even an unreachable one: it makes no catalog call. A following
      `pwd` prints the home collection. */
  lemma CdWithoutArgumentClears(s: Session, rec: Record, catalog: Catalog, collection: Option<string>)
    requires collection.None? || collection == Some("")
    ensures CdEffect(s, rec, catalog, collection) == (NoFile, Exit(Silent, 0))
    ensures PwdCommand(s, CdEffect(s, rec, catalog, collection).0) == Exit(Text(HomeCollection(s)), 0)
  {
  }

  /** `cd` to an existing collection stores exactly the resolved path, and a
      following `pwd` prints it (an empty resolved path reads back as home). */
  lemma CdToExistingCollection(s: Session, rec: Record, catalog: Catalog, arg: string)
    requires arg != "" && catalog.fault.None?
    requires Resolve(s, rec, arg).Success? && Resolve(s, rec, arg).value in catalog.collections
    ensures var p := Resolve(s, rec, arg).value;
      && CdEffect(s, rec, catalog, Some(arg)) == (Saved(p), Exit(Silent, 0))
      && PwdCommand(s, Saved(p)) == Exit(Text(if p == "" then HomeCollection(s) else p), 0)
  {
  }

  /** `cd` to a missing collection names the resolved path, exits 1 and leaves
      the record as it was. */
  lemma CdToMissingCollection(s: Session, rec: Record, catalog: Catalog, arg: string)
    requires arg != "" && catalog.fault.None?
    requires Resolve(s, rec, arg).Success? && Resolve(s, rec, arg).value !in catalog.collections
    ensures CdEffect(s, rec, catalog, Some(arg))
         == (rec, Exit(Text("No such collection: " + Resolve(s, rec, arg).value), 1))
  {
  }

  /** A relative `cd` from a shell with no record names the path under home:
      `cd nopes` prints `No such collection: <home>/nopes` once normalised. */
  lemma CdRelativeFromHome(s: Session, catalog: Catalog, arg: string)
    requires arg != "" && !IsAbsolute(arg) && catalog.fault.None?
    requires s.normalize(HomeCollection(s) + "/" + arg) !in catalog.collections
    ensures CdEffect(s, NoFile, catalog, Some(arg))
         == (NoFile, Exit(Text("No such collection: " + s.normalize(HomeCollection(s) + "/" + arg)), 1))
  {
  }

  /** A relative `cd` whose working-collection read raises lets the exception
      escape: the `except` clause catches only catalog and network errors. */
  lemma CdUnreadable(s: Session, rec: Record, catalog: Catalog, arg: string)
    requires arg != "" && Resolve(s, rec, arg).Failure?
    ensures CdEffect(s, rec, catalog, Some(arg)) == (rec, Uncaught(Pwd(s, rec).error))
  {
  }

  /** An unusable server makes the `exists` check raise: `cd` prints the
      exception's text, exits 1 and keeps the record. */
  lemma CdServerFault(s: Session, rec: Record, catalog: Catalog, arg: string)
    requires arg != "" && Resolve(s, rec, arg).Success? && catalog.fault.Some?
    ensures CdEffect(s, rec, catalog, Some(arg)) == (rec, Exit(Text(catalog.fault.value.text), 1))
  {
  }

  /** Whatever happens, `cd` only ever leaves the record unchanged, deleted,
      or holding a path it has checked to be a collection; and it ends by
      the exit convention of the front end. */
  lemma CdRecordStates(s: Session, rec: Record, catalog: Catalog, collection: Option<string>)
    ensures var (rec', out) := CdEffect(s, rec, catalog, collection);
      && (rec' == rec || rec' == NoFile || (exists p :: p in catalog.collections && rec' == Saved(p)))
      && Conventional(out)
  {
    if collection.Some? && collection.value != "" {
      var r := Resolve(s, rec, collection.value);
      if r.Success? && catalog.fault.None? && r.value in catalog.collections {
        assert CdEffect(s, rec, catalog, collection).0 == Saved(r.value);
      }
    }
  }
}
