/** Shared vocabulary of the command-line front end: optional values, results,
    what a command prints and its exit status, the errors the catalog client
    raises, and the requests a command sends to the catalog. */
module Cli {

  datatype Option<T> = None | Some(value: T)

  datatype Result<T, E> = Success(value: T) | Failure(error: E)

  /** A Python exception that no `except` clause of the command catches: the
      interpreter prints a traceback and the process exits with status 1.
      Both arise while reading the working-collection record: a JSON object
      without the `irods_cwd` key (KeyError) and a JSON value that is not an
      object at all (TypeError on subscripting). */
  datatype Crash = MissingCwdKey | CwdNotAnObject

  /** What a command writes to standard output: nothing, one line of text, or
      one JSON document. */
  datatype Output<D> = Silent | Text(line: string) | Document(doc: D)

  /** How a command ends: a deliberate exit with an output and a status, or an
      uncaught exception. */
  datatype Outcome<D> = Exit(output: Output<D>, code: int) | Uncaught(crash: Crash)

  /** The classes of `irods.exception` the front end tells apart. */
  datatype IrodsKind = SysInvalidInputParam | SysLibraryError | OtherIrodsError(name: string)

  /** An exception raised by the catalog client; `text` is what `str(e)` gives. */
  datatype CatalogError =
    | IrodsError(kind: IrodsKind, text: string)
    | NetworkError(text: string)

  /** A keyword argument passed to a catalog operation. */
  datatype Value = Str(s: string) | Int(i: int) | Bool(b: bool)

  type Options = map<string, Value>

  /** A request that changes the catalog, or a query sent to it. */
  datatype Request =
    | TouchCollection(path: string, options: Options)
    | TouchDataObject(path: string, options: Options)
    | RemoveCollection(path: string, options: Options)
    | UnlinkDataObject(path: string, options: Options)
    | MoveCollection(source: string, destination: string)
    | MoveDataObject(source: string, destination: string)
    | GetSql(query: string, zone: string)
    | ExecuteQuery(query: string, zone: string)

  /** One invocation: the request it sent (if it got that far) and how it ended. */
  datatype Run<D> = Run(request: Option<Request>, outcome: Outcome<D>)

  /** The tail shared by `touch`, `remove` and `rename`: success prints nothing
      and exits 0; a catalog exception is printed with `print(e)` and exits 1. */
  function Completion(reply: Option<CatalogError>): (o: Outcome<()>)
    ensures o.Exit?
    ensures o.code == 0 <==> reply.None?
    ensures reply.None? ==> o.output == Silent
    ensures reply.Some? ==> o == Exit(Text(reply.value.text), 1)
  {
    match reply
    case None => Exit(Silent, 0)
    case Some(e) => Exit(Text(e.text), 1)
  }

  /** Every handled ending exits 0 or 1, and an exit 1 always prints one line. */
  predicate Conventional<D>(o: Outcome<D>)
  {
    o.Exit? ==> (o.code == 0 || o.code == 1) && (o.code == 1 ==> o.output.Text?)
  }
}
