/** The `execute-general-query` command: GenQuery2 through the client, and
    how its exceptions become messages. */
module GeneralQuery {
  import opened Cli
  import opened Session

  /** What the client returns: the compiled SQL text, or result rows. */
  datatype QueryDoc = SqlText(sql: string) | Rows(rows: seq<seq<string>>)

  const InvalidInputParamMessage: string := "ERROR: irods.exception.SYS_INVALID_INPUT_PARAM"
  const BadQuerystring: string := "bad querystring"

  /** The `except` clauses in order; the first that matches wins. The two
      query-specific classes get fixed text, every other catalog or network
      exception is printed as itself. */
  function QueryErrorMessage(e: CatalogError): (m: string)
    ensures e == IrodsError(SysInvalidInputParam, e.text) ==> m == InvalidInputParamMessage
    ensures e == IrodsError(SysLibraryError, e.text) ==> m == BadQuerystring
    ensures e.NetworkError? || e.kind.OtherIrodsError? ==> m == e.text
  {
    match e
    case IrodsError(SysInvalidInputParam, _) => InvalidInputParamMessage
    case IrodsError(SysLibraryError, _) => BadQuerystring
    case IrodsError(OtherIrodsError(_), text) => text
    case NetworkError(text) => text
  }

  /** The zone the query runs against: the session's zone only when no zone
      was given at all (an empty `--zone ""` is kept). */
  function QueryZone(s: Session, zone: Option<string>): (z: string)
    ensures zone.None? ==> z == s.zone
    ensures zone.Some? ==> z == zone.value
  {
    if zone.None? then s.zone else zone.value
  }

  /** `execute-general-query`: `--sql-only` asks for the compiled SQL instead
      of the rows; `reply` is the client's answer. */
  function ExecuteGeneralQuery(s: Session, querystring: string, sqlOnly: bool, zone: Option<string>,
                               reply: Result<QueryDoc, CatalogError>): (run: Run<QueryDoc>)
    ensures run.request == Some(if sqlOnly then GetSql(querystring, QueryZone(s, zone))
                                else ExecuteQuery(querystring, QueryZone(s, zone)))
    ensures reply.Success? ==> run.outcome == Exit(Document(reply.value), 0)
    ensures reply.Failure? ==> run.outcome == Exit(Text(QueryErrorMessage(reply.error)), 1)
  {
    var z := QueryZone(s, zone);
    var request := if sqlOnly then GetSql(querystring, z) else ExecuteQuery(querystring, z);
    match reply
    case Success(doc) => Run(Some(request), Exit(Document(doc), 0))
    case Failure(e) => Run(Some(request), Exit(Text(QueryErrorMessage(e)), 1))
  }

  /** The outcome depends on the client's answer alone: `--sql-only` changes
      only the request, naming the session's own zone is the same as giving
      no zone, and every ending follows the exit convention. */
  lemma QueryOutcomes(s: Session, querystring: string, sqlOnly: bool, zone: Option<string>,
                      reply: Result<QueryDoc, CatalogError>)
    ensures ExecuteGeneralQuery(s, querystring, true, zone, reply).outcome
         == ExecuteGeneralQuery(s, querystring, false, zone, reply).outcome
    ensures ExecuteGeneralQuery(s, querystring, sqlOnly, None, reply)
         == ExecuteGeneralQuery(s, querystring, sqlOnly, Some(s.zone), reply)
    ensures Conventional(ExecuteGeneralQuery(s, querystring, sqlOnly, zone, reply).outcome)
  {
  }
}
