/** The per-shell working-collection record and how it is read. */
module CwdRecord {
  import opened Cli
  import opened Session

  const CwdKey: string := "irods_cwd"

  /** What the record file holds: no file, text that is not JSON, a JSON value
      that is not an object, or a JSON object (its string-valued members). */
  datatype Record = NoFile | Undecodable | NotAnObject | Object(fields: map<string, string>)

  /** What `cd` writes: `{"irods_cwd": path}`. */
  function Saved(path: string): (r: Record)
  {
    Object(map[CwdKey := path])
  }

  /** The present working collection. A missing or undecodable file, or an
      empty `irods_cwd`, falls back to the home collection; a JSON object
      without the key, or a JSON value that is not an object, raises. */
  function Pwd(s: Session, rec: Record): (r: Result<string, Crash>)
    ensures r.Failure? <==> rec.NotAnObject? || (rec.Object? && CwdKey !in rec.fields)
    ensures r.Success? && r.value != HomeCollection(s) ==> rec.Object? && rec.fields[CwdKey] == r.value
    ensures rec.Object? && CwdKey in rec.fields && rec.fields[CwdKey] != "" ==> r == Success(rec.fields[CwdKey])
  {
    match rec
    case NoFile => Success(HomeCollection(s))
    case Undecodable => Success(HomeCollection(s))
    case NotAnObject => Failure(CwdNotAnObject)
    case Object(fields) =>
      if CwdKey !in fields then Failure(MissingCwdKey)
      else if fields[CwdKey] != "" then Success(fields[CwdKey])
      else Success(HomeCollection(s))
  }

  /** The three tolerated states all yield the home collection. */
  lemma PwdFallsBackToHome(s: Session, rec: Record)
    requires rec.NoFile? || rec.Undecodable? || (rec.Object? && CwdKey in rec.fields && rec.fields[CwdKey] == "")
    ensures Pwd(s, rec) == Success(HomeCollection(s))
  {
  }

  /** A record lacking the key is an error, not a fallback. */
  lemma PwdMissingKeyRaises(s: Session, fields: map<string, string>)
    requires CwdKey !in fields
    ensures Pwd(s, Object(fields)) == Failure(MissingCwdKey)
  {
  }

  /** Reading back what `cd` wrote gives the same path, unless it was empty. */
  lemma PwdReadsBackSaved(s: Session, path: string)
    ensures Pwd(s, Saved(path)) == if path == "" then Success(HomeCollection(s)) else Success(path)
  {
  }
}
