/** Logical path resolution against the present working collection. */
module Paths {
  import opened Cli
  import opened Session
  import opened CwdRecord

  predicate IsAbsolute(raw: string)
  {
    |raw| > 0 && raw[0] == '/'
  }

  /** An absolute input is used as it is; any other input is appended to the
      present working collection and passed through `iRODSPath`. Only the
      relative branch reads the record, and so only it can raise. */
  function Resolve(s: Session, rec: Record, raw: string): (r: Result<string, Crash>)
    ensures r.Failure? <==> !IsAbsolute(raw) && Pwd(s, rec).Failure?
    ensures r.Failure? ==> r.error == Pwd(s, rec).error
    ensures r.Success? && IsAbsolute(raw) ==> r.value == raw
    ensures r.Success? && !IsAbsolute(raw) ==> Pwd(s, rec).Success? && r.value == s.normalize(Pwd(s, rec).value + "/" + raw)
  {
    if IsAbsolute(raw) then Success(raw)
    else
      match Pwd(s, rec)
      case Failure(c) => Failure(c)
      case Success(w) => Success(s.normalize(w + "/" + raw))
  }

  /** With no stored working collection, a relative input is resolved under
      the home collection. */
  lemma ResolveUnderHome(s: Session, raw: string)
    requires !IsAbsolute(raw)
    ensures Resolve(s, NoFile, raw) == Success(s.normalize(HomeCollection(s) + "/" + raw))
  {
  }
}
