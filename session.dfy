/** The parts of an open catalog session the front end reads. */
module Session {

  /** `normalize` stands for the client's `iRODSPath` constructor, whose
      internals are not part of this model: it is an arbitrary function. */
  datatype Session = Session(zone: string, username: string, normalize: string -> string)

  /** The text of the home collection before normalisation. */
  function HomeText(s: Session): (t: string)
  {
    "/" + s.zone + "/home/" + s.username
  }

  /** The home collection, `/<zone>/home/<user>` passed through `iRODSPath`. */
  function HomeCollection(s: Session): (h: string)
    ensures s.normalize(HomeText(s)) == HomeText(s) ==> h == "/" + s.zone + "/home/" + s.username
  {
    s.normalize(HomeText(s))
  }
}
