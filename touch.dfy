/** The `touch` command: option validation before any session is opened, then
    the option map passed to the catalog's touch operation. */
module Touch {
  import opened Cli
  import opened Session
  import opened CwdRecord
  import opened Paths
  import opened Catalog

  /** The positional path and the four options; `None` is an option not given. */
  datatype TouchArgs = TouchArgs(
    logicalPath: string,
    secondsSinceEpoch: Option<int>,
    reference: Option<string>,
    leafResourceName: Option<string>,
    replicaNumber: Option<int>)

  /** Python truthiness of an optional string: given and non-empty. */
  predicate Given(o: Option<string>)
  {
    o.Some? && o.value != ""
  }

  /** Python truthiness of an optional integer: given and non-zero. */
  predicate NonZero(o: Option<int>)
  {
    o.Some? && o.value != 0
  }

  const SecondsReferenceExclusive: string := "--seconds-since-epoch and --reference are mutually exclusive."
  const ResourceReplicaExclusive: string := "--leaf-resource-name and --replica-number are mutually exclusive."

  /** The two mutual-exclusion checks, first one first. They treat zero
      differently: `--replica-number 0` counts as given (the source tests
      `replica_number or replica_number == 0`), `--seconds-since-epoch 0` does
      not (a bare truthiness test). */
  function TouchConflict(a: TouchArgs): (r: Option<string>)
    ensures r.Some? <==>
      (Given(a.reference) && NonZero(a.secondsSinceEpoch)) || (Given(a.leafResourceName) && a.replicaNumber.Some?)
    ensures r == Some(SecondsReferenceExclusive) <==> Given(a.reference) && NonZero(a.secondsSinceEpoch)
    ensures r == Some(ResourceReplicaExclusive)
        <==> !(Given(a.reference) && NonZero(a.secondsSinceEpoch)) && Given(a.leafResourceName) && a.replicaNumber.Some?
  {
    if Given(a.reference) && NonZero(a.secondsSinceEpoch) then Some(SecondsReferenceExclusive)
    else if Given(a.leafResourceName) && a.replicaNumber.Some? then Some(ResourceReplicaExclusive)
    else None
  }

  /** The option map holds exactly the options the source passes on:
      `reference` resolved to a full path when given, `seconds_since_epoch`
      only when non-zero, `leaf_resource_name` only when non-empty, and
      `replica_number` whenever it was given, zero included. */
  predicate TouchOptionsFor(s: Session, rec: Record, a: TouchArgs, o: Options)
  {
    && o.Keys <= {"reference", "seconds_since_epoch", "leaf_resource_name", "replica_number"}
    && ("reference" in o <==> Given(a.reference))
    && (Given(a.reference) ==>
          Resolve(s, rec, a.reference.value).Success?
          && o["reference"] == Str(Resolve(s, rec, a.reference.value).value))
    && ("seconds_since_epoch" in o <==> NonZero(a.secondsSinceEpoch))
    && (NonZero(a.secondsSinceEpoch) ==> o["seconds_since_epoch"] == Int(a.secondsSinceEpoch.value))
    && ("leaf_resource_name" in o <==> Given(a.leafResourceName))
    && (Given(a.leafResourceName) ==> o["leaf_resource_name"] == Str(a.leafResourceName.value))
    && ("replica_number" in o <==> a.replicaNumber.Some?)
    && (a.replicaNumber.Some? ==> o["replica_number"] == Int(a.replicaNumber.value))
  }

  /** Builds the option map step by step. Resolving the reference reads the
      working collection and can raise. */
  method BuildTouchOptions(s: Session, rec: Record, a: TouchArgs) returns (r: Result<Options, Crash>)
    ensures r.Failure? <==> Given(a.reference) && Resolve(s, rec, a.reference.value).Failure?
    ensures r.Failure? ==> r.error == Pwd(s, rec).error
    ensures r.Success? ==> TouchOptionsFor(s, rec, a, r.value)
  {
    var options: Options := map[];
    if Given(a.reference) {
      var reference := Resolve(s, rec, a.reference.value);
      if reference.Failure? {
        return Failure(reference.error);
      }
      options := options["reference" := Str(reference.value)];
    }
    if NonZero(a.secondsSinceEpoch) {
      options := options["seconds_since_epoch" := Int(a.secondsSinceEpoch.value)];
    }
    if Given(a.leafResourceName) {
      options := options["leaf_resource_name" := Str(a.leafResourceName.value)];
    }
    if a.replicaNumber.Some? {
      options := options["replica_number" := Int(a.replicaNumber.value)];
    }
    r := Success(options);
  }

  /** Every path the command resolves resolves without raising. */
  predicate TouchResolves(s: Session, rec: Record, a: TouchArgs)
  {
    && Resolve(s, rec, a.logicalPath).Success?
    && (Given(a.reference) ==> Resolve(s, rec, a.reference.value).Success?)
  }

  /** `touch`. A rejected combination exits 1 with its fixed message before
      the record or the catalog is consulted. Otherwise the target is touched
      as a collection if the catalog has that collection and as a data object
      if not, with the option map above; `reply` is the catalog's answer. */
  method Touch(s: Session, rec: Record, catalog: Catalog, a: TouchArgs, reply: Option<CatalogError>)
    returns (run: Run<()>)
    ensures TouchConflict(a).Some? ==> run == Run(None, Exit(Text(TouchConflict(a).value), 1))
    ensures TouchConflict(a).None? && !TouchResolves(s, rec, a) ==> run == Run(None, Uncaught(Pwd(s, rec).error))
    ensures TouchConflict(a).None? && TouchResolves(s, rec, a) && catalog.fault.Some?
        ==> run == Run(None, Exit(Text(catalog.fault.value.text), 1))
    ensures TouchConflict(a).None? && TouchResolves(s, rec, a) && catalog.fault.None? ==>
      var p := Resolve(s, rec, a.logicalPath).value;
      && run.outcome == Completion(reply)
      && run.request.Some?
      && (if p in catalog.collections then run.request.value.TouchCollection?
          else run.request.value.TouchDataObject?)
      && run.request.value.path == p
      && TouchOptionsFor(s, rec, a, run.request.value.options)
  {
    var conflict := TouchConflict(a);
    if conflict.Some? {
      return Run(None, Exit(Text(conflict.value), 1));
    }
    var target := Resolve(s, rec, a.logicalPath);
    if target.Failure? {
      return Run(None, Uncaught(target.error));
    }
    var options := BuildTouchOptions(s, rec, a);
    if options.Failure? {
      return Run(None, Uncaught(options.error));
    }
    if catalog.fault.Some? {
      return Run(None, Exit(Text(catalog.fault.value.text), 1));
    }
    var request;
    if target.value in catalog.collections {
      request := TouchCollection(target.value, options.value);
    } else {
      request := TouchDataObject(target.value, options.value);
    }
    run := Run(Some(request), Completion(reply));
  }

  /** `--replica-number 0` with a leaf resource is rejected like any other
      replica number. */
  lemma ZeroReplicaNumberConflicts(a: TouchArgs)
    requires Given(a.leafResourceName) && a.replicaNumber == Some(0)
    requires !(Given(a.reference) && NonZero(a.secondsSinceEpoch))
    ensures TouchConflict(a) == Some("--leaf-resource-name and --replica-number are mutually exclusive.")
  {
  }

  /** `--seconds-since-epoch 0` with a reference passes validation, and the
      zero is dropped from the options. */
  lemma ZeroSecondsPassesAndIsDropped(s: Session, rec: Record, a: TouchArgs, o: Options)
    requires Given(a.reference) && a.secondsSinceEpoch == Some(0)
    requires !(Given(a.leafResourceName) && a.replicaNumber.Some?)
    requires TouchOptionsFor(s, rec, a, o)
    ensures TouchConflict(a).None?
    ensures "seconds_since_epoch" !in o && "reference" in o
  {
  }

  /** `--replica-number 0` on its own is passed on. */
  lemma ZeroReplicaNumberIsPassed(s: Session, rec: Record, a: TouchArgs, o: Options)
    requires a.replicaNumber == Some(0)
    requires TouchOptionsFor(s, rec, a, o)
    ensures o["replica_number"] == Int(0)
  {
  }

  /** Without options the catalog receives an empty option map. */
  lemma PlainTouchHasNoOptions(s: Session, rec: Record, a: TouchArgs, o: Options)
    requires a.secondsSinceEpoch.None? && a.reference.None? && a.leafResourceName.None? && a.replicaNumber.None?
    requires TouchOptionsFor(s, rec, a, o)
    ensures o == map[]
  {
  }
}
