# iRODS command-line front end — a Dafny model

This project models the logic core of `irods/irods_cli.py`, the command-line
front end to an iRODS data catalog. The catalog holds collections and data
objects, addressed by absolute logical paths under a zone root. The model
covers:

- **Logical path resolution** (`get_full_logical_path`,
  `get_irods_home_collection`). An absolute path is used as it is. Any other
  path is appended to the present working collection and passed through the
  client's `iRODSPath` normaliser. The normaliser is an arbitrary function,
  the `normalize` field of the `Session` value. The home collection is
  `/<zone>/home/<user>` passed through that normaliser.
- **The per-shell working-collection record** (`get_irods_pwd`, `cd`, `pwd`).
  The record file is one of four `CwdRecord.Record` states: no file, text that
  is not JSON, a JSON value that is not an object, or a JSON object.
  `WorkingCollection.CwdFile` is the file, a class whose methods delete or
  overwrite it. `cd` is the module-level method `WorkingCollection.Cd`, which
  takes that object as an argument, changes only its record, and is proved
  against the function `CdEffect`.
- **`list`**. The report is built by two loops, one over child collections
  and one over data objects, with nested loops over access entries, metadata
  and replicas. The method `Listing.List` keeps that loop structure and is
  proved equal to the fold-based specification `Listing.ListOutcome`. It
  keeps the source's quirks:
  - the `acls` flag variable is rebound to each entity's access list, so it
    stays falsy once an entity without access entries has been described,
    including across the two loops;
  - `acls` and `metadata` keys are set inside their per-entry loops, so they
    are absent for an entity with no entries;
  - `replicas` is set after its loop, so it is present, possibly empty,
    whenever the flag is set;
  - entries are stored with `dict.update`, so a later entity with the same
    name replaces the earlier record and keeps its position (module
    `Sections`).
- **`touch`**. Two mutual-exclusion checks run before any session exists, and
  they treat zero asymmetrically. The option map is then built step by step.
  `remove` builds its own option map, and `remove` and `rename` choose between
  the collection and the data-object operation.
- **`execute-general-query`**. Exception classes are matched first clause
  first. Two of them become fixed messages, and any other exception is
  printed as it is. A missing zone defaults to the session zone.

The catalog is a read-only snapshot value (module `Catalog`). `exists` and
`get` are map membership and lookup. A `fault` field stands for an unusable
server: the first catalog call raises it. A command's mutating request
(touch, remove, unlink, move) or query is recorded in a `Cli.Run` value. The
server's answer to that request is a `reply` parameter. Every command ends in
a `Cli.Outcome`: an exit with its output and status, or an uncaught Python
exception (`Crash`).

Three behaviours of `irods/irods_cli.py` that the model keeps as written:

- Reading the working collection can raise. Only `JSONDecodeError` and
  `FileNotFoundError` are caught (lines 53-56). A JSON object without
  `irods_cwd` raises `KeyError` at line 49, and a JSON value that is not an
  object raises `TypeError` there. Both are modelled as uncaught crashes.
- A relative path is formatted as `<pwd>/<path>` and passed through
  `iRODSPath` (lines 24-26). The home collection goes through `iRODSPath`
  too (line 41).
- The `acls` flag variable is rebound to each entity's access list (lines
  145 and 182), so the access section is lost after the first entity with
  no access entries, as listed above.

## Model

| member | source | states |
|---|---|---|
| `Cli.Completion` | irods/irods_cli.py:283-285 | After a catalog call, success prints nothing and exits 0. A catalog or network exception prints `str(e)` and exits 1. |
| `Session.HomeCollection` | irods/irods_cli.py:40-41 | The home collection is `/<zone>/home/<user>` when the normaliser leaves that text unchanged. |
| `CwdRecord.Pwd` | irods/irods_cli.py:44-57 | The read raises exactly for a non-object JSON value or an object without `irods_cwd`. Any result other than home is the stored value. A non-empty stored value is returned as it is. |
| `CwdRecord.PwdFallsBackToHome` | irods/irods_cli.py:40-57 | A missing file, undecodable content, or an empty `irods_cwd` each yield the home collection. |
| `CwdRecord.PwdMissingKeyRaises` | irods/irods_cli.py:49 | An object without the `irods_cwd` key raises `KeyError`. It does not fall back to home. |
| `CwdRecord.PwdReadsBackSaved` | irods/irods_cli.py:46-52 | Reading back the record `cd` writes gives the written path. An empty path reads back as home. |
| `Paths.Resolve` | irods/irods_cli.py:20-27 | Resolution raises exactly for a relative input whose working-collection read raises, with that read's error. An absolute input is returned as it is, and a relative one as `normalize(pwd + "/" + raw)`. |
| `Paths.ResolveUnderHome` | irods/irods_cli.py:20-57 | With no record file, a relative input is resolved under the home collection. |
| `WorkingCollection.CwdFile.Delete` | irods/irods_cli.py:96-99 | Removing the file leaves no record, and a file already absent is no error. |
| `WorkingCollection.CwdFile.Write` | irods/irods_cli.py:106-107 | The file afterwards holds exactly `{"irods_cwd": path}`. |
| `WorkingCollection.CdEffect` | irods/irods_cli.py:94-114 | Every outcome other than a silent exit 0 leaves the record unchanged. A changed record is either deleted or holds only `irods_cwd`, set to a collection the catalog has. No argument, or an empty one, always deletes the record. |
| `WorkingCollection.Cd` | irods/irods_cli.py:87-114 | The new record and the outcome are those of `CdEffect` applied to the old record. |
| `WorkingCollection.PwdCommand` | irods/irods_cli.py:246-251 | `pwd` prints the present working collection and exits 0, or raises when reading the record raises. |
| `WorkingCollection.CdWithoutArgumentClears` | irods/irods_cli.py:94-100 | With no argument or an empty one, `cd` deletes the record and exits 0 for every catalog, so it makes no catalog call. A following `pwd` prints home. |
| `WorkingCollection.CdToExistingCollection` | irods/irods_cli.py:102-107 | For an existing collection, `cd` stores exactly the resolved path and exits 0 silently. A following `pwd` prints that path. |
| `WorkingCollection.CdToMissingCollection` | irods/irods_cli.py:108-110 | For a missing collection, `cd` prints `No such collection: <resolved>`, exits 1 and leaves the record unchanged. |
| `WorkingCollection.CdRelativeFromHome` | irods/irods_cli.py:101-110 | With no record, `cd nopes` names `normalize(<home>/nopes)` in its error. |
| `WorkingCollection.CdUnreadable` | irods/irods_cli.py:101-114 | A relative `cd` whose working-collection read raises lets that exception escape, and the record is unchanged. |
| `WorkingCollection.CdServerFault` | irods/irods_cli.py:103-114 | With an unusable server, `cd` prints `str(e)`, exits 1 and keeps the record. |
| `WorkingCollection.CdRecordStates` | irods/irods_cli.py:94-114 | `cd` leaves the record unchanged, deletes it, or stores a path the catalog has as a collection. It exits 0 or 1, printing a line on 1. |
| `Sections.Upsert` | irods/irods_cli.py:141-143 | `update` adds one entry for a new key and none for an existing key. |
| `Sections.LookupUpsert` | irods/irods_cli.py:141-143 | After `update` the key maps to the new record, and no other key changes. |
| `Sections.KeysUpsert` | irods/irods_cli.py:178-180 | A new key is appended at the end, and an existing key keeps its position (dict insertion order). |
| `Sections.AddNew` | irods/irods_cli.py:141-143 | The key order after a run of `update` calls keeps the old keys as a prefix and holds exactly the old keys and the new names. |
| `Sections.UpsertDistinct` | irods/irods_cli.py:178-180 | `update` never duplicates a key. |
| `Listing.AclViews` | irods/irods_cli.py:146-153 | One `{access_name, user_name, user_zone}` descriptor per access entry, in order. |
| `Listing.AvuViews` | irods/irods_cli.py:157-164 | One `{attribute, value, unit}` descriptor per metadata triple, in order. |
| `Listing.ReplicaViews` | irods/irods_cli.py:205-218 | One nine-field descriptor per replica, in order. |
| `Listing.FoldCollections` | irods/irods_cli.py:139-165 | After the loop over child collections, the `acls` variable is truthy only if it started truthy and every child had an access entry. |
| `Listing.FoldDataObjects` | irods/irods_cli.py:176-219 | The same for the loop over data objects. |
| `Listing.ListTarget` | irods/irods_cli.py:132-134 | A non-empty argument is resolved. A missing or empty one is replaced by the working collection and resolved again: an absolute stored path `w` is kept as it is, and a relative one becomes `normalize(w + "/" + w)`. Finding the target raises exactly when the record read raises and the path used is relative. |
| `Listing.ListOutcome` | irods/irods_cli.py:128-223 | `list` raises exactly when finding the target raises. With the target found, an unusable server prints `str(e)` and exits 1. An exit 0 always emits a report and any other exit does not. A report means the server was usable, and it holds a collections section exactly when the target is a collection. |
| `Listing.AclListing` | irods/irods_cli.py:145-154 | The loop builds every descriptor. The `acls` key is set exactly when there is at least one entry. |
| `Listing.AvuListing` | irods/irods_cli.py:155-165 | The `metadata` key is set, holding every descriptor, exactly when there is at least one triple. |
| `Listing.ReplicaListing` | irods/irods_cli.py:203-219 | The replica list holds every descriptor. It is stored even when empty. |
| `Listing.DescribeCollection` | irods/irods_cli.py:140-165 | One child collection's record and the rebound `acls` flag equal `CollectionStep`. |
| `Listing.DescribeDataObject` | irods/irods_cli.py:176-219 | One data object's record and the rebound `acls` flag equal `DataObjectStep`. |
| `Listing.List` | irods/irods_cli.py:128-223 | The imperative `list` yields exactly the outcome of `ListOutcome`. |
| `ListingProperties.FoldCollectionsShaped` | irods/irods_cli.py:139-165 | Every child-collection record has `id` exactly when verbose. `acls` and `metadata` appear only when requested and non-empty. |
| `ListingProperties.FoldCollectionsDistinct` | irods/irods_cli.py:139-143 | The collections section never holds a name twice. |
| `ListingProperties.FoldCollectionsKeys` | irods/irods_cli.py:139-143 | The collections section is keyed by exactly the children's names. |
| `ListingProperties.FoldCollectionsOrder` | irods/irods_cli.py:139-143 | The collections section's keys are the old keys followed by each child's name at its first occurrence, in the client's enumeration order (dict insertion order). |
| `ListingProperties.FoldCollectionsUntouched` | irods/irods_cli.py:139-143 | A name that no child carries keeps what the section held. |
| `ListingProperties.FoldCollectionsLast` | irods/irods_cli.py:139-165 | A name maps to the record of the last child with that name, built with the `acls` flag that child found. |
| `ListingProperties.FoldDataObjectsShaped` | irods/irods_cli.py:176-219 | Every data-object record has `id` exactly when verbose and `replicas` exactly when that flag is set. `acls` and `metadata` appear only when allowed and non-empty. |
| `ListingProperties.FoldDataObjectsDistinct` | irods/irods_cli.py:176-180 | The data-objects section never holds a name twice. |
| `ListingProperties.FoldDataObjectsKeys` | irods/irods_cli.py:176-180 | The data-objects section is keyed by exactly the objects' names. |
| `ListingProperties.FoldDataObjectsOrder` | irods/irods_cli.py:176-180 | The data-objects section's keys are the old keys followed by each object's name at its first occurrence, in enumeration order. |
| `ListingProperties.FoldDataObjectsUntouched` | irods/irods_cli.py:176-180 | A name that no object carries keeps what the section held. |
| `ListingProperties.FoldDataObjectsLast` | irods/irods_cli.py:176-219 | A name maps to the record of the last object with that name, built with the `acls` flag that object found. |
| `ListingProperties.ListBadLogicalPath` | irods/irods_cli.py:168-175 | A path that is neither a collection nor a data object prints `bad logical path`, exits 1 and emits no report. |
| `ListingProperties.ListDataObject` | irods/irods_cli.py:170-180 | On a data object, the report has only `data_objects`, with one entry: `{size}`, plus `id` when verbose and each requested section. |
| `ListingProperties.ListCollection` | irods/irods_cli.py:137-219 | On a collection, both sections exist and are keyed by exactly the children's names with no duplicates, and a name can be looked up exactly when it is a key. The keys follow the children's enumeration order, and a repeated name stays at its first position. Every record holds only what was requested. |
| `ListingProperties.ListChildCollection` | irods/irods_cli.py:139-165 | A child collection's record is `{}` or `{id}`, plus `metadata` when requested and non-empty. `acls` appears only if the flag was set, no earlier child lacked access entries, and this child has some. |
| `ListingProperties.ListChildDataObject` | irods/irods_cli.py:167-219 | A data object's record has its size, its id when verbose, and all its replicas in order when asked. `acls` appears only if no child collection and no earlier object lacked access entries. |
| `ListingProperties.ListAclsLostAfterEmptyCollection` | irods/irods_cli.py:144-191 | Once a child collection without access entries is listed, no data object in the report carries `acls`. |
| `ListingProperties.ListConventional` | irods/irods_cli.py:220-223 | `list` exits 0 or 1, and an exit 1 prints one line. |
| `Touch.TouchConflict` | irods/irods_cli.py:363-368 | Validation fails exactly when `reference` and a non-zero `seconds_since_epoch` are both given, or `leaf_resource_name` and any `replica_number` (0 included). The first check's message wins. |
| `Touch.BuildTouchOptions` | irods/irods_cli.py:371-380 | The option map holds exactly the supplied options. Resolving `reference` raises only when the record read raises. |
| `Touch.Touch` | irods/irods_cli.py:359-396 | A conflict exits 1 with its message before any other step. Otherwise the target is touched as a collection or a data object with exactly those options, and the outcome follows the reply. |
| `Touch.ZeroReplicaNumberConflicts` | irods/irods_cli.py:366-368 | `--replica-number 0` with a leaf resource is rejected. |
| `Touch.ZeroSecondsPassesAndIsDropped` | irods/irods_cli.py:363-376 | `--seconds-since-epoch 0` with a reference passes validation, and the zero is left out of the options. |
| `Touch.ZeroReplicaNumberIsPassed` | irods/irods_cli.py:379-380 | Replica number 0 is passed on. |
| `Touch.PlainTouchHasNoOptions` | irods/irods_cli.py:371-380 | A `touch` with no options passes an empty option map. |
| `DataOps.Remove` | irods/irods_cli.py:268-285 | A collection is removed with `recurse` set to the flag's value, and anything else is unlinked. `force` is present only when set. The outcome follows the reply. |
| `DataOps.Rename` | irods/irods_cli.py:291-306 | `rename` raises exactly when either path cannot be resolved. A move request is sent exactly when it exits and the server is usable, and then the outcome follows the reply. |
| `DataOps.RenameDispatch` | irods/irods_cli.py:291-306 | The move runs between the two resolved paths, as a collection move exactly when the source is a collection. It is silent with exit 0 when the catalog accepts, and prints `str(e)` with exit 1 when it refuses. |
| `DataOps.RenameServerFault` | irods/irods_cli.py:296-306 | With an unusable server, `rename` prints the exception's text and exits 1 without any move. |
| `DataOps.RenameUnresolvable` | irods/irods_cli.py:294-295 | If either path cannot be resolved, `rename` raises before any catalog call. |
| `GeneralQuery.QueryErrorMessage` | irods/irods_cli.py:482-490 | SYS_INVALID_INPUT_PARAM prints `ERROR: irods.exception.SYS_INVALID_INPUT_PARAM`. SYS_LIBRARY_ERROR prints `bad querystring`. Any other exception prints its own text. |
| `GeneralQuery.QueryZone` | irods/irods_cli.py:472-474 | The session zone is used only when no zone was given. |
| `GeneralQuery.ExecuteGeneralQuery` | irods/irods_cli.py:469-491 | `--sql-only` asks for the SQL, and otherwise the query is executed. Success prints the result and exits 0. Failure prints the mapped message and exits 1. |
| `GeneralQuery.QueryOutcomes` | irods/irods_cli.py:469-491 | The outcome depends only on the client's answer: `--sql-only` changes only the request, and naming the session's zone runs exactly as giving none. Every ending exits 0 or 1, printing a line on 1. |

## Left out

- Click wiring (groups, aliases, the version option, argument parsing) and every placeholder command whose body is `pass`. They are framework plumbing with no behaviour.
- Session construction, the environment-file lookup and TLS settings (lines 30-37). The session is a value with a zone, a user name and the normaliser.
- File I/O for the record file: `os.getppid`, `expanduser`, `open`, `os.remove` and JSON encoding and decoding. The file is the abstract `Record` state.
- The semantics of the catalog operations (`exists`, `get`, `acls.get`, `move`, `touch`, `unlink`, `remove`, and GenQuery2 `get_sql`/`execute`). They are server behaviour: lookups are a snapshot value, and mutations and queries have an oracle `reply`.
- The internals of `iRODSPath` normalisation. It is a foreign class, so the normaliser is an arbitrary function. "`/<zone>/home/<user>` exactly" therefore holds only when the normaliser leaves that text unchanged.
- `list_columns` (lines 505-518). It is a passthrough of a library result, and its computed zone is unused.
- The JSON text that `json.dumps` produces. The report is a structured value in which each field is a JSON key and `None` is an absent key, with one exception. `ReplicaView.checksum` always stands for a present `"checksum"` key (line 216), and there `None` is JSON `null`.
- Listing.List: an exception raised partway through the loops is not modelled separately. In the model, an unusable server raises at the first catalog call, so a failure never leaves a partial report. The two `exists` calls of `list` see the same snapshot.
- WorkingCollection.CwdFile.Delete: a removal that fails for another reason, such as permissions, is ignored by the source and leaves the file in place. In the model the record is always gone afterwards.
- CwdRecord.Pwd: an `irods_cwd` value that is not a string is not modelled. Neither are errors other than a missing file, whether on opening or from `f.read()` (line 47), such as a `UnicodeDecodeError` on bytes that are not valid text. Neither except clause (lines 53-56) catches those, and `Record` has no state for them: `Undecodable` is text that is not JSON, which falls back to home.
- `docker-testing/run_the_tests.py` and `test_irods_cli.py` are not part of this model. They run against a live server and serve only as evidence for the properties above.
