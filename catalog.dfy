/** The catalog as the front end sees it: a read-only snapshot of what the
    client's lookups return. Nothing here models the server; the entries are
    whatever the oracle answers. */
module Catalog {
  import opened Cli

  /** An access-control entry, as `session.acls.get` returns it. */
  datatype Acl = Acl(accessName: string, userName: string, userZone: string)

  /** An attribute-value-unit triple, as `metadata.items()` returns it. */
  datatype Avu = Avu(name: string, value: string, units: string)

  /** One physical copy of a data object. The two times are already text
      (`str()` of the client's timestamps is treated as opaque). */
  datatype Replica = Replica(
    number: int, status: string, size: int, path: string, rescHier: string,
    resourceName: string, modifyTime: string, createTime: string,
    checksum: Option<string>)

  datatype CollectionInfo = CollectionInfo(name: string, id: int, acls: seq<Acl>, metadata: seq<Avu>)

  datatype DataObjectInfo = DataObjectInfo(
    name: string, id: int, size: int, acls: seq<Acl>, metadata: seq<Avu>,
    replicas: seq<Replica>)

  /** The children of one collection, in the order the client enumerates them. */
  datatype Children = Children(subcollections: seq<CollectionInfo>, dataObjects: seq<DataObjectInfo>)

  /** `collections` answers `session.collections.exists/get`, `dataObjects`
      answers `session.data_objects.exists/get`. When `fault` is set the
      server is unusable and the first catalog call raises that error. */
  datatype Catalog = Catalog(
    collections: map<string, Children>,
    dataObjects: map<string, DataObjectInfo>,
    fault: Option<CatalogError>)
}
