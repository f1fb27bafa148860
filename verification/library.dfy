/**
 * The library's group items, and the store operations the handlers call.
 * The store itself (its maps, locks and persistence) is not modelled: each
 * operation is a pure function fixed for one request, over one snapshot.
 */
module Library {
  import opened Options

  /**
   * A group's kind. `UnsetType` is Go's zero value for the `groupType`
   * variable of a request whose path matches neither group route.
   */
  datatype GroupType = SourceGroupType | MetricGroupType | UnsetType

  /** An opaque point in time (`time.Time`). */
  datatype Timestamp = Timestamp(ticks: int)

  /** A pattern (literal, `glob:` or `regexp:`) scoped to one origin. */
  datatype GroupEntry = GroupEntry(pattern: string, origin: string)

  datatype Group = Group(
    id: string,
    name: string,
    description: string,
    modified: Timestamp,
    groupType: GroupType,
    entries: seq<GroupEntry>)

  /** `library.LibraryGroupPrefix`: marks a source or metric as a group reference. */
  const GroupPrefix := "group:"

  /** What `GetItem` reports: the item, `os.IsNotExist`, or another error. */
  datatype Lookup = Found(group: Group) | NotExist | LookupFailed

  /** What `DeleteItem` reports. */
  datatype Removal = Removed | RemoveNotExist | RemoveFailed

  /**
   * What storing a group comes to: the status `parseError` derives from
   * `StoreItem`'s error (200 when there is none), and the group's ID after
   * the call (`StoreItem` fills in a fresh one when it is empty).
   */
  datatype Storage = Storage(status: int, id: string)

  /** `server.Library` as one request sees it. */
  datatype Store = Store(
    groups: seq<Group>,                          // `Library.Groups`, in this call's iteration order
    getItem: (string, GroupType) -> Lookup,
    deleteItem: (string, GroupType) -> Removal,
    storeItem: (Group, GroupType) -> Storage)

  /**
   * A decoded JSON body. `json.Unmarshal` into an existing group overwrites
   * exactly the fields the body carries; `None` is a field the body leaves out.
   * A group's kind and modification time are not part of its JSON form, so no
   * body can set them.
   */
  datatype GroupPatch = GroupPatch(
    id: Option<string>,
    name: Option<string>,
    description: Option<string>,
    entries: Option<seq<GroupEntry>>)

  /** Decoding `patch` into `g`: every field the body carries replaces the base's, every other is kept. */
  function Merge(g: Group, patch: GroupPatch): (r: Group)
    ensures patch == GroupPatch(None, None, None, None) ==> r == g
    ensures patch.id.Some? ==> r.id == patch.id.value
    ensures patch.id.None? ==> r.id == g.id
    ensures patch.name.Some? ==> r.name == patch.name.value
    ensures patch.name.None? ==> r.name == g.name
    ensures patch.description.Some? ==> r.description == patch.description.value
    ensures patch.description.None? ==> r.description == g.description
    ensures r.modified == g.modified && r.groupType == g.groupType
    ensures patch.entries.Some? ==> r.entries == patch.entries.value
    ensures patch.entries.None? ==> r.entries == g.entries
  {
    Group(
      patch.id.GetOr(g.id),
      patch.name.GetOr(g.name),
      patch.description.GetOr(g.description),
      g.modified,
      g.groupType,
      patch.entries.GetOr(g.entries))
  }

  /** A body that carries every field of `g`'s JSON form. */
  function FullPatch(g: Group): (p: GroupPatch)
    ensures forall base :: Merge(base, p) == g.(modified := base.modified, groupType := base.groupType)
  {
    GroupPatch(Some(g.id), Some(g.name), Some(g.description), Some(g.entries))
  }

  /** Decoding the same body twice gives what decoding it once gave. */
  lemma MergeIdempotent(g: Group, patch: GroupPatch)
    ensures Merge(Merge(g, patch), patch) == Merge(g, patch)
  {
  }
}
