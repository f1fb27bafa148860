/**
 * `handleGroup` and `handleGroupList`: the source-group and metric-group
 * routes of the library API. Every outside helper the handlers call
 * (authentication, request checks, the store, the name filter) reaches the
 * model as a value or pure function fixed for the request.
 * Line numbers in this module refer to pkg/server/library_group.go.
 */
module GroupHandler {
  import opened Options
  import opened Strings
  import opened Http
  import opened Library

  /** `urlLibraryPath`, the prefix the server mounts the library API under. */
  const LibraryPath := "/library/"
  const SourceGroupsPath := LibraryPath + "sourcegroups"
  const MetricGroupsPath := LibraryPath + "metricgroups"

  datatype Request = Request(
    httpMethod: string,
    path: string,
    inherit: string,             // `FormValue("inherit")`, empty when absent
    filter: string,              // `FormValue("filter")`, empty when absent
    body: Option<GroupPatch>)    // the decoded JSON body; `None` when it does not decode

  /** What the helpers outside the handler decide for this request. */
  datatype Context = Context(
    authorized: bool,                      // `handleAuth`
    storeRequestStatus: int,               // status of `parseStoreRequest`, 200 to go on
    listRequestStatus: int,                // status of `parseListRequest`, 200 to go on
    now: Timestamp,                        // `time.Now()`
    filterMatch: (string, string) -> bool) // `utils.FilterMatch(filter, name)`

  /** One entry of a group list. */
  datatype ItemResponse = ItemResponse(id: string, name: string, description: string, modified: Timestamp)

  datatype Body =
    | NoBody
    | MessageBody(message: Http.Message)
    | HelperBody                       // the response a helper (`parseStoreRequest`, ...) produced
    | ItemBody(group: Group)
    | ListBody(items: seq<ItemResponse>)

  /** The store write a request performs, if any. */
  datatype Effect =
    | NoEffect
    | DeleteCall(id: string, groupType: GroupType)
    | StoreCall(group: Group, groupType: GroupType)

  datatype Response = Response(status: int, location: Option<string>, body: Body, effect: Effect)

  function Refusal(status: int, message: Http.Message): Response {
    Response(status, None, MessageBody(message), NoEffect)
  }

  datatype Route = Route(id: string, groupType: GroupType)

  /** Lines 23-29: the group ID and kind a request path selects. */
  function RouteOf(path: string): Route {
    if HasPrefix(path, SourceGroupsPath) then
      Route(TrimPrefix(path, SourceGroupsPath + "/"), SourceGroupType)
    else if HasPrefix(path, MetricGroupsPath) then
      Route(TrimPrefix(path, MetricGroupsPath + "/"), MetricGroupType)
    else
      Route("", UnsetType)
  }

  /** An item path names its ID and the kind of its route. */
  lemma RouteOfItemPath(id: string)
    ensures RouteOf(SourceGroupsPath + "/" + id) == Route(id, SourceGroupType)
    ensures RouteOf(MetricGroupsPath + "/" + id) == Route(id, MetricGroupType)
  {
    var s, m := SourceGroupsPath + "/" + id, MetricGroupsPath + "/" + id;
    assert s[..|SourceGroupsPath|] == SourceGroupsPath;
    assert s[..|SourceGroupsPath + "/"|] == SourceGroupsPath + "/";
    assert m[..|MetricGroupsPath|] == MetricGroupsPath;
    assert m[..|MetricGroupsPath + "/"|] == MetricGroupsPath + "/";
    assert m[9] != SourceGroupsPath[9];
  }

  predicate IsRead(httpMethod: string) {
    httpMethod == "GET" || httpMethod == "HEAD"
  }

  predicate IsWrite(httpMethod: string) {
    httpMethod == "POST" || httpMethod == "PUT"
  }

  predicate IsGroupMethod(httpMethod: string) {
    httpMethod == "DELETE" || IsRead(httpMethod) || IsWrite(httpMethod)
  }

  /** A POST that asks to copy an existing group. */
  predicate Inherits(req: Request) {
    req.httpMethod == "POST" && req.inherit != ""
  }

  /** Lines 97 and 100: a new group carries the path's ID, the route's kind and the current time, everything else zero. */
  function FreshGroup(id: string, groupType: GroupType, now: Timestamp): Group {
    Group(id, "", "", now, groupType, [])
  }

  /** Lines 91-94 and 100: a copy of a stored group without its ID. */
  function InheritedGroup(g: Group, now: Timestamp): Group {
    g.(id := "", modified := now)
  }

  /** The group to decode the body into, or the response that ends the request. */
  datatype Base = Base(group: Group) | BaseFailed(response: Response)

  function BaseGroup(req: Request, ctx: Context, store: Store, route: Route): Base {
    if Inherits(req) then
      match store.getItem(req.inherit, route.groupType)
      case Found(g) => Base(InheritedGroup(g, ctx.now))
      case NotExist => BaseFailed(Refusal(StatusNotFound, ResourceNotFound))
      case LookupFailed => BaseFailed(Refusal(StatusInternalServerError, UnhandledError))
    else
      Base(FreshGroup(route.id, route.groupType, ctx.now))
  }

  /** Lines 71-124: create (POST) or replace (PUT) a group. */
  function HandleStore(req: Request, ctx: Context, store: Store, route: Route): Response {
    if ctx.storeRequestStatus != StatusOK then
      Response(ctx.storeRequestStatus, None, HelperBody, NoEffect)
    else
      match BaseGroup(req, ctx, store, route)
      case BaseFailed(response) => response
      case Base(base) =>
        match req.body
        case None => Refusal(StatusBadRequest, ResourceInvalid)
        case Some(patch) =>
          var group := Merge(base, patch);
          var stored := store.storeItem(group, route.groupType);
          if stored.status != StatusOK then
            Response(stored.status, None, HelperBody, StoreCall(group, route.groupType))
          else if req.httpMethod == "POST" then
            Response(StatusCreated, Some(TrimTrailingSlashes(req.path) + "/" + stored.id), NoBody,
              StoreCall(group, route.groupType))
          else
            Response(StatusOK, None, NoBody, StoreCall(group, route.groupType))
  }

  /** Lines 53-69: read one group, or list them when the path names none. */
  function HandleRead(req: Request, ctx: Context, store: Store, route: Route): Response {
    if route.id == "" then HandleGroupList(req, ctx, store)
    else
      match store.getItem(route.id, route.groupType)
      case Found(g) => Response(StatusOK, None, ItemBody(g), NoEffect)
      case NotExist => Refusal(StatusNotFound, ResourceNotFound)
      case LookupFailed => Refusal(StatusInternalServerError, UnhandledError)
  }

  /** Lines 32-51: delete one group. */
  function HandleDelete(req: Request, ctx: Context, store: Store, route: Route): Response {
    if route.id == "" then Refusal(StatusMethodNotAllowed, MethodNotAllowed)
    else if !ctx.authorized then Refusal(StatusUnauthorized, AuthenticationRequired)
    else
      var call := DeleteCall(route.id, route.groupType);
      match store.deleteItem(route.id, route.groupType)
      case Removed => Response(StatusOK, None, NoBody, call)
      case RemoveNotExist => Response(StatusNotFound, None, MessageBody(ResourceNotFound), call)
      case RemoveFailed => Response(StatusInternalServerError, None, MessageBody(UnhandledError), call)
  }

  /** `handleGroup`: dispatch on the request method. */
  function HandleGroup(req: Request, ctx: Context, store: Store): (r: Response)
    // Refusals that reach neither authentication nor the store.
    ensures req.httpMethod == "DELETE" && RouteOf(req.path).id == "" ==>
      r == Refusal(StatusMethodNotAllowed, MethodNotAllowed)
    ensures !IsGroupMethod(req.httpMethod) ==> r == Refusal(StatusMethodNotAllowed, MethodNotAllowed)
    ensures req.httpMethod == "DELETE" && RouteOf(req.path).id != "" && !ctx.authorized ==>
      r == Refusal(StatusUnauthorized, AuthenticationRequired)
    // Deleting reaches the store exactly when an ID is given and the caller is authorised.
    ensures r.effect.DeleteCall? <==> req.httpMethod == "DELETE" && RouteOf(req.path).id != "" && ctx.authorized
    ensures r.effect.DeleteCall? ==>
      var route := RouteOf(req.path);
      var outcome := store.deleteItem(route.id, route.groupType);
      r.effect == DeleteCall(route.id, route.groupType) &&
      (outcome == Removed ==> r == Response(StatusOK, None, NoBody, r.effect)) &&
      (outcome == RemoveNotExist ==> r == Response(StatusNotFound, None, MessageBody(ResourceNotFound), r.effect)) &&
      (outcome == RemoveFailed ==> r == Response(StatusInternalServerError, None, MessageBody(UnhandledError), r.effect))
    // Reading: the list when no ID is given, otherwise the stored group or an error.
    ensures IsRead(req.httpMethod) && RouteOf(req.path).id == "" ==> r == HandleGroupList(req, ctx, store)
    ensures IsRead(req.httpMethod) && RouteOf(req.path).id != "" ==>
      var route := RouteOf(req.path);
      var found := store.getItem(route.id, route.groupType);
      r.effect == NoEffect &&
      (r.body.ItemBody? <==> found.Found?) &&
      (found.Found? ==> r == Response(StatusOK, None, ItemBody(found.group), NoEffect)) &&
      (found == NotExist ==> r == Refusal(StatusNotFound, ResourceNotFound)) &&
      (found == LookupFailed ==> r == Refusal(StatusInternalServerError, UnhandledError))
    // Writing: refusals before anything is stored.
    ensures IsWrite(req.httpMethod) && ctx.storeRequestStatus != StatusOK ==>
      r == Response(ctx.storeRequestStatus, None, HelperBody, NoEffect)
    ensures (IsWrite(req.httpMethod) && ctx.storeRequestStatus == StatusOK && Inherits(req) &&
             store.getItem(req.inherit, RouteOf(req.path).groupType) == NotExist) ==>
      r == Refusal(StatusNotFound, ResourceNotFound)
    ensures (IsWrite(req.httpMethod) && ctx.storeRequestStatus == StatusOK && Inherits(req) &&
             store.getItem(req.inherit, RouteOf(req.path).groupType) == LookupFailed) ==>
      r == Refusal(StatusInternalServerError, UnhandledError)
    ensures (IsWrite(req.httpMethod) && ctx.storeRequestStatus == StatusOK && req.body.None? &&
             (!Inherits(req) || store.getItem(req.inherit, RouteOf(req.path).groupType).Found?)) ==>
      r == Refusal(StatusBadRequest, ResourceInvalid)
    // Writing: the group handed to the store.
    ensures r.effect.StoreCall? <==>
      IsWrite(req.httpMethod) && ctx.storeRequestStatus == StatusOK && req.body.Some? &&
      (!Inherits(req) || store.getItem(req.inherit, RouteOf(req.path).groupType).Found?)
    ensures r.effect.StoreCall? ==> r.effect.groupType == RouteOf(req.path).groupType
    // Whatever the body says, the stored group carries the current time, and a new group the route's kind.
    ensures r.effect.StoreCall? ==> r.effect.group.modified == ctx.now
    ensures r.effect.StoreCall? && !Inherits(req) ==> r.effect.group.groupType == RouteOf(req.path).groupType
    ensures r.effect.StoreCall? && Inherits(req) ==>
      r.effect.group.groupType == store.getItem(req.inherit, RouteOf(req.path).groupType).group.groupType
    ensures r.effect.StoreCall? && Inherits(req) ==>
      r.effect.group ==
        Merge(InheritedGroup(store.getItem(req.inherit, RouteOf(req.path).groupType).group, ctx.now), req.body.value)
    ensures r.effect.StoreCall? && !Inherits(req) ==>
      r.effect.group == Merge(FreshGroup(RouteOf(req.path).id, RouteOf(req.path).groupType, ctx.now), req.body.value)
    // Writing: the answer once the store has been called.
    ensures r.effect.StoreCall? ==>
      var stored := store.storeItem(r.effect.group, r.effect.groupType);
      (stored.status != StatusOK ==> r == Response(stored.status, None, HelperBody, r.effect)) &&
      (stored.status == StatusOK && req.httpMethod == "POST" ==>
        r == Response(StatusCreated, Some(TrimTrailingSlashes(req.path) + "/" + stored.id), NoBody, r.effect)) &&
      (stored.status == StatusOK && req.httpMethod == "PUT" ==> r == Response(StatusOK, None, NoBody, r.effect))
    // Only a successful POST sets `Location`.
    ensures r.location.Some? ==> req.httpMethod == "POST" && r.status == StatusCreated && r.effect.StoreCall?
  {
    var route := RouteOf(req.path);
    if req.httpMethod == "DELETE" then HandleDelete(req, ctx, store, route)
    else if IsRead(req.httpMethod) then HandleRead(req, ctx, store, route)
    else if IsWrite(req.httpMethod) then HandleStore(req, ctx, store, route)
    else Refusal(StatusMethodNotAllowed, MethodNotAllowed)
  }

  /** A group created by POST is read back from the last segment of `Location`. */
  lemma CreatedLocationNamesId(req: Request, ctx: Context, store: Store)
    requires HandleGroup(req, ctx, store).location.Some?
    requires var r := HandleGroup(req, ctx, store);
      '/' !in store.storeItem(r.effect.group, r.effect.groupType).id
    ensures var r := HandleGroup(req, ctx, store);
      LastSegment(r.location.value) == store.storeItem(r.effect.group, r.effect.groupType).id
  {
    var r := HandleGroup(req, ctx, store);
    LastSegmentOfJoin(TrimTrailingSlashes(req.path), store.storeItem(r.effect.group, r.effect.groupType).id);
  }

  /** Line 142: list source groups when the path is the source-group collection. */
  predicate IsSourceList(path: string) {
    HasPrefix(path, SourceGroupsPath + "/")
  }

  /** On a path with no ID, the list's kind is the kind the route chose. */
  lemma ListKindMatchesRoute(path: string)
    requires RouteOf(path).id == ""
    ensures IsSourceList(path) <==> RouteOf(path).groupType == SourceGroupType
  {
    var sp := SourceGroupsPath + "/";
    if IsSourceList(path) {
      assert path[..|SourceGroupsPath|] == sp[..|SourceGroupsPath|];
    }
  }

  /** Lines 145-152: whether a group belongs in the list. */
  predicate Listed(g: Group, isSource: bool, filter: string, filterMatch: (string, string) -> bool) {
    && (if isSource then g.groupType == SourceGroupType else g.groupType == MetricGroupType)
    && (filter == "" || filterMatch(filter, g.name))
  }

  /** Lines 154-159: a list entry copies a group's ID, name, description and time. */
  function Summary(g: Group): ItemResponse {
    ItemResponse(g.id, g.name, g.description, g.modified)
  }

  /** The positions of the groups that pass the filters and list as `x`. */
  ghost function ListedAt(groups: seq<Group>, isSource: bool, filter: string, filterMatch: (string, string) -> bool,
                          x: ItemResponse): set<int>
  {
    set k | 0 <= k < |groups| && Listed(groups[k], isSource, filter, filterMatch) && Summary(groups[k]) == x
  }

  /** One more group adds its own position to `ListedAt` when it passes, and nothing otherwise. */
  lemma ListedAtSnoc(init: seq<Group>, last: Group, isSource: bool, filter: string,
                     filterMatch: (string, string) -> bool)
    ensures forall x ::
      |ListedAt(init + [last], isSource, filter, filterMatch, x)| ==
        |ListedAt(init, isSource, filter, filterMatch, x)| +
        (if Listed(last, isSource, filter, filterMatch) && Summary(last) == x then 1 else 0)
  {
    var groups := init + [last];
    forall x
      ensures |ListedAt(groups, isSource, filter, filterMatch, x)| ==
        |ListedAt(init, isSource, filter, filterMatch, x)| +
        (if Listed(last, isSource, filter, filterMatch) && Summary(last) == x then 1 else 0)
    {
      var before := ListedAt(init, isSource, filter, filterMatch, x);
      var after := ListedAt(groups, isSource, filter, filterMatch, x);
      assert |init| !in before;
      if Listed(last, isSource, filter, filterMatch) && Summary(last) == x {
        assert after == before + {|init|};
      } else {
        assert after == before;
      }
    }
  }

  /** Lines 144-160: the entries of the groups that pass, one per group, in iteration order. */
  function ListItems(groups: seq<Group>, isSource: bool, filter: string, filterMatch: (string, string) -> bool)
    : (items: seq<ItemResponse>)
    ensures |items| <= |groups|
    ensures forall x :: x in items <==>
      exists g :: g in groups && Listed(g, isSource, filter, filterMatch) && Summary(g) == x
    ensures forall x :: multiset(items)[x] == |ListedAt(groups, isSource, filter, filterMatch, x)|
    decreases |groups|
  {
    if |groups| == 0 then
      assert forall x :: ListedAt(groups, isSource, filter, filterMatch, x) == {};
      []
    else
      var init, last := groups[..|groups| - 1], groups[|groups| - 1];
      assert groups == init + [last];
      ListedAtSnoc(init, last, isSource, filter, filterMatch);
      var items := ListItems(init, isSource, filter, filterMatch);
      if Listed(last, isSource, filter, filterMatch) then items + [Summary(last)] else items
  }

  /** `handleGroupList`, up to the offset and limit `applyResponseLimit` applies. */
  function HandleGroupList(req: Request, ctx: Context, store: Store): (r: Response)
    ensures ctx.listRequestStatus != StatusOK ==> r == Response(ctx.listRequestStatus, None, HelperBody, NoEffect)
    ensures ctx.listRequestStatus == StatusOK ==>
      r.status == StatusOK && r.location.None? && r.effect == NoEffect && r.body.ListBody? &&
      forall x :: x in r.body.items <==>
        exists g :: g in store.groups && Listed(g, IsSourceList(req.path), req.filter, ctx.filterMatch) && Summary(g) == x
    // Each passing group gives exactly one entry.
    ensures ctx.listRequestStatus == StatusOK ==>
      r.body.ListBody? &&
      forall x :: multiset(r.body.items)[x] == |ListedAt(store.groups, IsSourceList(req.path), req.filter, ctx.filterMatch, x)|
  {
    if ctx.listRequestStatus != StatusOK then
      Response(ctx.listRequestStatus, None, HelperBody, NoEffect)
    else
      Response(StatusOK, None, ListBody(ListItems(store.groups, IsSourceList(req.path), req.filter, ctx.filterMatch)), NoEffect)
  }
}
