/** Route dispatch: which handler a request reaches, against a table of endpoints. */
module ApiDispatch {

  import opened Wrappers
  import opened ApiPaths

  /** An HTTP request: `named` says that its JSON body has a non-empty name, `listed` that it is a JSON list. */
  datatype Request = Request(verb: string, path: string, authorization: Option<string>, named: bool, listed: bool)

  datatype Route =
    | Unauthorized
    | NotFound
    | SystemStatus
    | GetAllWorkspaces
    | CreateWorkspace
    | GetWorkspace(id: string)
    | UpdateWorkspace(id: string)
    | DeleteWorkspace(id: string)
    | LaunchWorkspace(id: string)
    | StopWorkspace(id: string)
    | GetWorkspaceStatus(id: string)
    | ExportWorkspaces
    | ImportWorkspaces
    | CDPRequest(id: string, subpath: string)

  // --- The table -----------------------------------------------------------------------------------------

  const WORKSPACES: seq<string> := ["api", "workspaces"]

  predicate Authorized(token: string, request: Request) {
    token == "" || request.authorization == Some("Bearer " + token)
  }

  /** The endpoint of a route: its verb (any, for the CDP proxy) and its path; None for the two errors. */
  function Endpoint(route: Route): Option<(Option<string>, string)> {
    match route
    case Unauthorized => None
    case NotFound => None
    case SystemStatus => Some((Some("GET"), Rebuilt(["api", "status"])))
    case GetAllWorkspaces => Some((Some("GET"), Rebuilt(WORKSPACES)))
    case CreateWorkspace => Some((Some("POST"), Rebuilt(WORKSPACES)))
    case GetWorkspace(id) => Some((Some("GET"), Rebuilt(WORKSPACES + [id])))
    case UpdateWorkspace(id) => Some((Some("PUT"), Rebuilt(WORKSPACES + [id])))
    case DeleteWorkspace(id) => Some((Some("DELETE"), Rebuilt(WORKSPACES + [id])))
    case LaunchWorkspace(id) => Some((Some("POST"), Rebuilt(WORKSPACES + [id, "launch"])))
    case StopWorkspace(id) => Some((Some("POST"), Rebuilt(WORKSPACES + [id, "stop"])))
    case GetWorkspaceStatus(id) => Some((Some("GET"), Rebuilt(WORKSPACES + [id, "status"])))
    case ExportWorkspaces => Some((Some("GET"), Rebuilt(WORKSPACES + ["export"])))
    case ImportWorkspaces => Some((Some("POST"), Rebuilt(WORKSPACES + ["import"])))
    case CDPRequest(id, subpath) => Some((None, Rebuilt(WORKSPACES + [id, "cdp"]) + subpath))
  }

  /** The id is one segment, and a subpath is empty or starts with a slash. */
  predicate Addressable(route: Route) {
    match route
    case GetWorkspace(id) => SlashFree(id)
    case UpdateWorkspace(id) => SlashFree(id)
    case DeleteWorkspace(id) => SlashFree(id)
    case LaunchWorkspace(id) => SlashFree(id)
    case StopWorkspace(id) => SlashFree(id)
    case GetWorkspaceStatus(id) => SlashFree(id)
    case CDPRequest(id, subpath) => SlashFree(id) && (subpath == "" || subpath[0] == '/')
    case _ => true
  }

  /** The request names the endpoint; the slash in front of the path may be missing. */
  predicate Names(request: Request, route: Route) {
    && Addressable(route) && Endpoint(route).Some?
    && (Endpoint(route).value.0.Some? ==> request.verb == Endpoint(route).value.0.value)
    && "/" + StripSlash(request.path) == Endpoint(route).value.1
  }

  // --- Dispatch ------------------------------------------------------------------------------------------

  /** The handler chosen for the segments of a path, in the order of the dispatcher's tests. */
  function RouteOf(verb: string, segments: seq<string>): Route {
    if segments == [] || segments[0] != "api" then NotFound
    else if |segments| == 2 && segments[1] == "status" && verb == "GET" then SystemStatus
    else if |segments| >= 2 && segments[1] == "workspaces" then
      if |segments| == 2 && verb == "GET" then GetAllWorkspaces
      else if |segments| == 2 && verb == "POST" then CreateWorkspace
      else if |segments| >= 3 then
        var id := segments[2];
        if |segments| == 3 && verb == "GET" then GetWorkspace(id)
        else if |segments| == 3 && verb == "PUT" then UpdateWorkspace(id)
        else if |segments| == 3 && verb == "DELETE" then DeleteWorkspace(id)
        else if |segments| == 4 && segments[3] == "launch" && verb == "POST" then LaunchWorkspace(id)
        else if |segments| == 4 && segments[3] == "stop" && verb == "POST" then StopWorkspace(id)
        else if |segments| == 4 && segments[3] == "status" && verb == "GET" then GetWorkspaceStatus(id)
        else if |segments| == 3 && segments[2] == "export" && verb == "GET" then ExportWorkspaces
        else if |segments| == 3 && segments[2] == "import" && verb == "POST" then ImportWorkspaces
        else if |segments| >= 4 && segments[3] == "cdp" then CDPRequest(id, Rebuilt(segments[4..]))
        else NotFound
      else NotFound
    else NotFound
  }

  function Dispatch(token: string, request: Request): Route {
    if !Authorized(token, request) then Unauthorized else RouteOf(request.verb, ParsePath(request.path))
  }

  // --- Correctness ---------------------------------------------------------------------------------------

  function EndpointSegments(route: Route): seq<string> {
    match route
    case Unauthorized => []
    case NotFound => []
    case SystemStatus => ["api", "status"]
    case GetAllWorkspaces => WORKSPACES
    case CreateWorkspace => WORKSPACES
    case GetWorkspace(id) => WORKSPACES + [id]
    case UpdateWorkspace(id) => WORKSPACES + [id]
    case DeleteWorkspace(id) => WORKSPACES + [id]
    case LaunchWorkspace(id) => WORKSPACES + [id, "launch"]
    case StopWorkspace(id) => WORKSPACES + [id, "stop"]
    case GetWorkspaceStatus(id) => WORKSPACES + [id, "status"]
    case ExportWorkspaces => WORKSPACES + ["export"]
    case ImportWorkspaces => WORKSPACES + ["import"]
    case CDPRequest(id, subpath) => WORKSPACES + [id, "cdp"] + if subpath == "" then [] else Split(subpath[1..])
  }

  lemma EndpointIsRebuilt(route: Route)
    requires Addressable(route) && Endpoint(route).Some?
    ensures Endpoint(route).value.1 == Rebuilt(EndpointSegments(route))
    ensures forall i :: 0 <= i < |EndpointSegments(route)| ==> SlashFree(EndpointSegments(route)[i])
    ensures |EndpointSegments(route)| >= 2
  {
    hide Rebuilt, Split;
    if route.CDPRequest? {
      var head := WORKSPACES + [route.id, "cdp"];
      if route.subpath == "" {
        assert head + [] == head && Rebuilt(head) + "" == Rebuilt(head);
      } else {
        RebuiltAppend(head, Split(route.subpath[1..]));
        SplitRebuilt(route.subpath[1..]);
        assert route.subpath == "/" + route.subpath[1..];
      }
    }
  }

  /** A request names a route exactly when its verb and the segments of its path are the route's. */
  lemma NamesBySegments(request: Request, route: Route)
    requires Addressable(route) && Endpoint(route).Some?
    ensures Names(request, route) <==>
            && (Endpoint(route).value.0.Some? ==> request.verb == Endpoint(route).value.0.value)
            && ParsePath(request.path) == EndpointSegments(route)
  {
    hide Endpoint, EndpointSegments, Rebuilt, Split;
    EndpointIsRebuilt(route);
    var segments := EndpointSegments(route);
    SegmentsRoundTrip(segments);
    PathRoundTrip(request.path);
    if "/" + StripSlash(request.path) == Rebuilt(segments) {
      SamePath(request.path, Rebuilt(segments));
    }
  }

  lemma SamePath(path: string, full: string)
    requires "/" + StripSlash(path) == full
    ensures ParsePath(path) == ParsePath(full)
  {
    assert StripSlash(full) == StripSlash(path);
  }

  /** A request for an endpoint of the table reaches the endpoint's handler; only the export endpoint does not, for
      `export` is taken for a workspace id. */
  lemma EveryEndpointReached(token: string, request: Request, route: Route)
    requires Authorized(token, request) && Names(request, route)
    ensures Dispatch(token, request) == if route.ExportWorkspaces? then GetWorkspace("export") else route
  {
    hide Names, Rebuilt, Split, ParsePath, Authorized;
    assert Addressable(route) && Endpoint(route).Some? by { NamesMeans(request, route); }
    NamesBySegments(request, route);
    var segments := EndpointSegments(route);
    if route.CDPRequest? {
      if route.subpath != "" {
        assert segments[4..] == Split(route.subpath[1..]);
        SplitRebuilt(route.subpath[1..]);
        assert route.subpath == "/" + route.subpath[1..];
      } else {
        assert segments[4..] == [] && Rebuilt([]) == "" by { RebuiltNone(); }
      }
    }
  }

  lemma NamesMeans(request: Request, route: Route)
    requires Names(request, route)
    ensures Addressable(route) && Endpoint(route).Some?
  {
    hide Endpoint, Rebuilt, StripSlash;
  }

  /** A handler is reached only by requests for its endpoint. */
  lemma OnlyByItsEndpoint(token: string, request: Request)
    ensures var route := Dispatch(token, request); route != Unauthorized && route != NotFound ==> Names(request, route)
  {
    hide Names, Split;
    var route := Dispatch(token, request);
    if route != Unauthorized && route != NotFound {
      var segments := ParsePath(request.path);
      SplitRebuilt(StripSlash(request.path));
      RouteIsAddressable(request.verb, segments);
      RouteSegments(request.verb, segments);
      if route.CDPRequest? {
        CDPSegments(segments, route);
      }
      NamesBySegments(request, route);
    }
  }

  lemma RouteIsAddressable(verb: string, segments: seq<string>)
    requires forall i :: 0 <= i < |segments| ==> SlashFree(segments[i])
    ensures var route := RouteOf(verb, segments);
            route != NotFound ==>
              Addressable(route) && Endpoint(route).Some?
              && (Endpoint(route).value.0.Some? ==> verb == Endpoint(route).value.0.value)
  {
    if |segments| > 4 {
      assert segments[4..] != [];
    }
  }

  lemma RouteSegments(verb: string, segments: seq<string>)
    ensures var route := RouteOf(verb, segments);
            route != NotFound && !route.CDPRequest? ==> EndpointSegments(route) == segments
    ensures var route := RouteOf(verb, segments);
            route.CDPRequest? ==> |segments| >= 4 && segments[..4] == WORKSPACES + [route.id, "cdp"]
                                  && route.subpath == Rebuilt(segments[4..])
  {
    hide Rebuilt, Split;
  }

  lemma CDPSegments(segments: seq<string>, route: Route)
    requires forall i :: 0 <= i < |segments| ==> SlashFree(segments[i])
    requires route.CDPRequest? && |segments| >= 4 && segments[..4] == WORKSPACES + [route.id, "cdp"]
    requires route.subpath == Rebuilt(segments[4..])
    ensures EndpointSegments(route) == segments
  {
    assert segments == segments[..4] + segments[4..];
    if segments[4..] != [] {
      SplitOfRebuilt(segments[4..]);
    }
  }

  /** An authorised request that names no endpoint of the table finds no route, and conversely. */
  lemma NotFoundExactly(token: string, request: Request)
    requires Authorized(token, request)
    ensures Dispatch(token, request) == NotFound <==> !exists route: Route :: Names(request, route)
  {
    hide Names, RouteOf;
    OnlyByItsEndpoint(token, request);
    forall route: Route | Names(request, route)
      ensures Dispatch(token, request) != NotFound
    {
      EveryEndpointReached(token, request, route);
      NamesMeans(request, route);
    }
    if Dispatch(token, request) != NotFound {
      AuthorizedRoutes(token, request);
      assert Names(request, Dispatch(token, request));
    }
  }

  /** A request is refused exactly when a token is set and the request does not carry it as a bearer token. */
  lemma UnauthorizedExactly(token: string, request: Request)
    ensures Dispatch(token, request) == Unauthorized <==>
            token != "" && request.authorization != Some("Bearer " + token)
  {
    hide ParsePath;
  }

  lemma AuthorizedRoutes(token: string, request: Request)
    requires Authorized(token, request)
    ensures Dispatch(token, request) != Unauthorized
  {
  }

  /** The export handler is never reached. */
  lemma ExportUnreachable(token: string, request: Request)
    ensures Dispatch(token, request) != ExportWorkspaces
    ensures Names(request, ExportWorkspaces) && Authorized(token, request) ==>
              Dispatch(token, request) == GetWorkspace("export")
  {
    if Names(request, ExportWorkspaces) && Authorized(token, request) {
      EveryEndpointReached(token, request, ExportWorkspaces);
    }
  }

  // --- WebSocket upgrades ----------------------------------------------------------------------------------

  /** The workspace and the subpath an upgrade is relayed to; None when no endpoint is found. */
  function UpgradeTarget(path: string): Option<(string, string)> {
    var segments := ParsePath(path);
    if |segments| >= 4 && segments[0] == "api" && segments[1] == "workspaces" && segments[3] == "cdp" then
      Some((segments[2], Rebuilt(segments[4..])))
    else None
  }

  /** Upgrades are relayed on exactly the paths of the CDP endpoint, with its id and subpath. */
  lemma UpgradesAtCDPEndpoints(request: Request, id: string, subpath: string)
    ensures UpgradeTarget(request.path) == Some((id, subpath)) <==> Names(request, CDPRequest(id, subpath))
  {
    hide Rebuilt, Split, ParsePath, Names;
    UpgradeIsRoute(request, id, subpath);
    OnlyByItsEndpoint("", request);
    if Names(request, CDPRequest(id, subpath)) {
      EveryEndpointReached("", request, CDPRequest(id, subpath));
    }
  }

  /** Whatever the verb, an upgrade goes where the segments of its path route a CDP request. */
  lemma UpgradeIsRoute(request: Request, id: string, subpath: string)
    ensures UpgradeTarget(request.path) == Some((id, subpath)) <==>
            RouteOf(request.verb, ParsePath(request.path)) == CDPRequest(id, subpath)
  {
    hide Rebuilt, Split, ParsePath;
    assert "cdp" != "launch" && "cdp" != "stop" && "cdp" != "status";
  }

  /** A request sent as an upgrade and as plain HTTP reaches the same workspace and subpath, or neither does. */
  ghost predicate TreatedAlike(token: string, request: Request) {
    forall id, subpath ::
      UpgradeTarget(request.path) == Some((id, subpath)) <==> Dispatch(token, request) == CDPRequest(id, subpath)
  }

  /** Only plain HTTP requests are subject to the token: the two agree exactly for requests that are authorised or
      do not name the CDP endpoint. */
  lemma TreatedAlikeExactly(token: string, request: Request)
    ensures TreatedAlike(token, request) <==>
            Authorized(token, request) || !exists id, subpath :: Names(request, CDPRequest(id, subpath))
  {
    hide Rebuilt, Split, ParsePath, Authorized, RouteOf, Names;
    forall id, subpath
      ensures UpgradeTarget(request.path) == Some((id, subpath)) <==>
              RouteOf(request.verb, ParsePath(request.path)) == CDPRequest(id, subpath)
      ensures UpgradeTarget(request.path) == Some((id, subpath)) <==> Names(request, CDPRequest(id, subpath))
    {
      UpgradeIsRoute(request, id, subpath);
      UpgradesAtCDPEndpoints(request, id, subpath);
    }
    if UpgradeTarget(request.path).Some? {
      var target := UpgradeTarget(request.path).value;
      assert Names(request, CDPRequest(target.0, target.1));
    }
    if TreatedAlike(token, request) && UpgradeTarget(request.path).Some? {
      var target := UpgradeTarget(request.path).value;
      assert Dispatch(token, request) == CDPRequest(target.0, target.1);
    }
  }

  /** They do differ, for any token: without the header, the same request is refused over HTTP. */
  lemma UpgradeWithoutToken(token: string, id: string) returns (request: Request)
    requires token != "" && SlashFree(id)
    ensures request.authorization == None && Dispatch(token, request) == Unauthorized
    ensures UpgradeTarget(request.path) == Some((id, ""))
  {
    hide Split;
    request := Request("GET", Rebuilt(WORKSPACES + [id, "cdp"]), None, false, false);
    SegmentsRoundTrip(WORKSPACES + [id, "cdp"]);
    RebuiltNone();
  }
}
