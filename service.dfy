/**
  `PageLayoutService`: choose the endpoint for a blog, issue the request,
  decode the response, reconcile it into the store, and end with exactly one
  completion. The network, the JSON decoder and the store's failures are
  parameters: `network` answers a request, `parse` decodes a response, and
  `faults[i]` is what the store throws when asked for the categories of the
  i-th fetched layout.
*/
module PageLayoutService {
  import opened Wrappers
  import opened Errors
  import opened Catalog
  import opened Reconciliation
  import opened ManagedContext
  import opened Decimal
  import opened TitleOrder

  /** What `layouts(forBlog:)` needs to know of a blog. `dotComID` is `dotComID as? Int`. */
  datatype Blog = Blog(isAccessibleThroughWPCom: bool, dotComID: Option<int>, hasWordPressComRestApi: bool)

  /** The blog's own REST API, or the anonymous one used for the shared layouts. */
  datatype Api = AccountApi | AnonymousApi

  datatype Request = Request(api: Api, path: string, parameters: map<string, string>)

  /** The raw response object handed to the success callback. */
  datatype Response = Response(body: string)

  /** How a GET ends: the success callback with a response, or the failure callback with an error. */
  datatype TransportResult = Delivered(response: Response) | TransportFailed(error: Error)

  const PreviewWidthKey := "preview_width"
  const ScaleKey := "scale"

  const SitesPrefix := "/wpcom/v2/sites/"
  const BlockLayoutsSuffix := "/block-layouts"
  const SharedLayoutsPath := "/wpcom/v2/common-block-layouts"

  // ---------------------------------------------------------------------
  // Endpoint selection
  // ---------------------------------------------------------------------

  /** The per-site endpoint, `/wpcom/v2/sites/{id}/block-layouts`. */
  function SiteLayoutsPath(blogId: int): string {
    SitesPrefix + IntToDecimal(blogId) + BlockLayoutsSuffix
  }

  /** The site ID a per-site layouts path names, if it is one. */
  function SiteIdOfPath(path: string): Option<int> {
    if |path| >= |SitesPrefix| + |BlockLayoutsSuffix|
       && path[..|SitesPrefix|] == SitesPrefix
       && path[|path| - |BlockLayoutsSuffix|..] == BlockLayoutsSuffix
    then DecimalToInt(path[|SitesPrefix|..|path| - |BlockLayoutsSuffix|])
    else None
  }

  /** The per-site path names its site: the ID can be read back from it. */
  lemma SiteLayoutsPathRoundTrip(blogId: int)
    ensures SiteIdOfPath(SiteLayoutsPath(blogId)) == Some(blogId)
  {
    var digits := IntToDecimal(blogId);
    var path := SiteLayoutsPath(blogId);
    assert path[..|SitesPrefix|] == SitesPrefix;
    assert path[|path| - |BlockLayoutsSuffix|..] == BlockLayoutsSuffix;
    assert path[|SitesPrefix|..|path| - |BlockLayoutsSuffix|] == digits;
    IntToDecimalRoundTrip(blogId);
  }

  /** The shared path is not the path of any site. */
  lemma SharedLayoutsPathNamesNoSite()
    ensures SiteIdOfPath(SharedLayoutsPath) == None
  {
    assert SharedLayoutsPath[10] != SitesPrefix[10];
    assert SharedLayoutsPath[..|SitesPrefix|] != SitesPrefix;
  }

  /** The query of every layouts request: exactly the preview width and the display scale. */
  function Parameters(previewWidth: string, scale: string): (p: map<string, string>)
    ensures p.Keys == {PreviewWidthKey, ScaleKey}
    ensures p[PreviewWidthKey] == previewWidth && p[ScaleKey] == scale
  {
    map[PreviewWidthKey := previewWidth, ScaleKey := scale]
  }

  /**
    The API and path `layouts(forBlog:)` requests, or the error it completes
    with before any request: a blog reachable through WordPress.com needs a
    numeric site ID and an API; any other blog gets the shared layouts.
  */
  function Endpoint(blog: Blog): (r: Result<(Api, string), Error>)
    ensures r.Failure? <==> blog.isAccessibleThroughWPCom && (blog.dotComID.None? || !blog.hasWordPressComRestApi)
    ensures r.Failure? ==> r.error == SiteNotFound
    ensures r.Success? ==> (r.value.0 == AccountApi <==> blog.isAccessibleThroughWPCom)
  {
    if blog.isAccessibleThroughWPCom then
      if blog.dotComID.Some? && blog.hasWordPressComRestApi then
        Success((AccountApi, SiteLayoutsPath(blog.dotComID.value)))
      else
        Failure(SiteNotFound)
    else
      Success((AnonymousApi, SharedLayoutsPath))
  }

  /**
    The chosen path identifies the blog: it names the blog's own site ID
    when the blog's API is used, and no site at all otherwise.
  */
  lemma EndpointIdentifiesSite(blog: Blog)
    requires Endpoint(blog).Success?
    ensures SiteIdOfPath(Endpoint(blog).value.1)
         == if blog.isAccessibleThroughWPCom then blog.dotComID else None
  {
    if blog.isAccessibleThroughWPCom {
      SiteLayoutsPathRoundTrip(blog.dotComID.value);
    } else {
      SharedLayoutsPathNamesNoSite();
    }
  }

  // ---------------------------------------------------------------------
  // Completion mapping
  // ---------------------------------------------------------------------

  /**
    The completion `fetchLayouts` ends with, and the main store afterwards:
    a transport error is passed on unchanged; an undecodable response fails
    without touching the store; a decoded catalog is persisted, and the
    completion carries that very catalog when the sync commits, or the
    store's error when it does not.
  */
  function Fetched(s: Snapshot, transport: TransportResult, parse: Response -> Option<GutenbergPageLayouts>,
                   faults: map<nat, Error>): (r: (Result<GutenbergPageLayouts, Error>, Snapshot))
    ensures r.0.Failure? ==> r.1 == s
    ensures r.0.Success? ==>
      transport.Delivered? && parse(transport.response) == Some(r.0.value) && r.1 == Reconcile(s, r.0.value)
    ensures transport.TransportFailed? ==> r.0 == Failure(transport.error)
    ensures transport.Delivered? && parse(transport.response).None? ==> r.0 == Failure(UnparsableResponse)
    ensures transport.Delivered? && parse(transport.response).Some? ==>
      (r.0.Success? <==> forall j :: 0 <= j < |parse(transport.response).value.layouts| ==> j !in faults)
    ensures transport.Delivered? && parse(transport.response).Some? && r.0.Failure? ==>
      FirstFault(faults, |parse(transport.response).value.layouts|).Some? &&
      r.0.error == faults[FirstFault(faults, |parse(transport.response).value.layouts|).value]
  {
    match transport
    case TransportFailed(error) => (Failure(error), s)
    case Delivered(response) =>
      match parse(response)
      case None => (Failure(UnparsableResponse), s)
      case Some(result) =>
        match Persisted(s, result, faults)
        case Failure(error) => (Failure(error), s)
        case Success(committed) => (Success(result), committed)
  }

  /** Whatever a request ends with, the main store still satisfies its invariant. */
  lemma FetchedKeepsWellFormed(s: Snapshot, transport: TransportResult,
                               parse: Response -> Option<GutenbergPageLayouts>, faults: map<nat, Error>)
    requires WellFormed(s)
    ensures WellFormed(Fetched(s, transport, parse, faults).1)
  {
    var r := Fetched(s, transport, parse, faults);
    if r.0.Success? {
      ReconcileWellFormed(s, r.0.value);
    }
  }

  // ---------------------------------------------------------------------
  // The service's operations
  // ---------------------------------------------------------------------

  /**
    `persistToCoreData`: both passes run on a derived context, categories
    first; the context is saved into `main` only when neither throws.
  */
  method PersistToCoreData(main: Context, layouts: GutenbergPageLayouts, faults: map<nat, Error>)
    returns (result: Result<(), Error>)
    modifies main
    ensures match Persisted(old(main.State()), layouts, faults)
      case Success(committed) => result == Success(()) && main.State() == committed
      case Failure(error) => result == Failure(error) && main.State() == old(main.State())
    ensures old(main.Valid()) ==> main.Valid()
  {
    var context := new Context.Derived(main);
    context.PersistCategories(layouts.categories);
    var thrown := context.PersistLayouts(layouts.layouts, faults);
    if thrown.Some? {
      return Failure(thrown.value);
    }
    context.Save(main);
    if old(main.Valid()) {
      ReconcileWellFormed(old(main.State()), layouts);
    }
    return Success(());
  }

  /** `fetchLayouts`: one GET, then decode, persist and complete. */
  method FetchLayouts(main: Context, request: Request, network: Request -> TransportResult,
                      parse: Response -> Option<GutenbergPageLayouts>, faults: map<nat, Error>)
    returns (completion: Result<GutenbergPageLayouts, Error>)
    modifies main
    ensures (completion, main.State()) == Fetched(old(main.State()), network(request), parse, faults)
  {
    match network(request)
    case TransportFailed(error) =>
      completion := Failure(error);
    case Delivered(response) =>
      var parsed := parse(response);
      if parsed.None? {
        completion := Failure(UnparsableResponse);
        return;
      }
      var result := parsed.value;
      var persistenceResult := PersistToCoreData(main, result, faults);
      match persistenceResult
      case Success(_) =>
        completion := Success(result);
      case Failure(error) =>
        completion := Failure(error);
  }

  /** `fetchWordPressComLayouts`: the blog's own endpoint, or an immediate failure without a request. */
  method FetchWordPressComLayouts(main: Context, blog: Blog, previewWidth: string, scale: string,
                                  network: Request -> TransportResult,
                                  parse: Response -> Option<GutenbergPageLayouts>, faults: map<nat, Error>)
    returns (issued: Option<Request>, completion: Result<GutenbergPageLayouts, Error>)
    modifies main
    ensures blog.dotComID.None? || !blog.hasWordPressComRestApi ==>
      issued == None && completion == Failure(SiteNotFound) && main.State() == old(main.State())
    ensures blog.dotComID.Some? && blog.hasWordPressComRestApi ==>
      && issued == Some(Request(AccountApi, SiteLayoutsPath(blog.dotComID.value), Parameters(previewWidth, scale)))
      && (completion, main.State()) == Fetched(old(main.State()), network(issued.value), parse, faults)
  {
    if blog.dotComID.None? || !blog.hasWordPressComRestApi {
      return None, Failure(SiteNotFound);
    }
    var request := Request(AccountApi, SiteLayoutsPath(blog.dotComID.value), Parameters(previewWidth, scale));
    issued := Some(request);
    completion := FetchLayouts(main, request, network, parse, faults);
  }

  /** `fetchSharedLayouts`: the common endpoint through the anonymous API. */
  method FetchSharedLayouts(main: Context, previewWidth: string, scale: string,
                            network: Request -> TransportResult,
                            parse: Response -> Option<GutenbergPageLayouts>, faults: map<nat, Error>)
    returns (issued: Option<Request>, completion: Result<GutenbergPageLayouts, Error>)
    modifies main
    ensures issued == Some(Request(AnonymousApi, SharedLayoutsPath, Parameters(previewWidth, scale)))
    ensures (completion, main.State()) == Fetched(old(main.State()), network(issued.value), parse, faults)
  {
    var request := Request(AnonymousApi, SharedLayoutsPath, Parameters(previewWidth, scale));
    issued := Some(request);
    completion := FetchLayouts(main, request, network, parse, faults);
  }

  /**
    `layouts(forBlog:withThumbnailSize:completion:)`: the request issued, if
    any, and the one completion. `previewWidth` is the thumbnail width as
    text and `scale` the display scale as text.
  */
  method Layouts(main: Context, blog: Blog, previewWidth: string, scale: string,
                 network: Request -> TransportResult,
                 parse: Response -> Option<GutenbergPageLayouts>, faults: map<nat, Error>)
    returns (issued: Option<Request>, completion: Result<GutenbergPageLayouts, Error>)
    modifies main
    ensures match Endpoint(blog)
      case Failure(error) =>
        issued == None && completion == Failure(error) && main.State() == old(main.State())
      case Success((api, path)) =>
        && issued == Some(Request(api, path, Parameters(previewWidth, scale)))
        && (completion, main.State()) == Fetched(old(main.State()), network(issued.value), parse, faults)
    ensures old(main.Valid()) ==> main.Valid()
  {
    if blog.isAccessibleThroughWPCom {
      issued, completion := FetchWordPressComLayouts(main, blog, previewWidth, scale, network, parse, faults);
    } else {
      issued, completion := FetchSharedLayouts(main, previewWidth, scale, network, parse, faults);
    }
    if old(main.Valid()) && issued.Some? {
      FetchedKeepsWellFormed(old(main.State()), network(issued.value), parse, faults);
    }
  }

  /**
    `resultsController`: every persisted category, sorted by title
    ascending. When the initial fetch fails the failure is only logged and
    the controller holds no objects.
  */
  method ResultsController(main: Context, fetchSucceeds: bool) returns (fetchedObjects: seq<CategoryEntity>)
    ensures !fetchSucceeds ==> fetchedObjects == []
    ensures fetchSucceeds ==>
      && SortedByTitle(fetchedObjects)
      && |fetchedObjects| == |main.categories|
      && (forall k :: k in main.categories ==> main.categories[k] in fetchedObjects)
      && (forall i :: 0 <= i < |fetchedObjects| ==> fetchedObjects[i] in main.categories.Values)
  {
    if !fetchSucceeds {
      return [];
    }
    var all := main.AllCategories();
    fetchedObjects := SortByTitle(all);
    assert |fetchedObjects| == |multiset(fetchedObjects)| == |multiset(all)| == |all|;
    forall i | 0 <= i < |fetchedObjects| ensures fetchedObjects[i] in main.categories.Values {
      assert fetchedObjects[i] in multiset(all);
    }
    forall k | k in main.categories ensures main.categories[k] in fetchedObjects {
      assert main.categories[k] in multiset(fetchedObjects);
    }
  }
}
