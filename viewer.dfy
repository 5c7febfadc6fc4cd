/**
 * One mount point of the collection viewer (src/view.js:18-225): the
 * early stop on a missing username, the fetch cycle with its outcome
 * classification, and the page state (`currentPage`, `totalPages`) that
 * the fetch cycle and the pagination click handler update.
 *
 * The network is an input: each fetch is handed the `Response` it gets.
 * The container is the sequence of nodes currently shown in it.
 */
module Viewer {
  import opened Opt
  import opened JsText
  import opened Html
  import opened Markup
  import opened Messages
  import opened ViewConfig
  import opened Render
  import opened Pagination

  /** What `response.json()` gives: an object with perhaps an array of releases and perhaps a
      pagination object with its `pages`; or a parse error with its message. */
  datatype Body =
    | Json(releases: Option<seq<Release>>, pagination: Option<int>)
    | NotJson(error: string)

  /** The result of `fetch`: an answer with its status, or a rejected promise with its message. */
  datatype Response =
    | Received(status: int, statusText: string, body: Body)
    | NetworkError(error: string)

  datatype Outcome = Loaded(releases: seq<Release>, totalPages: int) | Failed(message: string)

  /** `response.ok`. */
  predicate IsOk(status: int) {
    200 <= status <= 299
  }

  /** How a fetch ends: the releases and page count of a well-formed answer, or the message of
      the error the source throws (or that `fetch` or `response.json()` rejects with). */
  function Classify(response: Response, l10n: map<string, string>): (o: Outcome)
    ensures o.Loaded? <==>
      response.Received? && IsOk(response.status) && response.body.Json? && response.body.releases.Some?
    ensures o.Loaded? ==> o.releases == response.body.releases.value
    ensures o.Loaded? ==> (response.body.pagination.None? ==> o.totalPages == 1)
    ensures o.Loaded? ==> (response.body.pagination.Some? ==> o.totalPages == response.body.pagination.value)
    ensures response.Received? && response.status == 404 ==> o == Failed(Message(l10n, UserNotFound))
    ensures response.Received? && response.status == 401 ==> o == Failed(Message(l10n, AuthFailed))
    ensures response.Received? && response.status == 429 ==> o == Failed(Message(l10n, RateLimitExceeded))
    ensures response.Received? && !IsOk(response.status) && response.status !in {404, 401, 429} ==>
      o == Failed(Message(l10n, FetchFailed) + " " + response.statusText)
    ensures response.Received? && IsOk(response.status) && response.body.Json? && response.body.releases.None? ==>
      o == Failed(Message(l10n, InvalidResponse))
    ensures response.Received? && IsOk(response.status) && response.body.NotJson? ==>
      o == Failed(response.body.error)
    ensures response.NetworkError? ==> o == Failed(response.error)
  {
    match response
    case NetworkError(error) => Failed(error)
    case Received(status, statusText, body) =>
      if !IsOk(status) then
        if status == 404 then Failed(Message(l10n, UserNotFound))
        else if status == 401 then Failed(Message(l10n, AuthFailed))
        else if status == 429 then Failed(Message(l10n, RateLimitExceeded))
        else Failed(Message(l10n, FetchFailed) + " " + statusText)
      else
        match body
        case NotJson(error) => Failed(error)
        case Json(releases, pagination) =>
          if releases.None? then Failed(Message(l10n, InvalidResponse))
          else Loaded(releases.value, pagination.GetOr(1))
  }

  /** With the built-in texts, the four kinds of refused answer give four different messages. */
  lemma FailuresDistinguished(statusText: string)
    ensures var m := map[];
      var messages := [Message(m, UserNotFound), Message(m, AuthFailed), Message(m, RateLimitExceeded),
                       Message(m, FetchFailed) + " " + statusText];
      forall i, j | 0 <= i < j < 4 :: messages[i] != messages[j]
  {
    var m: map<string, string> := map[];
    var messages := [Message(m, UserNotFound), Message(m, AuthFailed), Message(m, RateLimitExceeded),
                     Message(m, FetchFailed) + " " + statusText];
    assert messages[0] == "User not found. Please check the username.";
    assert messages[1] == "Authentication failed. Please check your API key.";
    assert messages[2] == "Rate limit exceeded. Please try again later or add an API key.";
    assert messages[3][..6] == "Failed";
    assert |messages[0]| != |messages[1]| && |messages[0]| != |messages[2]| && |messages[1]| != |messages[2]|;
    assert messages[3][..28] == "Failed to fetch collection: ";
    assert messages[3][26] == ':';
    assert messages[0][26] == 'c' && messages[1][26] == 'a' && messages[2][26] == 'e';
  }

  // ---------------------------------------------------------------------
  // What is shown and what is sent

  function ErrorDiv(text: string): Node {
    Div("discogs-collection-error", [Text(text)])
  }

  /** The container of a mount point without a username. */
  function NoUsernameView(l10n: map<string, string>): Node {
    ErrorDiv(EscapeHtml(Message(l10n, NoUsername)))
  }

  /** The container while a page is on its way. */
  function LoadingView(l10n: map<string, string>): Node {
    Div("discogs-collection-loading", [Text(EscapeHtml(Message(l10n, LoadingCollection)))])
  }

  /** The container after a failed fetch: the localized prefix, a space and the error message. */
  function ErrorView(l10n: map<string, string>, message: string): Node {
    ErrorDiv(EscapeHtml(Message(l10n, ErrorLoading)) + " " + EscapeHtml(message))
  }

  /** The parameters of one request to the collection endpoint. */
  datatype Request = Request(
    username: string,
    page: int,
    perPage: int,
    sort: SortParams,
    headers: map<string, string>)

  function RequestFor(cfg: Config, page: int): (r: Request)
    ensures r.username == cfg.username && r.page == page && r.perPage == cfg.itemsPerPage
    ensures r.sort == GetSortParams(cfg.sortBy, cfg.sortOrder)
    ensures "User-Agent" in r.headers && r.headers["User-Agent"] == "DiscogsBlocksWordPress/1.0"
    ensures "Authorization" in r.headers <==> cfg.apiKey != ""
    ensures cfg.apiKey != "" ==> r.headers["Authorization"] == "Discogs token=" + cfg.apiKey
  {
    var headers := map["User-Agent" := "DiscogsBlocksWordPress/1.0"];
    Request(cfg.username, page, cfg.itemsPerPage, GetSortParams(cfg.sortBy, cfg.sortOrder),
      if cfg.apiKey != "" then headers["Authorization" := "Discogs token=" + cfg.apiKey] else headers)
  }

  /** The address of a request, given the username as `encodeURIComponent` encodes it. */
  function RequestUrl(r: Request, encodedUsername: string): string {
    UrlHead(encodedUsername) + IntToDecimal(r.page) + "&per_page=" + IntToDecimal(r.perPage) + SortQuery(r.sort)
  }

  /** The endpoint of a user's collection, up to the page value. */
  function UrlHead(encodedUsername: string): string {
    "https://api.discogs.com/users/" + encodedUsername + "/collection/folders/0/releases?page="
  }

  function SortQuery(sort: SortParams): string {
    "&sort=" + sort.sort + "&sort_order=" + sort.order
  }

  /** The query value at `at` in `url` is the printed number `n`: it ends at the next `&` and
      reads back as `n`. */
  predicate NumberAt(url: string, at: nat, n: int) {
    var d := IntToDecimal(n);
    at + |d| < |url| && url[at..at + |d|] == d && url[at + |d|] == '&' && ParseInt(url[at..at + |d|]) == Some(n)
  }

  lemma NumberBetween(prefix: string, n: int, rest: string)
    requires rest != [] && rest[0] == '&'
    ensures NumberAt(prefix + IntToDecimal(n) + rest, |prefix|, n)
    ensures (prefix + IntToDecimal(n) + rest)[..|prefix|] == prefix
  {
    var d := IntToDecimal(n);
    var url := prefix + d + rest;
    assert url[..|prefix|] == prefix;
    assert url[|prefix|..|prefix| + |d|] == d;
    assert url[|prefix| + |d|] == rest[0];
    ParseIntRoundTrip(n);
  }

  /** The address carries the request's page and page size, after `?page=` and `&per_page=`. */
  lemma RequestUrlCarries(r: Request, encodedUsername: string)
    ensures var head := UrlHead(encodedUsername);
      var before := head + IntToDecimal(r.page) + "&per_page=";
      var url := RequestUrl(r, encodedUsername);
      url[..|head|] == head && NumberAt(url, |head|, r.page)
      && url[..|before|] == before && NumberAt(url, |before|, r.perPage)
  {
    var head := UrlHead(encodedUsername);
    var page := IntToDecimal(r.page);
    var size := IntToDecimal(r.perPage);
    var tail := SortQuery(r.sort);
    var before := head + page + "&per_page=";
    var url := before + size + tail;
    var rest := "&per_page=" + size + tail;
    assert url == (head + page + "&per_page=") + size + tail;
    assert url == head + page + rest;
    NumberBetween(head, r.page, rest);
    NumberBetween(before, r.perPage, tail);
  }

  // ---------------------------------------------------------------------
  // The page state of one mount point

  class CollectionViewer {
    const config: Config
    const l10n: map<string, string>
    var currentPage: int
    var totalPages: int
    /** What the container shows. */
    var container: seq<Node>
    /** Every request sent so far, oldest first. */
    var requests: seq<Request>

    /** The page state exists only for a username, the current page is a real page, and what is
        shown is safe markup whenever the display mode is. */
    ghost predicate Valid()
      reads this
    {
      && config.username != ""
      && currentPage >= 1
      && (Safe(config.displayMode) ==> SafeNodes(container))
    }

    constructor (config: Config, l10n: map<string, string>)
      requires config.username != ""
      ensures Valid()
      ensures this.config == config && this.l10n == l10n
      ensures currentPage == 1 && totalPages == 1 && container == [] && requests == []
    {
      this.config := config;
      this.l10n := l10n;
      currentPage := 1;
      totalPages := 1;
      container := [];
      requests := [];
    }

    /** The first half of `fetchCollection`: show the loading text and send the request. */
    method StartFetch(page: int)
      requires Valid()
      modifies this
      ensures Valid()
      ensures container == [LoadingView(l10n)]
      ensures requests == old(requests) + [RequestFor(config, page)]
      ensures currentPage == old(currentPage) && totalPages == old(totalPages)
    {
      LoadingViewSafe(l10n);
      container := [LoadingView(l10n)];
      requests := requests + [RequestFor(config, page)];
    }

    /** The second half of `fetchCollection`, once the response is in: on success both page
        variables are set before anything is rendered; on failure neither changes. */
    method FinishFetch(page: int, response: Response)
      requires Valid() && page >= 1
      modifies this
      ensures Valid()
      ensures requests == old(requests)
      ensures match Classify(response, l10n)
        case Failed(message) =>
          && currentPage == old(currentPage) && totalPages == old(totalPages)
          && container == [ErrorView(l10n, message)]
        case Loaded(releases, pages) =>
          && currentPage == page && totalPages == pages
          && container == [CollectionView(config, releases)] + PaginationView(page, pages, l10n)
    {
      var outcome := Classify(response, l10n);
      match outcome {
        case Failed(message) =>
          container := [ErrorView(l10n, message)];
          ErrorViewSafe(l10n, message);
        case Loaded(releases, pages) =>
          ShowCollection(page, releases, pages);
      }
    }

    /** The success branch of `fetchCollection`: both page variables are set, then the items and
        the controls are rendered. */
    method ShowCollection(page: int, releases: seq<Release>, pages: int)
      requires Valid() && page >= 1
      modifies this
      ensures Valid()
      ensures requests == old(requests)
      ensures currentPage == page && totalPages == pages
      ensures container == [CollectionView(config, releases)] + PaginationView(page, pages, l10n)
      ensures pages > 1 <==> ShowsControls()
    {
      totalPages := pages;
      currentPage := page;
      var view := RenderCollection(config, releases);
      container := [view];
      if Safe(config.displayMode) {
        CollectionSafe(config, releases);
        SafeNodesOne(view);
      }
      RenderPagination();
    }

    /** `renderPagination`: appends the controls for the current state. */
    method RenderPagination()
      requires Valid()
      modifies this
      ensures Valid()
      ensures container == old(container) + PaginationView(currentPage, totalPages, l10n)
      ensures currentPage == old(currentPage) && totalPages == old(totalPages) && requests == old(requests)
    {
      var controls := PaginationView(currentPage, totalPages, l10n);
      PaginationSafe(currentPage, totalPages, l10n);
      if Safe(config.displayMode) {
        SafeNodesConcat(container, controls);
      }
      container := container + controls;
    }

    /** `fetchCollection(page)` with the response the request gets. */
    method FetchCollection(page: int, response: Response)
      requires Valid() && page >= 1
      modifies this
      ensures Valid()
      ensures requests == old(requests) + [RequestFor(config, page)]
      ensures match Classify(response, l10n)
        case Failed(message) =>
          && currentPage == old(currentPage) && totalPages == old(totalPages)
          && container == [ErrorView(l10n, message)]
        case Loaded(releases, pages) =>
          && currentPage == page && totalPages == pages
          && container == [CollectionView(config, releases)] + PaginationView(page, pages, l10n)
    {
      StartFetch(page);
      FinishFetch(page, response);
    }

    /** The controls currently shown, which is where the click handler listens: the last node of
        the container is the pagination element rendered for the current state. */
    predicate ShowsControls()
      reads this
    {
      && PaginationView(currentPage, totalPages, l10n) != []
      && |container| > 0
      && container[|container| - 1] == PaginationView(currentPage, totalPages, l10n)[0]
    }

    /** The pagination click handler, for a click on the pagination element or one of its
        children: a click the guard accepts sets `currentPage` to the page it asks for and then
        fetches that page (so a failed fetch still leaves `currentPage` at the page asked for);
        any other click changes nothing and sends nothing. */
    method Click(target: Node, response: Response)
      requires Valid() && ShowsControls()
      requires target == container[|container| - 1] || target in container[|container| - 1].children
      modifies this
      ensures Valid()
      ensures ClickedPage(target, old(totalPages)).None? ==>
        && currentPage == old(currentPage) && totalPages == old(totalPages)
        && container == old(container) && requests == old(requests)
      ensures ClickedPage(target, old(totalPages)).Some? ==>
        var page := ClickedPage(target, old(totalPages)).value;
        && currentPage == page
        && requests == old(requests) + [RequestFor(config, page)]
        && match Classify(response, l10n)
          case Failed(message) =>
            totalPages == old(totalPages) && container == [ErrorView(l10n, message)]
          case Loaded(releases, pages) =>
            totalPages == pages && container == [CollectionView(config, releases)] + PaginationView(page, pages, l10n)
    {
      var page := ClickedPage(target, totalPages);
      if page.Some? {
        currentPage := page.value;
        FetchCollection(page.value, response);
      }
    }
  }

  lemma ViewerClassesPlain()
    ensures Plain("discogs-collection-error") && Plain("discogs-collection-loading") && Plain(" ")
  {
  }

  /** A `div` of a constant class holding one safe text is safe markup. */
  lemma SafeBox(cls: string, text: string)
    requires Plain(cls) && Safe(text)
    ensures SafeNodes([Div(cls, [Text(text)])])
  {
    PlainSafe(cls);
    SafeNodesOne(Text(text));
    SafeNodesOne(Div(cls, [Text(text)]));
  }

  lemma ErrorTextSafe(prefix: string, message: string)
    ensures Safe(EscapeHtml(prefix) + " " + EscapeHtml(message))
  {
    EscapeHtmlSafe(prefix);
    EscapeHtmlSafe(message);
    ViewerClassesPlain();
    PlainSafe(" ");
    SafeConcat(EscapeHtml(prefix), " ");
    SafeConcat(EscapeHtml(prefix) + " ", EscapeHtml(message));
  }

  lemma ErrorViewSafe(l10n: map<string, string>, message: string)
    ensures SafeNodes([ErrorView(l10n, message)])
  {
    ErrorTextSafe(Message(l10n, ErrorLoading), message);
    ViewerClassesPlain();
    SafeBox("discogs-collection-error", EscapeHtml(Message(l10n, ErrorLoading)) + " " + EscapeHtml(message));
  }

  lemma LoadingViewSafe(l10n: map<string, string>)
    ensures SafeNodes([LoadingView(l10n)])
  {
    EscapeHtmlSafe(Message(l10n, LoadingCollection));
    ViewerClassesPlain();
    SafeBox("discogs-collection-loading", EscapeHtml(Message(l10n, LoadingCollection)));
  }

  /** A mount point: read the configuration; without a username show one error and stop, with
      no page state and nothing sent; otherwise create the page state and fetch the first page. */
  method Mount(dataset: Dataset, l10n: map<string, string>, first: Response)
    returns (viewer: CollectionViewer?, shown: seq<Node>, sent: seq<Request>)
    ensures viewer == null <==> ReadConfig(dataset).username == ""
    ensures viewer == null ==> shown == [NoUsernameView(l10n)] && sent == []
    ensures viewer != null ==>
      && fresh(viewer) && viewer.Valid()
      && viewer.config == ReadConfig(dataset) && viewer.l10n == l10n
      && shown == viewer.container && sent == viewer.requests
      && sent == [RequestFor(viewer.config, 1)]
      && viewer.currentPage == 1
      && match Classify(first, l10n)
        case Failed(message) => viewer.totalPages == 1 && shown == [ErrorView(l10n, message)]
        case Loaded(releases, pages) =>
          viewer.totalPages == pages && shown == [CollectionView(viewer.config, releases)] + PaginationView(1, pages, l10n)
  {
    var config := ReadConfig(dataset);
    if config.username == "" {
      viewer := null;
      shown := [NoUsernameView(l10n)];
      sent := [];
      return;
    }
    viewer := new CollectionViewer(config, l10n);
    viewer.FetchCollection(1, first);
    shown := viewer.container;
    sent := viewer.requests;
  }
}
