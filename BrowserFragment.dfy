/**
 * One browser tab's page host: the ad-request filter, the history upsert run
 * when a page finishes loading, the back-press precedence, the desktop
 * user-agent toggle, URL buffering before the web view exists, in-page find
 * and download routing. Calls into the web view are recorded in `effects`.
 */
module Browser {
  import opened Platform
  import opened Text
  import opened HistoryEntity
  import opened HistoryStore

  const BLANK_URL: string := "about:blank"

  /** Host fragments whose requests are answered locally instead of being fetched. */
  const AD_HOSTS: seq<string> := [
    "adservice.google.com",
    "doubleclick.net",
    "admob.com",
    "googlesyndication.com",
    "adnxs.com",
    "facebook.com/ads",
    "app-measurement.com"
  ]

  /** The fixed user-agent string desktop mode switches to. */
  const DESKTOP_USER_AGENT: string :=
    "Mozilla/5.0 (Windows NT 10.0; Win64; x64) AppleWebKit/537.36 (KHTML, like Gecko) Chrome/100.0.4896.88 Safari/537.36"

  /** `WebResourceResponse(mimeType, encoding, data)`, the body as bytes. */
  datatype WebResourceResponse = WebResourceResponse(mimeType: string, encoding: string, data: seq<bv8>)

  /** The answer given to a blocked request: an empty utf-8 text body. */
  const BLOCKED_RESPONSE: WebResourceResponse := WebResourceResponse("text/plain", "utf-8", [])

  // ---------------------------------------------------------------------------
  // Ad-request filter

  /** `hosts.any { url.contains(it) }`. */
  function MatchesAnyHost(url: string, hosts: seq<string>): (b: bool)
    ensures b <==> exists i :: 0 <= i < |hosts| && Contains(url, hosts[i])
  {
    if hosts == [] then
      false
    else
      var rest := MatchesAnyHost(url, hosts[1..]);
      assert forall i :: 0 < i < |hosts| ==> hosts[i] == hosts[1..][i - 1];
      Contains(url, hosts[0]) || rest
  }

  /**
   * `shouldInterceptRequest`. A request whose URL, lower-cased, contains an
   * ad host is answered with `BLOCKED_RESPONSE`; any other request, and one
   * without a URL, gets `None`: it goes on to the default handler.
   */
  function ShouldInterceptRequest(requestUrl: Option<string>): (r: Option<WebResourceResponse>)
    ensures r.Some? <==>
      requestUrl.Some? && exists i :: 0 <= i < |AD_HOSTS| && Contains(ToLowerRoot(requestUrl.value), AD_HOSTS[i])
    ensures r.Some? ==> r.value == BLOCKED_RESPONSE
  {
    match requestUrl
    case None => None
    case Some(url) =>
      if MatchesAnyHost(ToLowerRoot(url), AD_HOSTS) then Some(BLOCKED_RESPONSE) else None
  }

  /** Every ad host is written in lower case, so lower-casing the URL makes the match case-blind. */
  lemma AdHostsAreLowerCase()
    ensures forall i :: 0 <= i < |AD_HOSTS| ==> IsLowerCase(AD_HOSTS[i]) && ToLowerRoot(AD_HOSTS[i]) == AD_HOSTS[i]
  {
    assert IsLowerCase(AD_HOSTS[0]) && IsLowerCase(AD_HOSTS[1]) && IsLowerCase(AD_HOSTS[2]);
    assert IsLowerCase(AD_HOSTS[3]) && IsLowerCase(AD_HOSTS[4]) && IsLowerCase(AD_HOSTS[5]);
    assert IsLowerCase(AD_HOSTS[6]);
    forall i | 0 <= i < |AD_HOSTS| ensures IsLowerCase(AD_HOSTS[i]) && ToLowerRoot(AD_HOSTS[i]) == AD_HOSTS[i] {
      ToLowerRootIsLowerCase(AD_HOSTS[i]);
    }
  }

  /** An ad host found anywhere in the URL, in any mix of letter cases, blocks the request. */
  lemma OccurrenceInAnyCaseIsBlocked(url: string, i: int, p: int)
    requires 0 <= i < |AD_HOSTS|
    requires 0 <= p && p + |AD_HOSTS[i]| <= |url|
    requires ToLowerRoot(url[p..p + |AD_HOSTS[i]|]) == AD_HOSTS[i]
    ensures ShouldInterceptRequest(Some(url)) == Some(BLOCKED_RESPONSE)
  {
    var h := AD_HOSTS[i];
    ToLowerRootSlice(url, p, p + |h|);
    assert OccursAt(ToLowerRoot(url), h, p);
  }

  /** Lower-case-equal URLs are treated alike. */
  lemma InterceptionIgnoresCase(u: string, v: string)
    requires ToLowerRoot(u) == ToLowerRoot(v)
    ensures ShouldInterceptRequest(Some(u)) == ShouldInterceptRequest(Some(v))
  {
  }

  /** The tracking-pixel example: `https://DoubleClick.net/pixel` is blocked. */
  lemma DoubleClickPixelIsBlocked()
    ensures ShouldInterceptRequest(Some("https://DoubleClick.net/pixel")) == Some(BLOCKED_RESPONSE)
  {
    var url := "https://DoubleClick.net/pixel";
    assert url[8..8 + |AD_HOSTS[1]|] == "DoubleClick.net";
    assert ToLowerRoot("DoubleClick.net") == AD_HOSTS[1];
    OccurrenceInAnyCaseIsBlocked(url, 1, 8);
  }

  // ---------------------------------------------------------------------------
  // History recording

  /** `onPageFinished` records a visit only for a URL and a title that are present, and not for `about:blank`. */
  predicate ShouldRecordHistory(url: Option<string>, title: Option<string>): (b: bool)
    ensures url.None? || title.None? ==> !b
    ensures url == Some(BLANK_URL) ==> !b
    ensures url.Some? && title.Some? && url.value != BLANK_URL ==> b
  {
    url.Some? && title.Some? && url.value != BLANK_URL
  }

  /**
   * The lookup-then-insert run for a finished page: a URL with no row gets a
   * new row; a URL with a row has that row written back with a new timestamp.
   */
  function Upsert(t: Table, url: string, title: string, now: int): (r: Table)
    ensures WellFormed(t) ==> WellFormed(r) && t.rows.Keys <= r.rows.Keys
    ensures WellFormed(t) ==> forall k :: k in t.rows ==>
      r.rows[k].url == t.rows[k].url && r.rows[k].title == t.rows[k].title
    ensures WellFormed(t) ==> FindByUrl(r, url).Some?
  {
    match FindByUrl(t, url)
    case None => Inserted(t, NewHistoryItem(url, title, now))
    case Some(existing) => Inserted(t, CopyWithTimestamp(existing, now))
  }

  /** An unseen URL gets exactly one new row, with a fresh id, that URL and title, and the visit time. */
  lemma UpsertOfUnseenUrl(t: Table, url: string, title: string, now: int)
    requires WellFormed(t)
    requires forall k :: k in t.rows ==> t.rows[k].url != url
    ensures var r := Upsert(t, url, title, now);
      && WellFormed(r)
      && t.nextId !in t.rows
      && r.rows.Keys == t.rows.Keys + {t.nextId}
      && r.rows[t.nextId] == HistoryItem(t.nextId, url, title, now)
      && forall k :: k in t.rows ==> r.rows[k] == t.rows[k]
  {
  }

  /**
   * A URL already stored keeps its row: same id, same URL, the title it was
   * first stored with; only the timestamp becomes the visit time.
   */
  lemma UpsertOfSeenUrl(t: Table, url: string, title: string, now: int)
    requires WellFormed(t)
    requires exists k :: k in t.rows && t.rows[k].url == url
    ensures var e := FindByUrl(t, url).value; var r := Upsert(t, url, title, now);
      && WellFormed(r)
      && e.id in t.rows && t.rows[e.id] == e && e.url == url
      && r.rows.Keys == t.rows.Keys
      && r.rows[e.id] == HistoryItem(e.id, url, e.title, now)
      && r.nextId == t.nextId
      && forall k :: k in t.rows && k != e.id ==> r.rows[k] == t.rows[k]
  {
  }

  /** Run one after another, upserts never leave two rows for one URL, and the visited URL then has its row. */
  lemma UpsertKeepsUrlsUnique(t: Table, url: string, title: string, now: int)
    requires WellFormed(t) && UrlsUnique(t.rows)
    ensures var r := Upsert(t, url, title, now);
      && WellFormed(r) && UrlsUnique(r.rows)
      && FindByUrl(r, url).Some?
  {
    var r := Upsert(t, url, title, now);
    match FindByUrl(t, url)
    case None =>
      UpsertOfUnseenUrl(t, url, title, now);
      assert r.rows[t.nextId].url == url;
    case Some(e) =>
      UpsertOfSeenUrl(t, url, title, now);
      assert r.rows[e.id].url == url;
      forall a, b | a in r.rows && b in r.rows && r.rows[a].url == r.rows[b].url ensures a == b {
        assert r.rows[a].url == t.rows[a].url && r.rows[b].url == t.rows[b].url;
      }
  }

  /**
   * Visiting a URL twice leaves one row for it, carrying the first title and
   * the second visit's time.
   */
  lemma RevisitKeepsFirstTitle(t: Table, url: string, title1: string, now1: int, title2: string, now2: int)
    requires WellFormed(t)
    requires forall k :: k in t.rows ==> t.rows[k].url != url
    ensures var r := Upsert(Upsert(t, url, title1, now1), url, title2, now2);
      && t.nextId in r.rows
      && r.rows[t.nextId] == HistoryItem(t.nextId, url, title1, now2)
      && forall k :: k in r.rows && r.rows[k].url == url ==> k == t.nextId
  {
    var t1 := Upsert(t, url, title1, now1);
    UpsertOfUnseenUrl(t, url, title1, now1);
    assert t1.rows[t.nextId].url == url;
    UpsertOfSeenUrl(t1, url, title2, now2);
    var e := FindByUrl(t1, url).value;
    assert forall k :: k in t1.rows && t1.rows[k].url == url ==> k == t.nextId;
    assert e.id == t.nextId;
  }

  /** One `onPageFinished` report: the page's URL and title (either may be absent) and the clock reading. */
  datatype PageFinished = PageFinished(url: Option<string>, title: Option<string>, now: int)

  /** The table after a run of finished pages, each handled in turn. */
  function AfterPages(t: Table, pages: seq<PageFinished>): (r: Table)
    ensures WellFormed(t) ==> WellFormed(r) && t.rows.Keys <= r.rows.Keys
    ensures WellFormed(t) ==> forall k :: k in t.rows ==>
      r.rows[k].url == t.rows[k].url && r.rows[k].title == t.rows[k].title
    decreases |pages|
  {
    if pages == [] then
      t
    else
      var p := pages[0];
      var t1 := if ShouldRecordHistory(p.url, p.title) then Upsert(t, p.url.value, p.title.value, p.now) else t;
      AfterPages(t1, pages[1..])
  }

  /** Because every write goes through the lookup first, any run of visits keeps at most one row per URL. */
  lemma {:induction false} AfterPagesKeepsUrlsUnique(t: Table, pages: seq<PageFinished>)
    requires WellFormed(t) && UrlsUnique(t.rows)
    ensures WellFormed(AfterPages(t, pages)) && UrlsUnique(AfterPages(t, pages).rows)
    decreases |pages|
  {
    if pages != [] {
      var p := pages[0];
      var t1 := if ShouldRecordHistory(p.url, p.title) then Upsert(t, p.url.value, p.title.value, p.now) else t;
      if ShouldRecordHistory(p.url, p.title) {
        UpsertKeepsUrlsUnique(t, p.url.value, p.title.value, p.now);
      }
      AfterPagesKeepsUrlsUnique(t1, pages[1..]);
    }
  }

  /** Every page that passes the guard leaves its URL findable once the whole run is over. */
  lemma {:induction false} AfterPagesFindsEveryVisitedUrl(t: Table, pages: seq<PageFinished>, i: int)
    requires WellFormed(t)
    requires 0 <= i < |pages| && ShouldRecordHistory(pages[i].url, pages[i].title)
    ensures FindByUrl(AfterPages(t, pages), pages[i].url.value).Some?
    decreases |pages|
  {
    var p := pages[0];
    var t1 := if ShouldRecordHistory(p.url, p.title) then Upsert(t, p.url.value, p.title.value, p.now) else t;
    assert AfterPages(t, pages) == AfterPages(t1, pages[1..]);
    if i == 0 {
      var url := p.url.value;
      var e := FindByUrl(t1, url).value;
      var r := AfterPages(t1, pages[1..]);
      assert e.id in t1.rows && r.rows[e.id].url == url;
    } else {
      assert pages[1..][i - 1] == pages[i];
      AfterPagesFindsEveryVisitedUrl(t1, pages[1..], i - 1);
    }
  }

  // ---------------------------------------------------------------------------
  // Desktop mode

  /** The user agent `toggleDesktopMode` sets: the desktop string while the original is in use, else the original. */
  function ToggledUserAgent(current: string, original: string): (r: string)
    ensures r == original || r == DESKTOP_USER_AGENT
    ensures current == original ==> r == DESKTOP_USER_AGENT
    ensures current != original ==> r == original
  {
    if current == original then DESKTOP_USER_AGENT else original
  }

  /** From either of its two states, toggling twice restores the user agent exactly. */
  lemma ToggleTwiceRestores(current: string, original: string)
    requires current == original || current == DESKTOP_USER_AGENT
    ensures ToggledUserAgent(ToggledUserAgent(current, original), original) == current
  {
  }

  // ---------------------------------------------------------------------------
  // Downloads

  /**
   * The fragment's download listener: a `blob:` URL is fetched by page
   * script whatever the permission state; any other URL is handed to the
   * download manager only with storage permission, and otherwise the
   * permission is requested.
   */
  function RouteDownload(url: string, permissionGranted: bool): (r: DownloadRoute)
    ensures StartsWith(url, "blob:") ==> r == BlobDownload(url)
    ensures !StartsWith(url, "blob:") ==> (r.ManagerDownload? <==> permissionGranted)
    ensures r.ManagerDownload? ==> r.url == url
    ensures r.RequestPermission? <==> !StartsWith(url, "blob:") && !permissionGranted
    ensures r.RequestPermission? ==> r.code == STORAGE_PERMISSION_CODE
  {
    if StartsWith(url, "blob:") then
      BlobDownload(url)
    else if permissionGranted then
      ManagerDownload(url)
    else
      RequestPermission(STORAGE_PERMISSION_CODE)
  }

  // ---------------------------------------------------------------------------
  // The fragment

  /**
   * How a call on the fragment ends: normally, or with the
   * `UninitializedPropertyAccessException` that reading the `lateinit` web
   * view throws before `onViewCreated`.
   */
  datatype CallOutcome = Returned | ThrewUninitializedWebView

  class BrowserFragment {
    /** `Fragment.arguments`: absent, or a bundle whose "url" entry may be absent. */
    var arguments: Option<Option<string>>
    /** The URL loaded when the web view is created. */
    var initialUrl: string
    /** The shared history DAO, set in `onCreate`. */
    var historyDao: HistoryDao?
    /** Whether the `lateinit` web view has been assigned (`onViewCreated` ran). */
    var viewCreated: bool
    /** `webView.settings.userAgentString`. */
    var userAgent: string
    /** The user agent captured when the view was created. */
    var originalUserAgent: Option<string>
    /** The find bar's visibility; `None` when the layout has no find bar. */
    var findLayout: Option<Visibility>
    /** The find field's text; `None` when the layout has no find field. */
    var findText: Option<string>
    /** `isEnabled` of the back-press callback registered in `onViewCreated`. */
    var backCallbackEnabled: bool
    /** Calls made on the web view and the back dispatcher, oldest first. */
    var effects: seq<WebEffect>

    /** Once the view exists, the user agent is the captured original or the desktop string. */
    ghost predicate Valid()
      reads this
    {
      viewCreated ==>
        originalUserAgent.Some? &&
        (userAgent == originalUserAgent.value || userAgent == DESKTOP_USER_AGENT)
    }

    constructor ()
      ensures Valid()
      ensures arguments == None && initialUrl == BLANK_URL && historyDao == null
      ensures !viewCreated && originalUserAgent == None && findLayout == None && findText == None
      ensures !backCallbackEnabled && effects == []
    {
      arguments := None;
      initialUrl := BLANK_URL;
      historyDao := null;
      viewCreated := false;
      userAgent := "";
      originalUserAgent := None;
      findLayout := None;
      findText := None;
      backCallbackEnabled := false;
      effects := [];
    }

    /** `newInstance(url)`: a fragment whose arguments carry `url`. */
    static method NewInstance(url: string) returns (f: BrowserFragment)
      ensures fresh(f) && f.Valid()
      ensures f.arguments == Some(Some(url)) && f.initialUrl == BLANK_URL && f.historyDao == null
      ensures !f.viewCreated && f.effects == []
    {
      f := new BrowserFragment();
      f.arguments := Some(Some(url));
    }

    /** `onCreate`: takes the initial URL from the arguments, if there are any, and the DAO. */
    method OnCreate(dao: HistoryDao)
      requires Valid()
      modifies this
      ensures Valid()
      ensures initialUrl == (match old(arguments)
                             case None => old(initialUrl)
                             case Some(args) => args.GetOr(BLANK_URL))
      ensures historyDao == dao
      ensures arguments == old(arguments) && viewCreated == old(viewCreated) && userAgent == old(userAgent)
      ensures originalUserAgent == old(originalUserAgent) && findLayout == old(findLayout) && findText == old(findText)
      ensures backCallbackEnabled == old(backCallbackEnabled) && effects == old(effects)
    {
      match arguments {
        case None =>
        case Some(args) => initialUrl := args.GetOr(BLANK_URL);
      }
      historyDao := dao;
    }

    /**
     * `onViewCreated`: the web view, with the platform's default user agent,
     * and the find bar views come into existence; the original user agent is
     * captured, `initialUrl` is loaded and the back callback is registered
     * enabled.
     */
    method OnViewCreated(defaultUserAgent: string, layoutFindBar: Option<Visibility>, layoutFindText: Option<string>)
      modifies this
      ensures Valid()
      ensures viewCreated && userAgent == defaultUserAgent && originalUserAgent == Some(defaultUserAgent)
      ensures findLayout == layoutFindBar && findText == layoutFindText && backCallbackEnabled
      ensures effects == old(effects) + [WebEffect.LoadUrl(old(initialUrl))]
      ensures arguments == old(arguments) && initialUrl == old(initialUrl) && historyDao == old(historyDao)
    {
      viewCreated := true;
      findLayout := layoutFindBar;
      findText := layoutFindText;
      userAgent := defaultUserAgent;
      originalUserAgent := Some(defaultUserAgent);
      effects := effects + [WebEffect.LoadUrl(initialUrl)];
      backCallbackEnabled := true;
    }

    /** `loadUrl`: navigates once the web view exists; before that it only replaces `initialUrl`. */
    method LoadUrl(url: string)
      requires Valid()
      modifies this
      ensures Valid()
      ensures old(viewCreated) ==> effects == old(effects) + [WebEffect.LoadUrl(url)] && initialUrl == old(initialUrl)
      ensures !old(viewCreated) ==> initialUrl == url && effects == old(effects)
      ensures arguments == old(arguments) && viewCreated == old(viewCreated) && userAgent == old(userAgent)
      ensures originalUserAgent == old(originalUserAgent) && findLayout == old(findLayout) && findText == old(findText)
      ensures backCallbackEnabled == old(backCallbackEnabled) && historyDao == old(historyDao)
    {
      if viewCreated {
        effects := effects + [WebEffect.LoadUrl(url)];
      } else {
        initialUrl := url;
      }
    }

    /** `getCurrentUrl`: the web view's address as the platform reports it, or `None` before the view exists. */
    function GetCurrentUrl(webViewUrl: Option<string>): (r: Option<string>)
      reads this
      ensures !viewCreated ==> r == None
      ensures viewCreated ==> r == webViewUrl
    {
      if viewCreated then webViewUrl else None
    }

    /**
     * `toggleDesktopMode`: swaps between the original and the desktop user
     * agent, then reloads. It reads the `lateinit` web view unguarded, so
     * before the view exists it throws before changing anything.
     */
    method ToggleDesktopMode() returns (outcome: CallOutcome)
      requires Valid()
      modifies this
      ensures Valid()
      ensures outcome == if old(viewCreated) then Returned else ThrewUninitializedWebView
      ensures arguments == old(arguments) && viewCreated == old(viewCreated) && initialUrl == old(initialUrl)
      ensures originalUserAgent == old(originalUserAgent) && findLayout == old(findLayout) && findText == old(findText)
      ensures backCallbackEnabled == old(backCallbackEnabled) && historyDao == old(historyDao)
      ensures old(viewCreated) ==>
        userAgent == ToggledUserAgent(old(userAgent), originalUserAgent.value) && effects == old(effects) + [Reload]
      ensures !old(viewCreated) ==> userAgent == old(userAgent) && effects == old(effects)
    {
      if !viewCreated {
        return ThrewUninitializedWebView;
      }
      outcome := Returned;
      if userAgent == originalUserAgent.value {
        userAgent := DESKTOP_USER_AGENT;
      } else {
        userAgent := originalUserAgent.value;
      }
      effects := effects + [Reload];
    }

    /** `showFindInPage`: makes the find bar visible, if the layout has one. */
    method ShowFindInPage()
      requires Valid()
      modifies this
      ensures Valid()
      ensures findLayout == if old(findLayout).Some? then Some(Visible) else None
      ensures arguments == old(arguments) && viewCreated == old(viewCreated) && initialUrl == old(initialUrl)
      ensures userAgent == old(userAgent) && originalUserAgent == old(originalUserAgent) && findText == old(findText)
      ensures backCallbackEnabled == old(backCallbackEnabled) && effects == old(effects) && historyDao == old(historyDao)
    {
      if findLayout.Some? {
        findLayout := Some(Visible);
      }
    }

    /** `hideFindInPage`: clears the match highlighting, hides the bar and empties the field. */
    method HideFindInPage()
      requires Valid() && viewCreated
      modifies this
      ensures Valid()
      ensures effects == old(effects) + [ClearMatches]
      ensures findLayout == if old(findLayout).Some? then Some(Gone) else None
      ensures findText == if old(findText).Some? then Some("") else None
      ensures arguments == old(arguments) && viewCreated == old(viewCreated) && initialUrl == old(initialUrl)
      ensures userAgent == old(userAgent) && originalUserAgent == old(originalUserAgent)
      ensures backCallbackEnabled == old(backCallbackEnabled) && historyDao == old(historyDao)
    {
      effects := effects + [ClearMatches];
      if findLayout.Some? {
        findLayout := Some(Gone);
      }
      if findText.Some? {
        findText := Some("");
      }
    }

    /**
     * `findNext`: searches for the field's text, and steps to the next or
     * previous match, unless that text is blank. Without a find field the
     * text is Kotlin's rendering of null, the four letters "null".
     */
    method FindNext(forward: bool)
      requires Valid() && viewCreated
      modifies this
      ensures var text := if old(findText).Some? then old(findText).value else "null";
        effects == if IsBlank(text) then old(effects) else old(effects) + [FindAllAsync(text), WebEffect.FindNext(forward)]
      ensures arguments == old(arguments) && viewCreated == old(viewCreated) && initialUrl == old(initialUrl)
      ensures userAgent == old(userAgent) && originalUserAgent == old(originalUserAgent)
      ensures findLayout == old(findLayout) && findText == old(findText)
      ensures backCallbackEnabled == old(backCallbackEnabled) && historyDao == old(historyDao)
    {
      var text := if findText.Some? then findText.value else "null";
      if !IsBlank(text) {
        effects := effects + [FindAllAsync(text), WebEffect.FindNext(forward)];
      }
    }

    /**
     * The back-press callback. First branch that applies: a visible find bar
     * is closed; else the page goes back in its own history; else the
     * callback disables itself and hands the press back to the dispatcher.
     */
    method HandleOnBackPressed(canGoBack: bool)
      requires Valid() && viewCreated
      modifies this
      ensures Valid()
      ensures old(findLayout) == Some(Visible) ==>
        && effects == old(effects) + [ClearMatches]
        && findLayout == Some(Gone)
        && findText == (if old(findText).Some? then Some("") else None)
        && backCallbackEnabled == old(backCallbackEnabled)
      ensures old(findLayout) != Some(Visible) && canGoBack ==>
        && effects == old(effects) + [GoBack]
        && findLayout == old(findLayout) && findText == old(findText)
        && backCallbackEnabled == old(backCallbackEnabled)
      ensures old(findLayout) != Some(Visible) && !canGoBack ==>
        && effects == old(effects) + [DispatchBackPress]
        && findLayout == old(findLayout) && findText == old(findText)
        && !backCallbackEnabled
      ensures arguments == old(arguments) && viewCreated == old(viewCreated) && initialUrl == old(initialUrl)
      ensures userAgent == old(userAgent) && originalUserAgent == old(originalUserAgent) && historyDao == old(historyDao)
    {
      if findLayout == Some(Visible) {
        HideFindInPage();
      } else if canGoBack {
        effects := effects + [GoBack];
      } else {
        backCallbackEnabled := false;
        effects := effects + [DispatchBackPress];
      }
    }

    /**
     * `onPageFinished`, history part: for a recordable page, look the URL up
     * and insert either a new item or the found item with a new timestamp.
     */
    method OnPageFinished(url: Option<string>, title: Option<string>, now: int)
      requires historyDao != null && historyDao.Valid()
      modifies historyDao
      ensures historyDao.Valid()
      ensures historyDao.State() ==
        if ShouldRecordHistory(url, title) then Upsert(old(historyDao.State()), url.value, title.value, now)
        else old(historyDao.State())
    {
      if ShouldRecordHistory(url, title) {
        var existingItem := historyDao.GetHistoryItemByUrl(url.value);
        match existingItem {
          case None => historyDao.Insert(NewHistoryItem(url.value, title.value, now));
          case Some(item) => historyDao.Insert(CopyWithTimestamp(item, now));
        }
      }
    }
  }

  /**
   * With the find bar open and page history behind it, the first back press
   * only closes the bar, the second goes back, and the press is handed on
   * only once the page cannot go back.
   */
  method BackPressSequence(f: BrowserFragment)
    requires f.Valid() && f.viewCreated && f.findLayout == Some(Visible) && f.backCallbackEnabled
    modifies f
  {
    var before := f.effects;
    f.HandleOnBackPressed(true);
    assert f.effects == before + [ClearMatches] && f.findLayout == Some(Gone) && f.backCallbackEnabled;
    f.HandleOnBackPressed(true);
    assert f.effects == before + [ClearMatches, GoBack] && f.backCallbackEnabled;
    f.HandleOnBackPressed(false);
    assert f.effects == before + [ClearMatches, GoBack, DispatchBackPress] && !f.backCallbackEnabled;
  }

  /** A URL given before the view exists is the one loaded when it is created; the last one given wins. */
  method LoadBeforeViewIsBuffered(dao: HistoryDao, ua: string)
  {
    var f := BrowserFragment.NewInstance("https://example.org");
    f.OnCreate(dao);
    assert f.initialUrl == "https://example.org";
    assert f.GetCurrentUrl(Some("ignored")) == None;
    var outcome := f.ToggleDesktopMode();
    assert outcome == ThrewUninitializedWebView && f.effects == [];
    f.LoadUrl("https://a.example");
    f.LoadUrl("https://b.example");
    assert f.effects == [];
    f.OnViewCreated(ua, Some(Gone), Some(""));
    assert f.effects == [WebEffect.LoadUrl("https://b.example")];
    outcome := f.ToggleDesktopMode();
    outcome := f.ToggleDesktopMode();
    assert outcome == Returned;
    ToggleTwiceRestores(ua, ua);
    assert f.userAgent == ua;
    assert f.effects == [WebEffect.LoadUrl("https://b.example"), Reload, Reload];
  }
}
