# Eden browser shell — a Dafny model of its decision rules

The Eden browser is an Android app: tabs of embedded web views, an ad-request
filter, downloads, in-page find, a desktop user-agent toggle, a draggable
split view and a visit history kept in a SQLite table. Almost everything it
does is a call into the platform. This project models the parts that are
decisions of the app's own, and proves what they promise.

Modules, one per source file, plus two shared ones:

- `Platform` (Platform.dfy): Kotlin's nullable values as `Option`, view
  visibility, the permission constants, the log of calls made on the web view
  (`WebEffect`) and the three ways a download can be routed.
- `Text` (Text.dfy): the Kotlin string operations the rules use —
  `toLowerCase(Locale.ROOT)`, `contains`, `startsWith`, `isBlank`.
- `HistoryEntity` (HistoryItem.dfy): the `HistoryItem` record, its defaults
  and `copy`.
- `HistoryStore` (HistoryDao.dfy): the history table as `map<int, HistoryItem>`
  plus SQLite's AUTOINCREMENT counter. Pure functions give the meaning of each
  DAO call; the class `HistoryDao` holds the table and changes it in place,
  each method proved equal to its function.
- `Browser` (BrowserFragment.dfy): the page host. It covers the ad filter,
  the history guard and the lookup-then-insert upsert, and the back-press
  precedence. It also covers the desktop toggle, URL buffering before the web
  view exists, find-in-page and download routing. The fragment is a class
  whose fields are the ones the source assigns. Calls into the web view are
  appended to `effects`.
- `Tabs` (TabAdapter.dfy): the tab list as a class with a `seq` of page hosts
  and a log of pager notifications.
- `SplitView` (SplitViewActivity.dfy): the divider's DOWN/MOVE touch handler.
- `Shell` (MainActivity.dfy): the single-page screen's back press, progress
  bar, download routing and permission result.

Clocks, measured view widths, `canGoBack`, the web view's URL and title, the
default user agent and the permission state come from the platform. They are
parameters of the operations that read them.

Some behaviour of the code differs from what a reader might expect of a
browser history and tab strip. The model follows the code:

- One might expect a revisit to refresh the stored title, and `url` to be
  unique. The code keeps the title first stored and refreshes only the
  timestamp (`RevisitKeepsFirstTitle`). The entity declares no unique index
  on `url`, so the table accepts duplicate urls
  (`DuplicateUrlsAreNotPrevented`). One row per url holds only because every
  write goes through the lookup first (`AfterPagesKeepsUrlsUnique`).
- When the page cannot go back, the page host's back press does not close
  the tab. It disables its callback and hands the press on to the dispatcher.
  Removing the last tab does not end the shell: the tab adapter lets its list
  become empty.
- `LIMIT 1` with no `ORDER BY` does not say which matching row comes back.
  The model fixes it as the matching row with the least id, the one a scan in
  rowid order meets first. `FindByUrl`'s contract pins exactly that row on a
  well-formed table.
- `toggleDesktopMode` reads the `lateinit` web view without checking it.
  Called before the view exists, it throws, which the model records as the
  outcome `ThrewUninitializedWebView`.

## Model

| member | source | states |
|---|---|---|
| `Text.ToLowerRoot` | app/src/main/java/com/nastytech/eden2/BrowserFragment.kt:149 | the result has the input's length and each character lower-cased (A–Z to a–z) |
| `Text.ToLowerRootIsLowerCase` | app/src/main/java/com/nastytech/eden2/BrowserFragment.kt:149 | lower-casing yields a lower-case string, and leaves a string unchanged iff it is already lower-case |
| `Text.ToLowerRootIdempotent` | app/src/main/java/com/nastytech/eden2/BrowserFragment.kt:149 | lower-casing twice equals lower-casing once |
| `Text.StartsWith` | app/src/main/java/com/nastytech/eden2/BrowserFragment.kt:193 | `startsWith` is true iff the prefix is no longer than the string and equals its first characters |
| `Text.IsBlank` | app/src/main/java/com/nastytech/eden2/BrowserFragment.kt:263 | `isBlank` is true iff every character is whitespace; the empty string is blank |
| `Text.Contains` | app/src/main/java/com/nastytech/eden2/BrowserFragment.kt:151 | `contains` is true iff the substring occurs at some index of the string |
| `HistoryEntity.NewHistoryItem` | app/src/main/java/com/nastytech/eden2/db/HistoryItem.kt:8-12 | a new item has id 0 (the generate-a-key marker), the given url and title, and the supplied clock reading as timestamp |
| `HistoryEntity.CopyWithTimestamp` | app/src/main/java/com/nastytech/eden2/db/HistoryItem.kt:7-13 | `copy(timestamp = t)` keeps id, url and title and sets the timestamp to t; it equals the original iff t was already its timestamp |
| `HistoryEntity.EqualityIsStructural` | app/src/main/java/com/nastytech/eden2/db/HistoryItem.kt:7-13 | two items are equal iff all four fields are equal |
| `HistoryStore.Inserted` | app/src/main/java/com/nastytech/eden2/db/HistoryDao.kt:11-12 | an explicit id stores the item under exactly that id, replacing any row there, and keeps the counter past it. Id 0 stores the item under the counter's id and advances the counter; on a well-formed table that id is new and non-zero, so the count grows by one. No other row changes and well-formedness is kept |
| `HistoryStore.DeletedById` | app/src/main/java/com/nastytech/eden2/db/HistoryDao.kt:17-18 | exactly the row with that id is gone and the others are unchanged; an absent id leaves the table as it was |
| `HistoryStore.Cleared` | app/src/main/java/com/nastytech/eden2/db/HistoryDao.kt:20-21 | the table is left empty and the id counter is kept |
| `HistoryStore.FindByUrl` | app/src/main/java/com/nastytech/eden2/db/HistoryDao.kt:23-24 | none iff no row has the url; otherwise a stored row with that url (the one with the least id) |
| `HistoryStore.AllHistory` | app/src/main/java/com/nastytech/eden2/db/HistoryDao.kt:14-15 | the listing holds every stored row exactly once and nothing else, in non-increasing timestamp order |
| `HistoryStore.DuplicateUrlsAreNotPrevented` | app/src/main/java/com/nastytech/eden2/db/HistoryDao.kt:11-12 | two id-0 inserts of the same url add two rows with that url, so urls are no longer unique |
| `HistoryStore.HistoryDao.constructor` | app/src/main/java/com/nastytech/eden2/db/HistoryItem.kt:8-9 | a new table is empty and generates ids from 1 |
| `HistoryStore.HistoryDao.Insert` | app/src/main/java/com/nastytech/eden2/db/HistoryDao.kt:11-12 | the in-place insert leaves the table equal to `Inserted` of the old table |
| `HistoryStore.HistoryDao.DeleteById` | app/src/main/java/com/nastytech/eden2/db/HistoryDao.kt:17-18 | the in-place delete leaves the table equal to `DeletedById` of the old table |
| `HistoryStore.HistoryDao.GetAllHistory` | app/src/main/java/com/nastytech/eden2/db/HistoryDao.kt:14-15 | the DAO's listing holds every stored row exactly once, in non-increasing timestamp order |
| `HistoryStore.HistoryDao.GetHistoryItemByUrl` | app/src/main/java/com/nastytech/eden2/db/HistoryDao.kt:23-24 | null iff no stored row has the url; otherwise a stored row with that url |
| `HistoryStore.HistoryDao.DeleteAll` | app/src/main/java/com/nastytech/eden2/db/HistoryDao.kt:20-21 | the in-place delete leaves the table equal to `Cleared` of the old table |
| `Browser.MatchesAnyHost` | app/src/main/java/com/nastytech/eden2/BrowserFragment.kt:151 | `hosts.any { url.contains(it) }` is true iff some host occurs in the url |
| `Browser.ShouldInterceptRequest` | app/src/main/java/com/nastytech/eden2/BrowserFragment.kt:148-161 | a request is answered iff it has a url whose lower-cased form contains an ad host. The answer is an empty `text/plain` utf-8 body. A null url or a non-matching one goes to the default handler |
| `Browser.AdHostsAreLowerCase` | app/src/main/java/com/nastytech/eden2/BrowserFragment.kt:64-72 | every ad host is lower-case, so lower-casing leaves it unchanged |
| `Browser.OccurrenceInAnyCaseIsBlocked` | app/src/main/java/com/nastytech/eden2/BrowserFragment.kt:149-158 | a url containing an ad host in any mix of letter cases is blocked |
| `Browser.InterceptionIgnoresCase` | app/src/main/java/com/nastytech/eden2/BrowserFragment.kt:149-151 | two urls that lower-case alike are treated alike |
| `Browser.DoubleClickPixelIsBlocked` | app/src/main/java/com/nastytech/eden2/BrowserFragment.kt:64-72 | `https://DoubleClick.net/pixel` gets the empty response |
| `Browser.ShouldRecordHistory` | app/src/main/java/com/nastytech/eden2/BrowserFragment.kt:129 | a visit is recorded iff url and title are both present and the url is not "about:blank" |
| `Browser.Upsert` | app/src/main/java/com/nastytech/eden2/BrowserFragment.kt:130-136 | on a well-formed table the lookup-then-insert keeps it well-formed, removes no row, changes no row's url or title, and leaves the visited url findable |
| `Browser.UpsertOfUnseenUrl` | app/src/main/java/com/nastytech/eden2/BrowserFragment.kt:131-133 | for a url with no row, exactly one row is added: a fresh id, that url and title, and the visit time. Every old row stays as it was |
| `Browser.UpsertOfSeenUrl` | app/src/main/java/com/nastytech/eden2/BrowserFragment.kt:134-135 | for a stored url, the found row keeps its id, url and old title and gets the visit time. No row is added and no other row changes |
| `Browser.UpsertKeepsUrlsUnique` | app/src/main/java/com/nastytech/eden2/BrowserFragment.kt:130-136 | an upsert on a table with unique urls keeps them unique, and the url is then found |
| `Browser.RevisitKeepsFirstTitle` | app/src/main/java/com/nastytech/eden2/BrowserFragment.kt:130-136 | two visits to a new url leave one row for it, with the first title and the second visit's time |
| `Browser.AfterPages` | app/src/main/java/com/nastytech/eden2/BrowserFragment.kt:127-138 | a run of finished pages keeps a well-formed table well-formed, removes no row and changes no row's url or title |
| `Browser.AfterPagesFindsEveryVisitedUrl` | app/src/main/java/com/nastytech/eden2/BrowserFragment.kt:127-138 | after a run of finished pages, every url that passed the guard has a row |
| `Browser.AfterPagesKeepsUrlsUnique` | app/src/main/java/com/nastytech/eden2/BrowserFragment.kt:127-138 | any sequence of finished pages, each guarded and upserted in turn, keeps at most one row per url |
| `Browser.ToggledUserAgent` | app/src/main/java/com/nastytech/eden2/BrowserFragment.kt:238-246 | the original user agent switches to the desktop string; any other value switches back to the original; the result is always one of the two |
| `Browser.ToggleTwiceRestores` | app/src/main/java/com/nastytech/eden2/BrowserFragment.kt:238-248 | from the original or the desktop string, two toggles give back the starting user agent |
| `Browser.RouteDownload` | app/src/main/java/com/nastytech/eden2/BrowserFragment.kt:192-202 | a `blob:` url always takes the blob path; any other url is downloaded iff permission is granted, and otherwise storage permission is requested with code 1 |
| `Browser.BrowserFragment.constructor` | app/src/main/java/com/nastytech/eden2/BrowserFragment.kt:52-62 | a new fragment has no arguments, `initialUrl` "about:blank", no view, no find bar, no DAO, no back callback and no effects |
| `Browser.BrowserFragment.NewInstance` | app/src/main/java/com/nastytech/eden2/BrowserFragment.kt:392-398 | the new fragment's arguments carry the url |
| `Browser.BrowserFragment.OnCreate` | app/src/main/java/com/nastytech/eden2/BrowserFragment.kt:74-80 | with arguments, `initialUrl` becomes their url or "about:blank"; without, it is kept; the DAO is stored |
| `Browser.BrowserFragment.OnViewCreated` | app/src/main/java/com/nastytech/eden2/BrowserFragment.kt:89-219 | the view exists, the default user agent is captured as the original, `initialUrl` is loaded and the back callback is enabled |
| `Browser.BrowserFragment.LoadUrl` | app/src/main/java/com/nastytech/eden2/BrowserFragment.kt:222-228 | with a view the url is loaded; before it only `initialUrl` is overwritten |
| `Browser.BrowserFragment.GetCurrentUrl` | app/src/main/java/com/nastytech/eden2/BrowserFragment.kt:230-232 | null before the view exists, the web view's url after |
| `Browser.BrowserFragment.ToggleDesktopMode` | app/src/main/java/com/nastytech/eden2/BrowserFragment.kt:238-248 | with a view, the user agent becomes `ToggledUserAgent` of the old one and one reload is recorded; without one, the call throws before changing anything. The user agent stays the original or the desktop string |
| `Browser.BrowserFragment.ShowFindInPage` | app/src/main/java/com/nastytech/eden2/BrowserFragment.kt:250-253 | the find bar, if the layout has one, becomes visible |
| `Browser.BrowserFragment.HideFindInPage` | app/src/main/java/com/nastytech/eden2/BrowserFragment.kt:255-259 | matches are cleared, the bar is hidden and the field emptied |
| `Browser.BrowserFragment.FindNext` | app/src/main/java/com/nastytech/eden2/BrowserFragment.kt:261-267 | a search and a step forward or back are recorded iff the field's text (or "null" without a field) is not blank |
| `Browser.BrowserFragment.HandleOnBackPressed` | app/src/main/java/com/nastytech/eden2/BrowserFragment.kt:208-219 | a visible find bar is closed; else the page goes back if it can; else the callback disables itself and the press is handed on — exactly one of these |
| `Browser.BrowserFragment.OnPageFinished` | app/src/main/java/com/nastytech/eden2/BrowserFragment.kt:127-138 | the DAO's table becomes `Upsert` of the old one iff url and title are present and the url is not "about:blank"; otherwise it is unchanged |
| `Tabs.RemoveAt` | app/src/main/java/com/nastytech/eden2/TabAdapter.kt:27 | removing index i drops exactly that element: earlier ones keep their index, later ones shift down by one, the multiset loses only that element |
| `Tabs.TabAdapter.constructor` | app/src/main/java/com/nastytech/eden2/TabAdapter.kt:11-14 | a new adapter holds one fresh tab made for "about:blank", announced as inserted at 0 |
| `Tabs.TabAdapter.GetItemCount` | app/src/main/java/com/nastytech/eden2/TabAdapter.kt:16 | the count is the list length |
| `Tabs.TabAdapter.AddFragment` | app/src/main/java/com/nastytech/eden2/TabAdapter.kt:20-23 | the tab is appended after the unchanged old tabs, the count grows by one, and an insert is announced at the new last index |
| `Tabs.TabAdapter.RemoveFragment` | app/src/main/java/com/nastytech/eden2/TabAdapter.kt:25-34 | an out-of-range position changes nothing and announces nothing. Otherwise exactly that tab is removed and announced. A change at the new last index is announced iff tabs remain and the removed one was last |
| `Tabs.TabAdapter.GetFragment` | app/src/main/java/com/nastytech/eden2/TabAdapter.kt:36-38 | the tab at the position iff it is in `[0, count)`, else null |
| `Tabs.TabAdapter.GetTabTitle` | app/src/main/java/com/nastytech/eden2/TabAdapter.kt:43-45 | the web view's title, or "New Tab" when the tab, its view or its title is missing |
| `SplitView.DraggedWidths` | app/src/main/java/com/nastytech/eden2/SplitViewActivity.kt:53-55 | the left pane gains exactly the pointer's displacement since the drag started and the two widths keep their starting sum |
| `SplitView.DragBackToStart` | app/src/main/java/com/nastytech/eden2/SplitViewActivity.kt:53-55 | a move back to the starting x asks for the starting widths |
| `SplitView.SplitViewActivity.constructor` | app/src/main/java/com/nastytech/eden2/SplitViewActivity.kt:17-19 | the drag start x and both recorded widths start at 0; the pane parameters are the layout's |
| `SplitView.SplitViewActivity.OnTouch` | app/src/main/java/com/nastytech/eden2/SplitViewActivity.kt:44-76 | DOWN records the x and both widths and returns true. MOVE recomputes from those start values and applies width and weight 0 to both panes only if both widths exceed 100, leaving them unchanged otherwise; it returns true. Any other action changes nothing and returns false |
| `Shell.OnRequestPermissionsResult` | app/src/main/java/com/nastytech/eden2/MainActivity.kt:116-127 | only request code 1 gets a message; it is the granted one iff the results are non-empty and the first is GRANTED |
| `Shell.RouteDownload` | app/src/main/java/com/nastytech/eden2/MainActivity.kt:58-66 | every url, blob ones included, is downloaded iff permission is granted; otherwise permission is requested |
| `Shell.DownloadRoutesAgreeExceptBlobs` | app/src/main/java/com/nastytech/eden2/MainActivity.kt:58-66 | the shell and the page host route every non-blob url alike; only the page host takes the blob path |
| `Shell.MainActivity.constructor` | app/src/main/java/com/nastytech/eden2/MainActivity.kt:30-86 | the progress bar starts as the layout gives it, the back callback is enabled and the start page is loaded |
| `Shell.MainActivity.OnProgressChanged` | app/src/main/java/com/nastytech/eden2/MainActivity.kt:46-53 | progress below 100 shows the bar with that value; 100 or more hides it |
| `Shell.MainActivity.HandleOnBackPressed` | app/src/main/java/com/nastytech/eden2/MainActivity.kt:71-81 | if the page can go back it goes back; otherwise the callback disables itself and the press is handed on |

## Left out

- `Text.ToLowerRoot`: maps only A–Z. Kotlin's `Locale.ROOT` lower-casing also maps other scripts. One such mapping changes length, and the Kelvin sign becomes `k`, so `facebooK.com/ads` would be blocked by the app but not by the model.
- Web view rendering, its settings (BrowserFragment.kt:163-168), `loadUrl`, `reload`, `goBack`, `clearMatches`, `findAllAsync` and `findNext`. These are platform calls, recorded in `effects` and not executed.
- Downloads past the routing decision: building `DownloadManager` requests, `URLUtil.guessFileName`, the injected blob-fetch script, the script bridge, Base64 decoding and the file write (BrowserFragment.kt:288-353, MainActivity.kt:91-111). These are platform I/O.
- The platform's permission check. `permissionGranted` is a parameter.
- Text-to-speech (`speakText`, engine setup and shutdown), and all `Toast` and `Log` output except the choice of permission message. These are an external engine and UI side effects.
- `lifecycleScope.launch` and the IO/Main dispatchers. The history upsert runs as one sequential step, and interleavings of concurrent upserts are not modelled.
- The action-bar title, `invalidateOptionsMenu`, `onReceivedTitle`, and the `viewPager` notification from the page host (BrowserFragment.kt:139-145, 181-189). These are UI plumbing that reaches into the activity.
- `onPause`, `onResume`, `onDestroyView`, `onDestroy`. They only forward to the platform.
- Focus assignment in `showFindInPage` (BrowserFragment.kt:252) and the editor-action listener's key code test (BrowserFragment.kt:104-111). These are UI input plumbing.
- The page host's own `onProgressChanged` (BrowserFragment.kt:173-180) and `onRequestPermissionsResult` (BrowserFragment.kt:355-364). They repeat the shell's rules word for word and are modelled once in `Shell`.
- `TabAdapter.createFragment` and `getFragments` (TabAdapter.kt:18, 40). These are plain accessors for the pager.
- `SplitViewActivity.onCreate` (placing two page hosts in the panes) and `requestLayout`. These are layout plumbing.
- `Browser.BrowserFragment.HideFindInPage` and `Browser.BrowserFragment.FindNext` require the view to exist. Both are private, and the fragment reaches them only from listeners and the back callback registered in `onViewCreated` (BrowserFragment.kt:100-111, 208-219), after the web view is assigned.
- `SplitView.SplitViewActivity.OnTouch`: `rawX` is taken as a whole number of pixels. The float displacement and `toInt()` truncation are not modelled.
- The progress bar's own clamping of `progress` to its range is not modelled. This is platform behaviour.
- Kotlin's 32-bit `Int` (ids, widths, progress) and 64-bit `Long` (timestamps) are unbounded integers here. SQLite's failure once ids are exhausted is not modelled.
- `getAllHistory` returns a `Flow` that re-emits on every change. The model gives one snapshot of it.
- `AppDatabase` (the database singleton) is not part of this model. The page host receives its DAO in `OnCreate`.
- `app/build.gradle.kts` is build configuration only.
