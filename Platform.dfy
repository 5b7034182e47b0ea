/**
 * Values that stand for the Android platform objects the browser talks to.
 * Calls into the platform (the web view, the back dispatcher, the download
 * manager) are not executed: they are recorded as effects, in call order.
 */
module Platform {

  /** Kotlin's nullable reference: `None` is `null`. */
  datatype Option<+T> = None | Some(value: T) {
    /** Kotlin's elvis operator `?:`. */
    function GetOr(default: T): T {
      match this
      case Some(v) => v
      case None => default
    }
  }

  /** `View.VISIBLE` and `View.GONE`, the two visibilities the source assigns. */
  datatype Visibility = Visible | Gone

  /** `PackageManager.PERMISSION_GRANTED`. */
  const PERMISSION_GRANTED: int := 0

  /** The request code both screens pass when they ask for storage permission. */
  const STORAGE_PERMISSION_CODE: int := 1

  /** One call made on the embedded web view or on the back-press dispatcher. */
  datatype WebEffect =
    | LoadUrl(url: string)          // WebView.loadUrl
    | Reload                        // WebView.reload
    | ClearMatches                  // WebView.clearMatches
    | FindAllAsync(text: string)    // WebView.findAllAsync
    | FindNext(forward: bool)       // WebView.findNext
    | GoBack                        // WebView.goBack
    | DispatchBackPress             // OnBackPressedDispatcher.onBackPressed

  /** Where a download request is sent by a download listener. */
  datatype DownloadRoute =
    | BlobDownload(url: string)         // page script fetches the blob and hands it back
    | ManagerDownload(url: string)      // enqueued with the platform download manager
    | RequestPermission(code: int)      // storage permission is asked for; nothing is downloaded
}
