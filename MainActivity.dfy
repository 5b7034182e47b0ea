/**
 * The single-page shell: one web view with a progress bar, a download
 * listener that always checks storage permission, the permission-result
 * handler, and a back press that goes back in page history or hands off.
 */
module Shell {
  import opened Platform
  import opened Text
  import Browser

  /** The page loaded when the shell starts. */
  const START_URL: string := "https://github.com/amirisback"

  /** The two messages a storage-permission result can show. */
  datatype PermissionToast = PermissionGrantedTryAgain | PermissionDeniedCannotDownload

  /**
   * `onRequestPermissionsResult`: only the storage request code is answered;
   * it counts as granted when the first result is GRANTED.
   */
  function OnRequestPermissionsResult(requestCode: int, grantResults: seq<int>): (m: Option<PermissionToast>)
    ensures m.None? <==> requestCode != STORAGE_PERMISSION_CODE
    ensures m == Some(PermissionGrantedTryAgain) <==>
      requestCode == STORAGE_PERMISSION_CODE && |grantResults| > 0 && grantResults[0] == PERMISSION_GRANTED
  {
    if requestCode == STORAGE_PERMISSION_CODE then
      if |grantResults| > 0 && grantResults[0] == PERMISSION_GRANTED then
        Some(PermissionGrantedTryAgain)
      else
        Some(PermissionDeniedCannotDownload)
    else
      None
  }

  /**
   * The shell's download listener: every URL, `blob:` ones included, goes to
   * the download manager only with storage permission; otherwise the
   * permission is requested.
   */
  function RouteDownload(url: string, permissionGranted: bool): (r: DownloadRoute)
    ensures r.ManagerDownload? <==> permissionGranted
    ensures r.ManagerDownload? ==> r.url == url
    ensures !permissionGranted ==> r == RequestPermission(STORAGE_PERMISSION_CODE)
    ensures !r.BlobDownload?
  {
    if permissionGranted then ManagerDownload(url) else RequestPermission(STORAGE_PERMISSION_CODE)
  }

  /**
   * The two listeners agree on every URL except `blob:` ones, which the
   * page host fetches itself and the shell treats like any other download.
   */
  lemma DownloadRoutesAgreeExceptBlobs(url: string, permissionGranted: bool)
    ensures !StartsWith(url, "blob:") ==>
      Browser.RouteDownload(url, permissionGranted) == RouteDownload(url, permissionGranted)
    ensures StartsWith(url, "blob:") ==>
      Browser.RouteDownload(url, permissionGranted) == BlobDownload(url) &&
      RouteDownload(url, permissionGranted) != BlobDownload(url)
  {
  }

  class MainActivity {
    var progressVisibility: Visibility
    var progress: int
    /** `isEnabled` of the back-press callback. */
    var backCallbackEnabled: bool
    /** Calls made on the web view and the back dispatcher, oldest first. */
    var effects: seq<WebEffect>

    /** `onCreate`: registers the back callback enabled and loads the start page. */
    constructor (layoutProgressVisibility: Visibility, layoutProgress: int)
      ensures progressVisibility == layoutProgressVisibility && progress == layoutProgress
      ensures backCallbackEnabled
      ensures effects == [LoadUrl(START_URL)]
    {
      progressVisibility := layoutProgressVisibility;
      progress := layoutProgress;
      backCallbackEnabled := true;
      effects := [LoadUrl(START_URL)];
    }

    /** `onProgressChanged`: below 100 the bar shows that progress; from 100 on it is hidden. */
    method OnProgressChanged(newProgress: int)
      modifies this
      ensures newProgress < 100 ==> progressVisibility == Visible && progress == newProgress
      ensures newProgress >= 100 ==> progressVisibility == Gone && progress == old(progress)
      ensures backCallbackEnabled == old(backCallbackEnabled) && effects == old(effects)
    {
      if newProgress < 100 {
        progressVisibility := Visible;
        progress := newProgress;
      } else {
        progressVisibility := Gone;
      }
    }

    /** The back-press callback: page history first; otherwise disable the callback and hand the press on. */
    method HandleOnBackPressed(canGoBack: bool)
      modifies this
      ensures canGoBack ==> effects == old(effects) + [GoBack] && backCallbackEnabled == old(backCallbackEnabled)
      ensures !canGoBack ==> effects == old(effects) + [DispatchBackPress] && !backCallbackEnabled
      ensures progressVisibility == old(progressVisibility) && progress == old(progress)
    {
      if canGoBack {
        effects := effects + [GoBack];
      } else {
        backCallbackEnabled := false;
        effects := effects + [DispatchBackPress];
      }
    }
  }
}
