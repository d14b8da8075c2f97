/**
 * The download bridge of the web view.  When a navigation becomes a download
 * the view attaches its stored download delegate to it; the delegate then
 * asks the application's `started` callback where to save the file (the
 * callback may rewrite the path, and may refuse) and answers the engine's
 * completion handler, and it reports the end of the download, finished or
 * failed, to the application's `completed` callback.
 *
 * Every outbound call (the `started` callback, the engine's completion
 * handler, the `completed` callback) is recorded, in order, in the
 * delegate's `calls` trace.
 */
module Download {
  import opened Wrappers

  type Path = string

  /** A `file:` URL made from a path: `NSURL fileURLWithPath:isDirectory:`. */
  datatype FileUrl = FileUrl(path: Path, isDirectory: bool)

  /**
   * The application's `started` callback: given the download's URL and the
   * proposed path, it answers whether to accept and the path as it left it.
   */
  type StartedCallback = (string, Path) -> (bool, Path)

  /** The application's `completed` callback, known only by its identity. */
  datatype CompletedCallback = CompletedCallback(id: nat)

  /** One outbound call. */
  datatype Call =
    | StartedCalled(url: string, proposedPath: Path)
    | DecisionHandlerCalled(destination: Option<FileUrl>)
    | CompletedCalled(callback: CompletedCallback, url: string, path: Option<Path>, success: bool)

  datatype CallKind = Started | DecisionHandler | Completed

  function KindOf(c: Call): CallKind {
    match c
    case StartedCalled(_, _) => Started
    case DecisionHandlerCalled(_) => DecisionHandler
    case CompletedCalled(_, _, _, _) => Completed
  }

  /** How many calls of kind `k` the trace holds. */
  function Count(trace: seq<Call>, k: CallKind): nat {
    if trace == [] then 0 else (if KindOf(trace[0]) == k then 1 else 0) + Count(trace[1..], k)
  }

  lemma {:induction false} CountAppend(a: seq<Call>, b: seq<Call>, k: CallKind)
    ensures Count(a + b, k) == Count(a, k) + Count(b, k)
  {
    if a == [] {
      assert a + b == b;
    } else {
      assert (a + b)[1..] == a[1..] + b;
      CountAppend(a[1..], b, k);
    }
  }

  lemma {:induction false} CountZero(trace: seq<Call>, k: CallKind)
    requires Count(trace, k) == 0
    ensures forall i :: 0 <= i < |trace| ==> KindOf(trace[i]) != k
  {
    if trace != [] {
      CountZero(trace[1..], k);
      assert forall i :: 1 <= i < |trace| ==> trace[i] == trace[1..][i - 1];
    }
  }

  /**
   * The calls `download_policy` makes, given the `started` slot, the URL of
   * the download's original request and the suggested path: the engine's
   * completion handler exactly once, as the last call; before it, the
   * `started` callback once if the slot is filled.  The handler gets a file
   * URL for the path as the callback left it when the callback accepts, and
   * nothing otherwise.
   */
  function PolicyCalls(started: Option<StartedCallback>, url: string, suggestedPath: Path): (calls: seq<Call>)
    ensures |calls| > 0 && calls[|calls| - 1].DecisionHandlerCalled?
    ensures Count(calls, DecisionHandler) == 1 && Count(calls, Completed) == 0
    ensures Count(calls, Started) == if started.Some? then 1 else 0
    ensures started.Some? ==> calls[0] == StartedCalled(url, suggestedPath)
    ensures calls[|calls| - 1].destination ==
      match started
      case None => None
      case Some(callback) =>
        if callback(url, suggestedPath).0 then Some(FileUrl(callback(url, suggestedPath).1, false)) else None
  {
    match started
    case None => [DecisionHandlerCalled(None)]
    case Some(callback) =>
      var (accept, path) := callback(url, suggestedPath);
      [StartedCalled(url, suggestedPath), DecisionHandlerCalled(if accept then Some(FileUrl(path, false)) else None)]
  }

  /**
   * The calls `download_did_finish` (`success`) and `download_did_fail`
   * (not `success`) make: the `completed` callback once, with the URL, no
   * path and the outcome, if the slot is filled; nothing otherwise.
   */
  function CompletionCalls(completed: Option<CompletedCallback>, url: string, success: bool): (calls: seq<Call>)
    ensures Count(calls, Completed) == if completed.Some? then 1 else 0
    ensures Count(calls, Started) == 0 && Count(calls, DecisionHandler) == 0
    ensures forall i :: 0 <= i < |calls| ==>
      calls[i] == CompletedCalled(completed.value, url, None, success)
  {
    match completed
    case None => []
    case Some(callback) => [CompletedCalled(callback, url, None, success)]
  }

  /**
   * A whole download, decided and then finished or failed: the completion
   * handler is answered exactly once, the `started` callback runs at most
   * once and never after a completion report, and the `completed` callback
   * runs once exactly when its slot is filled, with the outcome of the path taken.
   */
  lemma DownloadLifecycle(started: Option<StartedCallback>, completed: Option<CompletedCallback>,
                          url: string, suggestedPath: Path, success: bool)
    ensures var trace := PolicyCalls(started, url, suggestedPath) + CompletionCalls(completed, url, success);
            Count(trace, DecisionHandler) == 1 &&
            Count(trace, Started) <= 1 &&
            Count(trace, Completed) == (if completed.Some? then 1 else 0) &&
            (forall i, j :: 0 <= i < j < |trace| && trace[i].CompletedCalled? ==> !trace[j].StartedCalled?) &&
            (forall i :: 0 <= i < |trace| && trace[i].CompletedCalled? ==> trace[i].success == success)
  {
    var policy, completion := PolicyCalls(started, url, suggestedPath), CompletionCalls(completed, url, success);
    var trace := policy + completion;
    CountAppend(policy, completion, DecisionHandler);
    CountAppend(policy, completion, Started);
    CountAppend(policy, completion, Completed);
    CountZero(policy, Completed);
    CountZero(completion, Started);
    forall j | |policy| <= j < |trace|
      ensures !trace[j].StartedCalled?
    {
      assert trace[j] == completion[j - |policy|];
      assert KindOf(completion[j - |policy|]) != Started;
    }
  }

  /** A `WKDownload`: the URL of its original request, and the delegate set on it. */
  class WebDownload {
    /** `originalRequest().URL().absoluteString()`; None when any of the three is missing. */
    const requestUrl: Option<string>
    var delegate: DownloadDelegate?

    constructor (requestUrl: Option<string>)
      ensures this.requestUrl == requestUrl && delegate == null
    {
      this.requestUrl := requestUrl;
      delegate := null;
    }
  }

  /** The download delegate object, with its two callback slots. */
  class DownloadDelegate {
    var started: Option<StartedCallback>
    var completed: Option<CompletedCallback>
    /** Every outbound call so far, oldest first. */
    var calls: seq<Call>

    constructor (started: Option<StartedCallback>, completed: Option<CompletedCallback>)
      ensures this.started == started && this.completed == completed && calls == []
    {
      this.started := started;
      this.completed := completed;
      calls := [];
    }

    /** `download_policy`: decide the destination and answer the engine's completion handler. */
    method DownloadPolicy(download: WebDownload, suggestedPath: Path)
      requires download.requestUrl.Some?
      modifies this`calls
      ensures calls == old(calls) + PolicyCalls(started, download.requestUrl.value, suggestedPath)
    {
      var url := download.requestUrl.value;
      var path := suggestedPath;
      if started.Some? {
        var callback := started.value;
        calls := calls + [StartedCalled(url, path)];
        var answer := callback(url, path);
        path := answer.1;
        if answer.0 {
          calls := calls + [DecisionHandlerCalled(Some(FileUrl(path, false)))];
        } else {
          calls := calls + [DecisionHandlerCalled(None)];
        }
      } else {
        calls := calls + [DecisionHandlerCalled(None)];
      }
    }

    /** `download_did_finish`: report success to the `completed` callback, if there is one. */
    method DownloadDidFinish(download: WebDownload)
      requires download.requestUrl.Some?
      modifies this`calls
      ensures calls == old(calls) + CompletionCalls(completed, download.requestUrl.value, true)
    {
      var url := download.requestUrl.value;
      if completed.Some? {
        calls := calls + [CompletedCalled(completed.value, url, None, true)];
      }
    }

    /** `download_did_fail`: report failure to the `completed` callback, if there is one; `error` is not passed on. */
    method DownloadDidFail(download: WebDownload, error: string)
      requires download.requestUrl.Some?
      modifies this`calls
      ensures calls == old(calls) + CompletionCalls(completed, download.requestUrl.value, false)
    {
      var url := download.requestUrl.value;
      if completed.Some? {
        calls := calls + [CompletedCalled(completed.value, url, None, false)];
      }
    }
  }

  /** The web view, holding the download delegate in its `DownloadDelegate` instance variable. */
  class WebView {
    var downloadDelegate: DownloadDelegate?

    constructor ()
      ensures downloadDelegate == null
    {
      downloadDelegate := null;
    }

    /** `set_download_delegate`. */
    method SetDownloadDelegate(delegate: DownloadDelegate)
      modifies this`downloadDelegate
      ensures downloadDelegate == delegate
    {
      downloadDelegate := delegate;
    }

    /** `get_download_delegate`: the delegate last stored. */
    method GetDownloadDelegate() returns (delegate: DownloadDelegate)
      requires downloadDelegate != null
      ensures delegate == downloadDelegate
    {
      delegate := downloadDelegate;
    }

    /** `webView:navigationAction:didBecomeDownload:`: attach the stored delegate to the download. */
    method NavigationDownloadAction(download: WebDownload)
      requires downloadDelegate != null
      modifies download`delegate
      ensures download.delegate == downloadDelegate
    {
      var delegate := GetDownloadDelegate();
      download.delegate := delegate;
    }

    /** `webView:navigationResponse:didBecomeDownload:`: attach the stored delegate to the download. */
    method NavigationDownloadResponse(download: WebDownload)
      requires downloadDelegate != null
      modifies download`delegate
      ensures download.delegate == downloadDelegate
    {
      var delegate := GetDownloadDelegate();
      download.delegate := delegate;
    }
  }
}
