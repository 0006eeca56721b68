/**
 * The two handlers of the function app and the rules inside them.
 *
 *  - The ingestor (`BlobTrigger`) runs when a blob lands in the input
 *    container: it derives the output-folder URL from the blob's URI, submits
 *    a batch job, and writes the returned job id to its output queue slot.
 *  - The poller (`QueueTrigger`) runs for each message on that queue: it
 *    decodes the job id, asks the service for the job, and either waits and
 *    writes the id back to the queue (job still running) or reports the
 *    job's output and error blobs and writes nothing (job finished).
 *
 * Each handler is a method over an `OutputSlot`, the host's write-only
 * output binding; what it decides is given by a pure step function
 * (`IngestStep`, `PollStep`) that the method is proved to follow.
 */
module FunctionApp {
  import opened Wrappers
  import opened Utf8
  import PyInt
  import UrlSplit
  import opened Batch

  /** The retry delay used when the setting is absent, as the text `int` reads. */
  const DefaultRetryDelay: string := "30"

  const ChatCompletionsEndpoint: string := "/chat/completions"
  const CompletionWindow: string := "24h"

  /** The statuses the poller treats as final, exactly as the source spells them. */
  const TerminalStatuses: set<string> := {"completed", "failed", "canceled"}

  /**
   * The retry delay in seconds: `int` of the setting, or of "30" when the
   * setting is absent.  An Err here is the ValueError that stops the app
   * from loading at all.
   */
  function RetryDelay(setting: Option<string>): (r: Result<int, PyInt.ValueError>)
    ensures setting.None? ==> r == Ok(30)
    ensures setting.Some? ==> r == PyInt.Parse(setting.value)
  {
    if setting.Some? then PyInt.Parse(setting.value)
    else DefaultRetryDelayParses(); PyInt.Parse(DefaultRetryDelay)
  }

  /** The default "30" reads as the number 30. */
  lemma DefaultRetryDelayParses()
    ensures PyInt.Parse(DefaultRetryDelay) == Ok(30)
  {
    assert PyInt.DigitChar(3) == '3' && PyInt.DigitChar(0) == '0';
    assert PyInt.NatDigits(3) == "3";
    assert PyInt.NatDigits(30) == PyInt.NatDigits(3) + "0";
    assert PyInt.Show(30) == DefaultRetryDelay;
    PyInt.ParseShow(30);
  }

  /** A setting that is set but empty, or only whitespace, stops the app from loading. */
  lemma RetryDelayRejectsBlank(setting: string)
    requires forall k :: 0 <= k < |setting| ==> PyInt.IsSpace(setting[k])
    ensures RetryDelay(Some(setting)).Err?
  {
    PyInt.ParseRejectsBlank(setting);
  }

  lemma RetryDelayReadsSetting(n: int)
    ensures RetryDelay(Some(PyInt.Show(n))) == Ok(n)
  {
    PyInt.ParseShow(n);
  }

  /** A setting holding a character no literal can contain stops the app from loading. */
  lemma RetryDelayRejectsNonNumeral(setting: string, k: nat)
    requires k < |setting|
    requires !PyInt.IsDigit(setting[k]) && setting[k] != '_' && setting[k] != '+' && setting[k] != '-'
    requires !PyInt.IsSpace(setting[k])
    ensures RetryDelay(Some(setting)).Err?
  {
    PyInt.ParseRejectsForeignChar(setting, k);
  }

  /** How a Python f-string renders the container setting; an absent one renders as "None". */
  function ContainerText(container: Option<string>): (text: string) {
    if container.Some? then container.value else "None"
  }

  /**
   * The output-folder URL: the blob URI's scheme and network location with
   * the container name as the whole path.  Err when the URI cannot be split.
   */
  function OutputFolderUrl(blobUri: string, container: Option<string>): (r: Result<string, UrlSplit.UrlError>)
    ensures r.Ok? <==> UrlSplit.Split(blobUri).Ok?
  {
    match UrlSplit.Split(blobUri)
    case Err(e) => Err(e)
    case Ok(p) => Ok(p.scheme + "://" + p.netloc + "/" + ContainerText(container))
  }

  /** A container name that survives being split back out of a URL as the whole path. */
  predicate IsPlainPath(s: string) {
    forall k :: 0 <= k < |s| ==> s[k] != '?' && s[k] != '#' && !UrlSplit.IsUnsafe(s[k])
  }

  lemma OutputFolderUrlOf(blobUri: string, container: Option<string>)
    requires UrlSplit.Split(blobUri).Ok?
    ensures var p := UrlSplit.Split(blobUri).value;
            OutputFolderUrl(blobUri, container) == Ok(p.scheme + "://" + p.netloc + ("/" + ContainerText(container)))
  {
    var p := UrlSplit.Split(blobUri).value;
    assert p.scheme + "://" + p.netloc + "/" + ContainerText(container)
           == p.scheme + "://" + p.netloc + ("/" + ContainerText(container));
  }

  /**
   * Splitting the output-folder URL gives back the blob URI's scheme and
   * network location, and the container name as the whole path: nothing of
   * the input path, query or fragment survives.
   */
  lemma OutputFolderUrlSplits(blobUri: string, container: Option<string>)
    requires UrlSplit.Split(blobUri).Ok?
    requires UrlSplit.Split(blobUri).value.scheme != []
    requires IsPlainPath(ContainerText(container))
    ensures var p := UrlSplit.Split(blobUri).value;
            UrlSplit.Split(OutputFolderUrl(blobUri, container).value)
            == Ok(UrlSplit.SplitResult(p.scheme, p.netloc, "/" + ContainerText(container), "", ""))
  {
    var p := UrlSplit.Split(blobUri).value;
    var text := ContainerText(container);
    var path := "/" + text;
    forall k | 0 <= k < |path| ensures path[k] != '?' && path[k] != '#' && !UrlSplit.IsUnsafe(path[k]) {
      if k > 0 { assert path[k] == text[k - 1]; }
    }
    OutputFolderUrlOf(blobUri, container);
    UrlSplit.SplitComposed(p.scheme, p.netloc, path);
  }

  /** The example's blob URI, assembled from its parts. */
  lemma ExampleBlobUri()
    ensures "https" + "://" + "acct.blob.core.windows.net" + "/batch-input/f1.jsonl"
            == "https://acct.blob.core.windows.net/batch-input/f1.jsonl"
  {
    assert "https" + "://" == "https://";
    assert "https://" + "acct.blob.core.windows.net" == "https://acct.blob.core.windows.net";
  }

  /** The example's output folder, assembled from its parts. */
  lemma ExampleOutputFolder()
    ensures "https" + "://" + "acct.blob.core.windows.net" + ("/" + "batch-output")
            == "https://acct.blob.core.windows.net/batch-output"
  {
    assert "https" + "://" == "https://";
    assert "https://" + "acct.blob.core.windows.net" == "https://acct.blob.core.windows.net";
    assert "/" + "batch-output" == "/batch-output";
  }

  /**
   * With the container setting unset, the output folder is the container
   * literally named "None" on the blob's own account.
   */
  lemma OutputFolderUrlUnsetContainer(blobUri: string)
    requires UrlSplit.Split(blobUri).Ok?
    requires UrlSplit.Split(blobUri).value.scheme != []
    ensures var p := UrlSplit.Split(blobUri).value;
            UrlSplit.Split(OutputFolderUrl(blobUri, None).value)
            == Ok(UrlSplit.SplitResult(p.scheme, p.netloc, "/None", "", ""))
  {
    UnsetContainerText();
    OutputFolderUrlSplits(blobUri, None);
  }

  /** How the unset container appears in the output folder's path. */
  lemma UnsetContainerText()
    ensures IsPlainPath(ContainerText(None)) && "/" + ContainerText(None) == "/None"
  {
    assert ContainerText(None) == "None";
  }

  /** The example of a blob landing in the input container. */
  lemma OutputFolderUrlExample()
    ensures OutputFolderUrl("https://acct.blob.core.windows.net/batch-input/f1.jsonl", Some("batch-output"))
            == Ok("https://acct.blob.core.windows.net/batch-output")
  {
    ExampleBlobUri();
    ExampleOutputFolder();
    var scheme, netloc, path := "https", "acct.blob.core.windows.net", "/batch-input/f1.jsonl";
    assert UrlSplit.IsNormalScheme(scheme);
    assert UrlSplit.IsNetloc(netloc);
    assert !UrlSplit.Unbalanced(netloc);
    UrlSplit.SplitComposed(scheme, netloc, path);
    OutputFolderUrlOf("https://acct.blob.core.windows.net/batch-input/f1.jsonl", Some("batch-output"));
  }

  /** Why an invocation ended with an exception. */
  datatype Fault =
    | UrlValueError(error: UrlSplit.UrlError)
    | UnicodeDecodeError
    | RetrieveError(reason: string)
    | SleepValueError(delay: int)

  /** What one run of the ingestor did. */
  datatype IngestResult = IngestResult(
    submitted: Option<BatchRequest>,  // the create call it made
    emitted: Option<string>,          // the value set on the output slot
    swallowed: Option<string>,        // the create error it caught and logged
    raised: Option<Fault>)            // the exception that ended the invocation

  /** The request the ingestor submits for a blob. */
  function SubmissionRequest(blobUri: string, outputFolderUrl: string): (request: BatchRequest) {
    BatchRequest(None, ChatCompletionsEndpoint, CompletionWindow, blobUri, outputFolderUrl)
  }

  /**
   * One run of the ingestor, given what `batches.create` does.  Splitting the
   * URI happens before the try block, so its ValueError ends the invocation;
   * a failed create is caught, logged and dropped.
   */
  function IngestStep(blobUri: string, container: Option<string>, created: CreateOutcome): (r: IngestResult)
    ensures r.raised.Some? <==> OutputFolderUrl(blobUri, container).Err?
    ensures r.submitted.Some? <==> OutputFolderUrl(blobUri, container).Ok?
    ensures r.submitted.Some? ==>
              && r.submitted.value.inputFileId == None
              && r.submitted.value.endpoint == "/chat/completions"
              && r.submitted.value.completionWindow == "24h"
              && r.submitted.value.inputBlob == blobUri
              && r.submitted.value.outputFolderUrl == OutputFolderUrl(blobUri, container).value
    ensures r.emitted.Some? <==> r.submitted.Some? && created.Created?
    ensures r.emitted.Some? ==> r.emitted.value == created.id
    ensures r.swallowed.Some? <==> r.submitted.Some? && created.CreateFailed?
  {
    match OutputFolderUrl(blobUri, container)
    case Err(e) => IngestResult(None, None, None, Some(UrlValueError(e)))
    case Ok(url) =>
      var request := SubmissionRequest(blobUri, url);
      match created
      case Created(id) => IngestResult(Some(request), Some(id), None, None)
      case CreateFailed(reason) => IngestResult(Some(request), None, Some(reason), None)
  }

  /** What the poller logs about a job in a final state. */
  datatype FinalReport = FinalReport(status: string, outputBlob: Option<string>, errorBlob: Option<string>)

  /** What one run of the poller did. */
  datatype PollResult = PollResult(
    requested: Option<string>,  // the id passed to `batches.retrieve`
    slept: Option<int>,         // the pause completed before re-enqueueing
    emitted: Option<string>,    // the value set on the output slot
    report: Option<FinalReport>,
    raised: Option<Fault>)

  /**
   * One run of the poller for a queue body, given what `batches.retrieve`
   * does, the retry delay, and the set of statuses treated as final (the
   * handler uses `TerminalStatuses`).  A body that is not UTF-8, a failed
   * retrieve and a negative delay (which `time.sleep` rejects) all end the
   * invocation with an exception and nothing on the queue.
   */
  function PollStep(body: seq<byte>, answer: RetrieveOutcome, delay: int, terminal: set<string>): (r: PollResult)
    ensures r.requested == Decode(body)
    ensures r.emitted.Some? <==>
              Decode(body).Some? && answer.Retrieved? && answer.job.status !in terminal && delay >= 0
    ensures r.emitted.Some? ==> r.emitted.value == answer.job.id && r.slept == Some(delay)
    ensures r.report.Some? <==> Decode(body).Some? && answer.Retrieved? && answer.job.status in terminal
    ensures r.report.Some? ==>
              r.report.value == FinalReport(answer.job.status, answer.job.outputBlob, answer.job.errorBlob)
              && r.slept.None?
    ensures r.raised.None? <==> r.emitted.Some? || r.report.Some?
    // The only pause is the one before a requeue.
    ensures r.slept.Some? <==> r.emitted.Some?
  {
    match Decode(body)
    case None => PollResult(None, None, None, None, Some(UnicodeDecodeError))
    case Some(id) =>
      match answer
      case RetrieveFailed(reason) => PollResult(Some(id), None, None, None, Some(RetrieveError(reason)))
      case Retrieved(job) =>
        if job.status !in terminal then
          if delay < 0 then PollResult(Some(id), None, None, None, Some(SleepValueError(delay)))
          else PollResult(Some(id), Some(delay), Some(job.id), None, None)
        else
          PollResult(Some(id), None, None, Some(FinalReport(job.status, job.outputBlob, job.errorBlob)), None)
  }

  /**
   * Which exception ends a poll: UnicodeDecodeError for a body that is not
   * UTF-8, the retrieve error when `batches.retrieve` raises, and
   * `time.sleep`'s ValueError for a negative delay.
   */
  lemma PollStepRaises(body: seq<byte>, answer: RetrieveOutcome, delay: int, terminal: set<string>)
    ensures var r := PollStep(body, answer, delay, terminal);
            && (Decode(body).None? ==> r.raised == Some(UnicodeDecodeError))
            && (Decode(body).Some? && answer.RetrieveFailed? ==> r.raised == Some(RetrieveError(answer.reason)))
            && (Decode(body).Some? && answer.Retrieved? && answer.job.status !in terminal && delay < 0 ==>
                  r.raised == Some(SleepValueError(delay)))
  {
  }

  /** A job that is still running is put back once, with its id, after the delay. */
  lemma RunningJobScenario(delay: int)
    requires delay >= 0
    ensures PollStep(Encode("job_123"), Retrieved(BatchJob("job_123", "running", None, None)), delay, TerminalStatuses)
            == PollResult(Some("job_123"), Some(delay), Some("job_123"), None, None)
  {
    DecodeEncode("job_123");
    assert "running" !in TerminalStatuses;
  }

  /** A completed job is reported with its output blob and nothing is put back. */
  lemma CompletedJobScenario(delay: int)
    ensures PollStep(Encode("job_123"), Retrieved(BatchJob("job_123", "completed", Some("out.jsonl"), None)), delay, TerminalStatuses)
            == PollResult(Some("job_123"), None, None, Some(FinalReport("completed", Some("out.jsonl"), None)), None)
  {
    DecodeEncode("job_123");
  }

  /** A submission the service rejects (throttling, say) is logged and dropped: no message, no exception. */
  lemma RejectedSubmissionScenario(reason: string)
    ensures var r := IngestStep("https://acct.blob.core.windows.net/batch-input/f1.jsonl", Some("batch-output"), CreateFailed(reason));
            && r.emitted.None? && r.raised.None? && r.swallowed == Some(reason)
            && r.submitted == Some(BatchRequest(None, "/chat/completions", "24h",
                 "https://acct.blob.core.windows.net/batch-input/f1.jsonl", "https://acct.blob.core.windows.net/batch-output"))
  {
    OutputFolderUrlExample();
  }

  /**
   * The host's output binding (`func.Out[str]`): it holds the value last set,
   * and `sets` counts the calls to `set`.
   */
  class OutputSlot {
    var value: Option<string>
    var sets: nat

    constructor ()
      ensures value == None && sets == 0
    {
      value := None;
      sets := 0;
    }

    method Set(v: string)
      modifies this
      ensures value == Some(v) && sets == old(sets) + 1
    {
      value := Some(v);
      sets := sets + 1;
    }
  }

  /**
   * The ingestor.  It sets the slot at most once: once, with the new job's
   * id, when the create call returns; never when it raises or when the URI
   * cannot be split.
   */
  method BlobTrigger(blobUri: string, container: Option<string>, created: CreateOutcome, outputQueueItem: OutputSlot)
    returns (submitted: Option<BatchRequest>, swallowed: Option<string>, raised: Option<Fault>)
    modifies outputQueueItem
    ensures var r := IngestStep(blobUri, container, created);
            && submitted == r.submitted && swallowed == r.swallowed && raised == r.raised
            && outputQueueItem.sets == old(outputQueueItem.sets) + (if r.emitted.Some? then 1 else 0)
            && outputQueueItem.value == (if r.emitted.Some? then r.emitted else old(outputQueueItem.value))
  {
    submitted, swallowed, raised := None, None, None;
    var outputFolder := OutputFolderUrl(blobUri, container);
    if outputFolder.Err? {
      raised := Some(UrlValueError(outputFolder.error));
      return;
    }
    var request := SubmissionRequest(blobUri, outputFolder.value);
    submitted := Some(request);
    match created {
      case Created(id) =>
        outputQueueItem.Set(id);
      case CreateFailed(reason) =>
        swallowed := Some(reason);
    }
  }

  /**
   * The poller.  It sets the slot at most once: once, with the id the
   * service returned, after pausing for `delay`, when the job is not in a
   * terminal state; never otherwise.
   */
  method QueueTrigger(body: seq<byte>, answer: RetrieveOutcome, delay: int, outputQueueItem: OutputSlot)
    returns (requested: Option<string>, slept: Option<int>, report: Option<FinalReport>, raised: Option<Fault>)
    modifies outputQueueItem
    ensures var r := PollStep(body, answer, delay, TerminalStatuses);
            && requested == r.requested && slept == r.slept && report == r.report && raised == r.raised
            && outputQueueItem.sets == old(outputQueueItem.sets) + (if r.emitted.Some? then 1 else 0)
            && outputQueueItem.value == (if r.emitted.Some? then r.emitted else old(outputQueueItem.value))
  {
    requested, slept, report, raised := None, None, None, None;
    var decoded := Decode(body);
    if decoded.None? {
      raised := Some(UnicodeDecodeError);
      return;
    }
    var batchJobId := decoded.value;
    requested := Some(batchJobId);
    if answer.RetrieveFailed? {
      raised := Some(RetrieveError(answer.reason));
      return;
    }
    var job := answer.job;
    if job.status !in TerminalStatuses {
      if delay < 0 {
        raised := Some(SleepValueError(delay));
        return;
      }
      slept := Some(delay);
      outputQueueItem.Set(job.id);
    } else {
      report := Some(FinalReport(job.status, job.outputBlob, job.errorBlob));
    }
  }
}
