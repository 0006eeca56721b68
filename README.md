# Batch-job polling bridge, modelled in Dafny

A model of an Azure Functions app with two handlers. Together they drive batch-inference jobs from submission to a final state:

- **Ingestor (`BlobTrigger`).** It runs when a blob lands in the input container.
  - It derives an output-folder URL from the blob's URI. The URL keeps the scheme and the network authority, as defined in sections 3.1 and 3.2 of RFC 3986, and makes the configured output container the whole path.
  - It submits a batch job with the chat-completions endpoint and a 24-hour completion window.
  - It writes the returned job id to its output queue slot. A failed submission is caught, logged and dropped.
- **Poller (`QueueTrigger`).** It runs for each message on the job queue.
  - It decodes the message body as UTF-8 and asks the service for the job.
  - If the job's status is not terminal (`completed`, `failed` or `canceled`), it waits the retry delay and writes the job id back to the queue.
  - Otherwise it reports the job's output and error blobs and writes nothing.
  - A failed retrieve is not caught.

The external service is not modelled. What `batches.create` and `batches.retrieve` return, or the fact that they raise, is an input (`Batch.CreateOutcome`, `Batch.RetrieveOutcome`). The settings are parameters. `time.sleep` is recorded as the delay it was given.

Each handler is a method over `FunctionApp.OutputSlot`, the host's write-only output binding. Each method is proved to follow a pure step function: `IngestStep` or `PollStep`. `PollChain` folds the poller's step over the service's answers, one per round. The emitted id, UTF-8 encoded, is the next round's message body, because the queue message is the only state carried between rounds.

The modules are:

- `Wrappers`: the Option and Result types.
- `Utf8`: the queue body codec.
- `PyInt`: Python's `int()` and `str()` for the delay setting.
- `UrlSplit`: the part of `urllib.parse.urlsplit` that finds the scheme and the network location.
- `Batch`: the service's values.
- `FunctionApp`: the settings, the rules and the handlers.
- `PollChain`: the polling loop across rounds.

The code has some behaviours that are easy to miss. The model keeps all of them:

- The URI is split before the `try` block. A URI whose network location has an unmatched `[` or `]` therefore raises, and no job is submitted.
- An unset container setting renders as the text `None` in the output URL.
- The scheme is lower-cased.
- The poller re-enqueues the id the service returned, not the id it decoded. The two agree only when the service echoes the id.
- A negative delay makes `time.sleep` raise, so such a poll emits nothing.
- A setting that `int()` cannot read stops the app from loading, which is an `Err` from `RetryDelay`.

The output-URL round trip needs a non-empty scheme. Without one, the derived URL starts with `://` and no longer splits into the same parts. Blob URIs always carry a scheme.

## Model

| member | source | states |
|---|---|---|
| `Utf8.DecodeEncode` | function_app.py:48 | Strict UTF-8 decoding of the encoded id gives back exactly that id, so the poller reads the id that was enqueued. |
| `Utf8.Decode` | function_app.py:48 | A body that decodes yields at most one character per byte. A body of ASCII bytes always decodes, one character per byte. |
| `Utf8.EncodeDecode` | function_app.py:48 | A body that decodes is the encoding of its text. Decoding is the exact inverse of encoding, and every other body raises UnicodeDecodeError. |
| `PyInt.Parse` | function_app.py:12 | `int` accepts only text that contains a digit. A rejected text is reported back in the ValueError. |
| `PyInt.ParseShow` | function_app.py:12 | `int(str(n)) == n` for every integer n. |
| `PyInt.ParseIgnoresSpace` | function_app.py:12 | Whitespace around a literal does not change whether `int` accepts it or the value it returns. |
| `PyInt.ParseRejectsForeignChar` | function_app.py:12 | A character other than a digit, sign, underscore or whitespace makes `int` raise ValueError. The characters U+001C to U+001F count as foreign, because `int` does not skip them. |
| `PyInt.ParseRejectsBlank` | function_app.py:12 | An empty or all-whitespace text makes `int` raise. |
| `PyInt.ParseRejectsNonDigitLast` | function_app.py:12 | `int` raises when the last non-whitespace character is not a digit, as with a lone sign or a trailing underscore. |
| `PyInt.ParseRejectsDoubleUnderscore` | function_app.py:12 | Two underscores in a row make `int` raise. |
| `PyInt.ParseRejectsInnerSpace` | function_app.py:12 | Whitespace between two non-whitespace characters makes `int` raise. |
| `FunctionApp.RetryDelay` | function_app.py:12 | With the setting absent, the retry delay is 30. With the setting present, it is what `int` makes of the setting. |
| `FunctionApp.RetryDelayReadsSetting` | function_app.py:12 | With the setting present, the retry delay is the integer the setting spells. |
| `FunctionApp.RetryDelayRejectsNonNumeral` | function_app.py:12 | A setting that holds a character other than a digit, sign, underscore or whitespace gives an error. That error is the ValueError that stops the app from loading. |
| `FunctionApp.RetryDelayRejectsBlank` | function_app.py:12 | A setting that is set but empty, or only whitespace, gives an error and stops the app from loading. |
| `UrlSplit.Split` | function_app.py:22 | A successful split has a lower-case scheme that starts with a letter, a network location with no `/`, `?`, `#` or line breaks and with no unmatched `[` or `]`, and a path with no query or fragment. |
| `UrlSplit.SplitComposed` | function_app.py:22 | A URL composed from such a scheme, network location and `/`-led plain path splits back into exactly those parts. |
| `FunctionApp.OutputFolderUrl` | function_app.py:21-23 | The output URL exists exactly when the blob URI can be split. |
| `FunctionApp.OutputFolderUrlSplits` | function_app.py:21-23 | Splitting the output URL gives the blob URI's scheme and authority unchanged. Its path is `/` followed by the container name, and nothing of the input path, query or fragment is left. |
| `FunctionApp.OutputFolderUrlUnsetContainer` | function_app.py:11-23 | With the container setting unset, the output URL splits into the blob URI's scheme and authority and the path `/None`. |
| `FunctionApp.OutputFolderUrlExample` | function_app.py:21-23 | `https://acct.blob.core.windows.net/batch-input/f1.jsonl` with container `batch-output` gives `https://acct.blob.core.windows.net/batch-output`. |
| `FunctionApp.IngestStep` | function_app.py:20-41 | A job is submitted iff the URI splits, and the ingestor raises iff it does not. The request is endpoint `/chat/completions`, window `24h`, no input file id, the unmodified blob URI and the derived URL. The job id is emitted iff the create call returns, and the create error is swallowed iff the call raises. |
| `FunctionApp.BlobTrigger` | function_app.py:20-41 | The handler follows `IngestStep`. It sets the output slot exactly once when a job id is emitted and leaves the slot untouched otherwise. |
| `FunctionApp.RejectedSubmissionScenario` | function_app.py:25-41 | A rejected submission of the example blob submits the fixed request, emits nothing and raises nothing. |
| `FunctionApp.PollStep` | function_app.py:47-56 | The job queried is the decoded body. A message is emitted iff the body decodes, the retrieve returns, the status is not terminal and the delay is non-negative. The message is the returned id, after a pause of exactly the delay, and that is the only pause. A final report (status, output blob, error blob) is made iff the status is terminal. An exception ends the invocation iff neither happens. |
| `FunctionApp.PollStepRaises` | function_app.py:48-53 | The exception that ends a poll is UnicodeDecodeError for a body that is not UTF-8, the retrieve error when the retrieve raises, and `time.sleep`'s ValueError for a negative delay. |
| `FunctionApp.QueueTrigger` | function_app.py:47-56 | The handler follows `PollStep` with the source's terminal set. It sets the output slot at most once. |
| `FunctionApp.RunningJobScenario` | function_app.py:51-54 | Job `job_123` in status `running` is put back once as `job_123`, after the delay. |
| `FunctionApp.CompletedJobScenario` | function_app.py:55-56 | Job `job_123` in status `completed` with output blob `out.jsonl` emits nothing and is reported with `out.jsonl`. |
| `FunctionApp.OutputSlot.Set` | function_app.py:38 | Setting the slot holds the value and counts one more write. |
| `PollChain.Rounds` | function_app.py:47-56 | Only a round that re-enqueues is followed by another round, and one that re-enqueues always is, while answers remain. A re-enqueued id is the id of a running job, and a report is made only for a terminal one. |
| `PollChain.QueueCarriesId` | function_app.py:48-54 | Each round queries the id that the previous round put on the queue. |
| `PollChain.RequeuesBeforeTerminal` | function_app.py:47-56 | The number of requeues equals the number of running observations before the first terminal one or the first failed retrieve. The chain ends at that round. |
| `PollChain.NothingFollowsTerminal` | function_app.py:51-56 | A round that sees a terminal status emits nothing and is the last round: terminal is absorbing. |
| `PollChain.PollsOneJob` | function_app.py:49-54 | When the service echoes the id it was asked about, every round queries the original job. |
| `PollChain.NegativeDelayNeverRequeues` | function_app.py:53 | With a negative delay, the chain stops at its first round without requeueing. |
| `PollChain.DeliveriesRequeueOncePerRunning` | function_app.py:47-54 | Over independent (duplicate) deliveries of one message, the requeue count equals the number of deliveries that observe a running job. |
| `PollChain.FinalStatusesAreServiceFinal` | function_app.py:51 | The corrected terminal set contains a service status iff that status is final. |
| `PollChain.CancelledJobPollsForever` | function_app.py:51 | With the source's terminal set, a job the service reports as `cancelled` is re-enqueued on every one of n rounds. |
| `PollChain.CorrectedChainStopsAtFinal` | function_app.py:51 | With the corrected set, requeues equal the number of non-final states before the first final one, and polling stops there. |

## Findings

| source | as written | input that shows it | evidently intended | confidence | as-written member | corrected member |
|---|---|---|---|---|---|---|
| function_app.py:51 | terminal statuses are `completed`, `failed`, `canceled` | a job the batch service reports as `cancelled` (its spelling) or `expired` | stop polling at every final state of the service: `completed`, `failed`, `expired`, `cancelled` | medium: rests on the service's documented status names; not executed | `PollChain.CancelledJobPollsForever` | `PollChain.CorrectedChainStopsAtFinal` |

The poll-chain lemmas (`Rounds`, `RequeuesBeforeTerminal`, `NothingFollowsTerminal` and the others) take the terminal set as a parameter. They hold for the corrected set `PollChain.FinalStatuses` as well as for the source's set. The handler `QueueTrigger` keeps the source's set, as the code does.

## Left out

- Host plumbing is not modelled: the function decorators, the blob and queue trigger bindings, the queue connection, base64 message encoding by the host, concurrent invocations, redelivery of a failed message, and the poison queue. The host owns all of these.
- The settings for the OpenAI endpoint and key and the client construction (lines 9-10 and 13) are not modelled. They only configure the foreign client. The service's HTTP behaviour is replaced by the given outcomes.
- Environment variables are not read. The container and delay settings are parameters, and an absent setting is `None`.
- `time.sleep` does not block. The model records the requested delay and models its ValueError for negative values. Its OverflowError for delays too large for the platform is left out.
- Log message text is not modelled. For a job in a terminal state, `FinalReport` keeps its status, which line 50 logs, and its output and error blobs, which line 56 logs.
- `UrlSplit.Split`: it does not model the NFKC check on non-ASCII network locations or the validation of an IPv6 address inside brackets. Of the brackets, it checks only that no `[` appears without a `]` and no `]` without a `[`. Neither affects the scheme or authority of a well-formed blob URI. It follows the releases that strip leading C0 control characters and spaces, which are the releases with the CVE-2023-24329 fix: 3.9.17, 3.10.12, 3.11.4 and later, and 3.12.
- `PyInt.Parse`: it does not model non-ASCII digits and whitespace. In a text that holds any non-ASCII character, CPython first maps every whitespace character at or above U+007F, such as U+0085 and U+00A0, to a space. It also does not model the interpreter's 4300-digit limit on converting strings to integers. That limit can be configured per process.
- `Utf8.Decode`: it does not report the byte position of a decoding error. Lone surrogates, which a Python string can hold, cannot occur in a Dafny string.
