/**
 * The values exchanged with the remote batch-inference service.  The service
 * itself is not modelled: what its `batches.create` and `batches.retrieve`
 * calls return, or that they raise, is given to the handlers as input.
 */
module Batch {
  import opened Wrappers

  /** The arguments of one `batches.create` call. */
  datatype BatchRequest = BatchRequest(
    inputFileId: Option<string>,
    endpoint: string,
    completionWindow: string,
    inputBlob: string,
    outputFolderUrl: string)

  /** What `batches.create` did: returned a job, or raised. */
  datatype CreateOutcome = Created(id: string) | CreateFailed(reason: string)

  /** The fields of a job the handlers read. */
  datatype BatchJob = BatchJob(id: string, status: string, outputBlob: Option<string>, errorBlob: Option<string>)

  /** What `batches.retrieve` did: returned the job, or raised. */
  datatype RetrieveOutcome = Retrieved(job: BatchJob) | RetrieveFailed(reason: string)

  /** The lifecycle states the batch service reports for a job. */
  datatype ServiceStatus =
    | Validating | InProgress | Finalizing | Completed | Failed | Expired | Cancelling | Cancelled
  {
    /** The state's name on the wire. */
    function Wire(): (name: string) {
      match this
      case Validating => "validating"
      case InProgress => "in_progress"
      case Finalizing => "finalizing"
      case Completed => "completed"
      case Failed => "failed"
      case Expired => "expired"
      case Cancelling => "cancelling"
      case Cancelled => "cancelled"
    }

    /** The service changes a job in this state no further. */
    predicate IsFinal() {
      Completed? || Failed? || Expired? || Cancelled?
    }
  }
}
