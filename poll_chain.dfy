/**
 * The polling loop.  No handler loops: the poller re-enqueues the job id and
 * the host invokes it again for that message, so the queue message is the only
 * state carried from one round to the next.  `Rounds` unfolds that loop over
 * the service's answers, one per round: each round's emitted id, UTF-8
 * encoded, is the next round's message body, and the chain ends at the first
 * round that emits nothing (or when the answers run out).
 */
module PollChain {
  import opened Wrappers
  import opened Utf8
  import opened Batch
  import opened FunctionApp

  function Rounds(body: seq<byte>, answers: seq<RetrieveOutcome>, delay: int, terminal: set<string>): (t: seq<PollResult>)
    ensures |t| <= |answers|
    ensures answers != [] ==> |t| > 0 && t[0].requested == Decode(body)
    // Only a round that re-enqueues leads to another round ...
    ensures forall i :: 0 <= i < |t| - 1 ==> t[i].emitted.Some?
    // ... and a round that re-enqueues always does, while answers remain.
    ensures |t| < |answers| ==> t[|t| - 1].emitted.None?
    ensures forall i :: 0 <= i < |t| && t[i].emitted.Some? ==>
              && answers[i].Retrieved? && answers[i].job.status !in terminal && delay >= 0
              && t[i].emitted.value == answers[i].job.id
    ensures forall i :: 0 <= i < |t| && t[i].report.Some? ==>
              answers[i].Retrieved? && answers[i].job.status in terminal
    decreases |answers|
  {
    if answers == [] then []
    else
      var r := PollStep(body, answers[0], delay, terminal);
      if r.emitted.Some? then [r] + Rounds(Encode(r.emitted.value), answers[1..], delay, terminal)
      else [r]
  }

  /** The number of rounds that put a message back on the queue. */
  function RequeueCount(t: seq<PollResult>): (n: nat)
    ensures n <= |t|
  {
    if t == [] then 0 else (if t[0].emitted.Some? then 1 else 0) + RequeueCount(t[1..])
  }

  /** The number of leading answers that report a job still running. */
  function LeadingRunning(answers: seq<RetrieveOutcome>, terminal: set<string>): (n: nat)
    ensures n <= |answers|
    ensures forall i :: 0 <= i < n ==> answers[i].Retrieved? && answers[i].job.status !in terminal
    ensures n < |answers| ==> !(answers[n].Retrieved? && answers[n].job.status !in terminal)
  {
    if answers != [] && answers[0].Retrieved? && answers[0].job.status !in terminal then
      1 + LeadingRunning(answers[1..], terminal)
    else 0
  }

  /** The message a round reads is the id the previous round emitted. */
  lemma {:induction false} QueueCarriesId(body: seq<byte>, answers: seq<RetrieveOutcome>, delay: int, terminal: set<string>, i: nat)
    requires i + 1 < |Rounds(body, answers, delay, terminal)|
    ensures var t := Rounds(body, answers, delay, terminal);
            t[i + 1].requested == t[i].emitted
    decreases i
  {
    var r := PollStep(body, answers[0], delay, terminal);
    var next := Encode(r.emitted.value);
    var t, rest := Rounds(body, answers, delay, terminal), Rounds(next, answers[1..], delay, terminal);
    assert t == [r] + rest;
    if i == 0 {
      DecodeEncode(r.emitted.value);
      assert t[1] == rest[0];
    } else {
      QueueCarriesId(next, answers[1..], delay, terminal, i - 1);
      assert t[i + 1] == rest[i] && t[i] == rest[i - 1];
    }
  }

  /**
   * With a message that decodes and a delay `time.sleep` accepts, the chain
   * re-enqueues once for each running job observation before the first
   * terminal one (or the first failed retrieve), and ends at that round.
   */
  lemma {:induction false} RequeuesBeforeTerminal(body: seq<byte>, answers: seq<RetrieveOutcome>, delay: int, terminal: set<string>)
    requires Decode(body).Some? && delay >= 0
    ensures var t := Rounds(body, answers, delay, terminal);
            var n := LeadingRunning(answers, terminal);
            && RequeueCount(t) == n
            && |t| == (if n < |answers| then n + 1 else |answers|)
    decreases |answers|
  {
    if answers != [] {
      var t := Rounds(body, answers, delay, terminal);
      var r := PollStep(body, answers[0], delay, terminal);
      if r.emitted.Some? {
        var next := Encode(r.emitted.value);
        DecodeEncode(r.emitted.value);
        RequeuesBeforeTerminal(next, answers[1..], delay, terminal);
        assert t[1..] == Rounds(next, answers[1..], delay, terminal);
      }
    }
  }

  /** Terminal is absorbing: the round that sees a terminal status emits nothing and is the last. */
  lemma NothingFollowsTerminal(body: seq<byte>, answers: seq<RetrieveOutcome>, delay: int, terminal: set<string>, i: nat)
    requires i < |Rounds(body, answers, delay, terminal)|
    requires answers[i].Retrieved? && answers[i].job.status in terminal
    ensures var t := Rounds(body, answers, delay, terminal);
            t[i].emitted.None? && i == |t| - 1
  {
  }

  /** When the service echoes the id it was asked about, every round polls the original job. */
  lemma PollsOneJob(body: seq<byte>, answers: seq<RetrieveOutcome>, delay: int, terminal: set<string>, id: string)
    requires Decode(body) == Some(id)
    requires forall i :: 0 <= i < |answers| && answers[i].Retrieved? ==> answers[i].job.id == id
    ensures var t := Rounds(body, answers, delay, terminal);
            forall i :: 0 <= i < |t| ==> t[i].requested == Some(id)
  {
    var t := Rounds(body, answers, delay, terminal);
    forall i | 0 <= i < |t| ensures t[i].requested == Some(id) {
      if i > 0 {
        QueueCarriesId(body, answers, delay, terminal, i - 1);
      }
    }
  }

  /** A delay `time.sleep` rejects stops the chain at its first round. */
  lemma NegativeDelayNeverRequeues(body: seq<byte>, answers: seq<RetrieveOutcome>, delay: int, terminal: set<string>)
    requires delay < 0
    ensures var t := Rounds(body, answers, delay, terminal);
            |t| <= 1 && RequeueCount(t) == 0
  {
    var t := Rounds(body, answers, delay, terminal);
    if t != [] {
      assert t[0].emitted.None?;
      assert t[1..] == [];
    }
  }

  /** Independent deliveries of one message, each answered by the service. */
  function Deliveries(body: seq<byte>, answers: seq<RetrieveOutcome>, delay: int, terminal: set<string>): (t: seq<PollResult>)
    ensures |t| == |answers|
    ensures forall i :: 0 <= i < |t| ==> t[i] == PollStep(body, answers[i], delay, terminal)
  {
    seq(|answers|, i requires 0 <= i < |answers| => PollStep(body, answers[i], delay, terminal))
  }

  /** The number of answers that report a job still running. */
  function RunningCount(answers: seq<RetrieveOutcome>, terminal: set<string>): (n: nat)
    ensures n <= |answers|
  {
    if answers == [] then 0
    else (if answers[0].Retrieved? && answers[0].job.status !in terminal then 1 else 0)
         + RunningCount(answers[1..], terminal)
  }

  /**
   * Duplicate delivery: every delivery that observes a running job puts
   * exactly one message back, so the requeue count equals the number of such
   * deliveries; none puts back more than one.
   */
  lemma {:induction false} DeliveriesRequeueOncePerRunning(body: seq<byte>, answers: seq<RetrieveOutcome>, delay: int, terminal: set<string>)
    requires Decode(body).Some? && delay >= 0
    ensures RequeueCount(Deliveries(body, answers, delay, terminal)) == RunningCount(answers, terminal)
    decreases |answers|
  {
    if answers != [] {
      var t := Deliveries(body, answers, delay, terminal);
      DeliveriesRequeueOncePerRunning(body, answers[1..], delay, terminal);
      assert t[1..] == Deliveries(body, answers[1..], delay, terminal);
    }
  }

  // ---------------------------------------------------------------------
  // The spelling of the final states.  The source treats "completed",
  // "failed" and "canceled" as terminal; the service reports a cancelled job
  // as "cancelled" and a job that ran out of its completion window as
  // "expired".  As written, a job in either state is polled forever.

  /** The statuses the poller evidently means to stop at: the service's final states. */
  const FinalStatuses: set<string> := {"completed", "failed", "expired", "cancelled"}

  /** The corrected set is exactly the service's final states. */
  lemma FinalStatusesAreServiceFinal(s: ServiceStatus)
    ensures s.Wire() in FinalStatuses <==> s.IsFinal()
  {
    match s
    case Validating => assert s.Wire() == "validating";
    case InProgress => assert s.Wire() == "in_progress";
    case Finalizing => assert s.Wire() == "finalizing";
    case Cancelling => assert s.Wire() == "cancelling";
    case _ =>
  }

  /** The service's answers for a job that goes through `statuses`. */
  function Observed(id: string, statuses: seq<ServiceStatus>): (answers: seq<RetrieveOutcome>)
    ensures |answers| == |statuses|
    ensures forall i :: 0 <= i < |statuses| ==> answers[i] == Retrieved(BatchJob(id, statuses[i].Wire(), None, None))
  {
    seq(|statuses|, i requires 0 <= i < |statuses| => Retrieved(BatchJob(id, statuses[i].Wire(), None, None)))
  }

  /** The number of leading states that are not final. */
  function LeadingNotFinal(statuses: seq<ServiceStatus>): (n: nat)
    ensures n <= |statuses|
    ensures forall i :: 0 <= i < n ==> !statuses[i].IsFinal()
    ensures n < |statuses| ==> statuses[n].IsFinal()
  {
    if statuses != [] && !statuses[0].IsFinal() then 1 + LeadingNotFinal(statuses[1..]) else 0
  }

  /** With the corrected set, polling stops at the first final state, whatever it is. */
  lemma CorrectedChainStopsAtFinal(id: string, statuses: seq<ServiceStatus>, delay: int)
    requires delay >= 0
    ensures var t := Rounds(Encode(id), Observed(id, statuses), delay, FinalStatuses);
            var n := LeadingNotFinal(statuses);
            && RequeueCount(t) == n
            && (n < |statuses| ==> |t| == n + 1)
  {
    var answers := Observed(id, statuses);
    var n := LeadingNotFinal(statuses);
    forall i | 0 <= i < |statuses|
      ensures (answers[i].Retrieved? && answers[i].job.status !in FinalStatuses) == !statuses[i].IsFinal()
    {
      FinalStatusesAreServiceFinal(statuses[i]);
    }
    SameLeading(answers, FinalStatuses, statuses);
    DecodeEncode(id);
    RequeuesBeforeTerminal(Encode(id), answers, delay, FinalStatuses);
  }

  lemma SameLeading(answers: seq<RetrieveOutcome>, terminal: set<string>, statuses: seq<ServiceStatus>)
    requires |answers| == |statuses|
    requires forall i :: 0 <= i < |statuses| ==>
               (answers[i].Retrieved? && answers[i].job.status !in terminal) == !statuses[i].IsFinal()
    ensures LeadingRunning(answers, terminal) == LeadingNotFinal(statuses)
  {
  }

  /** As written, a cancelled job is re-enqueued on every round, however many there are. */
  lemma {:induction false} CancelledJobPollsForever(id: string, n: nat, delay: int)
    requires delay >= 0
    ensures var statuses := seq(n, _ => Cancelled);
            var t := Rounds(Encode(id), Observed(id, statuses), delay, TerminalStatuses);
            |t| == n && RequeueCount(t) == n
  {
    var statuses := seq(n, _ => Cancelled);
    var answers := Observed(id, statuses);
    assert "cancelled" !in TerminalStatuses;
    forall i | 0 <= i < n ensures answers[i].Retrieved? && answers[i].job.status !in TerminalStatuses {
      assert statuses[i].Wire() == "cancelled";
    }
    DecodeEncode(id);
    RequeuesBeforeTerminal(Encode(id), answers, delay, TerminalStatuses);
  }
}
