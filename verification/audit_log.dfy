/**
 The audit recorder and the decision/logging part of the chat handler: an
 append-only sequence of records, one per chat call, read back whole by the
 audit query. The log is a value threaded through the calls; the timestamp
 of a call is an opaque input.
 */
module AuditLog {
  import opened Guardrail

  /** How many leading characters of a prompt a record keeps. */
  const PreviewLength: nat := 100

  /** The reason recorded for an allowed prompt. */
  const AllowedReason: string := "Allowed"

  /** One audit entry. The cost is kept exact, in micro-USD. */
  datatype Record = Record(
    timestamp: string,
    promptPreview: string,
    blocked: bool,
    reason: string,
    costMicroUsd: nat)

  /** AUDIT_LOGS: records in the order they were appended. */
  type Log = seq<Record>

  /** What the chat handler answers: the refusal reason, or the reply with its
      cost (the reply's wording is not modelled). */
  datatype Response = Refused(reason: string) | Answered(costMicroUsd: nat)

  /** The log after a chat call together with the handler's answer. */
  datatype ChatResult = ChatResult(log: Log, response: Response)

  /** The body of `get_audit_logs`. */
  datatype AuditView = AuditView(totalRequests: nat, logs: Log)

  /** A chat request as it reaches the handler, with the time it was served. */
  datatype Request = Request(prompt: string, timestamp: string)

  /** `prompt[:100]`: the first 100 characters, or the whole prompt if shorter. */
  function Preview(prompt: string): (preview: string)
    ensures |preview| == if |prompt| < PreviewLength then |prompt| else PreviewLength
    ensures preview <= prompt
    ensures |prompt| <= PreviewLength ==> preview == prompt
  {
    if |prompt| <= PreviewLength then prompt else prompt[..PreviewLength]
  }

  /** `log_decision`: append one record for `prompt`; earlier records stay as they are. */
  function LogDecision(log: Log, timestamp: string, prompt: string, blocked: bool, reason: string, cost: nat)
    : (log': Log)
    ensures |log'| == |log| + 1
    ensures log < log'
    ensures log'[|log|].promptPreview <= prompt
    ensures |log'[|log|].promptPreview| == if |prompt| < PreviewLength then |prompt| else PreviewLength
    ensures log'[|log|].timestamp == timestamp && log'[|log|].blocked == blocked
    ensures log'[|log|].reason == reason && log'[|log|].costMicroUsd == cost
  {
    log + [Record(timestamp, Preview(prompt), blocked, reason, cost)]
  }

  /** The record a chat call for `prompt` at `timestamp` must leave, stated
      from the guardrail's decision and cost estimate. */
  ghost function ExpectedRecord(prompt: string, timestamp: string): Record
  {
    var d := Validate(prompt);
    var n := if |prompt| < PreviewLength then |prompt| else PreviewLength;
    Record(
      timestamp,
      prompt[..n],
      !d.Allow?,
      if d.Allow? then AllowedReason else Message(d.reason),
      EstimateCost(prompt))
  }

  /** An answer agrees with the record logged for the same call: a refusal
      exactly when the record is blocked, carrying the same reason. */
  predicate AnswerMatches(response: Response, record: Record)
  {
    && (response.Refused? <==> record.blocked)
    && (response.Refused? ==> response.reason == record.reason)
  }

  /** `chat`: decide, estimate the cost independently of the decision, log
      exactly one record, and answer. */
  function Chat(log: Log, prompt: string, timestamp: string): (out: ChatResult)
    ensures out.log == log + [ExpectedRecord(prompt, timestamp)]
    ensures out.log[|log|].blocked <==> !Validate(prompt).Allow?
    ensures out.log[|log|].reason != ""
    ensures out.log[|log|].reason == AllowedReason <==> Validate(prompt).Allow?
    ensures AnswerMatches(out.response, out.log[|log|])
    ensures out.response.Answered? ==> out.response.costMicroUsd == EstimateCost(prompt)
  {
    var decision := Validate(prompt);
    var cost := EstimateCost(prompt);
    assert Preview(prompt) == ExpectedRecord(prompt, timestamp).promptPreview;
    match decision
    case Block(reason) =>
      var text := Message(reason);
      ChatResult(LogDecision(log, timestamp, prompt, true, text, cost), Refused(text))
    case Allow =>
      ChatResult(LogDecision(log, timestamp, prompt, false, AllowedReason, cost), Answered(cost))
  }

  /** `get_audit_logs`: the whole log and its length. */
  function AuditLogs(log: Log): (view: AuditView)
    ensures view.logs == log
    ensures view.totalRequests == |view.logs|
  {
    AuditView(|log|, log)
  }

  /** Serving `requests` one after another, each call turning the log into
      `step(log, request)`. */
  function Run(step: (Log, Request) -> Log, log: Log, requests: seq<Request>): Log
    decreases |requests|
  {
    if |requests| == 0 then log
    else Run(step, step(log, requests[0]), requests[1..])
  }

  /** If every call appends exactly the record `record` gives for its request,
      serving a sequence of requests appends their records in call order. */
  lemma {:induction false} RunAppends(
    step: (Log, Request) -> Log, record: Request -> Record, log: Log, requests: seq<Request>)
    requires forall l, r :: step(l, r) == l + [record(r)]
    ensures Run(step, log, requests) == log + seq(|requests|, i requires 0 <= i < |requests| => record(requests[i]))
    decreases |requests|
  {
    if |requests| > 0 {
      var rest := requests[1..];
      RunAppends(step, record, log + [record(requests[0])], rest);
      assert log + [record(requests[0])] + seq(|rest|, i requires 0 <= i < |rest| => record(rest[i]))
          == log + seq(|requests|, i requires 0 <= i < |requests| => record(requests[i]));
    }
  }

  /** The log after chat calls for `requests`, in order, starting from `log`. */
  function Replay(log: Log, requests: seq<Request>): Log
  {
    Run((l: Log, r: Request) => Chat(l, r.prompt, r.timestamp).log, log, requests)
  }

  /** The records chat calls for `requests` must leave, one per request, in call order. */
  ghost function Records(requests: seq<Request>): (records: Log)
    ensures |records| == |requests|
  {
    seq(|requests|, i requires 0 <= i < |requests| => ExpectedRecord(requests[i].prompt, requests[i].timestamp))
  }

  /** Serving requests only appends: the result is the starting log followed
      by the expected record of each request, in call order. */
  lemma ReplayAppends(log: Log, requests: seq<Request>)
    ensures Replay(log, requests) == log + Records(requests)
  {
    var step := (l: Log, r: Request) => Chat(l, r.prompt, r.timestamp).log;
    var record := (r: Request) => ExpectedRecord(r.prompt, r.timestamp);
    RunAppends(step, record, log, requests);
    assert seq(|requests|, i requires 0 <= i < |requests| => record(requests[i])) == Records(requests);
  }

  /** Each chat call raises `total_requests` by exactly one. */
  lemma TotalRequestsGrowsByOne(log: Log, prompt: string, timestamp: string)
    ensures AuditLogs(Chat(log, prompt, timestamp).log).totalRequests == AuditLogs(log).totalRequests + 1
  {
  }

  /** After N chat calls from an empty log the audit query reports N requests
      and returns the expected records in call order. */
  lemma AuditAfterCalls(requests: seq<Request>)
    ensures AuditLogs(Replay([], requests)).logs == Records(requests)
    ensures AuditLogs(Replay([], requests)).totalRequests == |requests|
  {
    ReplayAppends([], requests);
    assert [] + Records(requests) == Records(requests);
  }

  /** The i-th record of the log is the record of the i-th chat call. */
  lemma NthRecordIsNthCall(requests: seq<Request>, i: nat)
    requires i < |requests|
    ensures |Replay([], requests)| == |requests|
    ensures Replay([], requests)[i] == ExpectedRecord(requests[i].prompt, requests[i].timestamp)
  {
    ReplayAppends([], requests);
    assert Replay([], requests)[i] == Records(requests)[i];
  }
}
