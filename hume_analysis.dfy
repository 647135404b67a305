/**
 * `useHumeAnalysis`: the hook's state (`isAnalyzing`, `error`, `results`),
 * the submission of a recording and the status polling that follows it. A
 * poll tick first checks the attempt cap, then reads one status response and
 * either finishes, fails or schedules the next tick. Only the first tick is
 * awaited inside the `try`; a later tick runs from a timer, so its failure is
 * a rejected promise that nobody handles and the state is left as it was.
 *
 * Responses (from the network or JSON parsing) are parameters; the
 * predictions are an arbitrary type `P`.
 */
module HumeAnalysis {
  import opened Wrappers

  /** `maxAttempts`: status queries allowed before the next tick times out. */
  const MaxAttempts: nat := 30

  const SubmitErrorMessage: string := "Ошибка при отправке аудио на анализ"
  const StatusErrorMessage: string := "Ошибка при проверке статуса анализа"
  const TimeoutMessage: string := "Превышено время ожидания анализа"
  const UnknownErrorMessage: string := "Неизвестная ошибка"

  /** A JavaScript string field is truthy when present and non-empty. */
  predicate Truthy(s: Option<string>) {
    s.Some? && s.value != ""
  }

  /** `field || fallback` on an optional string. */
  function OrElse(field: Option<string>, fallback: string): (r: string)
    ensures r == fallback || (field.Some? && r == field.value)
    ensures r != "" || fallback == ""
  {
    if Truthy(field) then field.value else fallback
  }

  /** A value thrown by `fetch` or by parsing a response body. */
  datatype Thrown = ErrorObject(message: string) | OtherValue

  /** The catch block's `error instanceof Error ? error.message : 'Неизвестная ошибка'`. */
  function CaughtMessage(t: Thrown): string {
    match t
    case ErrorObject(m) => m
    case OtherValue => UnknownErrorMessage
  }

  /** What the submission `POST` produced. */
  datatype Submission =
    | Submitted                                  // `response.ok`, a job id was returned
    | SubmitRejected(errorField: Option<string>) // not ok; the body's `error` field
    | SubmitThrew(thrown: Thrown)                // the request or the body parsing threw

  /** What one status query produced. */
  datatype StatusResponse<P> =
    | StatusReply(error: Option<string>, status: string, predictions: P) // `statusResponse.ok`
    | StatusRejected(errorField: Option<string>)                         // not ok; the body's `error` field
    | StatusThrew(thrown: Thrown)                                        // the request or the body parsing threw

  /** What a tick decides. */
  datatype Decision<P> = Done(predictions: P) | Fail(message: string) | Reschedule

  /** A reply that keeps the job polling: no error and a status other than `completed`. */
  predicate InProgress<P>(resp: StatusResponse<P>) {
    resp.StatusReply? && !Truthy(resp.error) && resp.status != "completed"
  }

  /**
   * One run of `pollStatus` with `attempts` queries already made: the attempt
   * cap is checked before the response is looked at, then a failed query, an
   * error in the reply, completion and "still running" are told apart in
   * that order.
   */
  function TickDecision<P>(attempts: nat, resp: StatusResponse<P>): (d: Decision<P>)
    ensures attempts >= MaxAttempts ==> d == Fail(TimeoutMessage)
    ensures d.Reschedule? <==> attempts < MaxAttempts && InProgress(resp)
    ensures d.Done? <==> attempts < MaxAttempts && resp.StatusReply? && !Truthy(resp.error) && resp.status == "completed"
    ensures d.Done? ==> d.predictions == resp.predictions
    ensures d.Fail? && d.message == "" ==> attempts < MaxAttempts && resp.StatusThrew?
  {
    if attempts >= MaxAttempts then Fail(TimeoutMessage)
    else match resp
      case StatusThrew(t) => Fail(CaughtMessage(t))
      case StatusRejected(e) => Fail(OrElse(e, StatusErrorMessage))
      case StatusReply(err, status, predictions) =>
        if Truthy(err) then Fail(err.value)
        else if status == "completed" then Done(predictions)
        else Reschedule
  }

  /** How a chain of ticks ends. `caught` says whether the failure reached the catch block. */
  datatype PollEnd<P> = Completed(predictions: P) | Failed(message: string, caught: bool) | Polling

  /** A chain's end, the attempt counter it leaves and the status queries it made. */
  datatype Run<P> = Run(end: PollEnd<P>, attempts: nat, queries: nat)

  /**
   * The chain of ticks that starts with `attempts` queries made, fed the
   * successive status responses. `caught` says whether this tick's failure
   * reaches the catch block; `laterCaught` says whether a rescheduled tick's
   * does. The chain is `Polling` when the responses run out first.
   */
  function Drive<P>(attempts: nat, responses: seq<StatusResponse<P>>, caught: bool, laterCaught: bool): Run<P>
    decreases |responses|
  {
    if attempts >= MaxAttempts then Run(Failed(TimeoutMessage, caught), attempts, 0)
    else if responses == [] then Run(Polling, attempts, 0)
    else match TickDecision(attempts, responses[0])
      case Done(p) => Run(Completed(p), attempts, 1)
      case Fail(m) => Run(Failed(m, caught), attempts, 1)
      case Reschedule =>
        var rest := Drive(attempts + 1, responses[1..], laterCaught, laterCaught);
        rest.(queries := rest.queries + 1)
  }

  /** The polling as written: the first tick is awaited, rescheduled ticks are not. */
  function PollRun<P>(responses: seq<StatusResponse<P>>): Run<P> {
    Drive(0, responses, true, false)
  }

  /** The polling with every tick's failure handled by the catch block. */
  function PollRunCaught<P>(responses: seq<StatusResponse<P>>): Run<P> {
    Drive(0, responses, true, true)
  }

  /**
   * The attempt cap bounds the chain: at most `MaxAttempts - attempts`
   * queries, each one read from `responses`, and the counter never passes the cap.
   */
  lemma {:induction false} DriveBounded<P>(attempts: nat, responses: seq<StatusResponse<P>>, caught: bool, laterCaught: bool)
    requires attempts <= MaxAttempts
    ensures var r := Drive(attempts, responses, caught, laterCaught);
      && r.queries <= MaxAttempts - attempts
      && r.queries <= |responses|
      && attempts <= r.attempts <= MaxAttempts
    decreases |responses|
  {
    if attempts < MaxAttempts && responses != [] && TickDecision(attempts, responses[0]).Reschedule? {
      DriveBounded(attempts + 1, responses[1..], laterCaught, laterCaught);
    }
  }

  /**
   * `k` in-progress replies in a row, with room for them under the cap, each
   * add one attempt and one query and hand the rest of the chain to a
   * rescheduled tick.
   */
  lemma {:induction false} DriveSkipsInProgress<P>(attempts: nat, responses: seq<StatusResponse<P>>,
                                                   caught: bool, laterCaught: bool, k: nat)
    requires k <= |responses| && attempts + k <= MaxAttempts
    requires forall i :: 0 <= i < k ==> InProgress(responses[i])
    ensures var rest := Drive(attempts + k, responses[k..], if k == 0 then caught else laterCaught, laterCaught);
      Drive(attempts, responses, caught, laterCaught) == rest.(queries := rest.queries + k)
    decreases k
  {
    if k > 0 {
      assert TickDecision(attempts, responses[0]).Reschedule?;
      DriveSkipsInProgress(attempts + 1, responses[1..], laterCaught, laterCaught, k - 1);
      assert responses[1..][k - 1..] == responses[k..];
    }
  }

  /**
   * When every reply says the job is still running, the chain makes exactly
   * `MaxAttempts` queries and then times out; with rescheduled ticks not
   * awaited, the timeout does not reach the catch block.
   */
  lemma TimeoutNeverReported<P>(responses: seq<StatusResponse<P>>)
    requires |responses| >= MaxAttempts
    requires forall i :: 0 <= i < MaxAttempts ==> InProgress(responses[i])
    ensures PollRun(responses) == Run(Failed(TimeoutMessage, false), MaxAttempts, MaxAttempts)
  {
    DriveSkipsInProgress(0, responses, true, false, MaxAttempts);
  }

  /** With every tick's failure handled, the same replies end in a reported timeout. */
  lemma TimeoutReportedWhenCaught<P>(responses: seq<StatusResponse<P>>)
    requires |responses| >= MaxAttempts
    requires forall i :: 0 <= i < MaxAttempts ==> InProgress(responses[i])
    ensures PollRunCaught(responses) == Run(Failed(TimeoutMessage, true), MaxAttempts, MaxAttempts)
  {
    DriveSkipsInProgress(0, responses, true, true, MaxAttempts);
  }

  /** With every tick's failure handled, every failure reaches the catch block. */
  lemma {:induction false} EveryFailureCaught<P>(attempts: nat, responses: seq<StatusResponse<P>>)
    ensures Drive(attempts, responses, true, true).end.Failed? ==> Drive(attempts, responses, true, true).end.caught
    decreases |responses|
  {
    if attempts < MaxAttempts && responses != [] && TickDecision(attempts, responses[0]).Reschedule? {
      EveryFailureCaught(attempts + 1, responses[1..]);
    }
  }

  /** As written, a failure is caught exactly when it happens on the first tick. */
  lemma FailureCaughtOnlyOnFirstTick<P>(responses: seq<StatusResponse<P>>)
    ensures var r := PollRun(responses);
      r.end.Failed? ==> (r.end.caught <==> r.queries <= 1 && r.attempts == 0)
  {
    var r := PollRun(responses);
    if responses != [] && TickDecision(0, responses[0]).Reschedule? {
      LaterFailuresLost(1, responses[1..]);
    }
  }

  /** A chain that starts with a rescheduled tick never reaches the catch block. */
  lemma {:induction false} LaterFailuresLost<P>(attempts: nat, responses: seq<StatusResponse<P>>)
    requires attempts >= 1
    ensures var r := Drive(attempts, responses, false, false);
      && (r.end.Failed? ==> !r.end.caught)
      && r.attempts >= 1
    decreases |responses|
  {
    if attempts < MaxAttempts && responses != [] && TickDecision(attempts, responses[0]).Reschedule? {
      LaterFailuresLost(attempts + 1, responses[1..]);
    }
  }

  /**
   * After `k` in-progress replies, the first reply that is not in progress
   * decides the chain: it is the last query, and the chain ends as that
   * tick decides.
   */
  lemma FirstSettlingReplyDecides<P>(responses: seq<StatusResponse<P>>, k: nat)
    requires k < |responses| && k < MaxAttempts
    requires forall i :: 0 <= i < k ==> InProgress(responses[i])
    requires !InProgress(responses[k])
    ensures var r := PollRun(responses);
      && r.queries == k + 1 && r.attempts == k
      && match TickDecision(k, responses[k])
         case Done(p) => r.end == Completed(p)
         case Fail(m) => r.end == Failed(m, k == 0)
         case Reschedule => false
  {
    DriveSkipsInProgress(0, responses, true, false, k);
    assert responses[k..][0] == responses[k];
  }

  /**
   * The hook's state, together with the attempt counter of the polling in
   * progress.
   */
  class Analyzer<P> {
    var isAnalyzing: bool
    var error: Option<string>
    var results: Option<P>
    var attempts: nat

    /** The attempt counter never passes the cap. */
    ghost predicate Valid()
      reads this
    {
      attempts <= MaxAttempts
    }

    /** The state `useState` starts from. */
    constructor ()
      ensures Valid()
      ensures !isAnalyzing && error == None && results == None && attempts == 0
    {
      isAnalyzing := false;
      error := None;
      results := None;
      attempts := 0;
    }

    /** The first `setState` of `startAnalysis`: analysing, error and results cleared. */
    method Start()
      modifies this
      ensures isAnalyzing && error == None && results == None
      ensures attempts == old(attempts)
    {
      isAnalyzing := true;
      error := None;
      results := None;
    }

    /** The catch block: analysis stops and the error message is shown; results are kept. */
    method Catch(message: string)
      modifies this
      ensures !isAnalyzing && error == Some(message)
      ensures results == old(results) && attempts == old(attempts)
    {
      isAnalyzing := false;
      error := Some(message);
    }

    /** A `throw` inside a tick: it reaches the catch block only when `caught`. */
    method Raise(message: string, caught: bool)
      modifies this
      ensures caught ==> !isAnalyzing && error == Some(message) && results == old(results)
      ensures !caught ==> isAnalyzing == old(isAnalyzing) && error == old(error) && results == old(results)
      ensures attempts == old(attempts)
    {
      if caught {
        Catch(message);
      }
    }

    /** `let attempts = 0` before the first tick. */
    method BeginPolling()
      modifies this
      ensures attempts == 0
      ensures isAnalyzing == old(isAnalyzing) && error == old(error) && results == old(results)
    {
      attempts := 0;
    }

    /** The cap check that opens `pollStatus`; `timedOut` says whether it threw. */
    method CheckAttempts(caught: bool) returns (timedOut: bool)
      requires Valid()
      modifies this
      ensures Valid()
      ensures timedOut <==> old(attempts) >= MaxAttempts
      ensures timedOut && caught ==> !isAnalyzing && error == Some(TimeoutMessage) && results == old(results)
      ensures !(timedOut && caught) ==> isAnalyzing == old(isAnalyzing) && error == old(error) && results == old(results)
      ensures attempts == old(attempts)
    {
      timedOut := attempts >= MaxAttempts;
      if timedOut {
        Raise(TimeoutMessage, caught);
      }
    }

    /**
     * The rest of `pollStatus`, once the cap check has passed: one status
     * response is handled as `TickDecision` says. Completion records the
     * predictions; a failure goes through `Raise`; "still running" counts
     * an attempt before the next tick is scheduled.
     */
    method HandleStatus(resp: StatusResponse<P>, caught: bool) returns (d: Decision<P>)
      requires Valid() && attempts < MaxAttempts
      modifies this
      ensures Valid()
      ensures d == TickDecision(old(attempts), resp)
      ensures d.Done? ==> !isAnalyzing && results == Some(d.predictions) && error == old(error)
      ensures d.Fail? && caught ==> !isAnalyzing && error == Some(d.message) && results == old(results)
      ensures d.Fail? && !caught ==> isAnalyzing == old(isAnalyzing) && error == old(error) && results == old(results)
      ensures d.Reschedule? ==> isAnalyzing == old(isAnalyzing) && error == old(error) && results == old(results)
      ensures attempts == if d.Reschedule? then old(attempts) + 1 else old(attempts)
    {
      match resp
      case StatusThrew(t) =>
        d := Fail(CaughtMessage(t));
        Raise(d.message, caught);
      case StatusRejected(e) =>
        d := Fail(OrElse(e, StatusErrorMessage));
        Raise(d.message, caught);
      case StatusReply(err, status, predictions) =>
        if Truthy(err) {
          d := Fail(err.value);
          Raise(d.message, caught);
        } else if status == "completed" {
          d := Done(predictions);
          isAnalyzing := false;
          results := Some(predictions);
        } else {
          d := Reschedule;
          attempts := attempts + 1;
        }
    }

    /** The state a polling chain leaves behind, given how it ended. */
    ghost predicate Reflects(r: Run<P>)
      reads this
    {
      && attempts == r.attempts
      && match r.end
         case Completed(p) => !isAnalyzing && results == Some(p) && error == None
         case Failed(m, caught) =>
           results == None && (if caught then !isAnalyzing && error == Some(m) else isAnalyzing && error == None)
         case Polling => isAnalyzing && error == None && results == None
    }

    /**
     * `startAnalysis`: the state is reset, the recording is submitted and,
     * once accepted, the status is polled until a tick settles the job or the
     * responses run out. The first tick runs inside the `try`; the
     * rescheduled ones do not.
     */
    method StartAnalysis(submission: Submission, responses: seq<StatusResponse<P>>)
      requires Valid()
      modifies this
      ensures Valid()
      ensures submission.SubmitThrew? ==>
        !isAnalyzing && error == Some(CaughtMessage(submission.thrown)) && results == None
        && attempts == old(attempts)
      ensures submission.SubmitRejected? ==>
        !isAnalyzing && error == Some(OrElse(submission.errorField, SubmitErrorMessage)) && results == None
        && attempts == old(attempts)
      ensures submission.Submitted? ==> Reflects(PollRun(responses))
    {
      Start();
      match submission
      case SubmitThrew(t) =>
        Catch(CaughtMessage(t));
      case SubmitRejected(e) =>
        Catch(OrElse(e, SubmitErrorMessage));
      case Submitted =>
        BeginPolling();
        var i := 0;
        while true
          invariant Valid() && attempts == i && i <= |responses|
          invariant isAnalyzing && error == None && results == None
          invariant var rest := Drive(i, responses[i..], i == 0, false);
            PollRun(responses) == rest.(queries := rest.queries + i)
          decreases |responses| - i
        {
          var timedOut := CheckAttempts(i == 0);
          if timedOut {
            break;
          }
          if i == |responses| {
            break;
          }
          assert responses[i..][0] == responses[i];
          var d := HandleStatus(responses[i], i == 0);
          if !d.Reschedule? {
            break;
          }
          assert responses[i..][1..] == responses[i + 1..];
          i := i + 1;
        }
    }
  }
}
