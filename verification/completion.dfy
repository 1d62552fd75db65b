/** `wait_completion`: poll the intercepted requests until the completion
    status request has been answered, or until the timeout runs out. */
module Completion {
  import opened Wrappers

  datatype Response = Response(body: string)

  /** One request in the proxy's log; `response` is None while unanswered. */
  datatype Request = Request(httpMethod: string, url: string, response: Option<Response>)

  /** One turn of the polling loop: the clock read by the loop condition and
      the request log swept in that turn. */
  datatype Poll = Poll(now: real, requests: seq<Request>)

  /** What `json.loads` makes of a body, as far as `res and "status" in res`
      can tell: malformed text raises ValueError; a falsy value (null, false,
      0, "", [] or {}) is skipped; a number or true raises TypeError at the
      `in`; an object, array or string either holds "status" or not. */
  datatype Parsed = Malformed | Falsy | NotIterable | Iterable(hasStatus: bool)

  /** The JSON decoder, left abstract. */
  type Parser = string -> Parsed

  /** A request the loop decodes: a POST to the completion status URL with a
      response whose body is non-empty. */
  predicate IsCandidate(r: Request, target: string) {
    r.httpMethod == "POST" && r.url == target && r.response.Some? && r.response.value.body != []
  }

  /** A request the sweep passes over. */
  predicate Harmless(r: Request, target: string, parse: Parser) {
    !IsCandidate(r, target) || parse(r.response.value.body) == Falsy || parse(r.response.value.body) == Iterable(false)
  }

  /** A request whose decoding, if it happens, raises nothing. */
  predicate Decodable(r: Request, target: string, parse: Parser) {
    IsCandidate(r, target) ==> parse(r.response.value.body) != Malformed && parse(r.response.value.body) != NotIterable
  }

  /** What a request that stops the sweep leads to: None for the status
      answer, otherwise the exception. */
  function StopReason(r: Request, target: string, parse: Parser): Option<Error>
    requires IsCandidate(r, target)
  {
    match parse(r.response.value.body)
    case Malformed => Some(BadJson)
    case NotIterable => Some(NotContainer)
    case _ => None
  }

  datatype Sweep = Clean | Stopped(at: nat, error: Option<Error>)

  /** One sweep over the request log, in log order. */
  function SweepRequests(rs: seq<Request>, target: string, parse: Parser): (s: Sweep)
    ensures s.Clean? <==> forall j :: 0 <= j < |rs| ==> Harmless(rs[j], target, parse)
    ensures s.Stopped? ==>
      && s.at < |rs|
      && (forall j :: 0 <= j < s.at ==> Harmless(rs[j], target, parse))
      && !Harmless(rs[s.at], target, parse)
      && s.error == StopReason(rs[s.at], target, parse)
  {
    if rs == [] then Clean
    else if !Harmless(rs[0], target, parse) then Stopped(0, StopReason(rs[0], target, parse))
    else
      match SweepRequests(rs[1..], target, parse)
      case Clean => Clean
      case Stopped(at, e) => Stopped(at + 1, e)
  }

  /** How the wait ends, with the turn (and request) that ended it; Waiting
      when the recorded turns run out first. */
  datatype Wait = Completed(poll: nat, request: nat) | Failed(poll: nat, error: Error) | TimedOut(poll: nat) | Waiting

  /** The loop condition: no timeout at all, or still inside it. */
  predicate InWindow(timeout: real, start: real, now: real) {
    timeout == 0.0 || now - start <= timeout
  }

  /** A turn that runs its sweep to the end without leaving the loop. */
  predicate Uneventful(timeout: real, start: real, p: Poll, target: string, parse: Parser) {
    InWindow(timeout, start, p.now) && SweepRequests(p.requests, target, parse).Clean?
  }

  /** The loop from turn `k` on. */
  function WaitFrom(timeout: real, start: real, polls: seq<Poll>, target: string, parse: Parser, k: nat): (w: Wait)
    requires k <= |polls|
    ensures w.Waiting? ==> forall j :: k <= j < |polls| ==> Uneventful(timeout, start, polls[j], target, parse)
    ensures !w.Waiting? ==> k <= w.poll < |polls| && forall j :: k <= j < w.poll ==> Uneventful(timeout, start, polls[j], target, parse)
    ensures w.TimedOut? ==> timeout != 0.0 && polls[w.poll].now - start > timeout
    ensures w.Completed? ==>
      && InWindow(timeout, start, polls[w.poll].now)
      && SweepRequests(polls[w.poll].requests, target, parse) == Stopped(w.request, None)
    ensures w.Failed? ==>
      && InWindow(timeout, start, polls[w.poll].now)
      && SweepRequests(polls[w.poll].requests, target, parse).Stopped?
      && SweepRequests(polls[w.poll].requests, target, parse).error == Some(w.error)
    ensures w.Failed? ==> w.error == BadJson || w.error == NotContainer
    decreases |polls| - k
  {
    if k == |polls| then Waiting
    else if !InWindow(timeout, start, polls[k].now) then TimedOut(k)
    else
      match SweepRequests(polls[k].requests, target, parse)
      case Clean => WaitFrom(timeout, start, polls, target, parse, k + 1)
      case Stopped(at, None) => Completed(k, at)
      case Stopped(_, Some(e)) => Failed(k, e)
  }

  /** `wait_completion` after its guard, `start` being the clock read before
      the loop. With no timeout the wait never times out; a negative timeout
      gives up at the first turn without looking at a single request. */
  function WaitCompletion(timeout: real, start: real, polls: seq<Poll>, target: string, parse: Parser): (w: Wait)
    ensures timeout == 0.0 ==> !w.TimedOut?
    ensures timeout < 0.0 && polls != [] && start <= polls[0].now ==> w == TimedOut(0)
    ensures w.Completed? ==>
      && w.poll < |polls| && w.request < |polls[w.poll].requests|
      && IsCandidate(polls[w.poll].requests[w.request], target)
      && parse(polls[w.poll].requests[w.request].response.value.body) == Iterable(true)
  {
    WaitFrom(timeout, start, polls, target, parse, 0)
  }

  /** The clock never runs backwards, starting from `start`. */
  predicate Monotone(start: real, polls: seq<Poll>) {
    && (polls != [] ==> start <= polls[0].now)
    && forall i, j :: 0 <= i <= j < |polls| ==> polls[i].now <= polls[j].now
  }

  /** With a positive timeout, a clean request log and a turn that reads the
      clock past the deadline, the wait times out, at that turn or earlier. */
  lemma {:induction false} TimesOutWithoutAnswer(timeout: real, start: real, polls: seq<Poll>, target: string, parse: Parser, late: nat)
    requires timeout > 0.0
    requires late < |polls| && polls[late].now - start > timeout
    requires forall j :: 0 <= j < |polls| ==> SweepRequests(polls[j].requests, target, parse).Clean?
    ensures WaitCompletion(timeout, start, polls, target, parse).TimedOut?
    ensures WaitCompletion(timeout, start, polls, target, parse).poll <= late
  {
    TimesOutFrom(timeout, start, polls, target, parse, late, 0);
  }

  lemma {:induction false} TimesOutFrom(timeout: real, start: real, polls: seq<Poll>, target: string, parse: Parser, late: nat, k: nat)
    requires timeout > 0.0 && k <= late < |polls| && polls[late].now - start > timeout
    requires forall j :: k <= j < |polls| ==> SweepRequests(polls[j].requests, target, parse).Clean?
    ensures WaitFrom(timeout, start, polls, target, parse, k).TimedOut?
    ensures WaitFrom(timeout, start, polls, target, parse, k).poll <= late
    decreases late - k
  {
    if InWindow(timeout, start, polls[k].now) {
      assert k != late;
      TimesOutFrom(timeout, start, polls, target, parse, late, k + 1);
    }
  }

  /** On a clock that never runs backwards, a status answer in the log of a
      turn still inside the timeout completes the wait by that turn, provided
      nothing before it raises. */
  lemma {:induction false} AnswerCompletes(timeout: real, start: real, polls: seq<Poll>, target: string, parse: Parser, k: nat, at: nat)
    requires Monotone(start, polls)
    requires k < |polls| && InWindow(timeout, start, polls[k].now)
    requires at < |polls[k].requests| && IsCandidate(polls[k].requests[at], target)
    requires parse(polls[k].requests[at].response.value.body) == Iterable(true)
    requires forall j, i :: 0 <= j < k && 0 <= i < |polls[j].requests| ==> Decodable(polls[j].requests[i], target, parse)
    requires forall i :: 0 <= i < at ==> Harmless(polls[k].requests[i], target, parse)
    ensures WaitCompletion(timeout, start, polls, target, parse).Completed?
    ensures WaitCompletion(timeout, start, polls, target, parse).poll <= k
  {
    AnswerCompletesFrom(timeout, start, polls, target, parse, k, at, 0);
  }

  lemma {:induction false} AnswerCompletesFrom(timeout: real, start: real, polls: seq<Poll>, target: string, parse: Parser, k: nat, at: nat, m: nat)
    requires Monotone(start, polls)
    requires m <= k < |polls| && InWindow(timeout, start, polls[k].now)
    requires at < |polls[k].requests| && IsCandidate(polls[k].requests[at], target)
    requires parse(polls[k].requests[at].response.value.body) == Iterable(true)
    requires forall j, i :: 0 <= j < k && 0 <= i < |polls[j].requests| ==> Decodable(polls[j].requests[i], target, parse)
    requires forall i :: 0 <= i < at ==> Harmless(polls[k].requests[i], target, parse)
    ensures WaitFrom(timeout, start, polls, target, parse, m).Completed?
    ensures WaitFrom(timeout, start, polls, target, parse, m).poll <= k
    decreases k - m
  {
    assert polls[m].now <= polls[k].now;
    var s := SweepRequests(polls[m].requests, target, parse);
    if m == k {
      assert !Harmless(polls[k].requests[at], target, parse);
    } else if s.Clean? {
      AnswerCompletesFrom(timeout, start, polls, target, parse, k, at, m + 1);
    } else {
      assert !Harmless(polls[m].requests[s.at], target, parse);
    }
  }
}
