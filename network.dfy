/**
 * The submission client and the submission queue (`src/network.rs`).
 *
 * The HTTP exchange inside `send` is an oracle: the run is given the replies
 * the service would return, one consumed per request, in order. Logging and
 * the cooldown sleep are events appended to a trace.
 */
module Network {
  import opened Wrappers

  type Url = string

  /** The save endpoint every request is posted to. */
  const ApiUrl: string := "https://web.archive.org/save"
  /** The cooldown after a rate-limited reply, in seconds. */
  const CooldownSeconds: nat := 60
  /** `StatusCode::OK`. */
  const StatusOk: nat := 200
  /** `StatusCode::TOO_MANY_REQUESTS` (section 4 of RFC 6585). */
  const TooManyRequests: nat := 429

  /** The access key and secret key every request is signed with. */
  datatype Credentials = Credentials(accessKey: string, secretKey: string)

  // ---------------------------------------------------------------------
  // The request `send` builds
  // ---------------------------------------------------------------------

  /** The `Authorization` header value: `LOW <access key>:<secret key>`. */
  function Token(c: Credentials): (t: string)
    ensures |t| == 5 + |c.accessKey| + |c.secretKey|
    ensures t[..4] == "LOW "
    ensures t[4..4 + |c.accessKey|] == c.accessKey
    ensures t[4 + |c.accessKey|] == ':'
    ensures t[5 + |c.accessKey|..] == c.secretKey
  {
    "LOW " + c.accessKey + ":" + c.secretKey
  }

  /** The position of the first `x` in `s`, if there is one. */
  function IndexOf(s: string, x: char): (r: Option<nat>)
    ensures r.None? <==> x !in s
    ensures r.Some? ==> r.value < |s| && s[r.value] == x && x !in s[..r.value]
  {
    if s == [] then None
    else if s[0] == x then Some(0)
    else
      var rest := IndexOf(s[1..], x);
      if rest.None? then None
      else
        assert s[..rest.value + 1] == [s[0]] + s[1..][..rest.value];
        Some(rest.value + 1)
  }

  /** Reads the credentials back out of an `Authorization` value, splitting at the first colon. */
  function ParseToken(t: string): Option<Credentials>
  {
    if |t| < 4 || t[..4] != "LOW " then None
    else
      match IndexOf(t[4..], ':')
      case None => None
      case Some(k) => Some(Credentials(t[4..][..k], t[4..][k + 1..]))
  }

  /** The token carries the credential pair: parsing it gives the pair back when the access key has no colon. */
  lemma TokenRoundTrip(c: Credentials)
    requires ':' !in c.accessKey
    ensures ParseToken(Token(c)) == Some(c)
  {
    var t := Token(c);
    var body := t[4..];
    assert body == c.accessKey + ":" + c.secretKey;
    assert body[|c.accessKey|] == ':' && body[..|c.accessKey|] == c.accessKey;
    var k := IndexOf(body, ':');
    assert forall i | 0 <= i < |c.accessKey| :: body[i] == c.accessKey[i];
    assert k.value == |c.accessKey|;
    assert body[k.value + 1..] == c.secretKey;
  }

  /** The form body: exactly `url` and `capture_all`. */
  function Form(url: Url): (f: map<string, string>)
    ensures f.Keys == {"url", "capture_all"} && |f| == 2
    ensures f["url"] == url && f["capture_all"] == "on"
  {
    map["url" := url, "capture_all" := "on"]
  }

  /** One POST to the save endpoint. */
  datatype Request = Request(endpoint: string, accept: string, authorization: string, form: map<string, string>)

  /** The POST of `send`: the save endpoint, `Accept: application/json`, the token, and the form. */
  function BuildRequest(url: Url, c: Credentials): (r: Request)
    ensures r.endpoint == ApiUrl && r.accept == "application/json"
    ensures |r.authorization| == 5 + |c.accessKey| + |c.secretKey| && r.authorization[..4] == "LOW "
    ensures r.form.Keys == {"url", "capture_all"} && r.form["url"] == url && r.form["capture_all"] == "on"
  {
    Request(ApiUrl, "application/json", Token(c), Form(url))
  }

  /** Every request goes to the save endpoint, asks for JSON, is signed with the pair and names its URL. */
  lemma RequestShape(url: Url, c: Credentials)
    ensures var r := BuildRequest(url, c);
      && r.endpoint == ApiUrl && r.accept == "application/json"
      && r.authorization == Token(c)
      && (':' !in c.accessKey ==> ParseToken(r.authorization) == Some(c))
      && r.form.Keys == {"url", "capture_all"} && r.form["url"] == url
  {
    if ':' !in c.accessKey {
      TokenRoundTrip(c);
    }
  }

  // ---------------------------------------------------------------------
  // Replies and the trace
  // ---------------------------------------------------------------------

  /** What `send` returns: a status with the decoded body, or a transport/decode error. */
  datatype Reply = Status(code: nat, body: map<string, string>) | TransportError

  /** The three log levels the queue reports at. */
  datatype Severity = Info | Warn | Error

  datatype Event =
    | Sent(url: Url, request: Request)                              // one call of `send`
    | Logged(severity: Severity, index: nat, count: nat, code: nat, url: Url)  // `{index}/{count}: {status} -> {url}`
    | Message(severity: Severity, text: string)                     // the body's `message` field
    | Slept(seconds: nat)                                           // the cooldown

  /** The log level of a status: Info for 200, Warn for 429, Error for everything else. */
  function Classify(code: nat): (s: Severity)
    ensures s == Info <==> code == StatusOk
    ensures s == Warn <==> code == TooManyRequests
    ensures s == Error <==> code != StatusOk && code != TooManyRequests
  {
    if code == StatusOk then Info
    else if code == TooManyRequests then Warn
    else Error
  }

  /** The `message` line logged after the status line, when the body has one. */
  function Echo(severity: Severity, body: map<string, string>): (e: seq<Event>)
    ensures |e| <= 1
    ensures e != [] <==> "message" in body
    ensures e != [] ==> e[0] == Message(severity, body["message"])
  {
    if "message" in body then [Message(severity, body["message"])] else []
  }

  /** The picks of `f` from each event of `t`, in trace order. */
  function Collect<T>(t: seq<Event>, f: Event -> seq<T>): seq<T>
  {
    if t == [] then [] else Collect(t[..|t| - 1], f) + f(t[|t| - 1])
  }

  lemma {:induction false} CollectAppend<T>(a: seq<Event>, b: seq<Event>, f: Event -> seq<T>)
    ensures Collect(a + b, f) == Collect(a, f) + Collect(b, f)
    decreases |b|
  {
    if b != [] {
      assert (a + b)[..|a + b| - 1] == a + b[..|b| - 1];
      assert (a + b)[|a + b| - 1] == b[|b| - 1];
      CollectAppend(a, b[..|b| - 1], f);
      assert Collect(a + b, f) == Collect(a + b[..|b| - 1], f) + f(b[|b| - 1]);
      assert Collect(b, f) == Collect(b[..|b| - 1], f) + f(b[|b| - 1]);
    } else {
      assert a + b == a;
    }
  }

  function TerminalOf(e: Event): seq<Url>
  {
    if e.Logged? && e.code != TooManyRequests then [e.url] else []
  }

  function RateLimitedOf(e: Event): seq<Url>
  {
    if e.Logged? && e.code == TooManyRequests then [e.url] else []
  }

  function SentOf(e: Event): seq<Url>
  {
    if e.Sent? then [e.url] else []
  }

  function SleepOf(e: Event): seq<nat>
  {
    if e.Slept? then [e.seconds] else []
  }

  /** The URLs that reached a terminal outcome (200 or any other non-429 status), in order. */
  function Terminal(t: seq<Event>): seq<Url> { Collect(t, TerminalOf) }

  /** The URLs answered with 429, once per such reply. */
  function RateLimited(t: seq<Event>): seq<Url> { Collect(t, RateLimitedOf) }

  /** The URLs sent, once per request. */
  function Requests(t: seq<Event>): seq<Url> { Collect(t, SentOf) }

  /** The cooldowns taken. */
  function Cooldowns(t: seq<Event>): seq<nat> { Collect(t, SleepOf) }

  // ---------------------------------------------------------------------
  // The queue: specification
  // ---------------------------------------------------------------------

  /** The loop's state: the pending queue, the 1-based progress index, the trace and the replies used. */
  datatype Progress = Progress(queue: seq<Url>, index: nat, trace: seq<Event>, sent: nat)

  /** How a run stops: the queue drained, a transport error, or the replies given ran out first. */
  datatype Halt = Completed | Aborted | Exhausted

  datatype Final = Final(halt: Halt, last: Progress)

  /** Before the loop: every URL queued in input order, index 1, nothing logged. */
  function Start(urls: seq<Url>): (p: Progress)
    ensures p.queue == urls && p.index == 1 && p.trace == [] && p.sent == 0
  {
    Progress(urls, 1, [], 0)
  }

  /** `pop_front` followed by the request for the popped URL. */
  function Dispatch(p: Progress, c: Credentials): (r: Progress)
    requires p.queue != []
    ensures |r.queue| + 1 == |p.queue| && |r.trace| == |p.trace| + 1
    ensures r.index == p.index && r.sent == p.sent + 1
  {
    p.(queue := p.queue[1..], trace := p.trace + [Sent(p.queue[0], BuildRequest(p.queue[0], c))], sent := p.sent + 1)
  }

  /** The `match status` arms: log, then advance the index, or sleep and push the URL to the back. */
  function Handle(p: Progress, count: nat, url: Url, code: nat, body: map<string, string>): (r: Progress)
    ensures r.sent == p.sent && |p.trace| < |r.trace| <= |p.trace| + 3
    ensures |r.queue| == |p.queue| + (if code == TooManyRequests then 1 else 0)
    ensures r.index == p.index + (if code == TooManyRequests then 0 else 1)
  {
    var severity := Classify(code);
    var logged := p.trace + [Logged(severity, p.index, count, code, url)] + Echo(severity, body);
    if code == TooManyRequests then
      p.(queue := p.queue + [url], trace := logged + [Slept(CooldownSeconds)])
    else
      p.(index := p.index + 1, trace := logged)
  }

  /** The loop from state `p` with `replies` still to come, one reply per request. */
  function Run(p: Progress, count: nat, c: Credentials, replies: seq<Reply>): (f: Final)
    ensures f.halt == Completed ==> f.last.queue == []
    ensures f.halt == Exhausted ==> f.last.queue != []
    decreases |replies|
  {
    if p.queue == [] then Final(Completed, p)
    else if replies == [] then Final(Exhausted, p)
    else
      var url := p.queue[0];
      match replies[0]
      case TransportError => Final(Aborted, Dispatch(p, c))
      case Status(code, body) => Run(Handle(Dispatch(p, c), count, url, code, body), count, c, replies[1..])
  }

  /** What every event of a run over `urls` satisfies. */
  predicate Fits(e: Event, urls: seq<Url>, c: Credentials)
  {
    match e
    case Sent(url, request) => url in urls && request == BuildRequest(url, c)
    case Logged(_, index, count, _, url) => 1 <= index <= count && count == |urls| && url in urls
    case _ => true
  }

  /**
   * The loop invariant: no URL is lost (the queue plus the terminal outcomes
   * is the input), the index is one past the terminal outcomes, one cooldown
   * per 429, every request classified exactly once, and every log line
   * within `1..count`.
   */
  ghost predicate Inv(p: Progress, urls: seq<Url>, c: Credentials)
  {
    && multiset(p.queue) + multiset(Terminal(p.trace)) == multiset(urls)
    && p.index == |Terminal(p.trace)| + 1
    && |Cooldowns(p.trace)| == |RateLimited(p.trace)|
    && (forall s | s in Cooldowns(p.trace) :: s == CooldownSeconds)
    && multiset(Requests(p.trace)) == multiset(Terminal(p.trace)) + multiset(RateLimited(p.trace))
    && |Requests(p.trace)| == p.sent
    && forall e | e in p.trace :: Fits(e, urls, c)
  }

  lemma StartInv(urls: seq<Url>, c: Credentials)
    ensures Inv(Start(urls), urls, c)
  {
  }

  /** One iteration that gets a status keeps the invariant. */
  lemma Step(p: Progress, urls: seq<Url>, c: Credentials, code: nat, body: map<string, string>)
    requires Inv(p, urls, c) && p.queue != []
    ensures Inv(Handle(Dispatch(p, c), |urls|, p.queue[0], code, body), urls, c)
  {
    var url := p.queue[0];
    var r := Handle(Dispatch(p, c), |urls|, url, code, body);
    var log := Logged(Classify(code), p.index, |urls|, code, url);
    var echo := Echo(Classify(code), body);
    var sleep := if code == TooManyRequests then [Slept(CooldownSeconds)] else [];
    assert r.trace == p.trace + ([Sent(url, BuildRequest(url, c)), log] + echo + sleep);
    StepKeepsInv(p, r, urls, c, log, echo, code == TooManyRequests);
  }

  /** The invariant after one iteration, stated over the parts of the new state. */
  lemma StepKeepsInv(p: Progress, r: Progress, urls: seq<Url>, c: Credentials,
                     log: Event, echo: seq<Event>, rateLimited: bool)
    requires Inv(p, urls, c) && p.queue != []
    requires log.Logged? && log.index == p.index && log.count == |urls| && log.url == p.queue[0]
    requires rateLimited <==> log.code == TooManyRequests
    requires echo == [] || (|echo| == 1 && echo[0].Message?)
    requires r.trace == p.trace + ([Sent(p.queue[0], BuildRequest(p.queue[0], c)), log] + echo
                                   + (if rateLimited then [Slept(CooldownSeconds)] else []))
    requires r.queue == p.queue[1..] + (if rateLimited then [p.queue[0]] else [])
    requires r.index == p.index + (if rateLimited then 0 else 1)
    requires r.sent == p.sent + 1
    ensures Inv(r, urls, c)
  {
    var url := p.queue[0];
    var sleep := if rateLimited then [Slept(CooldownSeconds)] else [];
    var tail := [Sent(url, BuildRequest(url, c)), log] + echo + sleep;
    assert r.trace == p.trace + tail;
    assert multiset(r.queue) + multiset(Terminal(r.trace)) == multiset(urls) by {
      StepCounts(p.trace, tail, url, BuildRequest(url, c), log, echo, log.code);
      Conserve(p.queue, Terminal(p.trace), urls, r.queue, Terminal(r.trace), rateLimited);
    }
    assert r.index == |Terminal(r.trace)| + 1 by {
      StepCounts(p.trace, tail, url, BuildRequest(url, c), log, echo, log.code);
    }
    assert |Cooldowns(r.trace)| == |RateLimited(r.trace)| by {
      StepCounts(p.trace, tail, url, BuildRequest(url, c), log, echo, log.code);
    }
    assert forall s | s in Cooldowns(r.trace) :: s == CooldownSeconds by {
      StepCounts(p.trace, tail, url, BuildRequest(url, c), log, echo, log.code);
      OnlyCooldowns(Cooldowns(p.trace), Cooldowns(r.trace), rateLimited);
    }
    assert multiset(Requests(r.trace)) == multiset(Terminal(r.trace)) + multiset(RateLimited(r.trace)) by {
      StepCounts(p.trace, tail, url, BuildRequest(url, c), log, echo, log.code);
      Classified(Requests(p.trace), Terminal(p.trace), RateLimited(p.trace), url, rateLimited);
    }
    assert |Requests(r.trace)| == r.sent by {
      StepCounts(p.trace, tail, url, BuildRequest(url, c), log, echo, log.code);
    }
    assert forall e | e in r.trace :: Fits(e, urls, c) by {
      StepFits(p, urls, c, url, log, echo + sleep, tail);
    }
  }

  /** Every sleep lasts the cooldown, before and after an iteration. */
  lemma OnlyCooldowns(before: seq<nat>, after: seq<nat>, rateLimited: bool)
    requires forall s | s in before :: s == CooldownSeconds
    requires after == before + (if rateLimited then [CooldownSeconds] else [])
    ensures forall s | s in after :: s == CooldownSeconds
  {
  }

  /** A request answered once more is classified once more, as terminal or as rate-limited. */
  lemma Classified(requests: seq<Url>, terminal: seq<Url>, rateLimited: seq<Url>, url: Url, limited: bool)
    requires multiset(requests) == multiset(terminal) + multiset(rateLimited)
    ensures multiset(requests + [url])
         == multiset(terminal + (if limited then [] else [url])) + multiset(rateLimited + (if limited then [url] else []))
  {
  }

  /** Moving the front URL to the back, or to the terminal outcomes, loses nothing. */
  lemma Conserve(queue: seq<Url>, terminal: seq<Url>, urls: seq<Url>,
                 queue': seq<Url>, terminal': seq<Url>, rateLimited: bool)
    requires queue != []
    requires multiset(queue) + multiset(terminal) == multiset(urls)
    requires rateLimited ==> queue' == queue[1..] + [queue[0]] && terminal' == terminal
    requires !rateLimited ==> queue' == queue[1..] && terminal' == terminal + [queue[0]]
    ensures multiset(queue') + multiset(terminal') == multiset(urls)
  {
    assert queue == [queue[0]] + queue[1..];
  }

  /** The counting parts of the invariant after one iteration. */
  lemma StepCounts(trace: seq<Event>, tail: seq<Event>,
                   url: Url, request: Request, log: Event, echo: seq<Event>, code: nat)
    requires log.Logged? && log.url == url && log.code == code
    requires echo == [] || (|echo| == 1 && echo[0].Message?)
    requires tail == [Sent(url, request), log] + echo
                     + (if code == TooManyRequests then [Slept(CooldownSeconds)] else [])
    ensures Terminal(trace + tail) == Terminal(trace) + (if code == TooManyRequests then [] else [url])
    ensures RateLimited(trace + tail) == RateLimited(trace) + (if code == TooManyRequests then [url] else [])
    ensures Requests(trace + tail) == Requests(trace) + [url]
    ensures Cooldowns(trace + tail) == Cooldowns(trace) + (if code == TooManyRequests then [CooldownSeconds] else [])
  {
    CollectAppend(trace, tail, TerminalOf);
    CollectAppend(trace, tail, RateLimitedOf);
    CollectAppend(trace, tail, SentOf);
    CollectAppend(trace, tail, SleepOf);
    TailProjections(url, request, log, echo, code);
  }

  /** The events of one iteration fit the run, including the index of its log line. */
  lemma StepFits(p: Progress, urls: seq<Url>, c: Credentials, url: Url, log: Event, more: seq<Event>, tail: seq<Event>)
    requires Inv(p, urls, c) && p.queue != [] && url == p.queue[0]
    requires log.Logged? && log.index == p.index && log.count == |urls| && log.url == url
    requires forall e: Event | e in more :: e.Message? || e.Slept?
    requires tail == [Sent(url, BuildRequest(url, c)), log] + more
    ensures forall e | e in p.trace + tail :: Fits(e, urls, c)
  {
    assert url in multiset(urls) by {
      assert url in multiset(p.queue);
    }
    assert |p.queue| + |Terminal(p.trace)| == |urls| by {
      assert |multiset(p.queue) + multiset(Terminal(p.trace))| == |multiset(urls)|;
    }
  }

  /** What the events of one iteration contribute to each projection. */
  lemma TailProjections(url: Url, request: Request, log: Event, echo: seq<Event>, code: nat)
    requires log.Logged? && log.url == url && log.code == code
    requires echo == [] || (|echo| == 1 && echo[0].Message?)
    ensures var tail := [Sent(url, request), log] + echo
                        + (if code == TooManyRequests then [Slept(CooldownSeconds)] else []);
      && Collect(tail, SentOf) == [url]
      && Collect(tail, TerminalOf) == (if code == TooManyRequests then [] else [url])
      && Collect(tail, RateLimitedOf) == (if code == TooManyRequests then [url] else [])
      && Collect(tail, SleepOf) == (if code == TooManyRequests then [CooldownSeconds] else [])
  {
    var sleep := if code == TooManyRequests then [Slept(CooldownSeconds)] else [];
    var tail := [Sent(url, request), log] + echo + sleep;
    assert tail == [Sent(url, request)] + [log] + echo + sleep;
    CollectAppend([Sent(url, request)] + [log] + echo, sleep, SentOf);
    CollectAppend([Sent(url, request)] + [log], echo, SentOf);
    CollectAppend([Sent(url, request)], [log], SentOf);
    CollectAppend([Sent(url, request)] + [log] + echo, sleep, TerminalOf);
    CollectAppend([Sent(url, request)] + [log], echo, TerminalOf);
    CollectAppend([Sent(url, request)], [log], TerminalOf);
    CollectAppend([Sent(url, request)] + [log] + echo, sleep, RateLimitedOf);
    CollectAppend([Sent(url, request)] + [log], echo, RateLimitedOf);
    CollectAppend([Sent(url, request)], [log], RateLimitedOf);
    CollectAppend([Sent(url, request)] + [log] + echo, sleep, SleepOf);
    CollectAppend([Sent(url, request)] + [log], echo, SleepOf);
    CollectAppend([Sent(url, request)], [log], SleepOf);
  }

  /**
   * One iteration that gets a status: the popped URL is sent once and its
   * status line shows the current index. On 429 the URL goes to the back of
   * the queue unchanged, the index stays and the iteration ends with the
   * cooldown; on any other status the index advances by one and the URL
   * leaves the queue.
   */
  lemma Attempt(p: Progress, count: nat, c: Credentials, code: nat, body: map<string, string>)
    requires p.queue != []
    ensures var url := p.queue[0];
      var r := Handle(Dispatch(p, c), count, url, code, body);
      && r.trace[..|p.trace| + 2] == p.trace + [Sent(url, BuildRequest(url, c)), Logged(Classify(code), p.index, count, code, url)]
      && r.sent == p.sent + 1
      && (code == TooManyRequests ==>
            r.queue == p.queue[1..] + [url] && r.index == p.index && r.trace[|r.trace| - 1] == Slept(CooldownSeconds))
      && (code != TooManyRequests ==>
            r.queue == p.queue[1..] && r.index == p.index + 1)
  {
    var url := p.queue[0];
    var r := Handle(Dispatch(p, c), count, url, code, body);
    var head := [Sent(url, BuildRequest(url, c)), Logged(Classify(code), p.index, count, code, url)];
    var echo := Echo(Classify(code), body);
    if code == TooManyRequests {
      assert r.trace == (p.trace + head) + (echo + [Slept(CooldownSeconds)]);
    } else {
      assert r.trace == (p.trace + head) + echo;
    }
  }

  /**
   * What one iteration adds to the trace's projections: one request; on 429
   * one rate-limited line and one cooldown; otherwise one terminal line.
   */
  lemma AttemptCounts(p: Progress, count: nat, c: Credentials, code: nat, body: map<string, string>)
    requires p.queue != []
    ensures var url := p.queue[0];
      var t := Handle(Dispatch(p, c), count, url, code, body).trace;
      && Requests(t) == Requests(p.trace) + [url]
      && Terminal(t) == Terminal(p.trace) + (if code == TooManyRequests then [] else [url])
      && RateLimited(t) == RateLimited(p.trace) + (if code == TooManyRequests then [url] else [])
      && Cooldowns(t) == Cooldowns(p.trace) + (if code == TooManyRequests then [CooldownSeconds] else [])
  {
    var url := p.queue[0];
    var r := Handle(Dispatch(p, c), count, url, code, body);
    var log := Logged(Classify(code), p.index, count, code, url);
    var echo := Echo(Classify(code), body);
    var sleep := if code == TooManyRequests then [Slept(CooldownSeconds)] else [];
    var tail := [Sent(url, BuildRequest(url, c)), log] + echo + sleep;
    assert r.trace == p.trace + tail;
    StepCounts(p.trace, tail, url, BuildRequest(url, c), log, echo, code);
  }

  /** What the aborting iteration leaves: the popped URL was sent last and is in neither the queue nor the outcomes. */
  ghost predicate LostOnAbort(p: Progress, urls: seq<Url>)
  {
    && p.trace != [] && p.trace[|p.trace| - 1].Sent?
    && multiset(p.queue) + multiset(Terminal(p.trace)) + multiset{p.trace[|p.trace| - 1].url} == multiset(urls)
    && p.index == |Terminal(p.trace)| + 1
  }

  /** A transport error ends the run right after the request: nothing is logged for it. */
  lemma AbortStep(p: Progress, urls: seq<Url>, c: Credentials)
    requires Inv(p, urls, c) && p.queue != []
    ensures LostOnAbort(Dispatch(p, c), urls)
  {
    var url := p.queue[0];
    var q := Dispatch(p, c);
    assert q.trace == p.trace + [Sent(url, BuildRequest(url, c))];
    CollectAppend(p.trace, [Sent(url, BuildRequest(url, c))], TerminalOf);
    assert Collect([Sent(url, BuildRequest(url, c))], TerminalOf) == [] by {
      assert [Sent(url, BuildRequest(url, c))][..0] == [];
    }
    assert p.queue == [url] + q.queue;
  }

  /** Every run keeps the invariant, and says why it stopped. */
  lemma {:induction false} RunKeepsInv(p: Progress, urls: seq<Url>, c: Credentials, replies: seq<Reply>)
    requires Inv(p, urls, c)
    ensures var f := Run(p, |urls|, c, replies);
      && (f.halt != Aborted ==> Inv(f.last, urls, c))
      && (f.halt == Completed ==> f.last.queue == [])
      && (f.halt == Exhausted ==> f.last.queue != [])
      && (f.halt == Aborted ==> LostOnAbort(f.last, urls))
    decreases |replies|
  {
    if p.queue != [] && replies != [] {
      match replies[0]
      case TransportError =>
        AbortStep(p, urls, c);
      case Status(code, body) =>
        Step(p, urls, c, code, body);
        RunKeepsInv(Handle(Dispatch(p, c), |urls|, p.queue[0], code, body), urls, c, replies[1..]);
    }
  }

  /**
   * One reply per request: a run stops at the first transport error and
   * only there; every reply it consumed before that was a status. A run
   * that did not abort or drain the queue used every reply it was given.
   */
  lemma {:induction false} RunUsesReplies(p: Progress, count: nat, c: Credentials, replies: seq<Reply>)
    ensures var f := Run(p, count, c, replies);
      var used := f.last.sent - p.sent;
      && 0 <= used <= |replies|
      && (f.halt == Aborted ==> used >= 1 && replies[used - 1].TransportError?)
      && (forall i | 0 <= i < used && !(f.halt == Aborted && i == used - 1) :: replies[i].Status?)
      && (f.halt == Exhausted ==> used == |replies|)
    decreases |replies|
  {
    if p.queue != [] && replies != [] && replies[0].Status? {
      var q := Handle(Dispatch(p, c), count, p.queue[0], replies[0].code, replies[0].body);
      RunUsesReplies(q, count, c, replies[1..]);
      var f := Run(p, count, c, replies);
      assert f == Run(q, count, c, replies[1..]);
      forall i | 1 <= i < f.last.sent - p.sent && !(f.halt == Aborted && i == f.last.sent - p.sent - 1)
        ensures replies[i].Status?
      {
        assert replies[i] == replies[1..][i - 1];
      }
    }
  }

  /**
   * A run from the start that drains the queue: the queue is empty, the
   * index is one past the count, and the status lines logged at Info or
   * Error name every input URL exactly as often as the input does, however
   * often some were rate-limited; one cooldown was taken per 429.
   */
  lemma CompletedRun(urls: seq<Url>, c: Credentials, replies: seq<Reply>)
    ensures var f := Run(Start(urls), |urls|, c, replies);
      f.halt == Completed ==>
        && f.last.queue == []
        && f.last.index == |urls| + 1
        && multiset(Terminal(f.last.trace)) == multiset(urls)
        && |Terminal(f.last.trace)| == |urls|
        && |Cooldowns(f.last.trace)| == |RateLimited(f.last.trace)|
  {
    StartInv(urls, c);
    RunKeepsInv(Start(urls), urls, c, replies);
    var f := Run(Start(urls), |urls|, c, replies);
    if f.halt == Completed {
      Drained(f.last, urls, c);
    }
  }

  /** A run whose next reply is a status continues from the state after that iteration. */
  lemma RunStatusStep(p: Progress, count: nat, c: Credentials, replies: seq<Reply>)
    requires p.queue != [] && replies != [] && replies[0].Status?
    ensures Run(p, count, c, replies)
         == Run(Handle(Dispatch(p, c), count, p.queue[0], replies[0].code, replies[0].body), count, c, replies[1..])
  {
  }

  /** One iteration with a non-429 status, as far as the in-order argument needs it. */
  lemma Advance(p: Progress, count: nat, c: Credentials, code: nat, body: map<string, string>)
    requires p.queue != [] && code != TooManyRequests
    ensures var q := Handle(Dispatch(p, c), count, p.queue[0], code, body);
      && q.queue == p.queue[1..] && q.index == p.index + 1
      && Terminal(q.trace) == Terminal(p.trace) + [p.queue[0]]
      && Cooldowns(q.trace) == Cooldowns(p.trace)
  {
    Attempt(p, count, c, code, body);
    AttemptCounts(p, count, c, code, body);
  }

  /** Without 429 replies the queue is worked off in order, each URL once, the index rising by one per URL. */
  lemma {:induction false} InOrderWithoutRateLimits(p: Progress, count: nat, c: Credentials, replies: seq<Reply>)
    requires NoRateLimits(replies, |p.queue|)
    ensures var f := Run(p, count, c, replies);
      && f.halt == Completed
      && Terminal(f.last.trace) == Terminal(p.trace) + p.queue
      && f.last.index == p.index + |p.queue|
      && Cooldowns(f.last.trace) == Cooldowns(p.trace)
    decreases |p.queue|
  {
    if p.queue != [] {
      NoRateLimitsAhead(|p.queue|, replies);
      var q := Handle(Dispatch(p, c), count, p.queue[0], replies[0].code, replies[0].body);
      RunStatusStep(p, count, c, replies);
      Advance(p, count, c, replies[0].code, replies[0].body);
      InOrderWithoutRateLimits(q, count, c, replies[1..]);
      InOrderCombine(p, q, Run(q, count, c, replies[1..]));
    }
  }

  /** The in-order facts for the rest of the queue extend to the whole queue once its first URL is done. */
  lemma InOrderCombine(p: Progress, q: Progress, f: Final)
    requires p.queue != [] && q.queue == p.queue[1..] && q.index == p.index + 1
    requires Terminal(q.trace) == Terminal(p.trace) + [p.queue[0]] && Cooldowns(q.trace) == Cooldowns(p.trace)
    requires Terminal(f.last.trace) == Terminal(q.trace) + q.queue
    requires f.last.index == q.index + |q.queue| && Cooldowns(f.last.trace) == Cooldowns(q.trace)
    ensures Terminal(f.last.trace) == Terminal(p.trace) + p.queue
    ensures f.last.index == p.index + |p.queue| && Cooldowns(f.last.trace) == Cooldowns(p.trace)
  {
    assert p.queue == [p.queue[0]] + q.queue;
  }

  /** The first `n` replies are statuses other than 429. */
  predicate NoRateLimits(replies: seq<Reply>, n: nat)
  {
    n <= |replies| && forall i | 0 <= i < n :: replies[i].Status? && replies[i].code != TooManyRequests
  }

  /** The replies after the first still carry no 429 for the rest of the queue. */
  lemma NoRateLimitsAhead(n: nat, replies: seq<Reply>)
    requires 0 < n && NoRateLimits(replies, n)
    ensures replies[0].Status? && replies[0].code != TooManyRequests
    ensures NoRateLimits(replies[1..], n - 1)
  {
    forall i | 0 <= i < n - 1
      ensures replies[1..][i].Status? && replies[1..][i].code != TooManyRequests
    {
      assert replies[1..][i] == replies[i + 1];
    }
  }

  /**
   * Two URLs; the first gets 200, the second 429 and then 200: the lines
   * `1/2: 200 -> a`, `2/2: 429 -> b` (at Warn), one 60-second cooldown,
   * then `2/2: 200 -> b` again at position 2, and the run completes.
   */
  lemma RateLimitedOnceScenario(c: Credentials)
    ensures var a, b := "https://a.example", "https://b.example";
      var f := Run(Start([a, b]), 2, c, [Status(200, map[]), Status(429, map[]), Status(200, map[])]);
      && f.halt == Completed
      && f.last.trace == [Sent(a, BuildRequest(a, c)), Logged(Info, 1, 2, 200, a),
                          Sent(b, BuildRequest(b, c)), Logged(Warn, 2, 2, 429, b), Slept(60),
                          Sent(b, BuildRequest(b, c)), Logged(Info, 2, 2, 200, b)]
  {
    var a, b := "https://a.example", "https://b.example";
    var replies := [Status(200, map[]), Status(429, map[]), Status(200, map[])];
    var p0 := Start([a, b]);
    var p1 := Handle(Dispatch(p0, c), 2, a, 200, map[]);
    assert p1 == Progress([b], 2, [Sent(a, BuildRequest(a, c)), Logged(Info, 1, 2, 200, a)], 1);
    var p2 := Handle(Dispatch(p1, c), 2, b, 429, map[]);
    assert Dispatch(p1, c) == Progress([], 2, p1.trace + [Sent(b, BuildRequest(b, c))], 2);
    assert Echo(Warn, map[]) == [];
    assert p2 == Progress([b], 2, p1.trace + [Sent(b, BuildRequest(b, c)), Logged(Warn, 2, 2, 429, b), Slept(60)], 2);
    var p3 := Handle(Dispatch(p2, c), 2, b, 200, map[]);
    assert p3 == Progress([], 3, p2.trace + [Sent(b, BuildRequest(b, c)), Logged(Info, 2, 2, 200, b)], 3);
    assert Run(p2, 2, c, replies[2..]) == Run(p3, 2, c, []) == Final(Completed, p3);
    assert Run(p1, 2, c, replies[1..]) == Run(p2, 2, c, replies[2..]);
    assert Run(p0, 2, c, replies) == Run(p1, 2, c, replies[1..]);
  }

  // ---------------------------------------------------------------------
  // The queue: implementation
  // ---------------------------------------------------------------------

  /**
   * `submit`: pop the front URL, send it, and classify the status; a
   * transport error ends the run. Besides the verdict it returns the loop's
   * final locals (the queue, the index, the trace and the replies used), so
   * that what the run did can be stated.
   */
  method Submit(urls: seq<Url>, c: Credentials, replies: seq<Reply>)
    returns (halt: Halt, queue: seq<Url>, index: nat, trace: seq<Event>, sent: nat)
    ensures Final(halt, Progress(queue, index, trace, sent)) == Run(Start(urls), |urls|, c, replies)
    ensures sent <= |replies|
    ensures halt != Aborted ==> Inv(Progress(queue, index, trace, sent), urls, c)
    ensures halt == Completed ==> queue == [] && index == |urls| + 1 && multiset(Terminal(trace)) == multiset(urls)
    ensures halt == Exhausted ==> queue != [] && sent == |replies|
    ensures halt == Aborted ==> 0 < sent && replies[sent - 1] == TransportError && LostOnAbort(Progress(queue, index, trace, sent), urls)
  {
    var count := |urls|;
    queue, index, trace, sent := urls, 1, [], 0;
    halt := Completed;
    StartInv(urls, c);
    while queue != []
      invariant sent <= |replies|
      invariant Inv(Progress(queue, index, trace, sent), urls, c)
      invariant Run(Progress(queue, index, trace, sent), count, c, replies[sent..]) == Run(Start(urls), count, c, replies)
      decreases |replies| - sent
    {
      if sent == |replies| {
        assert replies[sent..] == [];
        halt := Exhausted;
        break;
      }
      ghost var before := Progress(queue, index, trace, sent);
      var url := queue[0];
      queue := queue[1..];
      trace := trace + [Sent(url, BuildRequest(url, c))];
      var reply := replies[sent];
      sent := sent + 1;
      if reply.TransportError? {
        AbortRun(before, count, c, replies);
        assert Progress(queue, index, trace, sent) == Dispatch(before, c);
        halt := Aborted;
        break;
      }
      queue, index, trace := Report(queue, index, trace, count, url, reply.code, reply.body);
      assert Progress(queue, index, trace, sent) == Handle(Dispatch(before, c), count, url, reply.code, reply.body);
      LoopStep(before, urls, c, replies, reply.code, reply.body);
    }
    assert Final(halt, Progress(queue, index, trace, sent)) == Run(Start(urls), count, c, replies);
    SubmitOutcome(urls, c, replies);
  }

  /** What a run from the start promises at each way of stopping, as `Submit` reports it. */
  lemma SubmitOutcome(urls: seq<Url>, c: Credentials, replies: seq<Reply>)
    ensures var f := Run(Start(urls), |urls|, c, replies);
      && f.last.sent <= |replies|
      && (f.halt != Aborted ==> Inv(f.last, urls, c))
      && (f.halt == Completed ==> f.last.queue == [] && f.last.index == |urls| + 1 && multiset(Terminal(f.last.trace)) == multiset(urls))
      && (f.halt == Exhausted ==> f.last.queue != [] && f.last.sent == |replies|)
      && (f.halt == Aborted ==> 0 < f.last.sent && replies[f.last.sent - 1] == TransportError && LostOnAbort(f.last, urls))
  {
    StartInv(urls, c);
    RunKeepsInv(Start(urls), urls, c, replies);
    RunUsesReplies(Start(urls), |urls|, c, replies);
    CompletedRun(urls, c, replies);
  }

  /** A transport error ends the rest of the run right after its request. */
  lemma AbortRun(p: Progress, count: nat, c: Credentials, replies: seq<Reply>)
    requires p.queue != [] && p.sent < |replies| && replies[p.sent] == TransportError
    ensures Run(p, count, c, replies[p.sent..]) == Final(Aborted, Dispatch(p, c))
  {
    assert replies[p.sent..][0] == TransportError;
  }

  /** A drained queue under the invariant: every input URL reached its terminal outcome, and the index is one past the count. */
  lemma Drained(p: Progress, urls: seq<Url>, c: Credentials)
    requires Inv(p, urls, c) && p.queue == []
    ensures multiset(Terminal(p.trace)) == multiset(urls)
    ensures |Terminal(p.trace)| == |urls| && p.index == |urls| + 1
  {
    assert |multiset(Terminal(p.trace))| == |multiset(urls)|;
  }

  /**
   * The `match status` block of one iteration: log the status line and the
   * body's message at the status's level, then advance the index, or sleep
   * and push the URL to the back of the queue.
   */
  method Report(queue: seq<Url>, index: nat, trace: seq<Event>, count: nat, url: Url, code: nat, body: map<string, string>)
    returns (queue': seq<Url>, index': nat, trace': seq<Event>)
    ensures var h := Handle(Progress(queue, index, trace, 0), count, url, code, body);
      queue' == h.queue && index' == h.index && trace' == h.trace
  {
    queue', index' := queue, index;
    var severity := Classify(code);
    trace' := trace + [Logged(severity, index, count, code, url)];
    if "message" in body {
      trace' := trace' + [Message(severity, body["message"])];
    }
    if code == StatusOk {
      index' := index' + 1;
    } else if code == TooManyRequests {
      trace' := trace' + [Slept(CooldownSeconds)];
      queue' := queue' + [url];
    } else {
      index' := index' + 1;
    }
  }

  /** The loop invariants of `Submit` survive an iteration that gets a status. */
  lemma LoopStep(p: Progress, urls: seq<Url>, c: Credentials, replies: seq<Reply>, code: nat, body: map<string, string>)
    requires Inv(p, urls, c) && p.queue != []
    requires p.sent < |replies| && replies[p.sent] == Status(code, body)
    ensures var q := Handle(Dispatch(p, c), |urls|, p.queue[0], code, body);
      && Inv(q, urls, c)
      && Run(q, |urls|, c, replies[q.sent..]) == Run(p, |urls|, c, replies[p.sent..])
  {
    Step(p, urls, c, code, body);
    LoopRun(p, |urls|, c, replies, code, body);
  }

  /** The run still ahead of `Submit` is the same before and after an iteration that gets a status. */
  lemma LoopRun(p: Progress, count: nat, c: Credentials, replies: seq<Reply>, code: nat, body: map<string, string>)
    requires p.queue != []
    requires p.sent < |replies| && replies[p.sent] == Status(code, body)
    ensures var q := Handle(Dispatch(p, c), count, p.queue[0], code, body);
      Run(q, count, c, replies[q.sent..]) == Run(p, count, c, replies[p.sent..])
  {
    var q := Handle(Dispatch(p, c), count, p.queue[0], code, body);
    assert q.sent == p.sent + 1;
    RunStatusStep(p, count, c, replies[p.sent..]);
    assert replies[p.sent..][1..] == replies[p.sent + 1..];
  }
}
