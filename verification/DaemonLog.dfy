/** What passes between the embedding client and the daemon: requests, replies and how the client
    classifies them, the outside world as an arbitrary oracle, and the log of one client's run with
    the laws its state must obey.  Times are in milliseconds. */
module DaemonLog {
  import opened Prelude

  type Fingerprint = string
  type Text = seq<bv8>
  type Vector = seq<real>

  datatype Request = Request(fingerprint: Option<Fingerprint>, texts: seq<Text>)
  datatype Answer = Answer(dim: nat, embeddings: seq<Vector>)

  datatype ErrorCode =
    ETimeout | ECancelled | ESaturated | EShutdown | EOverCap | EFingerprintMismatch | EOther

  datatype Reply =
    | Completed(answer: Answer)
    | ToolError(code: ErrorCode)
    | RequestTimedOut
    | TransportLost
    | CancellationStalled
    | Malformed

  datatype TransientKind = Timeout | Busy | Unavailable

  datatype Failure =
    | Transient(kind: TransientKind, reopen: bool)
    | OverCap
    | FingerprintMoved
    | Fault

  predicate LosesSession(r: Result<Answer, Failure>) {
    r.Err? && r.error.Transient? && r.error.reopen
  }

  predicate FailsAs(r: Result<Answer, Failure>, kind: TransientKind) {
    r.Err? && r.error.Transient? && r.error.kind == kind
  }

  /** The client's reading of one reply: an answer must have one vector for each text, a refusal is
      never retried, and only a failure that leaves the session in doubt loses it. */
  function Interpret(req: Request, reply: Reply): (r: Result<Answer, Failure>)
    ensures r.Ok? <==> reply.Completed? && |reply.answer.embeddings| == |req.texts|
    ensures r.Ok? ==> reply.answer == r.value
    ensures FailsAs(r, Timeout) <==>
              reply.RequestTimedOut? || reply.CancellationStalled? ||
              reply == ToolError(ETimeout) || reply == ToolError(ECancelled)
    ensures FailsAs(r, Busy) <==> reply == ToolError(ESaturated)
    ensures FailsAs(r, Unavailable) <==> reply.TransportLost? || reply == ToolError(EShutdown)
    ensures r == Err(OverCap) <==> reply == ToolError(EOverCap)
    ensures r == Err(FingerprintMoved) <==> reply == ToolError(EFingerprintMismatch)
    ensures LosesSession(r) <==>
              reply.RequestTimedOut? || reply.TransportLost? || reply.CancellationStalled? ||
              reply == ToolError(EShutdown)
    ensures r == Err(Fault) ==> reply.Malformed? || reply == ToolError(EOther) || reply.Completed?
  {
    match reply
    case Completed(answer) => if |answer.embeddings| == |req.texts| then Ok(answer) else Err(Fault)
    case RequestTimedOut => Err(Transient(Timeout, true))
    case TransportLost => Err(Transient(Unavailable, true))
    case CancellationStalled => Err(Transient(Timeout, true))
    case Malformed => Err(Fault)
    case ToolError(code) =>
      match code
      case ETimeout => Err(Transient(Timeout, false))
      case ECancelled => Err(Transient(Timeout, false))
      case ESaturated => Err(Transient(Busy, false))
      case EShutdown => Err(Transient(Unavailable, true))
      case EOverCap => Err(OverCap)
      case EFingerprintMismatch => Err(FingerprintMoved)
      case EOther => Err(Fault)
  }

  /** Everything the client cannot control.  The first argument numbers the interaction, so each
      answer may differ; the other arguments are what was asked and the time granted. */
  datatype World = World(
    call: (nat, Request, nat) -> (Reply, nat),
    open: (nat, nat) -> (bool, nat),
    oversleep: (nat, nat) -> nat,
    init: bool,
    binds: Fingerprint -> bool,
    privately: (nat, seq<Text>) -> Option<seq<Vector>>,
    embed: (Fingerprint, Text) -> Vector)

  function MapEmbed(w: World, fp: Fingerprint, texts: seq<Text>): (vs: seq<Vector>)
    ensures |vs| == |texts| && forall i :: 0 <= i < |texts| ==> vs[i] == w.embed(fp, texts[i])
  {
    seq(|texts|, i requires 0 <= i < |texts| => w.embed(fp, texts[i]))
  }

  /** What a daemon session holding a model of fingerprint `produces` replies to a request it serves. */
  function Serve(w: World, produces: Fingerprint, dim: nat, req: Request): Reply {
    match req.fingerprint
    case Some(expected) =>
      if expected != produces then ToolError(EFingerprintMismatch)
      else Completed(Answer(dim, MapEmbed(w, produces, req.texts)))
    case None =>
      if req.texts != [] then ToolError(EFingerprintMismatch) else Completed(Answer(dim, []))
  }

  /** Every completed call was served by some daemon session, whatever model that one held. */
  ghost predicate ServedBySessions(w: World) {
    forall n, req, t :: w.call(n, req, t).0.Completed? ==>
      exists produces, dim :: w.call(n, req, t).0 == Serve(w, produces, dim, req)
  }

  /** Vectors answered under an attested fingerprint are that fingerprint's. */
  ghost predicate HonestDaemon(w: World) {
    forall n, fp, texts, t ::
      var reply := w.call(n, Request(Some(fp), texts), t).0;
      reply.Completed? && |reply.answer.embeddings| == |texts| ==> reply.answer.embeddings == MapEmbed(w, fp, texts)
  }

  /** A private embedder that accepts a fingerprint produces its vectors. */
  ghost predicate HonestFallback(w: World) {
    forall fp, n, texts :: w.binds(fp) && w.privately(n, texts).Some? && |w.privately(n, texts).value| == |texts| ==>
      w.privately(n, texts).value == MapEmbed(w, fp, texts)
  }

  lemma SessionsAreHonest(w: World)
    requires ServedBySessions(w)
    ensures HonestDaemon(w)
  {
    forall n, fp, texts, t |
      var reply := w.call(n, Request(Some(fp), texts), t).0;
      reply.Completed? && |reply.answer.embeddings| == |texts|
      ensures w.call(n, Request(Some(fp), texts), t).0.answer.embeddings == MapEmbed(w, fp, texts)
    {
      var req := Request(Some(fp), texts);
      var produces, dim :| w.call(n, req, t).0 == Serve(w, produces, dim, req);
    }
  }

  // ---------------------------------------------------------------- the log

  datatype Event =
    | Called(req: Request, granted: nat, took: nat, outcome: Result<Answer, Failure>)
    | Opened(granted: nat, took: nat, ok: bool)
    | Napped(granted: nat, took: nat)
    | BatchEnded(texts: seq<Text>, result: Option<Failure>)
    | FallbackInitialised(texts: seq<Text>, started: bool)
    | EmbeddedPrivately(texts: seq<Text>, answer: Option<seq<Vector>>)

  type Log = seq<Event>

  /** The texts an event is about. */
  function TextsOf(e: Event): seq<Text> {
    match e
    case Called(req, _, _, _) => req.texts
    case BatchEnded(texts, _) => texts
    case FallbackInitialised(texts, _) => texts
    case EmbeddedPrivately(texts, _) => texts
    case _ => []
  }

  function Init(log: Log): Log
    requires log != []
  {
    log[..|log| - 1]
  }

  function Last(log: Log): Event
    requires log != []
  {
    log[|log| - 1]
  }

  /** The session is unusable: a failure lost it and no connection has replaced it since. */
  predicate SessionLost(log: Log) {
    log != [] &&
    match Last(log)
    case Called(_, _, _, Err(Transient(_, reopen))) => reopen || SessionLost(Init(log))
    case Opened(_, _, ok) => !ok && SessionLost(Init(log))
    case _ => SessionLost(Init(log))
  }

  predicate Saturated(result: Option<Failure>) {
    result.Some? && result.value.Transient? && result.value.kind == Busy
  }

  predicate TimedOut(result: Option<Failure>) {
    result.Some? && result.value.Transient? && result.value.kind == Timeout
  }

  /** The daemon batches of a run, in order, by how they ended. */
  function BatchEnds(log: Log): seq<Option<Failure>> {
    if log == [] then []
    else if Last(log).BatchEnded? then BatchEnds(Init(log)) + [Last(log).result]
    else BatchEnds(Init(log))
  }

  /** Length of the trailing run of saturated batches. */
  function SaturatedRun(ends: seq<Option<Failure>>): nat {
    if ends != [] && Saturated(ends[|ends| - 1]) then 1 + SaturatedRun(ends[..|ends| - 1]) else 0
  }

  const BUSY_BATCHES_BEFORE_BYPASS: nat := 2

  /** The condition under which the rest of the run must not use the daemon. */
  ghost predicate BypassDue(ends: seq<Option<Failure>>) {
    || (exists i :: 0 <= i < |ends| && TimedOut(ends[i]))
    || (exists i :: 0 < i < |ends| && Saturated(ends[i - 1]) && Saturated(ends[i]))
  }

  lemma BypassStep(ends: seq<Option<Failure>>, end: Option<Failure>)
    ensures BypassDue(ends + [end]) <==>
            || BypassDue(ends)
            || TimedOut(end)
            || (Saturated(end) && SaturatedRun(ends) + 1 >= BUSY_BATCHES_BEFORE_BYPASS)
    ensures SaturatedRun(ends + [end]) == if Saturated(end) then SaturatedRun(ends) + 1 else 0
  {
    var all := ends + [end];
    assert all[..|all| - 1] == ends;
    forall i | 0 <= i < |ends| ensures all[i] == ends[i] {}
    assert all[|ends|] == end;
    if TimedOut(end) {
      assert TimedOut(all[|ends|]);
    }
    if Saturated(end) && SaturatedRun(ends) >= 1 {
      assert Saturated(all[|ends| - 1]) && Saturated(all[|ends|]);
    }
    if BypassDue(ends) {
      if i :| 0 <= i < |ends| && TimedOut(ends[i]) {
        assert TimedOut(all[i]);
      } else {
        var i :| 0 < i < |ends| && Saturated(ends[i - 1]) && Saturated(ends[i]);
        assert Saturated(all[i - 1]) && Saturated(all[i]);
      }
    }
  }

  const MAX_TEXT_BYTES: nat := 48_000
  const CALL_MAX_TEXTS: nat := 256
  const CALL_MAX_BYTES: nat := 2_097_152

  /** The caps every request must respect. */
  predicate WithinCaps(texts: seq<Text>) {
    && |texts| <= CALL_MAX_TEXTS
    && TotalBytes(texts) <= CALL_MAX_BYTES
    && forall i :: 0 <= i < |texts| ==> |texts[i]| <= MAX_TEXT_BYTES
  }

  function TotalBytes(texts: seq<Text>): nat {
    if texts == [] then 0 else TotalBytes(texts[..|texts| - 1]) + |texts[|texts| - 1]|
  }

  /** Events that reach for the daemon. */
  predicate UsesDaemon(e: Event) {
    e.Called? || e.Opened?
  }

  /** The last thing that happened, apart from loading the private embedder, is that a daemon batch of
      these texts failed for a reason other than a changed fingerprint. */
  predicate JustFailed(log: Log, texts: seq<Text>) {
    log != [] &&
    match Last(log)
    case BatchEnded(sent, Some(failure)) => failure != FingerprintMoved && sent == texts
    case FallbackInitialised(waiting, _) => waiting == texts && JustFailed(Init(log), texts)
    case _ => false
  }

  predicate Oversize(texts: seq<Text>) {
    texts != [] && forall i :: 0 <= i < |texts| ==> |texts[i]| > MAX_TEXT_BYTES
  }

  /** The texts that may be embedded privately now: those of a batch the daemon failed, those no
      call may carry, and, once the daemon is bypassed, any. */
  ghost predicate MayGoPrivate(log: Log, texts: seq<Text>) {
    JustFailed(log, texts) || Oversize(texts) || BypassDue(BatchEnds(log))
  }

  /** Loading the private embedder was attempted. */
  ghost predicate TriedFallback(log: Log) {
    exists e :: e in log && e.FallbackInitialised?
  }

  /** The private embedder started. */
  ghost predicate StartedFallback(log: Log) {
    exists e :: e in log && e.FallbackInitialised? && e.started
  }

  /** What a lawful run never does. */
  ghost predicate Lawful(log: Log, fp: Fingerprint) {
    && (forall k :: 0 <= k < |log| && log[k].Called? ==>
          !SessionLost(log[..k]) && log[k].req.fingerprint == Some(fp) && WithinCaps(log[k].req.texts))
    && (forall k :: 0 <= k < |log| && log[k].Opened? ==> SessionLost(log[..k]))
    && (forall k :: 0 <= k < |log| && UsesDaemon(log[k]) ==> !BypassDue(BatchEnds(log[..k])))
    && (forall k :: 0 <= k < |log| && log[k].FallbackInitialised? ==>
          !TriedFallback(log[..k]) && MayGoPrivate(log[..k], log[k].texts))
    && (forall k :: 0 <= k < |log| && log[k].EmbeddedPrivately? ==>
          StartedFallback(log[..k]) && MayGoPrivate(log[..k], log[k].texts))
  }

  lemma LawfulStep(log: Log, fp: Fingerprint, e: Event)
    requires Lawful(log, fp)
    requires e.Called? ==> !SessionLost(log) && e.req.fingerprint == Some(fp) && WithinCaps(e.req.texts)
    requires e.Opened? ==> SessionLost(log)
    requires UsesDaemon(e) ==> !BypassDue(BatchEnds(log))
    requires e.FallbackInitialised? ==> !TriedFallback(log) && MayGoPrivate(log, e.texts)
    requires e.EmbeddedPrivately? ==> StartedFallback(log) && MayGoPrivate(log, e.texts)
    ensures Lawful(log + [e], fp)
  {
    hide SessionLost, WithinCaps, BypassDue, BatchEnds, TriedFallback, StartedFallback, MayGoPrivate;
    var more := log + [e];
    forall k | 0 <= k < |log| ensures more[..k] == log[..k] && more[k] == log[k] {}
    assert more[..|log|] == log;
  }

  lemma {:induction false} BatchEndsGrow(log: Log, more: Log)
    ensures BatchEnds(log) <= BatchEnds(log + more)
  {
    if more == [] {
      assert log + more == log;
    } else {
      BatchEndsGrow(log, Init(more));
      assert Init(log + more) == log + Init(more);
    }
  }

  /** Once the bypass is due nothing in the rest of the run reaches for the daemon. */
  lemma NothingAfterBypass(log: Log, fp: Fingerprint, j: nat, k: nat)
    requires Lawful(log, fp) && j <= k < |log| && BypassDue(BatchEnds(log[..j]))
    ensures BypassDue(BatchEnds(log[..k])) && !UsesDaemon(log[k])
  {
    assert log[..k] == log[..j] + log[j..k];
    BatchEndsGrow(log[..j], log[j..k]);
    var few, many := BatchEnds(log[..j]), BatchEnds(log[..k]);
    if i :| 0 <= i < |few| && TimedOut(few[i]) {
      assert TimedOut(many[i]);
    } else {
      var i :| 0 < i < |few| && Saturated(few[i - 1]) && Saturated(few[i]);
      assert Saturated(many[i - 1]) && Saturated(many[i]);
    }
  }

  // ---------------------------------------------------------------- retry policy

  const CONNECT_TIMEOUT: nat := 120_000
  const RECONNECT_POLL: nat := 100

  datatype RetryPolicy = RetryPolicy(
    attemptTimeout: nat, retries: nat, budget: nat, backoff: nat, minAttempt: nat, reconnectTimeout: nat)

  const DEFAULT_POLICY := RetryPolicy(120_000, 2, 240_000, 2_000, 10_000, 15_000)

  function Minus(a: nat, b: nat): nat {
    if a >= b then a - b else 0
  }

  /** The client retries for the `retry`-th time with `left` of its budget remaining. */
  predicate MayRetry(p: RetryPolicy, retry: nat, left: nat) {
    retry <= p.retries && Minus(left, p.backoff * retry) >= p.minAttempt
  }

  // ---------------------------------------------------------------- one batch, as a function of the world

  /** What is logged while connecting again until the time granted, of which `used` has passed, is up. */
  function Reopen(w: World, n: nat, granted: nat, used: nat): (part: Log)
    ensures part != [] && Last(part).Opened?
    decreases Minus(granted, used)
  {
    var limit := Min(CONNECT_TIMEOUT, Minus(granted, used));
    var tried := Opened(limit, w.open(n, limit).1, w.open(n, limit).0);
    var left := Minus(granted, used + tried.took);
    if tried.ok || left == 0 then [tried]
    else
      var asked := Min(RECONNECT_POLL, left);
      var napped := Napped(asked, asked + w.oversleep(n + 1, asked));
      [tried, napped] + Reopen(w, n + 2, granted, used + tried.took + napped.took)
  }

  /** One batch's attempts: what is logged, and what is reported. */
  datatype Tried = Tried(log: Log, result: Result<Answer, Failure>)

  function After(part: Log, t: Tried): Tried {
    Tried(part + t.log, t.result)
  }

  /** The attempts from the `retry`-th on, `elapsed` after the batch began. */
  function Try(w: World, p: RetryPolicy, req: Request,
               n: nat, retry: nat, elapsed: nat, lost: bool, lastError: Option<Failure>): Tried
    requires retry <= p.retries
    decreases p.retries - retry, 1
  {
    if lost then
      var part := Reopen(w, n, Min(p.reconnectTimeout, Minus(Minus(p.budget, elapsed), p.minAttempt)), 0);
      var now := elapsed + Elapsed(part);
      if !Last(part).ok then
        Tried(part, Err(Transient(if lastError.Some? && lastError.value.Transient? then lastError.value.kind else Unavailable, true)))
      else if lastError.Some? && Minus(p.budget, now) < p.minAttempt then Tried(part, Err(lastError.value))
      else After(part, TryCall(w, p, req, n + |part|, retry, now))
    else TryCall(w, p, req, n, retry, elapsed)
  }

  /** The `retry`-th call on a session that is open, and what follows it. */
  function TryCall(w: World, p: RetryPolicy, req: Request, n: nat, retry: nat, elapsed: nat): Tried
    requires retry <= p.retries
    decreases p.retries - retry, 0
  {
    var granted := Min(p.attemptTimeout, Minus(p.budget, elapsed));
    var outcome := Interpret(req, w.call(n, req, granted).0);
    var called := Called(req, granted, w.call(n, req, granted).1, outcome);
    var now := elapsed + called.took;
    if outcome.Ok? || !outcome.error.Transient? || !MayRetry(p, retry + 1, Minus(p.budget, now)) then
      Tried([called], outcome)
    else
      var asked := p.backoff * (retry + 1);
      var napped := Napped(asked, asked + w.oversleep(n + 1, asked));
      After([called, napped],
            Try(w, p, req, n + 2, retry + 1, now + napped.took, LosesSession(outcome), Some(outcome.error)))
  }

  lemma AfterNothing(t: Tried)
    ensures After([], t) == t
  {
    assert [] + t.log == t.log;
  }

  lemma AfterConcat(a: Log, b: Log, t: Tried)
    ensures After(a, After(b, t)) == After(a + b, t)
    ensures forall r :: After(a, Tried(b, r)) == Tried(a + b, r)
  {
    assert a + (b + t.log) == a + b + t.log;
  }

  /** With the session open the attempts start with a call. */
  lemma TryOpen(w: World, p: RetryPolicy, req: Request, n: nat, retry: nat, elapsed: nat, lastError: Option<Failure>)
    requires retry <= p.retries
    ensures Try(w, p, req, n, retry, elapsed, false, lastError) == TryCall(w, p, req, n, retry, elapsed)
  {
  }

  /** With the session lost they start with connecting again. */
  lemma TryLost(w: World, p: RetryPolicy, req: Request, n: nat, retry: nat, elapsed: nat,
                lastError: Option<Failure>, part: Log)
    requires retry <= p.retries && (lastError.Some? ==> lastError.value.Transient?)
    requires part == Reopen(w, n, Min(p.reconnectTimeout, Minus(Minus(p.budget, elapsed), p.minAttempt)), 0)
    ensures var t, now := Try(w, p, req, n, retry, elapsed, true, lastError), elapsed + Elapsed(part);
            t ==
              if !Last(part).ok then
                Tried(part, Err(Transient(if lastError.Some? then lastError.value.kind else Unavailable, true)))
              else if lastError.Some? && Minus(p.budget, now) < p.minAttempt then Tried(part, Err(lastError.value))
              else After(part, TryCall(w, p, req, n + |part|, retry, now))
  {
    hide Elapsed, Reopen, TryCall;
  }

  lemma TryCallStep(w: World, p: RetryPolicy, req: Request, n: nat, retry: nat, elapsed: nat, called: Event)
    requires retry <= p.retries && called.Called?
    requires var granted := Min(p.attemptTimeout, Minus(p.budget, elapsed));
             called == Called(req, granted, w.call(n, req, granted).1, Interpret(req, w.call(n, req, granted).0))
    ensures var t, now := TryCall(w, p, req, n, retry, elapsed), elapsed + called.took;
            var outcome, asked := called.outcome, p.backoff * (retry + 1);
            if outcome.Ok? || !outcome.error.Transient? || !MayRetry(p, retry + 1, Minus(p.budget, now)) then
              t == Tried([called], outcome)
            else
              var took := asked + w.oversleep(n + 1, asked);
              retry + 1 <= p.retries &&
              t == After([called, Napped(asked, took)],
                         Try(w, p, req, n + 2, retry + 1, now + took, LosesSession(outcome), Some(outcome.error)))
  {
    hide Elapsed, Try, Interpret;
  }

  lemma ReopenStep(w: World, n: nat, granted: nat, used: nat, tried: Event)
    requires tried.Opened? && tried.granted == Min(CONNECT_TIMEOUT, Minus(granted, used))
    requires tried.ok == w.open(n, tried.granted).0 && tried.took == w.open(n, tried.granted).1
    ensures var left := Minus(granted, used + tried.took);
            Reopen(w, n, granted, used) ==
              if tried.ok || left == 0 then [tried]
              else
                var asked := Min(RECONNECT_POLL, left);
                var took := asked + w.oversleep(n + 1, asked);
                [tried, Napped(asked, took)] + Reopen(w, n + 2, granted, used + tried.took + took)
  {
  }

  // ---------------------------------------------------------------- measures of a part of the log

  function Calls(part: Log): nat {
    if part == [] then 0 else Calls(Init(part)) + if Last(part).Called? then 1 else 0
  }

  /** The outcome of the last call, if there was one. */
  function LastOutcome(part: Log): Option<Result<Answer, Failure>> {
    if part == [] then None
    else if Last(part).Called? then Some(Last(part).outcome)
    else LastOutcome(Init(part))
  }

  function LastFailure(part: Log): Option<Failure> {
    match LastOutcome(part)
    case Some(Err(f)) => Some(f)
    case _ => None
  }

  function Took(e: Event): nat {
    match e
    case Called(_, _, took, _) => took
    case Opened(_, took, _) => took
    case Napped(_, took) => took
    case _ => 0
  }

  /** By how much the world exceeded the time it was granted. */
  function Over(e: Event): nat {
    match e
    case Called(_, granted, took, _) => Minus(took, granted)
    case Opened(granted, took, _) => Minus(took, granted)
    case Napped(granted, took) => Minus(took, granted)
    case _ => 0
  }

  function Elapsed(part: Log): nat {
    if part == [] then 0 else Elapsed(Init(part)) + Took(Last(part))
  }

  function Overrun(part: Log): nat {
    if part == [] then 0 else Overrun(Init(part)) + Over(Last(part))
  }

  lemma ExtendPart(part: Log, e: Event)
    ensures Init(part + [e]) == part && Last(part + [e]) == e
    ensures forall k :: 0 <= k <= |part| ==> (part + [e])[..k] == part[..k]
  {
  }

  lemma {:induction false} PartConcat(a: Log, b: Log)
    ensures Elapsed(a + b) == Elapsed(a) + Elapsed(b) && Overrun(a + b) == Overrun(a) + Overrun(b)
    ensures Calls(a + b) == Calls(a) + Calls(b)
    ensures LastOutcome(a + b) == if LastOutcome(b).Some? then LastOutcome(b) else LastOutcome(a)
  {
    if b == [] {
      assert a + b == a;
    } else {
      PartConcat(a, Init(b));
      assert Init(a + b) == a + Init(b);
    }
  }

  /** What one more event changes. */
  lemma Logged(log: Log, e: Event)
    ensures Elapsed(log + [e]) == Elapsed(log) + Took(e)
    ensures BatchEnds(log + [e]) == BatchEnds(log) + if e.BatchEnded? then [e.result] else []
    ensures SessionLost(log + [e]) ==
            match e
            case Called(_, _, _, Err(Transient(_, reopen))) => reopen || SessionLost(log)
            case Opened(_, _, ok) => !ok && SessionLost(log)
            case _ => SessionLost(log)
    ensures LastOutcome(log + [e]) == if e.Called? then Some(e.outcome) else LastOutcome(log)
    ensures forall texts ::
              JustFailed(log + [e], texts) == (
                match e
                case BatchEnded(sent, Some(failure)) => failure != FingerprintMoved && sent == texts
                case FallbackInitialised(waiting, _) => waiting == texts && JustFailed(log, texts)
                case _ => false)
    ensures TriedFallback(log + [e]) == (TriedFallback(log) || e.FallbackInitialised?)
    ensures StartedFallback(log + [e]) == (StartedFallback(log) || (e.FallbackInitialised? && e.started))
  {
    ExtendPart(log, e);
    FallbackLogged(log, e);
  }

  /** Loading the private embedder does not stop the texts it is loaded for from going private. */
  lemma LoadingAllows(log: Log, texts: seq<Text>, started: bool)
    requires MayGoPrivate(log, texts)
    ensures MayGoPrivate(log + [FallbackInitialised(texts, started)], texts)
  {
    hide BypassDue, Oversize, BatchEnds, JustFailed, SessionLost, Elapsed, LastOutcome;
    Logged(log, FallbackInitialised(texts, started));
    assert BatchEnds(log + [FallbackInitialised(texts, started)]) == BatchEnds(log);
  }

  lemma FallbackLogged(log: Log, e: Event)
    ensures TriedFallback(log + [e]) == (TriedFallback(log) || e.FallbackInitialised?)
    ensures StartedFallback(log + [e]) == (StartedFallback(log) || (e.FallbackInitialised? && e.started))
  {
    var more := log + [e];
    assert more[|log|] == e;
    forall d ensures d in more <==> d in log || d == e {}
  }

  lemma Pair(a: Event, b: Event)
    ensures Elapsed([a]) == Took(a) && Overrun([a]) == Over(a) && Calls([a]) == if a.Called? then 1 else 0
    ensures Elapsed([a, b]) == Took(a) + Took(b) && Overrun([a, b]) == Over(a) + Over(b)
  {
    assert Init([a]) == [];
    assert Init([a, b]) == [a];
  }

  // ---------------------------------------------------------------- the time a batch takes

  /** The longest a batch can take before its `k`-th retry if nothing overruns and no budget stops it. */
  function Worst(p: RetryPolicy, k: nat): nat {
    if k == 0 then 0 else Worst(p, k - 1) + p.reconnectTimeout + p.attemptTimeout + p.backoff * k
  }

  /** A policy under which no sleep can outlast the budget. */
  predicate Safe(p: RetryPolicy) {
    p.minAttempt > 0 || p.backoff == 0 || Worst(p, p.retries) <= p.budget
  }

  lemma {:induction false} WorstGrows(p: RetryPolicy, j: nat, k: nat)
    requires j <= k
    ensures Worst(p, j) <= Worst(p, k)
  {
    if j < k { WorstGrows(p, j, k - 1); }
  }

  /** Connections and short waits, each given as much of the time granted as remains. */
  predicate Polling(part: Log, granted: nat, used: nat) {
    forall k :: 0 <= k < |part| ==> Polled(part[k], Minus(granted, used + Elapsed(part[..k])))
  }

  predicate Polled(e: Event, left: nat) {
    || (e.Opened? && e.granted == Min(CONNECT_TIMEOUT, left))
    || (e.Napped? && e.granted == Min(RECONNECT_POLL, left))
  }

  /** Every connection failed. */
  predicate NoneOpened(part: Log) {
    forall k :: 0 <= k < |part| && part[k].Opened? ==> !part[k].ok
  }

  /** Connecting again ends with the first connection that succeeds, or when the time granted is up,
      apart from what the world overran. */
  ghost predicate Reconnected(part: Log, granted: nat, used: nat) {
    && part != [] && Last(part).Opened? && NoneOpened(Init(part)) && Polling(part, granted, used)
    && Elapsed(part) <= Minus(granted, used) + Overrun(part)
    && (!Last(part).ok ==> Elapsed(part) >= Minus(granted, used))
  }

  lemma {:induction false} ReopenKeepsTime(w: World, n: nat, granted: nat, used: nat)
    ensures Reconnected(Reopen(w, n, granted, used), granted, used)
    decreases Minus(granted, used)
  {
    hide Elapsed, Overrun, Calls, LastOutcome, Reopen, Polling, NoneOpened;
    var limit := Min(CONNECT_TIMEOUT, Minus(granted, used));
    var tried := Opened(limit, w.open(n, limit).1, w.open(n, limit).0);
    ReopenStep(w, n, granted, used, tried);
    var left := Minus(granted, used + tried.took);
    var asked := Min(RECONNECT_POLL, left);
    var napped := Napped(asked, asked + w.oversleep(n + 1, asked));
    Pair(tried, napped);
    OneOpened(tried, granted, used);
    if !tried.ok && left != 0 {
      var spent := used + tried.took + napped.took;
      ReopenKeepsTime(w, n + 2, granted, spent);
      PollingOn(tried, napped, Reopen(w, n + 2, granted, spent), granted, used);
      PartConcat([tried, napped], Reopen(w, n + 2, granted, spent));
      LastOf([tried, napped], Reopen(w, n + 2, granted, spent));
    }
  }

  lemma OneOpened(tried: Event, granted: nat, used: nat)
    requires tried.Opened? && Polled(tried, Minus(granted, used))
    ensures Last([tried]) == tried && Polling([tried], granted, used) && NoneOpened(Init([tried]))
  {
    assert Elapsed([tried][..0]) == 0;
  }

  lemma PollingOn(tried: Event, napped: Event, rest: Log, granted: nat, used: nat)
    requires tried.Opened? && !tried.ok && napped.Napped? && rest != [] && NoneOpened(Init(rest))
    requires Polled(tried, Minus(granted, used)) && Polled(napped, Minus(granted, used + tried.took))
    requires Polling(rest, granted, used + tried.took + napped.took)
    ensures var all := [tried, napped] + rest; Polling(all, granted, used) && NoneOpened(Init(all))
  {
    hide Polled, Elapsed, Overrun, Calls, LastOutcome;
    var all := [tried, napped] + rest;
    Pair(tried, napped);
    assert all[..0] == [] && all[..1] == [tried];
    NoTime();
    forall k | 0 <= k < |all| ensures Polled(all[k], Minus(granted, used + Elapsed(all[..k]))) {
      if k >= 2 {
        assert all[k] == rest[k - 2] && all[..k] == [tried, napped] + rest[..k - 2];
        PartConcat([tried, napped], rest[..k - 2]);
      }
    }
    forall k | 0 <= k < |Init(all)| && all[k].Opened? ensures !all[k].ok {
      if k >= 2 { assert all[k] == Init(rest)[k - 2]; }
    }
  }

  lemma NoTime()
    ensures Elapsed([]) == 0
  {
  }

  lemma LastOf(a: Log, b: Log)
    requires b != []
    ensures Last(a + b) == Last(b)
  {
  }

  lemma PollingOnly(part: Log, granted: nat, used: nat)
    requires Polling(part, granted, used)
    ensures forall k :: 0 <= k < |part| ==> part[k].Opened? || part[k].Napped?
  {
    hide Elapsed;
    forall k | 0 <= k < |part| ensures part[k].Opened? || part[k].Napped? {
      assert Polled(part[k], Minus(granted, used + Elapsed(part[..k])));
    }
  }

  /** Where a batch stands before its `retry`-th retry, or its first call: `over` is what the world
      has overrun so far. */
  predicate OnTime(p: RetryPolicy, retry: nat, elapsed: nat, over: nat) {
    && elapsed <= p.budget + over
    && (p.minAttempt == 0 && p.backoff > 0 ==> elapsed <= Worst(p, retry) + over)
  }

  lemma {:induction false} TryKeepsTime(
      w: World, p: RetryPolicy, req: Request,
      n: nat, retry: nat, elapsed: nat, over: nat, lost: bool, lastError: Option<Failure>)
    requires Safe(p) && retry <= p.retries && OnTime(p, retry, elapsed, over)
    ensures var t := Try(w, p, req, n, retry, elapsed, lost, lastError);
            elapsed + Elapsed(t.log) <= p.budget + over + Overrun(t.log)
    decreases p.retries - retry, 1
  {
    hide Elapsed, Overrun, Calls, LastOutcome, Reopen, TryCall, Interpret, Safe, Worst;
    if lost {
      var granted := Min(p.reconnectTimeout, Minus(Minus(p.budget, elapsed), p.minAttempt));
      var part := Reopen(w, n, granted, 0);
      ReopenKeepsTime(w, n, granted, 0);
      var now := elapsed + Elapsed(part);
      if Last(part).ok && !(lastError.Some? && Minus(p.budget, now) < p.minAttempt) {
        TryCallKeepsTime(w, p, req, n + |part|, retry, now, over + Overrun(part));
        PartConcat(part, TryCall(w, p, req, n + |part|, retry, now).log);
      }
    } else {
      TryCallKeepsTime(w, p, req, n, retry, elapsed, over);
    }
  }

  lemma {:induction false} TryCallKeepsTime(
      w: World, p: RetryPolicy, req: Request, n: nat, retry: nat, elapsed: nat, over: nat)
    requires Safe(p) && retry <= p.retries && elapsed <= p.budget + over
    requires p.minAttempt == 0 && p.backoff > 0 ==> elapsed <= Worst(p, retry) + p.reconnectTimeout + over
    ensures var t := TryCall(w, p, req, n, retry, elapsed);
            elapsed + Elapsed(t.log) <= p.budget + over + Overrun(t.log)
    decreases p.retries - retry, 0
  {
    hide Elapsed, Overrun, Calls, LastOutcome, Try, Interpret, Safe, Worst, MayRetry, OnTime, LosesSession;
    var granted := Min(p.attemptTimeout, Minus(p.budget, elapsed));
    var outcome := Interpret(req, w.call(n, req, granted).0);
    var called := Called(req, granted, w.call(n, req, granted).1, outcome);
    var now := elapsed + called.took;
    var asked := p.backoff * (retry + 1);
    var napped := Napped(asked, asked + w.oversleep(n + 1, asked));
    Pair(called, napped);
    if outcome.Err? && outcome.error.Transient? && MayRetry(p, retry + 1, Minus(p.budget, now)) {
      SleepKeepsTime(p, retry, now, over + Over(called), w.oversleep(n + 1, asked));
      TryKeepsTime(w, p, req, n + 2, retry + 1, now + napped.took, over + Over(called) + Over(napped),
                   LosesSession(outcome), Some(outcome.error));
      PartConcat([called, napped],
                 Try(w, p, req, n + 2, retry + 1, now + napped.took, LosesSession(outcome), Some(outcome.error)).log);
    }
  }

  /** A sleep the policy allows ends on time. */
  lemma SleepKeepsTime(p: RetryPolicy, retry: nat, now: nat, over: nat, oversleep: nat)
    requires Safe(p) && now <= p.budget + over && MayRetry(p, retry + 1, Minus(p.budget, now))
    requires p.minAttempt == 0 && p.backoff > 0 ==>
               now <= Worst(p, retry) + p.reconnectTimeout + p.attemptTimeout + over
    ensures retry + 1 <= p.retries && OnTime(p, retry + 1, now + p.backoff * (retry + 1) + oversleep, over + oversleep)
  {
    WorstGrows(p, retry + 1, p.retries);
    if p.backoff == 0 {
      assert p.backoff * (retry + 1) == 0;
    }
  }

  // ---------------------------------------------------------------- and no longer

  /** Every call, connection and sleep ends within the time it was given. */
  ghost predicate Punctual(w: World) {
    && (forall n, req, granted :: w.call(n, req, granted).1 <= granted)
    && (forall n, granted :: w.open(n, granted).1 <= granted)
    && (forall n, asked :: w.oversleep(n, asked) == 0)
  }

  lemma {:induction false} PunctualReopen(w: World, n: nat, granted: nat, used: nat)
    requires Punctual(w)
    ensures Overrun(Reopen(w, n, granted, used)) == 0
    decreases Minus(granted, used)
  {
    hide Elapsed, Overrun, Calls, LastOutcome;
    var limit := Min(CONNECT_TIMEOUT, Minus(granted, used));
    var tried := Opened(limit, w.open(n, limit).1, w.open(n, limit).0);
    var left := Minus(granted, used + tried.took);
    var asked := Min(RECONNECT_POLL, left);
    var napped := Napped(asked, asked + w.oversleep(n + 1, asked));
    Pair(tried, napped);
    if !tried.ok && left != 0 {
      PunctualReopen(w, n + 2, granted, used + tried.took + napped.took);
      PartConcat([tried, napped], Reopen(w, n + 2, granted, used + tried.took + napped.took));
    }
  }

  lemma {:induction false} PunctualTry(
      w: World, p: RetryPolicy, req: Request, n: nat, retry: nat, elapsed: nat, lost: bool, lastError: Option<Failure>)
    requires Punctual(w) && retry <= p.retries
    ensures Overrun(Try(w, p, req, n, retry, elapsed, lost, lastError).log) == 0
    decreases p.retries - retry, 1
  {
    hide Elapsed, Overrun, Calls, LastOutcome, Reopen, TryCall, Interpret, Punctual;
    if lost {
      var granted := Min(p.reconnectTimeout, Minus(Minus(p.budget, elapsed), p.minAttempt));
      var part := Reopen(w, n, granted, 0);
      var now := elapsed + Elapsed(part);
      PunctualReopen(w, n, granted, 0);
      PunctualTryCall(w, p, req, n + |part|, retry, now);
      PartConcat(part, TryCall(w, p, req, n + |part|, retry, now).log);
    } else {
      PunctualTryCall(w, p, req, n, retry, elapsed);
    }
  }

  lemma {:induction false} PunctualTryCall(
      w: World, p: RetryPolicy, req: Request, n: nat, retry: nat, elapsed: nat)
    requires Punctual(w) && retry <= p.retries
    ensures Overrun(TryCall(w, p, req, n, retry, elapsed).log) == 0
    decreases p.retries - retry, 0
  {
    hide Elapsed, Overrun, Calls, LastOutcome, Try, Interpret, LosesSession;
    var granted := Min(p.attemptTimeout, Minus(p.budget, elapsed));
    var outcome := Interpret(req, w.call(n, req, granted).0);
    var called := Called(req, granted, w.call(n, req, granted).1, outcome);
    var now := elapsed + called.took;
    var asked := p.backoff * (retry + 1);
    var napped := Napped(asked, asked + w.oversleep(n + 1, asked));
    Pair(called, napped);
    if outcome.Err? && outcome.error.Transient? && MayRetry(p, retry + 1, Minus(p.budget, now)) {
      PunctualTry(w, p, req, n + 2, retry + 1, now + napped.took, LosesSession(outcome), Some(outcome.error));
      PartConcat([called, napped],
                 Try(w, p, req, n + 2, retry + 1, now + napped.took, LosesSession(outcome), Some(outcome.error)).log);
    }
  }

  /** A daemon that loses every call when its time is up, and is back only when the time to connect
      again is, too. */
  function SlowestWorld(): World {
    World(
      (n: nat, req: Request, granted: nat) => (TransportLost, granted),
      (n: nat, granted: nat) => if granted < CONNECT_TIMEOUT then (true, granted) else (false, 0),
      (n: nat, asked: nat) => 0,
      false, fp => false, (n, texts) => None, (fp, text) => [])
  }

  lemma {:induction false} SlowestReopen(n: nat, granted: nat, used: nat)
    requires used <= granted
    ensures var part := Reopen(SlowestWorld(), n, granted, used);
            Elapsed(part) == granted - used && Last(part).ok
    decreases granted - used
  {
    hide Elapsed, Overrun, Calls, LastOutcome;
    var w := SlowestWorld();
    var limit := Min(CONNECT_TIMEOUT, Minus(granted, used));
    var tried := Opened(limit, w.open(n, limit).1, w.open(n, limit).0);
    var left := Minus(granted, used + tried.took);
    var asked := Min(RECONNECT_POLL, left);
    var napped := Napped(asked, asked + w.oversleep(n + 1, asked));
    Pair(tried, napped);
    if !tried.ok {
      var rest := Reopen(w, n + 2, granted, used + tried.took + napped.took);
      SlowestReopen(n + 2, granted, used + tried.took + napped.took);
      PartConcat([tried, napped], rest);
      assert Last([tried, napped] + rest) == Last(rest);
    }
  }

  /** Against the slowest world a batch that can exceed its budget does. */
  lemma {:induction false} SlowestTry(
      p: RetryPolicy, req: Request, n: nat, retry: nat, elapsed: nat, lastError: Option<Failure>)
    requires p.minAttempt == 0 && p.backoff > 0 && retry <= p.retries && elapsed <= p.budget
    requires elapsed + Worst(p, p.retries) - Worst(p, retry) > p.budget
    ensures elapsed + Elapsed(Try(SlowestWorld(), p, req, n, retry, elapsed, true, lastError).log) > p.budget
    decreases p.retries - retry, 1
  {
    hide Elapsed, Overrun, Calls, LastOutcome, Reopen, TryCall, Worst;
    var w := SlowestWorld();
    var granted := Min(p.reconnectTimeout, Minus(Minus(p.budget, elapsed), p.minAttempt));
    var part := Reopen(w, n, granted, 0);
    SlowestReopen(n, granted, 0);
    SlowestTryCall(p, req, n + |part|, retry, elapsed + granted);
    PartConcat(part, TryCall(w, p, req, n + |part|, retry, elapsed + granted).log);
  }

  lemma {:induction false} SlowestTryCall(p: RetryPolicy, req: Request, n: nat, retry: nat, elapsed: nat)
    requires p.minAttempt == 0 && p.backoff > 0 && retry < p.retries && elapsed <= p.budget
    requires elapsed == p.budget ||
             elapsed + Worst(p, p.retries) - Worst(p, retry) > p.budget + p.reconnectTimeout
    ensures elapsed + Elapsed(TryCall(SlowestWorld(), p, req, n, retry, elapsed).log) > p.budget
    decreases p.retries - retry, 0
  {
    hide Elapsed, Overrun, Calls, LastOutcome, Try;
    var granted := Min(p.attemptTimeout, Minus(p.budget, elapsed));
    var failure := Transient(Unavailable, true);
    var asked := p.backoff * (retry + 1);
    var next := elapsed + granted + asked;
    var rest := Try(SlowestWorld(), p, req, n + 2, retry + 1, next, true, Some(failure));
    var called, napped := Called(req, granted, granted, Err(failure)), Napped(asked, asked);
    assert TryCall(SlowestWorld(), p, req, n, retry, elapsed) == After([called, napped], rest);
    Pair(called, napped);
    PartConcat([called, napped], rest.log);
    assert asked > 0;
    if next <= p.budget {
      SlowestTry(p, req, n + 2, retry + 1, next, Some(failure));
    }
  }

  /** Attempts that are never given more time than the budget leaves keep within it, whatever the
      daemon does, exactly under a safe policy. */
  lemma BudgetHoldsExactlyForSafePolicies(p: RetryPolicy)
    ensures Safe(p) <==>
            forall w, req, n, lost ::
              Punctual(w) ==> Elapsed(Try(w, p, req, n, 0, 0, lost, None).log) <= p.budget
  {
    if Safe(p) {
      forall w, req, n, lost | Punctual(w)
        ensures Elapsed(Try(w, p, req, n, 0, 0, lost, None).log) <= p.budget
      {
        TryKeepsTime(w, p, req, n, 0, 0, 0, lost, None);
        PunctualTry(w, p, req, n, 0, 0, lost, None);
      }
    } else {
      var req := Request(None, []);
      SlowestTry(p, req, 0, 0, 0, None);
      assert Punctual(SlowestWorld());
    }
  }

  // ---------------------------------------------------------------- the laws of one batch

  /** The attempts of one batch: calls, connections and sleeps only, all calls with one request, and
      every call that something follows failed transiently. */
  ghost predicate Attempts(part: Log, req: Request) {
    && (forall k :: 0 <= k < |part| ==> part[k].Called? || part[k].Opened? || part[k].Napped?)
    && (forall k :: 0 <= k < |part| && part[k].Called? ==> part[k].req == req)
    && (forall k :: 0 <= k < |part| - 1 && part[k].Called? ==>
          part[k].outcome.Err? && part[k].outcome.error.Transient?)
  }

  ghost predicate FailedTransiently(part: Log) {
    forall k :: 0 <= k < |part| && part[k].Called? ==> part[k].outcome.Err? && part[k].outcome.error.Transient?
  }

  predicate ReopeningFailed(part: Log) {
    part != [] && Last(part).Opened? && !Last(part).ok
  }

  /** What the attempts report: the last call's outcome, or, when the session could not be reopened,
      a failure of the kind that lost it. */
  function FinalOutcome(part: Log): Result<Answer, Failure> {
    if ReopeningFailed(part) then
      match LastFailure(part)
      case Some(Transient(kind, _)) => Err(Transient(kind, true))
      case _ => Err(Transient(Unavailable, true))
    else
      match LastOutcome(part)
      case Some(outcome) => outcome
      case None => Err(Transient(Unavailable, true))
  }

  /** The session could not be replaced in all the time there was for it: its share of the budget, of
      which a worthwhile attempt's time was kept back. */
  ghost predicate GaveUp(p: RetryPolicy, part: Log) {
    exists m :: 0 <= m < |part| && LeftBehind(p, part[..m], part[m..])
  }

  ghost predicate LeftBehind(p: RetryPolicy, before: Log, more: Log) {
    var granted := Min(p.reconnectTimeout, Minus(Minus(p.budget, Elapsed(before)), p.minAttempt));
    && BetweenCalls(before) && Polling(more, granted, 0) && NoneOpened(more)
    && Elapsed(more) >= granted
  }

  /** The batch begins, or a call and the sleep after it have just ended. */
  predicate BetweenCalls(part: Log) {
    part == [] || (|part| >= 2 && part[|part| - 2].Called? && Last(part).Napped?)
  }

  /** No further attempt was due: the session could not be replaced, or all retries were made, or the
      next sleep would not have left a worthwhile attempt's time. */
  ghost predicate Exhausted(p: RetryPolicy, part: Log) {
    if ReopeningFailed(part) then GaveUp(p, part)
    else
      || Calls(part) == p.retries + 1
      || (p.minAttempt > 0 && p.budget < Elapsed(part) + p.backoff * Calls(part) + p.minAttempt)
  }

  /** A call may take an attempt's time, but no more than the budget leaves. */
  predicate RightlyGranted(p: RetryPolicy, before: Log, e: Event) {
    e.Called? ==> e.granted == Min(p.attemptTimeout, Minus(p.budget, Elapsed(before)))
  }

  /** A sleep follows the call, one backoff longer for each call made. */
  predicate SleptAfter(p: RetryPolicy, before: Log, e: Event) {
    before != [] && Last(before).Called? ==>
      e.Napped? && e.granted == p.backoff * Calls(before) <= e.took
  }

  ghost predicate Paced(p: RetryPolicy, part: Log) {
    forall k :: 0 <= k < |part| ==> RightlyGranted(p, part[..k], part[k]) && SleptAfter(p, part[..k], part[k])
  }

  /** Each call was granted a worthwhile attempt's time, less what the world had overrun by then. */
  ghost predicate WorthwhileCalls(p: RetryPolicy, part: Log) {
    p.budget >= p.minAttempt ==>
      forall k :: 0 <= k < |part| && part[k].Called? ==>
        part[k].granted + Overrun(part[..k]) >= Min(p.attemptTimeout, p.minAttempt)
  }

  /** Enough of the budget remains for another attempt, apart from what the world overran. */
  predicate HasRoom(p: RetryPolicy, part: Log) {
    p.budget >= p.minAttempt ==> Minus(p.budget, Elapsed(part)) + Overrun(part) >= p.minAttempt
  }

  /** The answer is one the daemon gave to this request. */
  ghost predicate GivenTo(w: World, req: Request, answer: Answer) {
    exists n, granted :: Interpret(req, w.call(n, req, granted).0) == Ok(answer)
  }

  /** What one batch's attempts come to. */
  ghost predicate Concluded(w: World, p: RetryPolicy, req: Request, part: Log, result: Result<Answer, Failure>) {
    && Attempts(part, req) && WorthwhileCalls(p, part) && Paced(p, part) && Calls(part) <= p.retries + 1
    && result == FinalOutcome(part)
    && (result.Ok? ==> GivenTo(w, req, result.value))
    && (result.Err? && result.error.Transient? ==> Exhausted(p, part))
  }

  /** Between two attempts: everything so far failed transiently and there is room for another call. */
  ghost predicate Trying(p: RetryPolicy, req: Request, part: Log, retry: nat) {
    && Attempts(part, req) && FailedTransiently(part)
    && WorthwhileCalls(p, part) && Paced(p, part) && HasRoom(p, part)
    && (part == [] || !Last(part).Called?) && Calls(part) == retry <= p.retries
  }

  lemma {:induction false} NoCalls(part: Log)
    requires forall k :: 0 <= k < |part| ==> part[k].Opened? || part[k].Napped?
    ensures Calls(part) == 0 && LastOutcome(part).None?
  {
    if part != [] { NoCalls(Init(part)); }
  }

  lemma CallsGrow(p: RetryPolicy, part: Log, more: Log)
    requires WorthwhileCalls(p, part) && forall k :: 0 <= k < |more| ==> !more[k].Called?
    ensures WorthwhileCalls(p, part + more)
  {
    forall k | 0 <= k < |part + more| && (part + more)[k].Called? ensures (part + more)[..k] == part[..k] {}
  }

  lemma PacedOn(p: RetryPolicy, part: Log, more: Log)
    requires Paced(p, part) && forall k :: 0 <= k < |more| ==> !more[k].Called?
    requires more != [] ==> SleptAfter(p, part, more[0])
    ensures Paced(p, part + more)
  {
    hide RightlyGranted, SleptAfter;
    var all := part + more;
    forall k | 0 <= k < |all| ensures RightlyGranted(p, all[..k], all[k]) && SleptAfter(p, all[..k], all[k]) {
      if k < |part| {
        assert all[..k] == part[..k] && all[k] == part[k];
      } else {
        NoCallNoGrant(p, all[..k], all[k]);
        if k == |part| {
          assert all[..k] == part;
        } else {
          assert Last(all[..k]) == more[k - 1 - |part|];
          NoSleepDue(p, all[..k], all[k]);
        }
      }
    }
  }

  lemma NoCallNoGrant(p: RetryPolicy, before: Log, e: Event)
    requires !e.Called?
    ensures RightlyGranted(p, before, e)
  {
  }

  lemma NoSleepDue(p: RetryPolicy, before: Log, e: Event)
    requires before == [] || !Last(before).Called?
    ensures SleptAfter(p, before, e)
  {
  }

  lemma PacedCall(p: RetryPolicy, part: Log, e: Event)
    requires Paced(p, part) && SleptAfter(p, part, e) && RightlyGranted(p, part, e)
    ensures Paced(p, part + [e])
  {
    hide RightlyGranted, SleptAfter;
    var all := part + [e];
    forall k | 0 <= k < |all| ensures RightlyGranted(p, all[..k], all[k]) && SleptAfter(p, all[..k], all[k]) {
      if k < |part| {
        assert all[..k] == part[..k] && all[k] == part[k];
      } else {
        assert all[..k] == part;
      }
    }
  }

  lemma ReopeningKeepsTrying(p: RetryPolicy, req: Request, part: Log, more: Log, retry: nat)
    requires Trying(p, req, part, retry)
    requires more != [] && forall k :: 0 <= k < |more| ==> more[k].Opened? || more[k].Napped?
    requires Elapsed(more) <=
             Min(p.reconnectTimeout, Minus(Minus(p.budget, Elapsed(part)), p.minAttempt)) + Overrun(more)
    ensures Trying(p, req, part + more, retry) && LastOutcome(part + more) == LastOutcome(part)
    ensures Elapsed(part + more) == Elapsed(part) + Elapsed(more) && Last(part + more) == Last(more)
  {
    hide Elapsed, Overrun, Calls, LastOutcome, WorthwhileCalls, Paced;
    PartConcat(part, more);
    NoCalls(more);
    CallsGrow(p, part, more);
    PacedOn(p, part, more);
  }

  lemma CallKeepsLaws(p: RetryPolicy, req: Request, part: Log, e: Event, retry: nat)
    requires Trying(p, req, part, retry) && e.Called? && e.req == req
    requires e.granted == Min(p.attemptTimeout, Minus(p.budget, Elapsed(part)))
    ensures var all := part + [e];
            && Attempts(all, req) && WorthwhileCalls(p, all) && Paced(p, all) && Calls(all) == retry + 1
            && LastOutcome(all) == Some(e.outcome) && FinalOutcome(all) == e.outcome && Last(all) == e
            && Elapsed(all) == Elapsed(part) + e.took
            && (e.outcome.Err? && e.outcome.error.Transient? ==> FailedTransiently(all))
  {
    hide Paced;
    var all := part + [e];
    ExtendPart(part, e);
    PacedCall(p, part, e);
    forall k | 0 <= k < |all| && all[k].Called? ensures all[..k] == part[..k] {}
    assert part[..|part|] == part;
  }

  lemma SleepKeepsTrying(p: RetryPolicy, req: Request, part: Log, e: Event, retry: nat)
    requires Attempts(part, req) && FailedTransiently(part) && WorthwhileCalls(p, part) && Paced(p, part)
    requires Calls(part) == retry && part != [] && Last(part).Called?
    requires MayRetry(p, retry, Minus(p.budget, Elapsed(part)))
    requires e.Napped? && e.granted == p.backoff * retry && e.took >= e.granted
    ensures Trying(p, req, part + [e], retry) && LastOutcome(part + [e]) == LastOutcome(part)
    ensures Elapsed(part + [e]) == Elapsed(part) + e.took && BetweenCalls(part + [e])
  {
    hide WorthwhileCalls, Paced;
    ExtendPart(part, e);
    CallsGrow(p, part, [e]);
    PacedOn(p, part, [e]);
  }

  lemma ReopeningGaveUp(p: RetryPolicy, part: Log, more: Log)
    requires BetweenCalls(part)
    requires var granted := Min(p.reconnectTimeout, Minus(Minus(p.budget, Elapsed(part)), p.minAttempt));
             Reconnected(more, granted, 0) && !Last(more).ok
    ensures ReopeningFailed(part + more) && GaveUp(p, part + more)
  {
    hide Elapsed, Overrun, Polling;
    LastOf(part, more);
    var all := part + more;
    assert all[..|part|] == part && all[|part|..] == more;
    forall k | 0 <= k < |more| && more[k].Opened? ensures !more[k].ok {
      if k < |more| - 1 { assert more[k] == Init(more)[k]; }
    }
  }

  lemma {:induction false} TryKeepsLaws(
      w: World, p: RetryPolicy, req: Request, n: nat, part: Log, retry: nat, lost: bool, lastError: Option<Failure>)
    requires Trying(p, req, part, retry) && BetweenCalls(part) && lastError == LastFailure(part)
    requires lastError.Some? ==> lastError.value.Transient?
    requires lastError.None? ==> LastOutcome(part).None?
    ensures var t := Try(w, p, req, n, retry, Elapsed(part), lost, lastError);
            Concluded(w, p, req, part + t.log, t.result)
    decreases p.retries - retry, 1
  {
    hide Elapsed, Overrun, Calls, LastOutcome, Reopen, TryCall, Attempts, FailedTransiently, WorthwhileCalls;
    hide GivenTo, MayRetry, Paced, GaveUp, Polling, NoneOpened;
    var now := Elapsed(part);
    if lost {
      var granted := Min(p.reconnectTimeout, Minus(Minus(p.budget, now), p.minAttempt));
      var more := Reopen(w, n, granted, 0);
      ReopenKeepsTime(w, n, granted, 0);
      PollingOnly(more, granted, 0);
      ReopeningKeepsTrying(p, req, part, more, retry);
      if !Last(more).ok {
        ReopeningGaveUp(p, part, more);
      } else if lastError.Some? && Minus(p.budget, Elapsed(part + more)) < p.minAttempt {
      } else {
        TryCallKeepsLaws(w, p, req, n + |more|, part + more, retry);
        assert part + (more + TryCall(w, p, req, n + |more|, retry, Elapsed(part + more)).log) ==
               part + more + TryCall(w, p, req, n + |more|, retry, Elapsed(part + more)).log;
      }
    } else {
      TryCallKeepsLaws(w, p, req, n, part, retry);
    }
  }

  lemma {:induction false} TryCallKeepsLaws(w: World, p: RetryPolicy, req: Request, n: nat, part: Log, retry: nat)
    requires Trying(p, req, part, retry)
    ensures var t := TryCall(w, p, req, n, retry, Elapsed(part)); Concluded(w, p, req, part + t.log, t.result)
    decreases p.retries - retry, 0
  {
    hide Elapsed, Overrun, Calls, LastOutcome, Try, Attempts, FailedTransiently, WorthwhileCalls, HasRoom, Interpret;
    hide Paced, GaveUp;
    var granted := Min(p.attemptTimeout, Minus(p.budget, Elapsed(part)));
    var outcome := Interpret(req, w.call(n, req, granted).0);
    var called := Called(req, granted, w.call(n, req, granted).1, outcome);
    var all := part + [called];
    CallKeepsLaws(p, req, part, called, retry);
    if outcome.Err? && outcome.error.Transient? && MayRetry(p, retry + 1, Minus(p.budget, Elapsed(all))) {
      var asked := p.backoff * (retry + 1);
      var napped := Napped(asked, asked + w.oversleep(n + 1, asked));
      SleepKeepsTrying(p, req, all, napped, retry + 1);
      TryKeepsLaws(w, p, req, n + 2, all + [napped], retry + 1, LosesSession(outcome), Some(outcome.error));
      var rest := Try(w, p, req, n + 2, retry + 1, Elapsed(all + [napped]), LosesSession(outcome), Some(outcome.error));
      assert part + ([called, napped] + rest.log) == all + [napped] + rest.log;
    }
  }

  /** At most retries + 1 calls, each given a worthwhile attempt's time; no call after a decisive
      answer; the last outcome is reported; a transient failure is reported only when all retries were
      made, no worthwhile time was left for another, or the session could not be replaced in time. */
  lemma BatchKeepsLaws(w: World, p: RetryPolicy, req: Request, n: nat, lost: bool)
    ensures var t := Try(w, p, req, n, 0, 0, lost, None); Concluded(w, p, req, t.log, t.result)
    ensures var t := Try(w, p, req, n, 0, 0, lost, None);
            Safe(p) ==> Elapsed(t.log) <= p.budget + Overrun(t.log)
  {
    TryKeepsLaws(w, p, req, n, [], 0, lost, None);
    assert [] + Try(w, p, req, n, 0, 0, lost, None).log == Try(w, p, req, n, 0, 0, lost, None).log;
    if Safe(p) {
      TryKeepsTime(w, p, req, n, 0, 0, 0, lost, None);
    }
  }

  /** As the client ships, a batch makes at most three calls, and takes four minutes and whatever the
      world overruns. */
  lemma DefaultBatch(w: World, req: Request, n: nat, lost: bool)
    ensures var t := Try(w, DEFAULT_POLICY, req, n, 0, 0, lost, None);
            Calls(t.log) <= 3 && Elapsed(t.log) <= 240_000 + Overrun(t.log)
  {
    BatchKeepsLaws(w, DEFAULT_POLICY, req, n, lost);
  }

  lemma BatchIsBounded(w: World, p: RetryPolicy, req: Request, part: Log, result: Result<Answer, Failure>)
    requires Concluded(w, p, req, part, result)
    ensures Calls(part) <= p.retries + 1
  {
  }

  /** A decisive outcome is that of the last call of the whole run. */
  lemma DecisiveOutcomeIsLast(
      w: World, p: RetryPolicy, req: Request, log: Log, part: Log, result: Result<Answer, Failure>)
    requires Concluded(w, p, req, part, result)
    ensures result.Ok? || !result.error.Transient? ==> LastOutcome(log + part) == Some(result)
    ensures result.Ok? ==> |result.value.embeddings| == |req.texts|
    ensures forall fp :: result.Ok? && HonestDaemon(w) && req.fingerprint == Some(fp) ==>
              result.value.embeddings == MapEmbed(w, fp, req.texts)
  {
    hide Attempts, WorthwhileCalls, Paced, Exhausted, MapEmbed, LastOutcome, Calls;
    PartConcat(log, part);
    if result.Ok? {
      var n, granted :| Interpret(req, w.call(n, req, granted).0) == Ok(result.value);
      assert forall fp :: req.fingerprint == Some(fp) ==> req == Request(Some(fp), req.texts);
    }
  }

  /** Only the last call can have been answered, and then nothing follows it. */
  lemma OnlyTheLastCallAnswers(part: Log, req: Request, result: Result<Answer, Failure>)
    requires Attempts(part, req) && result == FinalOutcome(part)
    ensures forall e :: e in part ==> e.Called? || e.Opened? || e.Napped?
    ensures forall e :: e in part && e.Called? ==> e.req == req
    ensures forall e :: e in part && e.Called? && e.outcome.Ok? ==> result == e.outcome
    ensures result.Ok? || !result.error.Transient? ==> LastOutcome(part) == Some(result)
  {
    hide LastOutcome;
    forall e | e in part && e.Called? && e.outcome.Ok? ensures result == e.outcome {
      var k :| 0 <= k < |part| && part[k] == e;
      assert k == |part| - 1;
      Logged(Init(part), e);
      assert Init(part) + [e] == part;
    }
  }

  // ---------------------------------------------------------------- many batches

  /** From one point of a log to a later one, as many batches as ended in between account for the calls
      made and the time they took. */
  ghost predicate Spends(p: RetryPolicy, before: Log, after: Log) {
    && before <= after
    && var more, n := after[|before|..], |BatchEnds(after)| - |BatchEnds(before)|;
       && n >= 0 && Calls(more) <= n * (p.retries + 1)
       && (Safe(p) ==> Elapsed(more) <= n * p.budget + Overrun(more))
  }

  lemma SpendsNothing(p: RetryPolicy, log: Log)
    ensures Spends(p, log, log)
  {
  }

  lemma SpendsOn(p: RetryPolicy, a: Log, b: Log, c: Log)
    requires Spends(p, a, b) && Spends(p, b, c)
    ensures Spends(p, a, c)
  {
    hide Calls, Elapsed, Overrun, BatchEnds, Safe;
    assert c[|a|..] == b[|a|..] + c[|b|..];
    PartConcat(b[|a|..], c[|b|..]);
    var m, n := |BatchEnds(b)| - |BatchEnds(a)|, |BatchEnds(c)| - |BatchEnds(b)|;
    TimesDistributes(m, n, p.retries + 1);
    TimesDistributes(m, n, p.budget);
  }

  lemma TimesDistributes(m: nat, n: nat, k: nat)
    ensures (m + n) * k == m * k + n * k
  {
  }

  /** What a plan of n calls may cost. */
  ghost predicate Affordable(p: RetryPolicy, n: nat, more: Log) {
    && Calls(more) <= n * (p.retries + 1)
    && (Safe(p) ==> Elapsed(more) <= n * p.budget + Overrun(more))
  }

  lemma SpendsAtMost(p: RetryPolicy, before: Log, after: Log, n: nat)
    requires Spends(p, before, after) && |BatchEnds(after)| <= |BatchEnds(before)| + n
    ensures before <= after && Affordable(p, n, after[|before|..])
  {
    hide Calls, Elapsed, Overrun, BatchEnds, Safe;
    var m: nat := |BatchEnds(after)| - |BatchEnds(before)|;
    TimesGrows(m, n, p.retries + 1);
    TimesGrows(m, n, p.budget);
  }

  lemma TimesGrows(m: nat, n: nat, k: nat)
    requires m <= n
    ensures m * k <= n * k
  {
  }

  /** An event that neither calls, connects nor sleeps, nor ends a batch, spends nothing. */
  lemma SpendsQuietly(p: RetryPolicy, log: Log, e: Event)
    requires e.FallbackInitialised? || e.EmbeddedPrivately?
    ensures Spends(p, log, log + [e])
  {
    ExtendPart(log, e);
    ExtendPart([], e);
    assert (log + [e])[|log|..] == [] + [e];
  }

  /** One batch, its end included. */
  lemma SpendsOneBatch(p: RetryPolicy, log: Log, part: Log, end: Event)
    requires end.BatchEnded? && BatchEnds(log + part) == BatchEnds(log)
    requires Calls(part) <= p.retries + 1 && (Safe(p) ==> Elapsed(part) <= p.budget + Overrun(part))
    ensures Spends(p, log, log + part + [end])
  {
    hide Safe, Calls, Elapsed, Overrun, BatchEnds;
    EndCounts(log + part, end);
    Pair(end, end);
    PartConcat(part, [end]);
    assert (log + part + [end])[|log|..] == part + [end];
  }

  lemma EndCounts(log: Log, end: Event)
    requires end.BatchEnded?
    ensures BatchEnds(log + [end]) == BatchEnds(log) + [end.result]
  {
    ExtendPart(log, end);
  }
}
