/** The client that embeds an indexing batch through the running daemon: planned calls, retries and
    reconnects within a wall-clock budget, and a private embedder to fall back to. */
module DaemonClient {
  import opened DaemonLog
  import BatchPlanner
  import opened Prelude

  /** The outside world as one client meets it, and the log of what passed between them. */
  class Environment {
    const world: World
    /** The fingerprint the daemon reported when the client connected. */
    const reported: Fingerprint
    var now: nat
    var steps: nat
    ghost var log: Log

    constructor (world: World, reported: Fingerprint)
      ensures this.world == world && this.reported == reported && log == [] && Valid()
    {
      this.world, this.reported, now, steps, log := world, reported, 0, 0, [];
    }

    ghost predicate Valid()
      reads this
    {
      now == Elapsed(log) && Lawful(log, reported)
    }

    method Call(req: Request, granted: nat) returns (r: Result<Answer, Failure>, ghost e: Event)
      requires Valid() && !SessionLost(log) && !BypassDue(BatchEnds(log))
      requires req.fingerprint == Some(reported) && WithinCaps(req.texts)
      modifies this
      ensures Valid() && log == old(log) + [e]
      ensures e == Called(req, granted, now - old(now), r) && now >= old(now)
      ensures r == Interpret(req, world.call(old(steps), req, granted).0)
      ensures now == old(now) + world.call(old(steps), req, granted).1 && steps == old(steps) + 1
      ensures BatchEnds(log) == BatchEnds(old(log)) && SameFallback(old(log), log)
      ensures SessionLost(log) == LosesSession(r)
      ensures LastOutcome(log) == Some(r)
    {
      hide Lawful, BypassDue, BatchEnds, SessionLost, Elapsed, LastOutcome, JustFailed, MayGoPrivate;
      hide Interpret, TriedFallback, StartedFallback;
      var answered := world.call(steps, req, granted);
      r := Interpret(req, answered.0);
      e := Called(req, granted, answered.1, r);
      LawfulStep(log, reported, e);
      Logged(log, e);
      now, steps, log := now + answered.1, steps + 1, log + [e];
    }

    method Open(granted: nat) returns (ok: bool, ghost e: Event)
      requires Valid() && SessionLost(log) && !BypassDue(BatchEnds(log))
      modifies this
      ensures Valid() && log == old(log) + [e]
      ensures e == Opened(granted, now - old(now), ok) && now >= old(now)
      ensures ok == world.open(old(steps), granted).0
      ensures now == old(now) + world.open(old(steps), granted).1 && steps == old(steps) + 1
      ensures BatchEnds(log) == BatchEnds(old(log)) && SameFallback(old(log), log)
      ensures SessionLost(log) == !ok
    {
      hide Lawful, BypassDue, BatchEnds, SessionLost, Elapsed, LastOutcome, JustFailed, MayGoPrivate;
      hide Interpret, TriedFallback, StartedFallback;
      var answered := world.open(steps, granted);
      ok := answered.0;
      e := Opened(granted, answered.1, ok);
      LawfulStep(log, reported, e);
      Logged(log, e);
      now, steps, log := now + answered.1, steps + 1, log + [e];
    }

    /** A sleep lasts at least as long as it was asked to. */
    method Nap(asked: nat) returns (ghost e: Event)
      requires Valid()
      modifies this
      ensures Valid() && log == old(log) + [e]
      ensures e == Napped(asked, now - old(now)) && now >= old(now) + asked
      ensures now == old(now) + asked + world.oversleep(old(steps), asked) && steps == old(steps) + 1
      ensures BatchEnds(log) == BatchEnds(old(log)) && SessionLost(log) == SessionLost(old(log))
      ensures SameFallback(old(log), log)
    {
      hide Lawful, BypassDue, BatchEnds, SessionLost, Elapsed, LastOutcome, JustFailed, MayGoPrivate;
      hide Interpret, TriedFallback, StartedFallback;
      var took := asked + world.oversleep(steps, asked);
      e := Napped(asked, took);
      LawfulStep(log, reported, e);
      Logged(log, e);
      now, steps, log := now + took, steps + 1, log + [e];
    }

    ghost method EndBatch(texts: seq<Text>, result: Option<Failure>)
      requires Valid()
      modifies this`log
      ensures Valid() && log == old(log) + [BatchEnded(texts, result)]
      ensures BatchEnds(log) == BatchEnds(old(log)) + [result] && SessionLost(log) == SessionLost(old(log))
      ensures LastOutcome(log) == LastOutcome(old(log)) && SameFallback(old(log), log)
      ensures result.Some? && result != Some(FingerprintMoved) ==> JustFailed(log, texts)
    {
      hide Lawful, BypassDue, BatchEnds, SessionLost, Elapsed, LastOutcome, JustFailed, MayGoPrivate;
      hide Interpret, TriedFallback, StartedFallback;
      LawfulStep(log, reported, BatchEnded(texts, result));
      Logged(log, BatchEnded(texts, result));
      log := log + [BatchEnded(texts, result)];
    }

    method InitFallback(ghost texts: seq<Text>) returns (ok: bool)
      requires Valid() && !TriedFallback(log) && MayGoPrivate(log, texts)
      modifies this
      ensures Valid() && log == old(log) + [FallbackInitialised(texts, ok)] && ok == world.init
      ensures TriedFallback(log) && StartedFallback(log) == (ok || StartedFallback(old(log)))
      ensures MayGoPrivate(log, texts)
      ensures BatchEnds(log) == BatchEnds(old(log)) && SessionLost(log) == SessionLost(old(log))
    {
      hide Lawful, BypassDue, BatchEnds, SessionLost, Elapsed, LastOutcome, JustFailed, MayGoPrivate;
      hide Interpret, TriedFallback, StartedFallback;
      ok := world.init;
      LoadingAllows(log, texts, ok);
      LawfulStep(log, reported, FallbackInitialised(texts, ok));
      Logged(log, FallbackInitialised(texts, ok));
      log := log + [FallbackInitialised(texts, ok)];
    }

    method EmbedPrivately(texts: seq<Text>) returns (r: Option<seq<Vector>>)
      requires Valid() && StartedFallback(log) && MayGoPrivate(log, texts)
      modifies this
      ensures Valid() && log == old(log) + [DaemonLog.EmbeddedPrivately(texts, r)]
      ensures r == world.privately(old(steps), texts)
      ensures BatchEnds(log) == BatchEnds(old(log)) && SessionLost(log) == SessionLost(old(log))
      ensures SameFallback(old(log), log)
    {
      hide Lawful, BypassDue, BatchEnds, SessionLost, Elapsed, LastOutcome, JustFailed, MayGoPrivate;
      hide Interpret, TriedFallback, StartedFallback;
      r := world.privately(steps, texts);
      LawfulStep(log, reported, DaemonLog.EmbeddedPrivately(texts, r));
      Logged(log, DaemonLog.EmbeddedPrivately(texts, r));
      steps, log := steps + 1, log + [DaemonLog.EmbeddedPrivately(texts, r)];
    }
  }

  /** Nothing in between concerned loading the private embedder. */
  ghost predicate SameFallback(before: Log, after: Log) {
    TriedFallback(after) == TriedFallback(before) && StartedFallback(after) == StartedFallback(before)
  }

  /** One attempt to connect, and the short wait after it if time is left. */
  method OpenOnce(env: Environment, granted: nat, started: nat) returns (over: bool, ok: bool, ghost more: Log)
    requires env.Valid() && SessionLost(env.log) && !BypassDue(BatchEnds(env.log)) && started <= env.now
    modifies env
    ensures env.Valid() && env.log == old(env.log) + more && BatchEnds(env.log) == BatchEnds(old(env.log))
    ensures SameFallback(old(env.log), env.log)
    ensures env.now == old(env.now) + Elapsed(more) && env.steps == old(env.steps) + |more|
    ensures SessionLost(env.log) == !ok && (ok ==> over)
    ensures more != [] && (over ==> Last(more).Opened? && Last(more).ok == ok)
    ensures Reopen(env.world, old(env.steps), granted, old(env.now) - started) ==
            more + if over then [] else Reopen(env.world, env.steps, granted, env.now - started)
    ensures !over ==> Minus(granted, env.now - started) < Minus(granted, old(env.now) - started)
  {
    hide Lawful, BypassDue, SaturatedRun, BatchEnds, SessionLost, Elapsed, Overrun, Calls, LastOutcome, Reopen, env.Valid;
    var remaining := Minus(granted, env.now - started);
    ghost var tried, napped;
    ok, tried := env.Open(Min(CONNECT_TIMEOUT, remaining));
    ReopenStep(env.world, old(env.steps), granted, old(env.now) - started, tried);
    more := [tried];
    Pair(tried, tried);
    remaining := Minus(granted, env.now - started);
    if ok || remaining == 0 {
      over := true;
      return;
    }
    napped := env.Nap(Min(RECONNECT_POLL, remaining));
    Pair(tried, napped);
    more := [tried, napped];
    Associate(old(env.log), [tried], [napped]);
    over := false;
  }

  /** Keep trying to connect until the time granted is up. */
  method ReopenSession(env: Environment, granted: nat) returns (ok: bool, ghost part: Log)
    requires env.Valid() && SessionLost(env.log) && !BypassDue(BatchEnds(env.log))
    modifies env
    ensures env.Valid() && env.log == old(env.log) + part && BatchEnds(env.log) == BatchEnds(old(env.log))
    ensures SameFallback(old(env.log), env.log)
    ensures part == Reopen(env.world, old(env.steps), granted, 0) && ok == Last(part).ok
    ensures env.now == old(env.now) + Elapsed(part) && env.steps == old(env.steps) + |part|
    ensures SessionLost(env.log) == !ok
    ensures Reconnected(part, granted, 0)
  {
    hide *;
    var started := env.now;
    ghost var whole := Reopen(env.world, env.steps, granted, 0);
    ReopenKeepsTime(env.world, env.steps, granted, 0);
    SameAsBefore(env.log);
    part := [];
    NoTime();
    var over := false;
    ok := false;
    while !over
      invariant env.Valid() && env.log == old(env.log) + part && BatchEnds(env.log) == BatchEnds(old(env.log))
      invariant SameFallback(old(env.log), env.log)
      invariant SessionLost(env.log) == !ok && (ok ==> over) && env.steps == old(env.steps) + |part|
      invariant env.now == started + Elapsed(part) && (over ==> part != [] && Last(part).Opened? && Last(part).ok == ok)
      invariant whole == part + if over then [] else Reopen(env.world, env.steps, granted, env.now - started)
      decreases !over, Minus(granted, env.now - started)
    {
      ghost var more, before := [], env.log;
      over, ok, more := OpenOnce(env, granted, started);
      PartConcat(part, more);
      LastOf(part, more);
      Associate(old(env.log), part, more);
      Associate(part, more, if over then [] else Reopen(env.world, env.steps, granted, env.now - started));
      part := part + more;
      SameOn(old(env.log), before, env.log);
    }
    Associate(part, [], []);
  }

  lemma Associate(a: Log, b: Log, c: Log)
    ensures a + b + c == a + (b + c) && a + [] == a
  {
  }

  lemma SameAsBefore(log: Log)
    ensures SameFallback(log, log)
  {
  }

  lemma SameOn(a: Log, b: Log, c: Log)
    requires SameFallback(a, b) && SameFallback(b, c)
    ensures SameFallback(a, c)
  {
  }

  lemma LogOneMore(part: Log, e: Event)
    ensures Elapsed(part + [e]) == Elapsed(part) + Took(e) && Last(part + [e]) == e
  {
    ExtendPart(part, e);
  }

  datatype EmbedError =
    | Unbound
    | FingerprintRefused
    | WrongDimension
    | WrongVectorLength
    | NoFallback
    | FallbackInitFailed
    | FallbackFingerprint
    | FallbackFailed
    | FallbackCount
    | FallbackVectorLength

  /** What one daemon batch leads to. */
  datatype Route = Answered(vectors: seq<Vector>) | Abort(error: EmbedError) | FallBack

  /** How a batch's result is counted. */
  function EndOf(result: Result<Answer, Failure>): Option<Failure> {
    if result.Ok? then None else Some(result.error)
  }

  function Failed<T>(r: Result<T, EmbedError>): Option<EmbedError> {
    if r.Ok? then None else Some(r.error)
  }

  predicate FallbackError(e: EmbedError) {
    e.NoFallback? || e.FallbackInitFailed? || e.FallbackFingerprint? || e.FallbackFailed? || e.FallbackCount? ||
    e.FallbackVectorLength?
  }

  class DaemonEmbedder {
    const env: Environment
    const policy: RetryPolicy
    const dim: nat
    /** A private embedder is configured to fall back to. */
    const configured: bool
    var expected: Option<Fingerprint>
    var canInit: bool
    var private: bool
    var sessionLost: bool
    var busyBatches: nat
    var bypass: bool

    constructor (env: Environment, policy: RetryPolicy, dim: nat, fallback: bool)
      requires env.Valid() && env.log == []
      ensures Valid() && this.env == env && this.policy == policy && this.dim == dim
      ensures expected == None && configured == fallback
    {
      this.env, this.policy, this.dim, configured := env, policy, dim, fallback;
      expected, canInit, private := None, fallback, false;
      sessionLost, busyBatches, bypass := false, 0, false;
    }

    /** The client's fields say exactly what the log of its whole run implies. */
    ghost predicate Valid()
      reads this, env
    {
      && env.Valid()
      && (expected.Some? ==> expected.value == env.reported)
      && sessionLost == SessionLost(env.log)
      && busyBatches == SaturatedRun(BatchEnds(env.log))
      && (bypass <==> BypassDue(BatchEnds(env.log)))
      && (canInit <==> configured && !TriedFallback(env.log))
      && (private <==> StartedFallback(env.log) && env.world.binds(env.reported))
    }

    ghost predicate Honest() {
      HonestDaemon(env.world) && HonestFallback(env.world)
    }

    /** The private embedder is, or can still be, loaded, and then always answers. */
    ghost predicate FallbackWorks()
      reads this`private, this`canInit
    {
      && (private || (canInit && env.world.init && env.world.binds(env.reported)))
      && forall n, texts ::
           var out := env.world.privately(n, texts);
           out.Some? && |out.value| == |texts| && forall i :: 0 <= i < |out.value| ==> |out.value[i]| == dim
    }

    /** `vs` are the vectors of these texts. */
    ghost predicate Embedded(texts: seq<Text>, vs: seq<Vector>) {
      && |vs| == |texts|
      && (forall i :: 0 <= i < |vs| ==> |vs[i]| == dim)
      && (Honest() ==> vs == MapEmbed(env.world, env.reported, texts))
    }

    /** Nothing about this event ends the pass: what was answered has the daemon's dimension, the
        fingerprint stayed, and the private embedder was loaded and did its work. */
    ghost predicate Fine(e: Event) {
      match e
      case Called(_, _, _, Ok(answer)) => answer.dim == dim && forall v :: v in answer.embeddings ==> |v| == dim
      case BatchEnded(_, result) => result != Some(FingerprintMoved)
      case FallbackInitialised(_, started) => started && env.world.binds(env.reported)
      case EmbeddedPrivately(texts, answer) =>
        answer.Some? && |answer.value| == |texts| && forall v :: v in answer.value ==> |v| == dim
      case _ => true
    }

    ghost predicate Served(more: Log) {
      forall e :: e in more ==> Fine(e)
    }

    /** The daemon's own part went well. */
    ghost predicate DaemonServed(more: Log) {
      forall e :: e in more && (e.Called? || e.BatchEnded?) ==> Fine(e)
    }

    /** The daemon failed some batch for a reason other than a changed fingerprint. */
    ghost predicate Failing(more: Log) {
      exists e :: e in more && e.BatchEnded? && e.result.Some? && e.result.value != FingerprintMoved
    }

    /** All of it is about these texts. */
    ghost predicate About(more: Log, texts: seq<Text>) {
      forall e, x :: e in more && x in TextsOf(e) ==> x in texts
    }

    /** What the log must show for an error to be reported: the last thing that happened is what the
        error complains of. */
    ghost predicate Blames(more: Log, error: EmbedError) {
      && more != []
      && match error
         case WrongDimension =>
           Last(more).BatchEnded? && LastOutcome(more).Some? && LastOutcome(more).value.Ok? &&
           LastOutcome(more).value.value.dim != dim
         case WrongVectorLength =>
           Last(more).BatchEnded? && LastOutcome(more).Some? && LastOutcome(more).value.Ok? &&
           exists v :: v in LastOutcome(more).value.value.embeddings && |v| != dim
         case FingerprintRefused =>
           Last(more).BatchEnded? && Last(more).result == Some(FingerprintMoved) &&
           LastOutcome(more) == Some(Err(FingerprintMoved))
         case FallbackInitFailed => Last(more).FallbackInitialised? && !Last(more).started
         case FallbackFingerprint =>
           Last(more).FallbackInitialised? && Last(more).started && !env.world.binds(env.reported)
         case FallbackFailed => Last(more).EmbeddedPrivately? && Last(more).answer.None?
         case FallbackCount =>
           Last(more).EmbeddedPrivately? && Last(more).answer.Some? && |Last(more).answer.value| != |Last(more).texts|
         case FallbackVectorLength =>
           Last(more).EmbeddedPrivately? && Last(more).answer.Some? &&
           exists v :: v in Last(more).answer.value && |v| != dim
         case _ => false
    }

    /** How embedding these texts went.  It went well when all of the log since is fine and, if the
        private embedder was called for, that is loaded; errors of the private embedder are reported
        only when it was called for, and the lack of one only when none can be loaded any more. */
    ghost predicate Went(before: Log, after: Log, texts: seq<Text>, needed: bool, loaded: bool, failed: Option<EmbedError>) {
      && before <= after && About(after[|before|..], texts)
      && var more := after[|before|..];
         var wanted := needed || Failing(more);
         match failed
         case None => Served(more) && (wanted ==> loaded)
         case Some(NoFallback) => wanted && Served(more) && !loaded && !(configured && !TriedFallback(after))
         case Some(error) => Blames(more, error) && (FallbackError(error) ==> wanted)
    }

    /** All of it is about texts the daemon may be sent. */
    ghost predicate InCap(more: Log) {
      forall e, x :: e in more && x in TextsOf(e) ==> |x| <= MAX_TEXT_BYTES
    }

    /** All of it is the private embedder's work. */
    ghost predicate AllPrivate(more: Log) {
      forall e :: e in more ==> e.FallbackInitialised? || e.EmbeddedPrivately?
    }

    lemma InCapOn(a: Log, b: Log, c: Log, texts: seq<Text>)
      requires a <= b <= c && InCap(b[|a|..]) && About(c[|b|..], texts) && WithinCaps(texts)
      ensures InCap(c[|a|..])
    {
      assert c[|a|..] == b[|a|..] + c[|b|..];
      forall x | x in texts ensures |x| <= MAX_TEXT_BYTES {
        var i :| 0 <= i < |texts| && texts[i] == x;
      }
    }

    lemma WentNowhere(log: Log, texts: seq<Text>, loaded: bool)
      ensures Went(log, log, texts, false, loaded, None)
    {
    }

    lemma WentOn(a: Log, b: Log, c: Log, texts: seq<Text>,
                 needed1: bool, needed2: bool, loaded: bool, failed: Option<EmbedError>)
      requires a <= b && About(b[|a|..], texts) && Served(b[|a|..]) && Went(b, c, texts, needed2, loaded, failed)
      requires needed1 || Failing(b[|a|..]) ==> needed2 || loaded
      requires needed2 ==> needed1 || Failing(b[|a|..])
      ensures Went(a, c, texts, needed1, loaded, failed)
    {
      hide Fine, LastOutcome, TriedFallback;
      var more1, more2 := b[|a|..], c[|b|..];
      assert c[|a|..] == more1 + more2;
      if more2 != [] { LastOf(more1, more2); }
      PartConcat(more1, more2);
      forall e ensures e in c[|a|..] <==> e in more1 || e in more2 {}
    }

    /** What one batch put to the daemon logs. */
    lemma BatchEvents(part: Log, texts: seq<Text>, result: Result<Answer, Failure>)
      requires Concluded(env.world, policy, Request(expected, texts), part, result)
      ensures var more := part + [BatchEnded(texts, EndOf(result))];
              && About(more, texts) && Last(more) == BatchEnded(texts, EndOf(result))
              && (result.Ok? || !result.error.Transient? ==> LastOutcome(more) == Some(result))
              && (result.Ok? && result.value.dim == dim && (forall v :: v in result.value.embeddings ==> |v| == dim) ==>
                    Served(more) && !Failing(more))
              && (result.Err? && result.error != FingerprintMoved ==> Served(more) && Failing(more))
    {
      hide LastOutcome, FinalOutcome, GivenTo, Calls, WorthwhileCalls, Paced, Exhausted, Attempts;
      hide About, Served, Failing, BatchEnds, SessionLost, Elapsed, TriedFallback, StartedFallback, JustFailed;
      var end := BatchEnded(texts, EndOf(result));
      ExtendPart(part, end);
      Logged(part, end);
      OnlyTheLastCallAnswers(part, Request(expected, texts), result);
      EndIsAbout(part, texts, end);
      EndIsFine(part, end, result);
    }

    lemma EndIsAbout(part: Log, texts: seq<Text>, end: Event)
      requires forall e :: e in part ==> e.Called? || e.Opened? || e.Napped?
      requires forall e :: e in part && e.Called? ==> e.req.texts == texts
      requires end.BatchEnded? && end.texts == texts
      ensures About(part + [end], texts)
    {
      forall e ensures e in part + [end] <==> e in part || e == end {}
    }

    lemma EndIsFine(part: Log, end: Event, result: Result<Answer, Failure>)
      requires forall e :: e in part ==> e.Called? || e.Opened? || e.Napped?
      requires forall e :: e in part && e.Called? && e.outcome.Ok? ==> result == e.outcome
      requires end.BatchEnded? && end.result == EndOf(result)
      ensures var more := part + [end];
              && (result.Ok? && result.value.dim == dim && (forall v :: v in result.value.embeddings ==> |v| == dim) ==>
                    Served(more) && !Failing(more))
              && (result.Err? && result.error != FingerprintMoved ==> Served(more) && Failing(more))
    {
      forall e ensures e in part + [end] <==> e in part || e == end {}
    }

    /** One batch put to the daemon, by how it concluded. */
    lemma BatchWent(log: Log, part: Log, texts: seq<Text>, result: Result<Answer, Failure>, loaded: bool)
      requires Concluded(env.world, policy, Request(expected, texts), part, result)
      ensures var after := log + part + [BatchEnded(texts, EndOf(result))];
              && log <= after && About(after[|log|..], texts)
              && match result
                 case Ok(answer) =>
                   if answer.dim != dim then Went(log, after, texts, false, loaded, Some(WrongDimension))
                   else if exists i :: 0 <= i < |answer.embeddings| && |answer.embeddings[i]| != dim then
                     Went(log, after, texts, false, loaded, Some(WrongVectorLength))
                   else Went(log, after, texts, false, loaded, None)
                 case Err(FingerprintMoved) => Went(log, after, texts, false, loaded, Some(FingerprintRefused))
                 case Err(_) => Served(after[|log|..]) && Failing(after[|log|..])
    {
      hide LastOutcome, TriedFallback, Concluded, Served, Failing, About;
      var end := BatchEnded(texts, EndOf(result));
      assert log + part + [end] == log + (part + [end]);
      assert (log + part + [end])[|log|..] == part + [end];
      BatchEvents(part, texts, result);
      if result.Ok? && result.value.dim == dim {
        if i :| 0 <= i < |result.value.embeddings| && |result.value.embeddings[i]| != dim {
          assert result.value.embeddings[i] in result.value.embeddings;
        }
      }
    }

    lemma WentAboutMore(a: Log, b: Log, few: seq<Text>, texts: seq<Text>, needed: bool, loaded: bool, failed: Option<EmbedError>)
      requires Went(a, b, few, needed, loaded, failed) && forall x :: x in few ==> x in texts
      ensures Went(a, b, texts, needed, loaded, failed)
    {
      hide Fine, LastOutcome, TriedFallback, Blames, Served, Failing;
    }

    lemma FailedWithMoreNeed(a: Log, b: Log, texts: seq<Text>, needed1: bool, needed2: bool, loaded: bool, failed: Option<EmbedError>)
      requires Went(a, b, texts, needed1, loaded, failed) && failed.Some? && (needed1 ==> needed2)
      ensures Went(a, b, texts, needed2, loaded, failed)
    {
      hide Fine, LastOutcome, TriedFallback, Blames, Served, Failing, About;
    }

    lemma WentAbout(a: Log, b: Log, texts: seq<Text>, needed: bool, loaded: bool, failed: Option<EmbedError>)
      requires Went(a, b, texts, needed, loaded, failed)
      ensures a <= b && About(b[|a|..], texts)
    {
    }

    lemma WentWell(a: Log, b: Log, texts: seq<Text>, needed: bool, loaded: bool)
      requires Went(a, b, texts, needed, loaded, None)
      ensures a <= b && About(b[|a|..], texts) && Served(b[|a|..]) && (needed || Failing(b[|a|..]) ==> loaded)
    {
    }

    lemma {:induction false} LastOutcomeHappened(more: Log)
      requires LastOutcome(more).Some?
      ensures exists e :: e in more && e.Called? && e.outcome == LastOutcome(more).value
    {
      if !Last(more).Called? { LastOutcomeHappened(Init(more)); }
    }

    /** Whoever is blamed was not fine. */
    lemma BlameIsDeserved(more: Log, error: EmbedError)
      requires Blames(more, error)
      ensures !Served(more) && (!FallbackError(error) ==> !DaemonServed(more))
    {
      hide LastOutcome;
      assert Last(more) in more;
      if !FallbackError(error) { LastOutcomeHappened(more); }
    }

    /** Exactly when embedding succeeds. */
    lemma Verdict(before: Log, after: Log, texts: seq<Text>, needed: bool, loaded: bool, failed: Option<EmbedError>)
      requires Went(before, after, texts, needed, loaded, failed)
      ensures var more := after[|before|..];
              && (failed.None? <==> Served(more) && (needed || Failing(more) ==> loaded))
              && (DaemonServed(more) && !needed && !Failing(more) ==> failed.None?)
    {
      hide Fine, Served, DaemonServed, Blames;
      if failed.Some? && failed.value != NoFallback {
        BlameIsDeserved(after[|before|..], failed.value);
      }
    }

    /** Accept only the fingerprint the daemon reported, without constructing a fallback. */
    method BindFingerprint(fp: Fingerprint) returns (ok: bool)
      requires Valid()
      modifies this`expected
      ensures Valid()
      ensures ok == (fp == env.reported)
      ensures expected == if ok then Some(fp) else old(expected)
    {
      ok := env.reported == fp;
      if ok {
        if private {
          // The loaded fallback is asked again; it has accepted this fingerprint before.
          ok := env.world.binds(fp);
        }
        if ok {
          expected := Some(fp);
        }
      }
    }

    /** Load the private embedder for these texts if it is not loaded; the way to load it is used up by
        the attempt. */
    method LoadFallback(ghost texts: seq<Text>) returns (failed: Option<EmbedError>)
      requires Valid() && expected.Some? && MayGoPrivate(env.log, texts)
      modifies this`canInit, this`private, env
      ensures Valid() && Spends(policy, old(env.log), env.log)
      ensures BatchEnds(env.log) == BatchEnds(old(env.log)) && MayGoPrivate(env.log, texts)
      ensures failed.None? <==>
              old(private) || (old(canInit) && env.world.init && env.world.binds(env.reported))
      ensures failed.None? <==> private
      ensures old(private) || !old(canInit) ==> env.log == old(env.log)
      ensures old(env.log) <= env.log
      ensures Went(old(env.log), env.log, texts, true, private, failed)
      ensures failed.Some? ==> FallbackError(failed.value)
      ensures AllPrivate(env.log[|old(env.log)|..])
    {
      hide Lawful, BypassDue, SaturatedRun, BatchEnds, SessionLost, WithinCaps, Elapsed, Spends;
      hide MayGoPrivate, TriedFallback, StartedFallback, Oversize, LastOutcome;
      SpendsNothing(policy, env.log);
      if private {
        return None;
      }
      if !canInit {
        return Some(NoFallback);
      }
      canInit := false;
      SpendsQuietly(policy, env.log, FallbackInitialised(texts, env.world.init));
      var started := env.InitFallback(texts);
      OneMore(old(env.log), FallbackInitialised(texts, started));
      if !started {
        return Some(FallbackInitFailed);
      }
      if !env.world.binds(expected.value) {
        return Some(FallbackFingerprint);
      }
      private := true;
      failed := None;
    }

    lemma OneMoreSince(before: Log, log: Log, e: Event)
      requires before <= log && AllPrivate(log[|before|..]) && e.EmbeddedPrivately?
      ensures AllPrivate((log + [e])[|before|..])
    {
      assert (log + [e])[|before|..] == log[|before|..] + [e];
    }

    lemma OneMore(log: Log, e: Event)
      ensures log <= log + [e] && (log + [e])[|log|..] == [e] && Last([e]) == e
    {
    }

    method PrivateEmbed(texts: seq<Text>) returns (r: Result<seq<Vector>, EmbedError>)
      requires Valid() && expected.Some? && MayGoPrivate(env.log, texts)
      modifies this`canInit, this`private, env
      ensures Valid() && Spends(policy, old(env.log), env.log)
      ensures BatchEnds(env.log) == BatchEnds(old(env.log)) && (old(private) ==> private)
      ensures r.Ok? ==> Embedded(texts, r.value)
      ensures old(FallbackWorks()) ==> FallbackWorks() && r.Ok?
      ensures r.Err? ==> FallbackError(r.error)
      ensures old(env.log) <= env.log
      ensures Went(old(env.log), env.log, texts, true, private, Failed(r))
      ensures AllPrivate(env.log[|old(env.log)|..])
    {
      hide Lawful, BypassDue, SaturatedRun, BatchEnds, SessionLost, WithinCaps, Elapsed, Spends;
      hide MayGoPrivate, TriedFallback, Oversize, LastOutcome, MapEmbed, AllPrivate;
      var failed := LoadFallback(texts);
      if failed.Some? {
        return Err(failed.value);
      }
      ghost var loaded := env.log;
      var out := env.EmbedPrivately(texts);
      SpendsQuietly(policy, loaded, EmbeddedPrivately(texts, out));
      SpendsOn(policy, old(env.log), loaded, env.log);
      OneMore(loaded, EmbeddedPrivately(texts, out));
      OneMoreSince(old(env.log), loaded, EmbeddedPrivately(texts, out));
      if out.None? {
        r := Err(FallbackFailed);
      } else if |out.value| != |texts| {
        r := Err(FallbackCount);
      } else if exists i :: 0 <= i < |out.value| && |out.value[i]| != dim {
        r := Err(FallbackVectorLength);
      } else {
        r := Ok(out.value);
      }
      AfterPrivately(loaded, texts, out, r);
      WentOn(old(env.log), loaded, env.log, texts, true, true, private, Failed(r));
    }

    lemma AfterPrivately(log: Log, texts: seq<Text>, out: Option<seq<Vector>>, r: Result<seq<Vector>, EmbedError>)
      requires r == if out.None? then Err(FallbackFailed)
                    else if |out.value| != |texts| then Err(FallbackCount)
                    else if exists i :: 0 <= i < |out.value| && |out.value[i]| != dim then Err(FallbackVectorLength)
                    else Ok(out.value)
      ensures Went(log, log + [EmbeddedPrivately(texts, out)], texts, true, true, Failed(r))
    {
      OneMore(log, EmbeddedPrivately(texts, out));
      if r == Err(FallbackVectorLength) {
        var i :| 0 <= i < |out.value| && |out.value[i]| != dim;
        assert out.value[i] in out.value;
      }
    }

    /** What the attempts at one batch have logged by now. */
    ghost predicate Progress(start: Log, started: nat, part: Log)
      reads this, env
    {
      && Valid() && env.log == start + part && BatchEnds(env.log) == BatchEnds(start)
      && env.now == started + Elapsed(part)
    }

    /** Replace a lost session within the batch's budget; a failure ends the batch's attempts. */
    method Reconnect(req: Request, started: nat, ghost retry: nat, lastError: Option<Failure>,
                     ghost start: Log, ghost part: Log, ghost whole: Tried)
      returns (failed: Option<Failure>, ghost part': Log)
      requires Progress(start, started, part) && sessionLost && !bypass && retry <= policy.retries
      requires lastError.Some? ==> lastError.value.Transient?
      requires whole == After(part, Try(env.world, policy, req, env.steps, retry, env.now - started, true, lastError))
      modifies this`sessionLost, env
      ensures Progress(start, started, part')
      ensures if failed.Some? then whole == Tried(part', Err(failed.value))
              else whole == After(part', TryCall(env.world, policy, req, env.steps, retry, env.now - started))
      ensures failed.None? ==> !sessionLost
      ensures failed.Some? ==> failed.value.Transient?
    {
      hide Lawful, BypassDue, SaturatedRun, BatchEnds, SessionLost, WithinCaps, Elapsed, Overrun, Calls, LastOutcome;
      hide Reopen, TryCall, Try;
      var left := Minus(policy.budget, env.now - started);
      var ok, more := ReopenSession(env, Min(policy.reconnectTimeout, Minus(left, policy.minAttempt)));
      PartConcat(part, more);
      TryLost(env.world, policy, req, old(env.steps), retry, old(env.now) - started, lastError, more);
      AfterConcat(part, more, TryCall(env.world, policy, req, env.steps, retry, env.now - started));
      Associate(start, part, more);
      part' := part + more;
      if !ok {
        return Some(Transient(if lastError.Some? then lastError.value.kind else Unavailable, true)), part';
      }
      sessionLost := false;
      if lastError.Some? && Minus(policy.budget, env.now - started) < policy.minAttempt {
        return Some(lastError.value), part';
      }
      failed := None;
    }

    /** One call, and the wait before the next one if the policy allows another; a transient failure
        that loses the session is remembered. */
    method Attempt(req: Request, started: nat, retry: nat, ghost start: Log, ghost part: Log, ghost whole: Tried)
      returns (r: Result<Answer, Failure>, again: bool, ghost part': Log)
      requires Progress(start, started, part) && !sessionLost && !bypass && retry <= policy.retries
      requires req.fingerprint == Some(env.reported) && WithinCaps(req.texts)
      requires whole == After(part, TryCall(env.world, policy, req, env.steps, retry, env.now - started))
      modifies this`sessionLost, env
      ensures Progress(start, started, part')
      ensures again ==> r.Err? && r.error.Transient? && retry + 1 <= policy.retries
      ensures if !again then whole == Tried(part', r)
              else whole == After(part', Try(env.world, policy, req, env.steps, retry + 1, env.now - started,
                                             sessionLost, Some(r.error)))
    {
      hide Lawful, BypassDue, SaturatedRun, BatchEnds, SessionLost, WithinCaps, Elapsed, Overrun, Calls, LastOutcome;
      hide Interpret, MayRetry, Try, TryCall;
      ghost var called, napped;
      r, called := env.Call(req, Min(policy.attemptTimeout, Minus(policy.budget, env.now - started)));
      TryCallStep(env.world, policy, req, old(env.steps), retry, old(env.now) - started, called);
      LogOneMore(part, called);
      Associate(start, part, [called]);
      part' := part + [called];
      if r.Ok? || !r.error.Transient? {
        return r, false, part';
      }
      sessionLost := sessionLost || r.error.reopen;
      if !MayRetry(policy, retry + 1, Minus(policy.budget, env.now - started)) {
        return r, false, part';
      }
      napped := env.Nap(policy.backoff * (retry + 1));
      LogOneMore(part', napped);
      Associate(start, part', [napped]);
      Associate(part, [called], [napped]);
      part' := part' + [napped];
      AfterConcat(part, [called, napped], Try(env.world, policy, req, env.steps, retry + 1, env.now - started,
                                              sessionLost, Some(r.error)));
      again := true;
    }

    /** Send one batch, retrying it while failures are transient and the budget allows. */
    method CallWithRetries(texts: seq<Text>) returns (r: Result<Answer, Failure>, ghost part: Log)
      requires Valid() && expected.Some? && !bypass && WithinCaps(texts)
      modifies this`sessionLost, env
      ensures Valid() && env.log == old(env.log) + part && BatchEnds(env.log) == BatchEnds(old(env.log))
      ensures env.now == old(env.now) + Elapsed(part)
      ensures Tried(part, r) ==
              Try(env.world, policy, Request(expected, texts), old(env.steps), 0, 0, old(sessionLost), None)
      ensures Concluded(env.world, policy, Request(expected, texts), part, r)
      ensures Safe(policy) ==> Elapsed(part) <= policy.budget + Overrun(part)
    {
      hide Lawful, BypassDue, SaturatedRun, BatchEnds, SessionLost, WithinCaps, Elapsed, Overrun, Calls, LastOutcome;
      hide Concluded, Safe, Try, TryCall;
      var req := Request(expected, texts);
      var started, retry := env.now, 0;
      var lastError: Option<Failure> := None;
      ghost var whole := Try(env.world, policy, req, env.steps, 0, 0, sessionLost, None);
      BatchKeepsLaws(env.world, policy, req, env.steps, sessionLost);
      part := [];
      NoTime();
      AfterNothing(whole);
      Associate(old(env.log), [], []);
      assert Progress(old(env.log), started, part) && req.fingerprint == Some(env.reported);
      hide Progress, After, Valid;
      while true
        invariant Progress(old(env.log), started, part)
        invariant started <= env.now && retry <= policy.retries && (lastError.Some? ==> lastError.value.Transient?)
        invariant whole == After(part, Try(env.world, policy, req, env.steps, retry, env.now - started, sessionLost, lastError))
        decreases policy.retries - retry
      {
        if sessionLost {
          var failed;
          failed, part := Reconnect(req, started, retry, lastError, old(env.log), part, whole);
          if failed.Some? {
            r := Err(failed.value);
            break;
          }
        } else {
          TryOpen(env.world, policy, req, env.steps, retry, env.now - started, lastError);
        }
        var again;
        r, again, part := Attempt(req, started, retry, old(env.log), part, whole);
        if !again {
          break;
        }
        retry := retry + 1;
        lastError := Some(r.error);
      }
      ProgressMeans(old(env.log), started, part);
    }

    lemma ProgressMeans(start: Log, started: nat, part: Log)
      requires Progress(start, started, part)
      ensures Valid() && env.log == start + part && BatchEnds(env.log) == BatchEnds(start)
      ensures env.now == started + Elapsed(part)
    {
    }

    /** One planned batch: the daemon while it is worth asking, the private embedder otherwise. */
    method EmbedChunk(chunk: seq<Text>) returns (r: Result<seq<Vector>, EmbedError>)
      requires Valid() && expected.Some? && WithinCaps(chunk)
      modifies this`sessionLost, this`busyBatches, this`bypass, this`canInit, this`private, env
      ensures Valid() && Spends(policy, old(env.log), env.log)
      ensures |BatchEnds(env.log)| == |BatchEnds(old(env.log))| + if old(bypass) then 0 else 1
      ensures (old(bypass) ==> bypass) && (old(private) ==> private)
      ensures r.Ok? ==> Embedded(chunk, r.value)
      ensures old(FallbackWorks()) ==> FallbackWorks() && (r.Err? ==> !FallbackError(r.error))
      ensures old(env.log) <= env.log
      ensures Went(old(env.log), env.log, chunk, old(bypass), private, Failed(r))
      ensures bypass ==> old(bypass) || Failing(env.log[|old(env.log)|..])
    {
      hide Lawful, BypassDue, SaturatedRun, BatchEnds, SessionLost, WithinCaps, Elapsed, Spends;
      hide Went, Failing, About, Served, Fine, Embedded, JustFailed, Oversize, Concluded, Try;
      if bypass {
        SpendsNothing(policy, env.log);
        BypassAllows(env.log, chunk);
        r := PrivateEmbed(chunk);
        return;
      }
      var route, _, _ := AskDaemon(chunk);
      match route {
        case Answered(vectors) => return Ok(vectors);
        case Abort(error) => return Err(error);
        case FallBack =>
      }
      ghost var asked := env.log;
      FailureAllows(env.log, chunk);
      r := PrivateEmbed(chunk);
      SpendsOn(policy, old(env.log), asked, env.log);
      WentOn(old(env.log), asked, env.log, chunk, false, true, private, Failed(r));
      StillFailing(old(env.log), asked, env.log);
    }

    lemma BypassAllows(log: Log, texts: seq<Text>)
      requires BypassDue(BatchEnds(log))
      ensures MayGoPrivate(log, texts)
    {
    }

    lemma FailureAllows(log: Log, texts: seq<Text>)
      requires JustFailed(log, texts)
      ensures MayGoPrivate(log, texts)
    {
    }

    lemma SizeAllows(log: Log, texts: seq<Text>)
      requires Oversize(texts)
      ensures MayGoPrivate(log, texts)
    {
    }

    lemma StillFailing(a: Log, b: Log, c: Log)
      requires a <= b <= c && (Failing(b[|a|..]) || Failing(c[|b|..]))
      ensures Failing(c[|a|..])
    {
      assert c[|a|..] == b[|a|..] + c[|b|..];
    }

    lemma FailingOn(a: Log, b: Log, c: Log)
      requires a <= b <= c
      ensures Failing(b[|a|..]) || Failing(c[|b|..]) ==> Failing(c[|a|..])
    {
      hide Failing;
      if Failing(b[|a|..]) || Failing(c[|b|..]) { StillFailing(a, b, c); }
    }

    /** Run one batch through the daemon and decide what its outcome means. */
    method AskDaemon(chunk: seq<Text>)
      returns (route: Route, ghost part: Log, ghost result: Result<Answer, Failure>)
      requires Valid() && expected.Some? && WithinCaps(chunk) && !bypass
      modifies this`sessionLost, this`busyBatches, this`bypass, env
      ensures Valid() && Spends(policy, old(env.log), env.log)
      ensures env.log == old(env.log) + part + [BatchEnded(chunk, EndOf(result))]
      ensures BatchEnds(env.log) == BatchEnds(old(env.log)) + [EndOf(result)]
      ensures Concluded(env.world, policy, Request(expected, chunk), part, result)
      ensures Safe(policy) ==> Elapsed(part) <= policy.budget + Overrun(part)
      ensures old(env.log) <= env.log && About(env.log[|old(env.log)|..], chunk)
      ensures match route
              case Answered(vectors) =>
                && result.Ok? && Embedded(chunk, vectors) && !bypass
                && Went(old(env.log), env.log, chunk, false, private, None)
              case Abort(error) =>
                && !FallbackError(error) && !bypass
                && Went(old(env.log), env.log, chunk, false, private, Some(error))
              case FallBack =>
                && JustFailed(env.log, chunk) && result.Err? && !result.error.FingerprintMoved?
                && Served(env.log[|old(env.log)|..]) && Failing(env.log[|old(env.log)|..])
    {
      hide Lawful, BypassDue, SaturatedRun, BatchEnds, SessionLost, WithinCaps, Elapsed, Spends, Concluded, Safe;
      hide Overrun, Calls, LastOutcome, Try, JustFailed, Went, Failing, About, Served, Fine, MapEmbed;
      var called;
      called, part := CallWithRetries(chunk);
      result := called;
      DecisiveOutcomeIsLast(env.world, policy, Request(expected, chunk), old(env.log), part, result);
      BatchIsBounded(env.world, policy, Request(expected, chunk), part, result);
      SpendsOneBatch(policy, old(env.log), part, BatchEnded(chunk, EndOf(result)));
      BatchWent(old(env.log), part, chunk, result, private);
      EndDaemonBatch(chunk, EndOf(called));
      if called.Ok? {
        if called.value.dim != dim {
          route := Abort(WrongDimension);
          return;
        }
        if exists i :: 0 <= i < |called.value.embeddings| && |called.value.embeddings[i]| != dim {
          route := Abort(WrongVectorLength);
          return;
        }
        route := Answered(called.value.embeddings);
        return;
      }
      route := if called.error.FingerprintMoved? then Abort(FingerprintRefused) else FallBack;
    }

    /** Count consecutive saturated batches and decide whether to bypass the daemon from now on. */
    method EndDaemonBatch(ghost texts: seq<Text>, result: Option<Failure>)
      requires Valid() && !bypass
      modifies this`busyBatches, this`bypass, env`log
      ensures Valid() && env.log == old(env.log) + [BatchEnded(texts, result)]
      ensures BatchEnds(env.log) == BatchEnds(old(env.log)) + [result]
      ensures result.Some? && result != Some(FingerprintMoved) ==> JustFailed(env.log, texts)
      ensures result.None? || !result.value.Transient? ==> !bypass
    {
      ghost var ends := BatchEnds(env.log);
      BypassStep(ends, result);
      env.EndBatch(texts, result);
      if !Saturated(result) {
        busyBatches := 0;
      }
      if result.Some? && result.value.Transient? {
        match result.value.kind {
          case Timeout => bypass := true;
          case Busy =>
            busyBatches := busyBatches + 1;
            if busyBatches >= BUSY_BATCHES_BEFORE_BYPASS {
              bypass := true;
            }
          case Unavailable =>
        }
      }
    }

    /** Put a batch's vectors in their texts' slots, each of which must still be empty. */
    method Fill(out: array<Option<Vector>>, batch: seq<nat>, vectors: seq<Vector>)
      requires |batch| == |vectors|
      requires forall j, k :: 0 <= j < k < |batch| ==> batch[j] != batch[k]
      requires forall j :: 0 <= j < |batch| ==> batch[j] < out.Length && out[batch[j]].None?
      modifies out
      ensures forall j :: 0 <= j < |batch| ==> out[batch[j]] == Some(vectors[j])
      ensures forall i :: 0 <= i < out.Length && i !in batch ==> out[i] == old(out[i])
    {
      for j := 0 to |batch|
        invariant forall k :: 0 <= k < j ==> out[batch[k]] == Some(vectors[k])
        invariant forall k :: j <= k < |batch| ==> out[batch[k]].None?
        invariant forall i :: 0 <= i < out.Length && i !in batch ==> out[i] == old(out[i])
      {
        out[batch[j]] := Some(vectors[j]);
      }
    }

    /** Slots hold vectors of their own texts. */
    ghost predicate Slots(out: array<Option<Vector>>, texts: seq<Text>)
      reads out
    {
      && out.Length == |texts|
      && forall i :: 0 <= i < out.Length && out[i].Some? ==>
           && |out[i].value| == dim
           && (Honest() ==> out[i].value == env.world.embed(env.reported, texts[i]))
    }

    /** Embed one group of texts and put the vectors in their slots. */
    method EmbedGroup(out: array<Option<Vector>>, texts: seq<Text>, group: seq<nat>, viaDaemon: bool)
      returns (failed: Option<EmbedError>)
      requires Valid() && expected.Some? && Slots(out, texts)
      requires forall j, k :: 0 <= j < k < |group| ==> group[j] != group[k]
      requires forall j :: 0 <= j < |group| ==> group[j] < |texts| && out[group[j]].None?
      requires if viaDaemon then WithinCaps(Chunk(texts, group)) else Oversize(Chunk(texts, group))
      modifies this`sessionLost, this`busyBatches, this`bypass, this`canInit, this`private, env, out
      ensures Valid() && Spends(policy, old(env.log), env.log)
      ensures old(FallbackWorks()) ==> FallbackWorks() && (failed.Some? ==> !FallbackError(failed.value))
      ensures |BatchEnds(env.log)| == |BatchEnds(old(env.log))| + if viaDaemon && !old(bypass) then 1 else 0
      ensures (old(bypass) ==> bypass) && (old(private) ==> private)
      ensures old(env.log) <= env.log
      ensures Went(old(env.log), env.log, texts, !viaDaemon || old(bypass), private, failed)
      ensures About(env.log[|old(env.log)|..], Chunk(texts, group))
      ensures !viaDaemon ==> AllPrivate(env.log[|old(env.log)|..])
      ensures bypass ==> old(bypass) || Failing(env.log[|old(env.log)|..])
      ensures failed.None? ==> Slots(out, texts)
      ensures failed.None? ==>
                forall i :: 0 <= i < out.Length ==> if i in group then out[i].Some? else out[i] == old(out[i])
    {
      hide Lawful, BypassDue, SaturatedRun, BatchEnds, SessionLost, WithinCaps, Elapsed, Spends;
      hide Went, Failing, JustFailed, Oversize, About, AllPrivate;
      var chunk := Chunk(texts, group);
      var r;
      if viaDaemon {
        r := EmbedChunk(chunk);
      } else {
        SizeAllows(env.log, chunk);
        r := PrivateEmbed(chunk);
      }
      WentAboutMore(old(env.log), env.log, chunk, texts, !viaDaemon || old(bypass), private, Failed(r));
      WentAbout(old(env.log), env.log, chunk, !viaDaemon || old(bypass), private, Failed(r));
      if r.Err? {
        return Some(r.error);
      }
      Fill(out, group, r.value);
      forall i | 0 <= i < out.Length && i in group
        ensures out[i].Some? && |out[i].value| == dim
        ensures Honest() ==> out[i].value == env.world.embed(env.reported, texts[i])
      {
        var j :| 0 <= j < |group| && group[j] == i;
        assert out[group[j]] == Some(r.value[j]);
      }
      failed := None;
    }

    /** Where the pass stands after the first b batches of the plan. */
    ghost predicate Sent(start: Log, texts: seq<Text>, bypassed: bool, b: nat)
      reads this, env
    {
      && Valid() && Spends(policy, start, env.log)
      && start <= env.log && InCap(env.log[|start|..]) && Went(start, env.log, texts, bypassed && b > 0, private, None)
      && (bypassed ==> bypass) && (bypass ==> bypassed || Failing(env.log[|start|..]))
      && |BatchEnds(start)| <= |BatchEnds(env.log)| <= |BatchEnds(start)| + b
      && (!bypass ==> |BatchEnds(env.log)| == |BatchEnds(start)| + b)
    }

    /** Send one batch of the plan. */
    method SendBatch(out: array<Option<Vector>>, texts: seq<Text>, batches: seq<seq<nat>>, b: nat,
                     ghost start: Log, ghost bypassed: bool)
      returns (failed: Option<EmbedError>)
      requires Sent(start, texts, bypassed, b) && expected.Some? && Slots(out, texts)
      requires b < |batches| && Sendable(texts, batches)
      requires forall i :: 0 <= i < out.Length ==> (out[i].Some? <==> i in BatchPlanner.Flatten(batches[..b]))
      modifies this`sessionLost, this`busyBatches, this`bypass, this`canInit, this`private, env, out
      ensures Valid() && start <= env.log && Spends(policy, start, env.log)
      ensures old(FallbackWorks()) ==> FallbackWorks() && (failed.Some? ==> !FallbackError(failed.value))
      ensures |BatchEnds(env.log)| <= |BatchEnds(start)| + b + 1 && InCap(env.log[|start|..])
      ensures failed.Some? ==> Went(start, env.log, texts, bypassed, private, failed)
      ensures failed.None? ==>
                Sent(start, texts, bypassed, b + 1) && Slots(out, texts) &&
                forall i :: 0 <= i < out.Length ==> (out[i].Some? <==> i in BatchPlanner.Flatten(batches[..b + 1]))
    {
      hide Lawful, BypassDue, SaturatedRun, BatchEnds, SessionLost, WithinCaps, Elapsed, Spends;
      hide Went, Failing, About, Served, InCap, MapEmbed;
      BatchIsNew(batches, b);
      assert batches[b] in batches;
      ghost var before, was := env.log, bypass;
      WentWell(start, before, texts, bypassed && b > 0, private);
      failed := EmbedGroup(out, texts, batches[b], true);
      SpendsOn(policy, start, before, env.log);
      WentOn(start, before, env.log, texts, bypassed, was, private, failed);
      FailingOn(start, before, env.log);
      InCapOn(start, before, env.log, Chunk(texts, batches[b]));
    }

    lemma NoneSent(texts: seq<Text>)
      requires Valid()
      ensures Sent(env.log, texts, bypass, 0)
    {
      SpendsNothing(policy, env.log);
      WentNowhere(env.log, texts, private);
    }

    /** Send the planned batches one after another. */
    method EmbedPlan(out: array<Option<Vector>>, texts: seq<Text>, batches: seq<seq<nat>>)
      returns (failed: Option<EmbedError>)
      requires Valid() && expected.Some? && Slots(out, texts) && Sendable(texts, batches)
      requires forall i :: 0 <= i < out.Length ==> out[i].None?
      modifies this`sessionLost, this`busyBatches, this`bypass, this`canInit, this`private, env, out
      ensures Valid() && Spends(policy, old(env.log), env.log)
      ensures old(FallbackWorks()) ==> FallbackWorks() && (failed.Some? ==> !FallbackError(failed.value))
      ensures old(env.log) <= env.log
      ensures Went(old(env.log), env.log, texts, old(bypass) && batches != [], private, failed)
      ensures InCap(env.log[|old(env.log)|..])
      ensures failed.None? && !bypass ==> |BatchEnds(env.log)| == |BatchEnds(old(env.log))| + |batches|
      ensures |BatchEnds(env.log)| <= |BatchEnds(old(env.log))| + |batches|
      ensures failed.None? ==>
                Slots(out, texts) &&
                forall i :: 0 <= i < out.Length ==> (out[i].Some? <==> i in BatchPlanner.Flatten(batches))
    {
      hide Lawful, BypassDue, SaturatedRun, BatchEnds, SessionLost, WithinCaps, Elapsed, Spends;
      hide Went, Failing, About, Served, InCap, MapEmbed, Sendable;
      NoneSent(texts);
      for b := 0 to |batches|
        invariant Sent(old(env.log), texts, old(bypass), b)
        invariant old(FallbackWorks()) ==> FallbackWorks()
        invariant Slots(out, texts)
        invariant forall i :: 0 <= i < out.Length ==> (out[i].Some? <==> i in BatchPlanner.Flatten(batches[..b]))
      {
        failed := SendBatch(out, texts, batches, b, old(env.log), old(bypass));
        if failed.Some? {
          return;
        }
      }
      assert batches[..|batches|] == batches;
      failed := None;
    }

    /** Every slot is filled by now, so nothing is missing from the result. */
    method Collect(out: array<Option<Vector>>, texts: seq<Text>) returns (vs: seq<Vector>)
      requires Slots(out, texts) && forall i :: 0 <= i < out.Length ==> out[i].Some?
      ensures Embedded(texts, vs)
    {
      vs := [];
      for i := 0 to out.Length
        invariant |vs| == i && forall k :: 0 <= k < i ==> vs[k] == out[k].value
      {
        vs := vs + [out[i].value];
      }
    }

    /** Set the oversize texts' vectors, privately. */
    method EmbedOversize(out: array<Option<Vector>>, texts: seq<Text>, oversize: seq<nat>)
      returns (failed: Option<EmbedError>)
      requires Valid() && expected.Some? && Slots(out, texts)
      requires forall j, k :: 0 <= j < k < |oversize| ==> oversize[j] < oversize[k]
      requires forall i :: i in oversize ==> i < |texts| && |texts[i]| > MAX_TEXT_BYTES && out[i].None?
      modifies this`sessionLost, this`busyBatches, this`bypass, this`canInit, this`private, env, out
      ensures Valid() && Spends(policy, old(env.log), env.log)
      ensures old(FallbackWorks()) ==> failed.None? || !FallbackError(failed.value)
      ensures |BatchEnds(env.log)| == |BatchEnds(old(env.log))|
      ensures (old(bypass) ==> bypass) && (old(private) ==> private)
      ensures old(env.log) <= env.log
      ensures Went(old(env.log), env.log, texts, oversize != [], private, failed)
      ensures AllPrivate(env.log[|old(env.log)|..])
      ensures failed.None? ==> Slots(out, texts)
      ensures failed.None? ==>
                forall i :: 0 <= i < out.Length ==> if i in oversize then out[i].Some? else out[i] == old(out[i])
    {
      hide Lawful, BypassDue, SaturatedRun, BatchEnds, SessionLost, WithinCaps, Elapsed, Spends;
      hide Went, Failing, JustFailed, MapEmbed;
      SpendsNothing(policy, env.log);
      WentNowhere(env.log, texts, private);
      failed := None;
      if oversize != [] {
        forall j | 0 <= j < |oversize| ensures oversize[j] < |texts| && out[oversize[j]].None? {
          assert oversize[j] in oversize;
        }
        failed := EmbedGroup(out, texts, oversize, false);
      }
    }

    /** The private embedder is called for from the start: the daemon is bypassed although calls were
        planned, or some text is too long for it. */
    ghost predicate CallsForPrivate(texts: seq<Text>, plan: seq<seq<nat>>, bypassed: bool) {
      (bypassed && plan != []) || exists x :: x in texts && |x| > MAX_TEXT_BYTES
    }

    /** First what the daemon may be sent, and only then, privately, what it may not. */
    ghost predicate InTurn(before: Log, after: Log, planned: Log) {
      before <= planned <= after && InCap(planned[|before|..]) && AllPrivate(after[|planned|..])
    }

    /** Send the planned batches, and then embed the oversize texts. */
    method EmbedAll(out: array<Option<Vector>>, texts: seq<Text>, batches: seq<seq<nat>>, oversize: seq<nat>)
      returns (failed: Option<EmbedError>, ghost planned: Log)
      requires Valid() && expected.Some? && Slots(out, texts) && Sendable(texts, batches)
      requires forall i :: 0 <= i < out.Length ==> out[i].None?
      requires forall i: nat :: i in oversize <==> i < |texts| && |texts[i]| > MAX_TEXT_BYTES
      requires forall i: nat :: i in BatchPlanner.Flatten(batches) <==> i < |texts| && |texts[i]| <= MAX_TEXT_BYTES
      requires forall j, k :: 0 <= j < k < |oversize| ==> oversize[j] < oversize[k]
      modifies this`sessionLost, this`busyBatches, this`bypass, this`canInit, this`private, env, out
      ensures Valid() && Spends(policy, old(env.log), env.log)
      ensures old(FallbackWorks()) && failed.Some? ==> !FallbackError(failed.value)
      ensures old(env.log) <= env.log
      ensures Went(old(env.log), env.log, texts, CallsForPrivate(texts, batches, old(bypass)), private, failed)
      ensures InTurn(old(env.log), env.log, planned)
      ensures failed.None? && !bypass ==> |BatchEnds(env.log)| == |BatchEnds(old(env.log))| + |batches|
      ensures |BatchEnds(env.log)| <= |BatchEnds(old(env.log))| + |batches|
      ensures failed.None? ==> Slots(out, texts) && forall i :: 0 <= i < out.Length ==> out[i].Some?
    {
      hide Lawful, BypassDue, SaturatedRun, BatchEnds, SessionLost, WithinCaps, Elapsed, Spends;
      hide Went, Failing, About, Served, InCap, MapEmbed;
      OversizeMembers(texts, oversize);
      ghost var needed := CallsForPrivate(texts, batches, bypass);
      failed := EmbedPlan(out, texts, batches);
      planned := env.log;
      if failed.Some? {
        FailedWithMoreNeed(old(env.log), env.log, texts, old(bypass) && batches != [], needed, private, failed);
        return;
      }
      WentWell(old(env.log), planned, texts, old(bypass) && batches != [], private);
      failed := EmbedOversize(out, texts, oversize);
      SpendsOn(policy, old(env.log), planned, env.log);
      WentOn(old(env.log), planned, env.log, texts, needed, oversize != [], private, failed);
    }

    /** Embed every text, in order, whatever the daemon does.  The batch succeeds exactly when all that
        happened was fine and the private embedder, if it was called for, is loaded; when it was not
        called for, exactly when the daemon did its part.  An error is what the log ends with.  As long
        as the daemon is not bypassed, every planned call is put to it; and the plan bounds the calls
        made and the time spent. */
    method EmbedBatch(texts: seq<Text>)
      returns (r: Result<seq<Vector>, EmbedError>, ghost plan: seq<seq<nat>>, ghost planned: Log)
      requires Valid()
      modifies this`sessionLost, this`busyBatches, this`bypass, this`canInit, this`private, env
      ensures Valid() && Spends(policy, old(env.log), env.log)
      ensures expected.None? ==> r == Err(Unbound) && env.log == old(env.log)
      ensures r.Ok? ==> Embedded(texts, r.value)
      ensures old(FallbackWorks()) && r.Err? ==> !FallbackError(r.error)
      ensures old(env.log) <= env.log
      ensures expected.Some? ==>
                Went(old(env.log), env.log, texts, CallsForPrivate(texts, plan, old(bypass)), private, Failed(r))
      ensures var more, needed := env.log[|old(env.log)|..], CallsForPrivate(texts, plan, old(bypass));
              && (r.Ok? <==> expected.Some? && Served(more) && (needed || Failing(more) ==> private))
              && (expected.Some? && DaemonServed(more) && !needed && !Failing(more) ==> r.Ok?)
      ensures expected.Some? ==> BatchPlanner.Greedy(Lengths(texts), DAEMON_CAPS, plan)
      ensures InTurn(old(env.log), env.log, planned)
      ensures r.Ok? && !bypass ==> |BatchEnds(env.log)| == |BatchEnds(old(env.log))| + |plan|
      ensures Affordable(policy, |plan|, env.log[|old(env.log)|..])
    {
      hide Lawful, BypassDue, SaturatedRun, BatchEnds, SessionLost, WithinCaps, Elapsed, Spends, Affordable;
      hide Went, Failing, About, Served, DaemonServed, MapEmbed, CallsForPrivate, Sendable;
      plan, planned := [], env.log;
      if expected.None? {
        SpendsNothing(policy, env.log);
        SpendsAtMost(policy, old(env.log), env.log, 0);
        return Err(Unbound), plan, planned;
      }
      var batches, oversize := PlanTexts(texts);
      plan := batches;
      var out := new Option<Vector>[|texts|](i => None);
      var failed;
      failed, planned := EmbedAll(out, texts, batches, oversize);
      SpendsAtMost(policy, old(env.log), env.log, |plan|);
      Verdict(old(env.log), env.log, texts, CallsForPrivate(texts, plan, old(bypass)), private, failed);
      if failed.Some? {
        return Err(failed.value), plan, planned;
      }
      var vs := Collect(out, texts);
      r := Ok(vs);
    }
  }

  lemma OversizeMembers(texts: seq<Text>, oversize: seq<nat>)
    requires forall i: nat :: i in oversize <==> i < |texts| && |texts[i]| > MAX_TEXT_BYTES
    ensures oversize != [] <==> exists x :: x in texts && |x| > MAX_TEXT_BYTES
  {
    if oversize != [] {
      assert oversize[0] in oversize;
      assert texts[oversize[0]] in texts;
    }
    if x :| x in texts && |x| > MAX_TEXT_BYTES {
      var i: nat :| i < |texts| && texts[i] == x;
      assert i in oversize;
    }
  }

  const DAEMON_CAPS := BatchPlanner.Caps(MAX_TEXT_BYTES, CALL_MAX_BYTES, CALL_MAX_TEXTS)

  function Lengths(texts: seq<Text>): (lens: seq<nat>)
    ensures |lens| == |texts| && forall i :: 0 <= i < |lens| ==> lens[i] == |texts[i]|
  {
    seq(|texts|, i requires 0 <= i < |texts| => |texts[i]|)
  }

  /** Plan the daemon calls for these texts and set aside those no call may carry. */
  method PlanTexts(texts: seq<Text>) returns (batches: seq<seq<nat>>, oversize: seq<nat>)
    ensures BatchPlanner.Greedy(Lengths(texts), DAEMON_CAPS, batches) && Sendable(texts, batches)
    ensures forall i: nat :: i in oversize <==> i < |texts| && |texts[i]| > MAX_TEXT_BYTES
    ensures forall i: nat :: i in BatchPlanner.Flatten(batches) <==> i < |texts| && |texts[i]| <= MAX_TEXT_BYTES
    ensures forall j, k :: 0 <= j < k < |oversize| ==> oversize[j] < oversize[k]
  {
    var lens := Lengths(texts);
    batches, oversize := BatchPlanner.Plan(lens, DAEMON_CAPS);
    PlanIsSendable(texts, batches);
    BatchPlanner.WithinMembers(lens, MAX_TEXT_BYTES, true);
    BatchPlanner.WithinMembers(lens, MAX_TEXT_BYTES, false);
  }

  /** Every batch may be sent, and the batches hold distinct texts. */
  ghost predicate Sendable(texts: seq<Text>, batches: seq<seq<nat>>) {
    && (forall b :: b in batches ==> (forall j :: 0 <= j < |b| ==> b[j] < |texts|) && WithinCaps(Chunk(texts, b)))
    && var xs := BatchPlanner.Flatten(batches); forall j, k :: 0 <= j < k < |xs| ==> xs[j] < xs[k]
  }

  function Chunk(texts: seq<Text>, group: seq<nat>): (chunk: seq<Text>)
    requires forall j :: 0 <= j < |group| ==> group[j] < |texts|
    ensures |chunk| == |group| && forall j :: 0 <= j < |group| ==> chunk[j] == texts[group[j]]
  {
    seq(|group|, j requires 0 <= j < |group| => texts[group[j]])
  }

  lemma {:induction false} ChunkBytes(texts: seq<Text>, lens: seq<nat>, group: seq<nat>)
    requires |lens| == |texts| && forall i :: 0 <= i < |lens| ==> lens[i] == |texts[i]|
    requires forall j :: 0 <= j < |group| ==> group[j] < |texts|
    ensures TotalBytes(Chunk(texts, group)) == BatchPlanner.Bytes(lens, group)
  {
    if group != [] {
      ChunkBytes(texts, lens, group[..|group| - 1]);
      assert Chunk(texts, group)[..|group| - 1] == Chunk(texts, group[..|group| - 1]);
    }
  }

  /** Every planned batch may be sent: its texts exist, are distinct, and stay within the caps. */
  lemma PlanIsSendable(texts: seq<Text>, batches: seq<seq<nat>>)
    requires BatchPlanner.Greedy(Lengths(texts), DAEMON_CAPS, batches)
    ensures Sendable(texts, batches)
  {
    var lens := Lengths(texts);
    BatchPlanner.WithinMembers(lens, MAX_TEXT_BYTES, true);
    BatchPlanner.GreedyRespectsCaps(lens, DAEMON_CAPS, batches);
    forall b | b in batches
      ensures (forall j :: 0 <= j < |b| ==> b[j] < |texts|) && WithinCaps(Chunk(texts, b))
    {
      var k :| 0 <= k < |batches| && batches[k] == b;
      BatchPlanner.FlattenMember(batches, k);
      forall j | 0 <= j < |b| ensures b[j] < |texts| && |texts[b[j]]| <= MAX_TEXT_BYTES {
        assert b[j] in BatchPlanner.Within(lens, MAX_TEXT_BYTES, true);
      }
      ChunkBytes(texts, lens, b);
    }
  }

  /** A batch of an increasing plan repeats neither itself nor any earlier batch. */
  lemma BatchIsNew(batches: seq<seq<nat>>, b: nat)
    requires b < |batches|
    requires var xs := BatchPlanner.Flatten(batches); forall j, k :: 0 <= j < k < |xs| ==> xs[j] < xs[k]
    ensures forall j, k :: 0 <= j < k < |batches[b]| ==> batches[b][j] != batches[b][k]
    ensures forall j :: 0 <= j < |batches[b]| ==> batches[b][j] !in BatchPlanner.Flatten(batches[..b])
    ensures forall i: nat :: i in BatchPlanner.Flatten(batches[..b + 1]) <==>
              i in BatchPlanner.Flatten(batches[..b]) || i in batches[b]
  {
    hide BatchPlanner.Flatten;
    assert batches == batches[..b + 1] + batches[b + 1..];
    assert batches[..b + 1] == batches[..b] + [batches[b]];
    BatchPlanner.FlattenConcat(batches[..b + 1], batches[b + 1..]);
    BatchPlanner.FlattenLast(batches[..b], batches[b]);
    var before, mine := BatchPlanner.Flatten(batches[..b]), batches[b];
    var xs := BatchPlanner.Flatten(batches);
    forall j | 0 <= j < |mine| ensures mine[j] == xs[|before| + j] {}
    forall j | 0 <= j < |before| ensures before[j] == xs[j] {}
  }
}
