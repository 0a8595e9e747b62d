/** A chain of models tried in order: bounded retries within a model, hops between models,
    a budget for malformed output, and the agents' retry wrapper around the chain. What each
    call answers is decided by an arbitrary oracle. */
module Fallback {

  datatype Error =
    | Timeout
    | MalformedOutput(detail: string)
    | ProviderError(code: int, body: string)
    | OtherError(text: string)

  datatype Reply = Answer(text: string) | Failure(error: Error)

  /** The reply of model i to its attempt-th call. */
  type Oracle = (nat, nat) -> Reply

  datatype Config = Config(models: nat, maxRetries: int, hopOnMalformed: bool, maxMalformedHops: int)

  // ----- classifying failures -------------------------------------------------------------------

  function Lower(s: string): string {
    seq(|s|, i requires 0 <= i < |s| => if 'A' <= s[i] <= 'Z' then s[i] - 'A' + 'a' else s[i])
  }

  predicate Contains(s: string, cue: string) {
    cue <= s || (s != [] && Contains(s[1..], cue))
  }

  predicate HasAnyCue(body: string, cues: seq<string>) {
    exists k :: 0 <= k < |cues| && Contains(body, cues[k])
  }

  predicate HasAllCues(body: string, cues: seq<string>) {
    forall k :: 0 <= k < |cues| ==> Contains(body, cues[k])
  }

  const MALFORMED_CUES: seq<string> := ["json", "validate", "tool choice is none", "tool_use_failed"]

  const DEPRECATED_CUES: seq<string> := ["unavailable for free", "use this slug instead"]

  const TRANSIENT_CODES: set<int> := {0, 408, 429, 500, 502, 503, 504}

  /** Malformed output, or the raw HTTP form of it. */
  predicate IsMalformed(e: Error) {
    e.MalformedOutput? || (e.ProviderError? && e.code == 400 && HasAnyCue(Lower(e.body), MALFORMED_CUES))
  }

  /** A retired model: a 404 whose body carries both cues. */
  predicate IsDeprecated(e: Error) {
    e.ProviderError? && e.code == 404 && HasAllCues(Lower(e.body), DEPRECATED_CUES)
  }

  predicate IsTransient(e: Error) {
    e.Timeout? || (e.ProviderError? && e.code in TRANSIENT_CODES)
  }

  /** An error that ends the request at once: no class of failure allows going on. */
  predicate IsFatal(e: Error) {
    !IsMalformed(e) && !IsDeprecated(e) && !IsTransient(e)
  }

  /** Whatever is classified malformed leaves the chain typed as malformed output. */
  function AsMalformed(e: Error): Error {
    match e
    case MalformedOutput(_) => e
    case ProviderError(_, body) => MalformedOutput("provider 400: " + body)
    case Timeout => MalformedOutput("provider 400: timeout")
    case OtherError(text) => MalformedOutput("provider 400: " + text)
  }

  /** The same letter, whatever its case; other characters only match themselves. */
  predicate SameUpToCase(a: char, b: char) {
    a == b || ('A' <= a <= 'Z' && b == a - 'A' + 'a') || ('A' <= b <= 'Z' && a == b - 'A' + 'a')
  }

  /** The cue stands in the body at position i, in any letter case. */
  predicate StandsAt(body: string, cue: string, i: int) {
    0 <= i && i + |cue| <= |body| && forall j :: 0 <= j < |cue| ==> SameUpToCase(body[i + j], cue[j])
  }

  ghost predicate Mentions(body: string, cue: string) {
    exists i :: StandsAt(body, cue, i)
  }

  predicate IsLower(cue: string) {
    forall j :: 0 <= j < |cue| ==> !('A' <= cue[j] <= 'Z')
  }

  /** The scan for a cue in the lower-cased body finds it exactly when the body mentions it somewhere. */
  lemma {:induction false} CueIsFound(body: string, cue: string)
    requires IsLower(cue)
    ensures Contains(Lower(body), cue) <==> Mentions(body, cue)
    decreases |body|
  {
    var low := Lower(body);
    assert cue <= low <==> StandsAt(body, cue, 0);
    if body != [] {
      assert low[1..] == Lower(body[1..]);
      CueIsFound(body[1..], cue);
      if i :| StandsAt(body[1..], cue, i) {
        forall j | 0 <= j < |cue| ensures SameUpToCase(body[i + 1 + j], cue[j]) {
          assert body[1..][i + j] == body[i + 1 + j];
        }
        assert StandsAt(body, cue, i + 1);
      }
      if i :| StandsAt(body, cue, i) {
        if i > 0 {
          forall j | 0 <= j < |cue| ensures SameUpToCase(body[1..][i - 1 + j], cue[j]) {
            assert body[1..][i - 1 + j] == body[i + j];
          }
          assert StandsAt(body[1..], cue, i - 1);
        }
      }
    }
  }

  /** The classes of provider errors, in terms of the code and of what the body mentions. */
  lemma {:induction false} MalformedInWords(code: int, body: string)
    ensures IsMalformed(ProviderError(code, body)) <==>
      (code == 400 && (Mentions(body, "json") || Mentions(body, "validate")
                       || Mentions(body, "tool choice is none") || Mentions(body, "tool_use_failed")))
  {
    CueIsFound(body, "json");
    CueIsFound(body, "validate");
    CueIsFound(body, "tool choice is none");
    CueIsFound(body, "tool_use_failed");
    var low := Lower(body);
    assert HasAnyCue(low, MALFORMED_CUES) <==>
      Contains(low, MALFORMED_CUES[0]) || Contains(low, MALFORMED_CUES[1])
      || Contains(low, MALFORMED_CUES[2]) || Contains(low, MALFORMED_CUES[3]);
  }

  lemma {:induction false} DeprecatedInWords(code: int, body: string)
    ensures IsDeprecated(ProviderError(code, body)) <==>
      (code == 404 && Mentions(body, "unavailable for free") && Mentions(body, "use this slug instead"))
  {
    CueIsFound(body, "unavailable for free");
    CueIsFound(body, "use this slug instead");
    var low := Lower(body);
    assert HasAllCues(low, DEPRECATED_CUES) <==>
      Contains(low, DEPRECATED_CUES[0]) && Contains(low, DEPRECATED_CUES[1]);
  }

  lemma {:induction false} TransientInWords(e: Error)
    ensures IsTransient(e) <==>
      (e.Timeout? || (e.ProviderError? && (e.code in {0, 408, 429, 500} || 502 <= e.code <= 504)))
  {
  }

  /** The classes do not overlap, so the order of the checks in the loop does not matter. */
  lemma ClassesAreDisjoint(e: Error)
    ensures !(IsMalformed(e) && IsDeprecated(e)) && !(IsMalformed(e) && IsTransient(e))
    ensures !(IsDeprecated(e) && IsTransient(e))
  {
  }

  // ----- the specification: one call at a time ----------------------------------------------------

  /** Call `attempt` of model `model` is next; `hops` malformed replies have been counted. */
  datatype Point = Point(model: nat, attempt: nat, hops: int)

  /** The calls made, in order, what the request ends with, and the back-off slept, in units of
      the base delay. */
  datatype Trace = Trace(calls: seq<(nat, nat)>, result: Reply, slept: nat)

  function Pow2(n: nat): nat { if n == 0 then 1 else 2 * Pow2(n - 1) }

  /** Continue after a hop from p: at the next model, or with the last error if there is none. */
  function Hop(cfg: Config, oracle: Oracle, p: Point, e: Error): Trace
    requires p.model < cfg.models
    decreases cfg.models - p.model, 0, 0
  {
    if p.model + 1 < cfg.models then From(cfg, oracle, Point(p.model + 1, 0, p.hops))
    else Trace([], Failure(if IsMalformed(e) && cfg.hopOnMalformed then AsMalformed(e) else e), 0)
  }

  /** The request from point p on. */
  function From(cfg: Config, oracle: Oracle, p: Point): Trace
    requires p.model < cfg.models
    decreases cfg.models - p.model, 1, if p.attempt < cfg.maxRetries then cfg.maxRetries - p.attempt else 0
  {
    var call := (p.model, p.attempt);
    match oracle(p.model, p.attempt)
    case Answer(text) => Trace([call], Answer(text), 0)
    case Failure(e) =>
      if IsMalformed(e) then
        if !cfg.hopOnMalformed then Trace([call], Failure(e), 0)
        else if p.hops + 1 > cfg.maxMalformedHops then Trace([call], Failure(AsMalformed(e)), 0)
        else Then(call, 0, Hop(cfg, oracle, p.(hops := p.hops + 1), e))
      else if IsDeprecated(e) then Then(call, 0, Hop(cfg, oracle, p, e))
      else if !IsTransient(e) then Trace([call], Failure(e), 0)
      else if p.attempt >= cfg.maxRetries then Then(call, 0, Hop(cfg, oracle, p, e))
      else Then(call, Pow2(p.attempt), From(cfg, oracle, p.(attempt := p.attempt + 1)))
  }

  /** The reply at p sends the request on to the next model. */
  predicate Hops(cfg: Config, p: Point, e: Error) {
    if IsMalformed(e) then cfg.hopOnMalformed && p.hops + 1 <= cfg.maxMalformedHops
    else IsDeprecated(e) || (IsTransient(e) && p.attempt >= cfg.maxRetries)
  }

  function NextModel(p: Point, e: Error): Point {
    Point(p.model + 1, 0, if IsMalformed(e) then p.hops + 1 else p.hops)
  }

  /** The three ways a failing call can go, each with what follows. */
  lemma FailureSteps(cfg: Config, oracle: Oracle, p: Point, e: Error)
    requires p.model < cfg.models && oracle(p.model, p.attempt) == Failure(e)
    ensures var t := From(cfg, oracle, p);
            var call := (p.model, p.attempt);
            if IsTransient(e) && p.attempt < cfg.maxRetries then
              t == Then(call, Pow2(p.attempt), From(cfg, oracle, p.(attempt := p.attempt + 1)))
            else if Hops(cfg, p, e) && p.model + 1 < cfg.models then
              t == Then(call, 0, From(cfg, oracle, NextModel(p, e)))
            else
              t == Trace([call], Failure(if IsMalformed(e) && cfg.hopOnMalformed then AsMalformed(e) else e), 0)
  {
    ClassesAreDisjoint(e);
  }

  function Then(call: (nat, nat), slept: nat, rest: Trace): Trace {
    Trace([call] + rest.calls, rest.result, slept + rest.slept)
  }

  // ----- the loop ------------------------------------------------------------------------------------

  /** The nested loops of the chain, with their counters. An empty chain is refused on construction. */
  method CallWithFallback(cfg: Config, oracle: Oracle) returns (trace: Trace)
    requires cfg.models > 0
    ensures trace == From(cfg, oracle, Point(0, 0, 0))
  {
    var calls: seq<(nat, nat)> := [];
    var slept: nat := 0;
    var lastError := OtherError("");
    var malformedHops: nat := 0;
    var index: nat := 0;
    ghost var spec := From(cfg, oracle, Point(0, 0, 0));
    while index < cfg.models
      invariant 0 <= index <= cfg.models && (index > 0 || calls == [])
      invariant index < cfg.models ==> spec == After(calls, slept, From(cfg, oracle, Point(index, 0, malformedHops)))
      invariant index == cfg.models ==>
        spec == After(calls, slept, Hop(cfg, oracle, Point(index - 1, 0, malformedHops), lastError))
    {
      var attempt: nat := 0;
      var leaving := false;
      while !leaving
        invariant !leaving ==>
          spec == After(calls, slept, From(cfg, oracle, Point(index, attempt, malformedHops)))
        invariant leaving ==>
          spec == After(calls, slept, Hop(cfg, oracle, Point(index, attempt, malformedHops), lastError))
        decreases !leaving, if attempt < cfg.maxRetries then cfg.maxRetries - attempt else 0
      {
        var reply := oracle(index, attempt);
        ghost var before := (calls, slept);
        calls := calls + [(index, attempt)];
        if reply.Answer? { return Trace(calls, reply, slept); }
        var e := reply.error;
        lastError := e;
        if IsMalformed(e) {
          if !cfg.hopOnMalformed { return Trace(calls, Failure(e), slept); }
          malformedHops := malformedHops + 1;
          if malformedHops > cfg.maxMalformedHops { return Trace(calls, Failure(AsMalformed(e)), slept); }
          leaving := true;
        } else if IsDeprecated(e) {
          leaving := true;
        } else if !IsTransient(e) {
          return Trace(calls, Failure(e), slept);
        } else if attempt >= cfg.maxRetries {
          leaving := true;
        }
        if leaving {
          AfterThen(before.0, before.1, (index, attempt), 0,
                    Hop(cfg, oracle, Point(index, attempt, malformedHops), e));
        } else {
          slept := slept + Pow2(attempt);
          AfterThen(before.0, before.1, (index, attempt), Pow2(attempt),
                    From(cfg, oracle, Point(index, attempt + 1, malformedHops)));
          attempt := attempt + 1;
        }
      }
      HopForgetsAttempt(cfg, oracle, index, attempt, malformedHops, lastError);
      index := index + 1;
    }
    if IsMalformed(lastError) && cfg.hopOnMalformed {
      return Trace(calls, Failure(AsMalformed(lastError)), slept);
    }
    return Trace(calls, Failure(lastError), slept);
  }

  /** A trace with a prefix already done. */
  function After(calls: seq<(nat, nat)>, slept: nat, rest: Trace): Trace {
    Trace(calls + rest.calls, rest.result, slept + rest.slept)
  }

  lemma AfterThen(calls: seq<(nat, nat)>, slept: nat, call: (nat, nat), pause: nat, rest: Trace)
    ensures After(calls, slept, Then(call, pause, rest)) == After(calls + [call], slept + pause, rest)
  {
    assert calls + ([call] + rest.calls) == calls + [call] + rest.calls;
  }

  lemma HopForgetsAttempt(cfg: Config, oracle: Oracle, model: nat, attempt: nat, hops: int, e: Error)
    requires model < cfg.models
    ensures Hop(cfg, oracle, Point(model, attempt, hops), e) == Hop(cfg, oracle, Point(model, 0, hops), e)
  {
  }

  // ----- what the caller is promised --------------------------------------------------------------------

  function Retries(cfg: Config): nat { if cfg.maxRetries < 0 then 0 else cfg.maxRetries }

  /** The error of the k-th call of a trace. */
  predicate Failed(oracle: Oracle, t: Trace, k: nat)
    requires k < |t.calls|
  {
    oracle(t.calls[k].0, t.calls[k].1).Failure?
  }

  function ErrorAt(oracle: Oracle, t: Trace, k: nat): Error
    requires k < |t.calls| && Failed(oracle, t, k)
  {
    oracle(t.calls[k].0, t.calls[k].1).error
  }

  /** The malformed replies among some calls. */
  function MalformedCalls(oracle: Oracle, calls: seq<(nat, nat)>): nat {
    if calls == [] then 0 else Malformed(oracle, calls[0]) + MalformedCalls(oracle, calls[1..])
  }

  function Malformed(oracle: Oracle, call: (nat, nat)): nat {
    var r := oracle(call.0, call.1);
    if r.Failure? && IsMalformed(r.error) then 1 else 0
  }

  /** The pauses between calls: only a retry of the same model waits, twice as long each time. */
  function Pauses(calls: seq<(nat, nat)>): nat {
    if |calls| < 2 then 0
    else (if calls[0].0 == calls[1].0 then Pow2(calls[0].1) else 0) + Pauses(calls[1..])
  }

  /** Why the chain went on after call k, `hops` malformed replies having come before the trace: a
      retry of the same model after a transient failure, or a hop to a model that exists, because
      this one is retired, out of retries, or malformed within the budget. */
  ghost predicate GoesOn(cfg: Config, oracle: Oracle, hops: int, t: Trace, k: nat)
    requires k + 1 < |t.calls|
  {
    var (i, a) := t.calls[k];
    var next := t.calls[k + 1];
    && Failed(oracle, t, k)
    && var e := ErrorAt(oracle, t, k);
       || (next == (i, a + 1) && IsTransient(e) && a < cfg.maxRetries)
       || (next == (i + 1, 0) && i + 1 < cfg.models && IsTransient(e) && a >= cfg.maxRetries)
       || (next == (i + 1, 0) && i + 1 < cfg.models && IsDeprecated(e))
       || (next == (i + 1, 0) && i + 1 < cfg.models && IsMalformed(e) && cfg.hopOnMalformed
           && hops + MalformedCalls(oracle, t.calls[..k + 1]) <= cfg.maxMalformedHops)
  }

  /** Why the chain stopped with its last call: it answered, the failure is fatal, malformed output
      is not hopped over or has used up the budget, or the failure asks for a model that is not there. */
  ghost predicate StopsAt(cfg: Config, oracle: Oracle, hops: int, t: Trace)
    requires t.calls != []
  {
    var (i, a) := t.calls[|t.calls| - 1];
    match oracle(i, a)
    case Answer(text) => t.result == Answer(text)
    case Failure(e) =>
      if IsMalformed(e) && cfg.hopOnMalformed then
        && t.result == Failure(AsMalformed(e))
        && (i + 1 >= cfg.models || hops + MalformedCalls(oracle, t.calls) > cfg.maxMalformedHops)
      else
        && t.result == Failure(e)
        && (IsFatal(e) || IsMalformed(e)
            || (i + 1 >= cfg.models && (IsDeprecated(e) || (IsTransient(e) && a >= cfg.maxRetries))))
  }

  /** The calls from p on: they start at p, each one has a reason to go on to the next, the last one
      decides the result, and the back-off is that of the retries. */
  ghost predicate Explained(cfg: Config, oracle: Oracle, p: Point, t: Trace) {
    && t.calls != [] && t.calls[0] == (p.model, p.attempt)
    && (forall k :: 0 <= k < |t.calls| - 1 ==> GoesOn(cfg, oracle, p.hops, t, k))
    && StopsAt(cfg, oracle, p.hops, t)
    && t.slept == Pauses(t.calls)
  }

  lemma OneCall(oracle: Oracle, call: (nat, nat))
    ensures MalformedCalls(oracle, [call]) == Malformed(oracle, call)
  {
    var rest := [call][1..];
    assert rest == [];
  }

  /** A later call goes on for the same reasons, seen from the first call or from the second. */
  lemma TailGoesOn(cfg: Config, oracle: Oracle, hops: int, call: (nat, nat), slept: nat, rest: Trace, k: nat)
    requires k + 1 < |rest.calls|
    ensures GoesOn(cfg, oracle, hops, Then(call, slept, rest), k + 1)
       <==> GoesOn(cfg, oracle, hops + Malformed(oracle, call), rest, k)
  {
    var calls := Then(call, slept, rest).calls;
    assert calls[k + 1] == rest.calls[k] && calls[k + 2] == rest.calls[k + 1];
    assert calls[..k + 2][1..] == rest.calls[..k + 1];
  }

  lemma TailStops(cfg: Config, oracle: Oracle, hops: int, call: (nat, nat), slept: nat, rest: Trace)
    requires rest.calls != []
    ensures StopsAt(cfg, oracle, hops, Then(call, slept, rest))
       <==> StopsAt(cfg, oracle, hops + Malformed(oracle, call), rest)
  {
    var calls := Then(call, slept, rest).calls;
    assert calls[1..] == rest.calls && calls[|calls| - 1] == rest.calls[|rest.calls| - 1];
  }

  /** A trace is explained from its first call exactly when that call goes on for a reason and the
      rest is explained from where it goes, with one more hop counted after a malformed reply. */
  lemma {:induction false} ThenExplained(cfg: Config, oracle: Oracle, p: Point, q: Point, rest: Trace)
    requires rest.calls != [] && rest.calls[0] == (q.model, q.attempt)
    requires q.hops == p.hops + Malformed(oracle, (p.model, p.attempt))
    ensures var t := Then((p.model, p.attempt), if p.model == q.model then Pow2(p.attempt) else 0, rest);
            Explained(cfg, oracle, p, t) <==> GoesOn(cfg, oracle, p.hops, t, 0) && Explained(cfg, oracle, q, rest)
  {
    var call, slept := (p.model, p.attempt), if p.model == q.model then Pow2(p.attempt) else 0;
    var t := Then(call, slept, rest);
    assert t.calls[1..] == rest.calls;
    TailStops(cfg, oracle, p.hops, call, slept, rest);
    forall k | 0 <= k < |rest.calls| - 1
      ensures GoesOn(cfg, oracle, p.hops, t, k + 1) <==> GoesOn(cfg, oracle, q.hops, rest, k)
    {
      TailGoesOn(cfg, oracle, p.hops, call, slept, rest, k);
    }
    if Explained(cfg, oracle, p, t) {
      forall k | 0 <= k < |rest.calls| - 1 ensures GoesOn(cfg, oracle, q.hops, rest, k) {
        assert GoesOn(cfg, oracle, p.hops, t, k + 1);
      }
    }
    if GoesOn(cfg, oracle, p.hops, t, 0) && Explained(cfg, oracle, q, rest) {
      forall k | 0 <= k < |t.calls| - 1 ensures GoesOn(cfg, oracle, p.hops, t, k) {
        if k > 0 { assert GoesOn(cfg, oracle, q.hops, rest, k - 1); }
      }
    }
  }

  /** For every oracle: the calls go through the chain in order, every step has one of the
      stated reasons, and the request ends for one of the stated reasons. */
  lemma {:induction false} EveryCallIsExplained(cfg: Config, oracle: Oracle, p: Point)
    requires p.model < cfg.models
    ensures Explained(cfg, oracle, p, From(cfg, oracle, p))
    decreases cfg.models - p.model, if p.attempt < cfg.maxRetries then cfg.maxRetries - p.attempt else 0
  {
    match oracle(p.model, p.attempt)
    case Answer(_) =>
    case Failure(e) =>
      if IsTransient(e) && p.attempt < cfg.maxRetries {
        EveryCallIsExplained(cfg, oracle, p.(attempt := p.attempt + 1));
        RetryExplained(cfg, oracle, p, e);
      } else if Hops(cfg, p, e) && p.model + 1 < cfg.models {
        EveryCallIsExplained(cfg, oracle, NextModel(p, e));
        HopExplained(cfg, oracle, p, e);
      } else {
        StopsAlone(cfg, oracle, p, e);
      }
  }

  lemma RetryExplained(cfg: Config, oracle: Oracle, p: Point, e: Error)
    requires p.model < cfg.models && oracle(p.model, p.attempt) == Failure(e)
    requires IsTransient(e) && p.attempt < cfg.maxRetries
    requires Explained(cfg, oracle, p.(attempt := p.attempt + 1), From(cfg, oracle, p.(attempt := p.attempt + 1)))
    ensures Explained(cfg, oracle, p, From(cfg, oracle, p))
  {
    var q := p.(attempt := p.attempt + 1);
    FailureSteps(cfg, oracle, p, e);
    ClassesAreDisjoint(e);
    GoesOnFirst(cfg, oracle, p, q, From(cfg, oracle, q));
    ThenExplained(cfg, oracle, p, q, From(cfg, oracle, q));
  }

  lemma HopExplained(cfg: Config, oracle: Oracle, p: Point, e: Error)
    requires p.model + 1 < cfg.models && oracle(p.model, p.attempt) == Failure(e)
    requires !(IsTransient(e) && p.attempt < cfg.maxRetries) && Hops(cfg, p, e)
    requires Explained(cfg, oracle, NextModel(p, e), From(cfg, oracle, NextModel(p, e)))
    ensures Explained(cfg, oracle, p, From(cfg, oracle, p))
  {
    var q := NextModel(p, e);
    FailureSteps(cfg, oracle, p, e);
    GoesOnFirst(cfg, oracle, p, q, From(cfg, oracle, q));
    ThenExplained(cfg, oracle, p, q, From(cfg, oracle, q));
  }

  /** The first call goes on exactly as the reply at p says. */
  lemma GoesOnFirst(cfg: Config, oracle: Oracle, p: Point, q: Point, rest: Trace)
    requires p.model < cfg.models && oracle(p.model, p.attempt).Failure?
    requires rest.calls != [] && rest.calls[0] == (q.model, q.attempt)
    ensures var e := oracle(p.model, p.attempt).error;
            var t := Then((p.model, p.attempt), if p.model == q.model then Pow2(p.attempt) else 0, rest);
            GoesOn(cfg, oracle, p.hops, t, 0) <==>
              ((IsTransient(e) && p.attempt < cfg.maxRetries && rest.calls[0] == (p.model, p.attempt + 1))
               || (Hops(cfg, p, e) && p.model + 1 < cfg.models && rest.calls[0] == (p.model + 1, 0)))
  {
    var e := oracle(p.model, p.attempt).error;
    ClassesAreDisjoint(e);
    var call := (p.model, p.attempt);
    var t := Then(call, if p.model == q.model then Pow2(p.attempt) else 0, rest);
    assert t.calls[0] == call && t.calls[1] == rest.calls[0];
    assert t.calls[..1] == [call];
    OneCall(oracle, call);
  }

  /** A failing call that neither retries nor hops is the whole trace. */
  lemma StopsAlone(cfg: Config, oracle: Oracle, p: Point, e: Error)
    requires p.model < cfg.models && oracle(p.model, p.attempt) == Failure(e)
    requires !(IsTransient(e) && p.attempt < cfg.maxRetries) && !(Hops(cfg, p, e) && p.model + 1 < cfg.models)
    ensures Explained(cfg, oracle, p, From(cfg, oracle, p))
  {
    FailureSteps(cfg, oracle, p, e);
    ClassesAreDisjoint(e);
    OneCall(oracle, (p.model, p.attempt));
  }

  /** A single explained call is the whole trace. */
  lemma OneCallExplained(cfg: Config, oracle: Oracle, p: Point, t: Trace)
    requires p.model < cfg.models && Explained(cfg, oracle, p, t) && |t.calls| == 1
    ensures t == From(cfg, oracle, p)
  {
    var reply, call := oracle(p.model, p.attempt), (p.model, p.attempt);
    assert t.calls == [call];
    OneCall(oracle, call);
    if reply.Failure? {
      FailureSteps(cfg, oracle, p, reply.error);
      ClassesAreDisjoint(reply.error);
    }
  }

  /** Where an explained first call goes on to. */
  function NextPoint(oracle: Oracle, p: Point, next: (nat, nat)): Point {
    Point(next.0, next.1, p.hops + Malformed(oracle, (p.model, p.attempt)))
  }

  /** If a first call goes on for a reason, the specification goes on from the same point. */
  lemma SpecificationFollows(cfg: Config, oracle: Oracle, p: Point, rest: Trace)
    requires p.model < cfg.models && rest.calls != []
    requires var q := NextPoint(oracle, p, rest.calls[0]);
             var t := Then((p.model, p.attempt), if p.model == q.model then Pow2(p.attempt) else 0, rest);
             GoesOn(cfg, oracle, p.hops, t, 0)
    ensures var q := NextPoint(oracle, p, rest.calls[0]);
            && q.model < cfg.models
            && From(cfg, oracle, p) ==
               Then((p.model, p.attempt), if p.model == q.model then Pow2(p.attempt) else 0, From(cfg, oracle, q))
  {
    var e, q := oracle(p.model, p.attempt).error, NextPoint(oracle, p, rest.calls[0]);
    GoesOnFirst(cfg, oracle, p, q, rest);
    FailureSteps(cfg, oracle, p, e);
    ClassesAreDisjoint(e);
    assert q == if IsTransient(e) && p.attempt < cfg.maxRetries then p.(attempt := p.attempt + 1) else NextModel(p, e);
  }

  /** And the reasons leave no choice: the request's trace is the only explained one. */
  lemma {:induction false} OnlyOneExplanation(cfg: Config, oracle: Oracle, p: Point, t: Trace)
    requires p.model < cfg.models && Explained(cfg, oracle, p, t)
    ensures t == From(cfg, oracle, p)
    decreases |t.calls|
  {
    if |t.calls| == 1 {
      OneCallExplained(cfg, oracle, p, t);
    } else {
      var rest := Trace(t.calls[1..], t.result, Pauses(t.calls[1..]));
      var q := NextPoint(oracle, p, rest.calls[0]);
      assert t == Then((p.model, p.attempt), if p.model == q.model then Pow2(p.attempt) else 0, rest);
      ThenExplained(cfg, oracle, p, q, rest);
      SpecificationFollows(cfg, oracle, p, rest);
      OnlyOneExplanation(cfg, oracle, q, rest);
    }
  }

  /** The first answer in call order is returned, and an answer is returned only if there is one. */
  lemma FirstAnswerWins(cfg: Config, oracle: Oracle, t: Trace)
    requires cfg.models > 0 && t == From(cfg, oracle, Point(0, 0, 0))
    ensures forall k :: 0 <= k < |t.calls| - 1 ==> Failed(oracle, t, k)
    ensures t.calls != [] && (t.result.Answer? <==> !Failed(oracle, t, |t.calls| - 1))
    ensures t.result.Answer? ==> var (i, a) := t.calls[|t.calls| - 1]; t.result == oracle(i, a)
  {
    EveryCallIsExplained(cfg, oracle, Point(0, 0, 0));
    forall k | 0 <= k < |t.calls| - 1 ensures Failed(oracle, t, k) { assert GoesOn(cfg, oracle, 0, t, k); }
  }

  /** A fatal error is never retried or hopped over, and is raised as it came. */
  lemma FatalErrorsStopTheChain(cfg: Config, oracle: Oracle, t: Trace, k: nat)
    requires cfg.models > 0 && t == From(cfg, oracle, Point(0, 0, 0))
    requires k < |t.calls| && Failed(oracle, t, k) && IsFatal(ErrorAt(oracle, t, k))
    ensures k == |t.calls| - 1 && t.result == Failure(ErrorAt(oracle, t, k))
  {
    EveryCallIsExplained(cfg, oracle, Point(0, 0, 0));
    assert k < |t.calls| - 1 ==> GoesOn(cfg, oracle, 0, t, k);
  }

  /** In hop mode a malformed-classified error leaves the chain only as malformed output. */
  lemma MalformedLeavesTyped(cfg: Config, oracle: Oracle)
    requires cfg.models > 0 && cfg.hopOnMalformed
    ensures var r := From(cfg, oracle, Point(0, 0, 0)).result;
            r.Failure? && IsMalformed(r.error) ==> r.error.MalformedOutput?
  {
    EveryCallIsExplained(cfg, oracle, Point(0, 0, 0));
  }

  // ----- counting ---------------------------------------------------------------------------------------

  function Max(a: int, b: int): int { if a < b then b else a }

  lemma {:induction false} PowersGrow(a: nat, b: nat)
    requires a <= b
    ensures 1 <= Pow2(a) <= Pow2(b)
    decreases b
  {
    if a < b { PowersGrow(a, b - 1); } else if a > 0 { PowersGrow(a - 1, b - 1); }
  }

  /** From any point on, the calls and the back-off are bounded. */
  lemma {:induction false} CallsAreBounded(cfg: Config, oracle: Oracle, p: Point)
    requires p.model < cfg.models && p.attempt <= Retries(cfg)
    ensures var t := From(cfg, oracle, p);
            && |t.calls| <= (cfg.models - p.model) * (Retries(cfg) + 1) - p.attempt
            && t.slept <= (cfg.models - p.model) * (Pow2(Retries(cfg)) - 1) - (Pow2(p.attempt) - 1)
    decreases cfg.models - p.model, if p.attempt < cfg.maxRetries then cfg.maxRetries - p.attempt else 0
  {
    var left, r := cfg.models - p.model, Retries(cfg);
    PowersGrow(p.attempt, r);
    OneMore(left, r + 1);
    OneMore(left, Pow2(r) - 1);
    match oracle(p.model, p.attempt)
    case Answer(_) =>
    case Failure(e) =>
      FailureSteps(cfg, oracle, p, e);
      if IsTransient(e) && p.attempt < cfg.maxRetries {
        CallsAreBounded(cfg, oracle, p.(attempt := p.attempt + 1));
      } else if Hops(cfg, p, e) && p.model + 1 < cfg.models {
        CallsAreBounded(cfg, oracle, NextModel(p, e));
      }
  }

  /** Malformed replies within one request: the hops that are left, and one more. */
  lemma {:induction false} MalformedIsBounded(cfg: Config, oracle: Oracle, p: Point)
    requires p.model < cfg.models
    ensures var n := MalformedCalls(oracle, From(cfg, oracle, p).calls);
            n <= if cfg.hopOnMalformed then Max(0, cfg.maxMalformedHops - p.hops) + 1 else 1
    decreases cfg.models - p.model, if p.attempt < cfg.maxRetries then cfg.maxRetries - p.attempt else 0
  {
    var t := From(cfg, oracle, p);
    match oracle(p.model, p.attempt)
    case Answer(_) => assert t.calls[1..] == [];
    case Failure(e) =>
      FailureSteps(cfg, oracle, p, e);
      ClassesAreDisjoint(e);
      if IsTransient(e) && p.attempt < cfg.maxRetries {
        var q := p.(attempt := p.attempt + 1);
        MalformedIsBounded(cfg, oracle, q);
        assert t.calls[1..] == From(cfg, oracle, q).calls;
      } else if Hops(cfg, p, e) && p.model + 1 < cfg.models {
        MalformedIsBounded(cfg, oracle, NextModel(p, e));
        assert t.calls[1..] == From(cfg, oracle, NextModel(p, e)).calls;
      } else {
        assert t.calls[1..] == [];
      }
  }

  lemma OneMore(n: nat, u: nat)
    requires n > 0
    ensures n * u == (n - 1) * u + u && (n - 1) * u >= 0
  {
  }

  /** A chain of n models makes at most n * (retries + 1) calls and sleeps at most
      n * (2^retries - 1) base delays. */
  lemma RequestsAreBounded(cfg: Config, oracle: Oracle)
    requires cfg.models > 0
    ensures var t := From(cfg, oracle, Point(0, 0, 0));
            && |t.calls| <= cfg.models * (Retries(cfg) + 1)
            && t.slept <= cfg.models * (Pow2(Retries(cfg)) - 1)
            && (cfg.hopOnMalformed ==> MalformedCalls(oracle, t.calls) <= Max(0, cfg.maxMalformedHops) + 1)
  {
    CallsAreBounded(cfg, oracle, Point(0, 0, 0));
    MalformedIsBounded(cfg, oracle, Point(0, 0, 0));
  }

  // ----- the agents' wrapper ------------------------------------------------------------------------------

  /** One structured call with bounded transient retries around a chain; every try of the wrapper
      meets its own oracle. Timeouts and transient failures are tried again, nothing else. The
      chain's pauses and the wrapper's own are counted apart, each in units of its base delay. */
  method StructuredOutputWithRetries(cfg: Config, oracles: nat -> Oracle, timeoutRetries: int)
    returns (result: Reply, tries: nat, calls: nat, slept: nat, ownSlept: nat)
    requires cfg.models > 0
    ensures 1 <= tries <= Max(0, timeoutRetries) + 1
    ensures result == From(cfg, oracles(tries - 1), Point(0, 0, 0)).result
    ensures forall k :: 0 <= k < tries - 1 ==> TransientTry(cfg, oracles(k))
    ensures result.Failure? && IsTransient(result.error) ==> tries == Max(0, timeoutRetries) + 1
    ensures calls == TotalCalls(cfg, oracles, tries) && slept == TotalSlept(cfg, oracles, tries)
    ensures ownSlept == Pow2(tries - 1) - 1
  {
    tries, calls, slept, ownSlept := 0, 0, 0, 0;
    while true
      invariant 0 <= tries <= Max(0, timeoutRetries)
      invariant forall k :: 0 <= k < tries ==> TransientTry(cfg, oracles(k))
      invariant calls == TotalCalls(cfg, oracles, tries) && slept == TotalSlept(cfg, oracles, tries)
      invariant ownSlept == Pow2(tries) - 1
      decreases Max(0, timeoutRetries) - tries
    {
      var trace := CallWithFallback(cfg, oracles(tries));
      result, calls, slept := trace.result, calls + |trace.calls|, slept + trace.slept;
      if result.Answer? || !IsTransient(result.error) || tries >= timeoutRetries {
        tries := tries + 1;
        return;
      }
      ownSlept := ownSlept + Pow2(tries);
      tries := tries + 1;
    }
  }

  /** The calls to models over the wrapper's first tries. */
  function TotalCalls(cfg: Config, oracles: nat -> Oracle, tries: nat): nat
    requires cfg.models > 0
  {
    if tries == 0 then 0
    else TotalCalls(cfg, oracles, tries - 1) + |From(cfg, oracles(tries - 1), Point(0, 0, 0)).calls|
  }

  /** The chain's own back-off over the wrapper's first tries. */
  function TotalSlept(cfg: Config, oracles: nat -> Oracle, tries: nat): nat
    requires cfg.models > 0
  {
    if tries == 0 then 0
    else TotalSlept(cfg, oracles, tries - 1) + From(cfg, oracles(tries - 1), Point(0, 0, 0)).slept
  }

  /** Wrapped, a chain makes and sleeps at most as many times its own bounds as there are tries. */
  lemma {:induction false} TriesAreBounded(cfg: Config, oracles: nat -> Oracle, tries: nat)
    requires cfg.models > 0
    ensures TotalCalls(cfg, oracles, tries) <= tries * (cfg.models * (Retries(cfg) + 1))
    ensures TotalSlept(cfg, oracles, tries) <= tries * (cfg.models * (Pow2(Retries(cfg)) - 1))
  {
    if tries > 0 {
      TriesAreBounded(cfg, oracles, tries - 1);
      RequestsAreBounded(cfg, oracles(tries - 1));
      OneMore(tries, cfg.models * (Retries(cfg) + 1));
      OneMoreInt(tries, cfg.models * (Pow2(Retries(cfg)) - 1));
    }
  }

  lemma OneMoreInt(n: nat, u: int)
    requires n > 0
    ensures n * u == (n - 1) * u + u
  {
  }

  /** A try that the wrapper may repeat: never an answer and never malformed output. */
  predicate TransientTry(cfg: Config, oracle: Oracle)
    requires cfg.models > 0
  {
    var r := From(cfg, oracle, Point(0, 0, 0)).result;
    r.Failure? && IsTransient(r.error) && !IsMalformed(r.error)
  }
}
