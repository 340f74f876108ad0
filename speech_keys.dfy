/**
  Speech synthesis with credential rotation, bounded retry and a fallback
  provider (app.py:433-519).

  The primary provider is an oracle: `reply(c)` is what the provider answers
  to the c-th call of one synthesis (c = 0, 1, ...), already classified the
  way the source's `try`/`except` classifies it. The fallback provider's
  answer is a parameter too. Sleeps are recorded, not performed: each step
  of the ghost trace carries the base delay `2^attempt` in seconds that the
  source sleeps after it (the random jitter in [0, 1] is not modelled).
*/
module SpeechKeys {
  import opened Wrappers

  /** Provider calls per key (app.py:436). */
  const MaxRetries: nat := 3
  /** Base of the exponential backoff, in seconds (app.py:437). */
  const BackoffBase: nat := 2

  /** One answer of the primary provider, as the handler classifies it. */
  datatype Reply =
    | Payload(data: string)  // a 2xx reply whose `inlineData.data` field is present
    | RateLimited            // an HTTPError with status 429
    | OtherError             // any other HTTP error, request exception or exception
    | NoPayload              // a 2xx reply without `inlineData.data`

  /** `if audio_data:`: only a non-empty payload ends the search. */
  predicate Delivers(r: Reply)
  {
    r.Payload? && |r.data| > 0
  }

  /** Everything except a delivered payload or a 429 is followed by a backoff sleep. */
  predicate Retryable(r: Reply)
  {
    !Delivers(r) && !r.RateLimited?
  }

  function Pow(b: nat, e: nat): nat
  {
    if e == 0 then 1 else b * Pow(b, e - 1)
  }

  /** Base delay slept after a call answered by `r` on attempt `attempt` (0: no sleep). */
  function Delay(attempt: nat, r: Reply): nat
  {
    if Retryable(r) then Pow(BackoffBase, attempt) else 0
  }

  /**
    One provider call: `round` is the source's outer loop variable `i`,
    `key` the index into the key list, `attempt` runs from 1 to MaxRetries.
  */
  datatype Step = Step(round: nat, key: nat, attempt: nat, reply: Reply, delay: nat)

  datatype Found = Found(key: nat, audio: string)

  /** The calls of the primary phase, and the payload that ended it, if any. */
  datatype Run = Run(steps: seq<Step>, found: Option<Found>)

  function Prepend(s: Step, r: Run): Run
  {
    Run([s] + r.steps, r.found)
  }

  /**
    The remainder of the primary phase over `n` keys from the cursor snapshot
    `start`, from attempt `attempt` of round `round` on, when `call` provider
    calls have been made so far.
  */
  function Attempts(n: nat, start: nat, round: nat, attempt: nat, call: nat, reply: nat -> Reply): Run
    requires 1 <= attempt <= MaxRetries + 1
    decreases n - round, MaxRetries + 1 - attempt
  {
    if round >= n then Run([], None)
    else if attempt > MaxRetries then Attempts(n, start, round + 1, 1, call, reply)
    else
      var key := KeyOf(n, start, round);
      var r := reply(call);
      var step := Step(round, key, attempt, r, Delay(attempt, r));
      if Delivers(r) then Run([step], Some(Found(key, r.data)))
      else if r.RateLimited? then Prepend(step, Attempts(n, start, round + 1, 1, call + 1, reply))
      else Prepend(step, Attempts(n, start, round, attempt + 1, call + 1, reply))
  }

  /** `key_index_to_try` of round `round` (app.py:460). */
  function KeyOf(n: nat, start: nat, round: nat): nat
    requires round < n
  {
    (start + round) % n
  }

  /** The whole primary phase of one synthesis (app.py:456-493). */
  function PrimaryRun(n: nat, start: nat, reply: nat -> Reply): Run
  {
    Attempts(n, start, 0, 1, 0, reply)
  }

  /** The cursor after a synthesis that ran `run` (app.py:475-476; unchanged on fallback). */
  function NextCursor(n: nat, cursor: nat, run: Run): nat
    requires n > 0
  {
    match run.found
    case Some(f) => (f.key + 1) % n
    case None => cursor
  }

  /** What the caller receives: the primary payload, else the fallback's answer. */
  function Outcome(run: Run, fallback: Option<string>): Option<string>
  {
    match run.found
    case Some(f) => Some(f.audio)
    case None => fallback
  }

  /** Facts every recorded call satisfies on its own. */
  ghost predicate StepOk(n: nat, start: nat, s: Step)
  {
    && s.round < n
    && s.key == KeyOf(n, start, s.round)
    && 1 <= s.attempt <= MaxRetries
    && s.delay == Delay(s.attempt, s.reply)
  }

  /** The call after `s` ended its key: a 429, or a retryable failure on the last attempt. */
  predicate EndsKey(s: Step)
  {
    s.reply.RateLimited? || (Retryable(s.reply) && s.attempt == MaxRetries)
  }

  /** `t` is the call the source makes right after `s`. */
  predicate Follows(s: Step, t: Step)
  {
    if EndsKey(s) then t.round == s.round + 1 && t.attempt == 1
    else t.round == s.round && t.attempt == s.attempt + 1
  }

  /** First round and attempt of the remainder `Attempts(.., round, attempt, ..)`. */
  function FirstRound(round: nat, attempt: nat): nat
  {
    if attempt <= MaxRetries then round else round + 1
  }

  lemma {:induction false} AttemptsSteps(n: nat, start: nat, round: nat, attempt: nat, call: nat, reply: nat -> Reply)
    requires 1 <= attempt <= MaxRetries + 1
    ensures forall j :: 0 <= j < |Attempts(n, start, round, attempt, call, reply).steps| ==>
      StepOk(n, start, Attempts(n, start, round, attempt, call, reply).steps[j])
    ensures forall j :: 0 <= j < |Attempts(n, start, round, attempt, call, reply).steps| ==>
      Attempts(n, start, round, attempt, call, reply).steps[j].reply == reply(call + j)
    ensures forall j :: 0 <= j < |Attempts(n, start, round, attempt, call, reply).steps| ==>
      Attempts(n, start, round, attempt, call, reply).steps[j].round >= FirstRound(round, attempt)
    decreases n - round, MaxRetries + 1 - attempt
  {
    if round < n {
      if attempt > MaxRetries {
        AttemptsSteps(n, start, round + 1, 1, call, reply);
        var s := Attempts(n, start, round, attempt, call, reply).steps;
        assert s == Attempts(n, start, round + 1, 1, call, reply).steps;
      } else {
        var r := reply(call);
        if !Delivers(r) {
          var nextRound, nextAttempt := if r.RateLimited? then round + 1 else round, if r.RateLimited? then 1 else attempt + 1;
          AttemptsSteps(n, start, nextRound, nextAttempt, call + 1, reply);
          var s := Attempts(n, start, round, attempt, call, reply).steps;
          var rest := Attempts(n, start, nextRound, nextAttempt, call + 1, reply).steps;
          assert s == [Step(round, KeyOf(n, start, round), attempt, r, Delay(attempt, r))] + rest;
          forall j | 0 < j < |s|
            ensures StepOk(n, start, s[j]) && s[j].reply == reply(call + j) && s[j].round >= round
          {
            assert s[j] == rest[j - 1];
            assert StepOk(n, start, rest[j - 1]);
            assert call + j == call + 1 + (j - 1);
          }
        }
      }
    }
  }

  lemma {:induction false} AttemptsFirst(n: nat, start: nat, round: nat, attempt: nat, call: nat, reply: nat -> Reply)
    requires 1 <= attempt <= MaxRetries + 1
    ensures var s := Attempts(n, start, round, attempt, call, reply).steps;
      && (|s| > 0 ==> s[0].round == FirstRound(round, attempt) && s[0].attempt == (if attempt <= MaxRetries then attempt else 1))
      && (FirstRound(round, attempt) < n ==> |s| > 0)
  {
    if round < n && attempt > MaxRetries {
      assert Attempts(n, start, round, attempt, call, reply) == Attempts(n, start, round + 1, 1, call, reply);
    }
  }

  /** The remainder after the call made at (`round`, `attempt`) with answer `r`. */
  function After(n: nat, start: nat, round: nat, attempt: nat, call: nat, reply: nat -> Reply, r: Reply): Run
    requires 1 <= attempt <= MaxRetries
  {
    if r.RateLimited? then Attempts(n, start, round + 1, 1, call + 1, reply)
    else Attempts(n, start, round, attempt + 1, call + 1, reply)
  }

  /** Every call but the last failed to deliver, and each call is followed by the one the source makes next. */
  predicate Chain(s: seq<Step>)
  {
    forall j :: 0 <= j < |s| - 1 ==> !Delivers(s[j].reply) && Follows(s[j], s[j + 1])
  }

  lemma ChainCons(first: Step, rest: seq<Step>)
    requires Chain(rest) && !Delivers(first.reply)
    requires |rest| > 0 ==> Follows(first, rest[0])
    ensures Chain([first] + rest)
  {
    var s := [first] + rest;
    forall j | 0 < j < |s| - 1 ensures !Delivers(s[j].reply) && Follows(s[j], s[j + 1]) {
      assert s[j] == rest[j - 1] && s[j + 1] == rest[j];
    }
  }

  lemma {:induction false} AttemptsChain(n: nat, start: nat, round: nat, attempt: nat, call: nat, reply: nat -> Reply)
    requires 1 <= attempt <= MaxRetries + 1
    ensures Chain(Attempts(n, start, round, attempt, call, reply).steps)
    decreases n - round, MaxRetries + 1 - attempt
  {
    if round < n {
      if attempt > MaxRetries {
        assert Attempts(n, start, round, attempt, call, reply) == Attempts(n, start, round + 1, 1, call, reply);
        AttemptsChain(n, start, round + 1, 1, call, reply);
      } else {
        var r := reply(call);
        if !Delivers(r) {
          var next := After(n, start, round, attempt, call, reply, r);
          if r.RateLimited? {
            AttemptsChain(n, start, round + 1, 1, call + 1, reply);
            AttemptsFirst(n, start, round + 1, 1, call + 1, reply);
          } else {
            AttemptsChain(n, start, round, attempt + 1, call + 1, reply);
            AttemptsFirst(n, start, round, attempt + 1, call + 1, reply);
          }
          var step := Step(round, KeyOf(n, start, round), attempt, r, Delay(attempt, r));
          assert Attempts(n, start, round, attempt, call, reply).steps == [step] + next.steps;
          ChainCons(step, next.steps);
        }
      }
    }
  }

  /**
    How a primary phase ends: it found a payload exactly when its last call
    delivered one, the payload is that call's, and a phase that found nothing
    ended with a call that gave up the last round's key.
  */
  predicate EndsWell(n: nat, run: Run)
  {
    var s := run.steps;
    && (run.found.Some? <==> |s| > 0 && Delivers(s[|s| - 1].reply))
    && (run.found.Some? ==> run.found.value == Found(s[|s| - 1].key, s[|s| - 1].reply.data))
    && (run.found.None? && |s| > 0 ==> s[|s| - 1].round == n - 1 && EndsKey(s[|s| - 1]))
  }

  lemma PrependEndsWell(n: nat, step: Step, next: Run)
    requires EndsWell(n, next) && !Delivers(step.reply)
    requires next.steps == [] ==> next.found.None? && step.round == n - 1 && EndsKey(step)
    ensures EndsWell(n, Prepend(step, next))
  {
    var s := Prepend(step, next).steps;
    if |next.steps| > 0 {
      assert s[|s| - 1] == next.steps[|next.steps| - 1];
    }
  }

  lemma {:induction false} AttemptsFound(n: nat, start: nat, round: nat, attempt: nat, call: nat, reply: nat -> Reply)
    requires 1 <= attempt <= MaxRetries + 1
    ensures EndsWell(n, Attempts(n, start, round, attempt, call, reply))
    decreases n - round, MaxRetries + 1 - attempt
  {
    AttemptsUnfold(n, start, round, attempt, call, reply);
    if round < n {
      if attempt > MaxRetries {
        AttemptsFound(n, start, round + 1, 1, call, reply);
      } else {
        var r := reply(call);
        if !Delivers(r) {
          var next := After(n, start, round, attempt, call, reply, r);
          if r.RateLimited? {
            AttemptsFound(n, start, round + 1, 1, call + 1, reply);
            AttemptsFirst(n, start, round + 1, 1, call + 1, reply);
          } else {
            AttemptsFound(n, start, round, attempt + 1, call + 1, reply);
            AttemptsFirst(n, start, round, attempt + 1, call + 1, reply);
          }
          PrependEndsWell(n, Step(round, KeyOf(n, start, round), attempt, r, Delay(attempt, r)), next);
        }
      }
    }
  }

  /**
    The trace of one synthesis (app.py:456-493): call j is answered by
    `reply(j)`; every call goes to key `(start + round) mod n` for a round
    below n, on an attempt between 1 and MaxRetries; the first call is attempt
    1 on the cursor snapshot; each call is followed by the one the loops make
    next; only the last call can deliver a payload, the phase found a payload
    exactly when it did, and a phase that found nothing gave up its last key.
  */
  lemma PrimaryTrace(n: nat, start: nat, reply: nat -> Reply)
    ensures var run := PrimaryRun(n, start, reply); var s := run.steps;
      && (forall j :: 0 <= j < |s| ==> StepOk(n, start, s[j]) && s[j].reply == reply(j))
      && (n > 0 ==> |s| > 0 && s[0].round == 0 && s[0].key == start % n && s[0].attempt == 1)
      && Chain(s)
      && EndsWell(n, run)
  {
    AttemptsSteps(n, start, 0, 1, 0, reply);
    AttemptsFirst(n, start, 0, 1, 0, reply);
    AttemptsChain(n, start, 0, 1, 0, reply);
    AttemptsFound(n, start, 0, 1, 0, reply);
  }

  /**
    An HTTP 429 abandons the key at once (app.py:479-482): no sleep, and the
    next call, if any, is attempt 1 of the next round.
  */
  lemma RateLimitSkipsKey(n: nat, start: nat, reply: nat -> Reply, j: nat)
    requires j < |PrimaryRun(n, start, reply).steps|
    requires PrimaryRun(n, start, reply).steps[j].reply.RateLimited?
    ensures var s := PrimaryRun(n, start, reply).steps;
      s[j].delay == 0 && (j + 1 < |s| ==> s[j + 1].round == s[j].round + 1 && s[j + 1].attempt == 1)
  {
    PrimaryTrace(n, start, reply);
  }

  /**
    Any other failure, or a reply without payload, is followed by a sleep of
    base `2^attempt` seconds, on the last attempt of a key too; the next call
    retries the same key unless MaxRetries calls were made (app.py:483-493).
  */
  lemma FailureBacksOff(n: nat, start: nat, reply: nat -> Reply, j: nat)
    requires j < |PrimaryRun(n, start, reply).steps|
    requires Retryable(PrimaryRun(n, start, reply).steps[j].reply)
    ensures var s := PrimaryRun(n, start, reply).steps;
      && s[j].delay == Pow(BackoffBase, s[j].attempt)
      && (j + 1 < |s| && s[j].attempt < MaxRetries ==> s[j + 1].key == s[j].key && s[j + 1].attempt == s[j].attempt + 1)
      && (j + 1 < |s| && s[j].attempt == MaxRetries ==> s[j + 1].round == s[j].round + 1 && s[j + 1].attempt == 1)
  {
    PrimaryTrace(n, start, reply);
  }

  /**
    When every key is exhausted the last call was the last one of round
    n - 1: the fallback runs only after every round has ended.
  */
  lemma ExhaustedAfterLastRound(n: nat, start: nat, reply: nat -> Reply)
    requires n > 0 && PrimaryRun(n, start, reply).found.None?
    ensures var s := PrimaryRun(n, start, reply).steps;
      |s| > 0 && s[|s| - 1].round == n - 1 && EndsKey(s[|s| - 1])
  {
    AttemptsFirst(n, start, 0, 1, 0, reply);
    AttemptsFound(n, start, 0, 1, 0, reply);
  }

  lemma {:induction false} AttemptsLength(n: nat, start: nat, round: nat, attempt: nat, call: nat, reply: nat -> Reply)
    requires 1 <= attempt <= MaxRetries + 1
    ensures |Attempts(n, start, round, attempt, call, reply).steps|
            <= if round < n then MaxRetries * (n - round) - (attempt - 1) else 0
    decreases n - round, MaxRetries + 1 - attempt
  {
    if round < n {
      if attempt > MaxRetries {
        assert Attempts(n, start, round, attempt, call, reply) == Attempts(n, start, round + 1, 1, call, reply);
        AttemptsLength(n, start, round + 1, 1, call, reply);
      } else {
        var r := reply(call);
        if !Delivers(r) {
          if r.RateLimited? {
            AttemptsLength(n, start, round + 1, 1, call + 1, reply);
          } else {
            AttemptsLength(n, start, round, attempt + 1, call + 1, reply);
          }
        }
      }
    }
  }

  /** At most MaxRetries * n primary calls precede the fallback (app.py:459-463). */
  lemma CallBound(n: nat, start: nat, reply: nat -> Reply)
    ensures |PrimaryRun(n, start, reply).steps| <= MaxRetries * n
  {
    AttemptsLength(n, start, 0, 1, 0, reply);
  }

  /** Euclidean remainders are unique. */
  lemma ModUnique(y: int, p: int, r: int, n: int)
    requires 0 < n && 0 <= r < n && y == p * n + r
    ensures y % n == r
  {
    var q, s := y / n, y % n;
    assert y == q * n + s;
    assert (p - q) * n == s - r;
    if p > q {
      MulAtLeast(p - q, n);
      assert false;
    } else if p < q {
      MulAtLeast(q - p, n);
      assert false;
    }
  }

  lemma {:induction false} MulAtLeast(d: nat, n: nat)
    requires d >= 1
    ensures d * n >= n
  {
    if d > 1 {
      MulAtLeast(d - 1, n);
      assert d * n == (d - 1) * n + n;
    }
  }

  lemma ModAddN(x: int, n: int)
    requires 0 < n
    ensures (x + n) % n == x % n
  {
    var q, r := x / n, x % n;
    assert x == q * n + r;
    assert x + n == (q + 1) * n + r;
    ModUnique(x + n, q + 1, r, n);
  }

  /** Distinct rounds below n use distinct keys. */
  lemma RotationInjective(n: nat, start: nat, i: nat, k: nat)
    requires i < n && k < n && (start + i) % n == (start + k) % n
    ensures i == k
  {
    if i != k {
      var lo, hi := if i < k then i else k, if i < k then k else i;
      var q, r := (start + lo) / n, (start + lo) % n;
      assert start + lo == q * n + r;
      if r + (hi - lo) < n {
        ModUnique(start + hi, q, r + (hi - lo), n);
      } else {
        ModUnique(start + hi, q + 1, r + (hi - lo) - n, n);
      }
    }
  }

  /** Every key is the key of some round. */
  lemma RotationOnto(n: nat, start: nat, key: nat)
    requires key < n
    ensures var i := (key - start) % n; i < n && (start + i) % n == key
  {
    var i := (key - start) % n;
    var q := (key - start) / n;
    assert key - start == q * n + i;
    ModUnique(start + i, -q, key, n);
  }

  /** Number of calls made with key `key`. */
  function CallsOn(s: seq<Step>, key: nat): nat
  {
    if s == [] then 0 else (if s[0].key == key then 1 else 0) + CallsOn(s[1..], key)
  }

  lemma CallsOnCons(first: Step, rest: seq<Step>, key: nat)
    ensures CallsOn([first] + rest, key) == (if first.key == key then 1 else 0) + CallsOn(rest, key)
  {
    assert ([first] + rest)[1..] == rest;
  }

  lemma {:induction false} NoCallsOnEarlierKey(n: nat, start: nat, round: nat, attempt: nat, call: nat, reply: nat -> Reply, r0: nat)
    requires 1 <= attempt <= MaxRetries + 1
    requires r0 < FirstRound(round, attempt) && r0 < n
    ensures CallsOn(Attempts(n, start, round, attempt, call, reply).steps, KeyOf(n, start, r0)) == 0
    decreases n - round, MaxRetries + 1 - attempt
  {
    AttemptsUnfold(n, start, round, attempt, call, reply);
    if round < n {
      if attempt > MaxRetries {
        NoCallsOnEarlierKey(n, start, round + 1, 1, call, reply, r0);
      } else {
        var r := reply(call);
        var step := Step(round, KeyOf(n, start, round), attempt, r, Delay(attempt, r));
        if KeyOf(n, start, round) == KeyOf(n, start, r0) {
          RotationInjective(n, start, round, r0);
        }
        if Delivers(r) {
          CallsOnCons(step, [], KeyOf(n, start, r0));
        } else {
          if r.RateLimited? {
            NoCallsOnEarlierKey(n, start, round + 1, 1, call + 1, reply, r0);
          } else {
            NoCallsOnEarlierKey(n, start, round, attempt + 1, call + 1, reply, r0);
          }
          CallsOnCons(step, After(n, start, round, attempt, call, reply, r).steps, KeyOf(n, start, r0));
        }
      }
    }
  }

  lemma {:induction false} CallsOnBound(n: nat, start: nat, round: nat, attempt: nat, call: nat, reply: nat -> Reply, key: nat)
    requires 1 <= attempt <= MaxRetries + 1
    ensures CallsOn(Attempts(n, start, round, attempt, call, reply).steps, key)
            <= if round < n && key == KeyOf(n, start, round) then MaxRetries + 1 - attempt else MaxRetries
    decreases n - round, MaxRetries + 1 - attempt
  {
    AttemptsUnfold(n, start, round, attempt, call, reply);
    if round < n {
      if attempt > MaxRetries {
        CallsOnBound(n, start, round + 1, 1, call, reply, key);
        if key == KeyOf(n, start, round) {
          NoCallsOnEarlierKey(n, start, round + 1, 1, call, reply, round);
        }
      } else {
        var r := reply(call);
        var step := Step(round, KeyOf(n, start, round), attempt, r, Delay(attempt, r));
        if Delivers(r) {
          CallsOnCons(step, [], key);
        } else {
          CallsOnCons(step, After(n, start, round, attempt, call, reply, r).steps, key);
          if r.RateLimited? {
            CallsOnBound(n, start, round + 1, 1, call + 1, reply, key);
            if key == KeyOf(n, start, round) {
              NoCallsOnEarlierKey(n, start, round + 1, 1, call + 1, reply, round);
            }
          } else {
            CallsOnBound(n, start, round, attempt + 1, call + 1, reply, key);
          }
        }
      }
    }
  }

  /** No key receives more than MaxRetries calls in one synthesis (app.py:459-463). */
  lemma CallsPerKeyBound(n: nat, start: nat, reply: nat -> Reply, key: nat)
    ensures CallsOn(PrimaryRun(n, start, reply).steps, key) <= MaxRetries
  {
    CallsOnBound(n, start, 0, 1, 0, reply, key);
  }

  /**
    Each key is visited in one block of consecutive calls: two calls on the
    same key enclose only calls on that key.
  */
  lemma KeyVisitedOnce(n: nat, start: nat, reply: nat -> Reply, j: nat, m: nat, k: nat)
    requires j <= m <= k < |PrimaryRun(n, start, reply).steps|
    requires PrimaryRun(n, start, reply).steps[j].key == PrimaryRun(n, start, reply).steps[k].key
    ensures PrimaryRun(n, start, reply).steps[m].key == PrimaryRun(n, start, reply).steps[j].key
  {
    var s := PrimaryRun(n, start, reply).steps;
    PrimaryTrace(n, start, reply);
    RoundsMonotone(s, j, m);
    RoundsMonotone(s, m, k);
    RotationInjective(n, start, s[j].round, s[k].round);
  }

  lemma {:induction false} RoundsMonotone(s: seq<Step>, j: nat, k: nat)
    requires j <= k < |s|
    requires forall i :: 0 <= i < |s| - 1 ==> Follows(s[i], s[i + 1])
    ensures s[j].round <= s[k].round
    decreases k - j
  {
    if j < k {
      RoundsMonotone(s, j + 1, k);
    }
  }

  lemma {:induction false} ExhaustedVisitsRounds(n: nat, start: nat, round: nat, attempt: nat, call: nat, reply: nat -> Reply, i: nat)
    requires 1 <= attempt <= MaxRetries + 1
    requires Attempts(n, start, round, attempt, call, reply).found.None?
    requires FirstRound(round, attempt) <= i < n
    ensures exists j :: 0 <= j < |Attempts(n, start, round, attempt, call, reply).steps| &&
                        Attempts(n, start, round, attempt, call, reply).steps[j].round == i
    decreases n - round, MaxRetries + 1 - attempt
  {
    var s := Attempts(n, start, round, attempt, call, reply).steps;
    if attempt > MaxRetries {
      ExhaustedVisitsRounds(n, start, round + 1, 1, call, reply, i);
    } else if i == round {
      assert s[0].round == i;
    } else {
      var r := reply(call);
      var nr, na := if r.RateLimited? then round + 1 else round, if r.RateLimited? then 1 else attempt + 1;
      ExhaustedVisitsRounds(n, start, nr, na, call + 1, reply, i);
      var j :| 0 <= j < |Attempts(n, start, nr, na, call + 1, reply).steps| && Attempts(n, start, nr, na, call + 1, reply).steps[j].round == i;
      assert s[j + 1].round == i;
    }
  }

  /** When no key delivers, every one of the n keys was tried before the fallback (app.py:459-495). */
  lemma ExhaustedTriesEveryKey(n: nat, start: nat, reply: nat -> Reply, key: nat)
    requires key < n && PrimaryRun(n, start, reply).found.None?
    ensures exists j :: 0 <= j < |PrimaryRun(n, start, reply).steps| && PrimaryRun(n, start, reply).steps[j].key == key
  {
    var i := (key - start) % n;
    RotationOnto(n, start, key);
    ExhaustedVisitsRounds(n, start, 0, 1, 0, reply, i);
    AttemptsSteps(n, start, 0, 1, 0, reply);
    var s := PrimaryRun(n, start, reply).steps;
    var j :| 0 <= j < |s| && s[j].round == i;
    assert s[j].key == key;
  }

  /** The cursor always stays a valid key index (app.py:475-476 is its only write). */
  lemma CursorInRange(n: nat, cursor: nat, reply: nat -> Reply)
    requires cursor < n
    ensures NextCursor(n, cursor, PrimaryRun(n, cursor, reply)) < n
  {
  }

  /** Sum of the base delays slept during a trace. */
  function TotalDelay(s: seq<Step>): nat
  {
    if s == [] then 0 else s[0].delay + TotalDelay(s[1..])
  }

  /**
    Keys A, B, C; A and B answer 429, C delivers on its first attempt: three
    calls, no sleep, the cursor wraps to 0 and no fallback is needed.
  */
  lemma QuotaOnTwoKeys()
    ensures var reply := (c: nat) => if c < 2 then RateLimited else Payload("pcm");
      var run := PrimaryRun(3, 0, reply);
      && |run.steps| == 3
      && run.steps[0].key == 0 && run.steps[1].key == 1 && run.steps[2].key == 2
      && TotalDelay(run.steps) == 0
      && run.found == Some(Found(2, "pcm"))
      && NextCursor(3, 0, run) == 0
  {
    var reply := (c: nat) => if c < 2 then RateLimited else Payload("pcm");
    var last := Attempts(3, 0, 2, 1, 2, reply);
    assert last.steps == [Step(2, 2, 1, Payload("pcm"), 0)];
    var mid := Attempts(3, 0, 1, 1, 1, reply);
    assert mid.steps == [Step(1, 1, 1, RateLimited, 0)] + last.steps;
    var run := PrimaryRun(3, 0, reply);
    assert run.steps == [Step(0, 0, 1, RateLimited, 0)] + mid.steps;
  }

  /**
    Two failures then a payload on the first key: sleeps of 2 and 4 base
    seconds, none after the success.
  */
  lemma BackoffThenSuccess(n: nat, start: nat)
    requires start < n
    ensures var reply := (c: nat) => if c < 2 then OtherError else Payload("pcm");
      var run := PrimaryRun(n, start, reply);
      && |run.steps| == 3
      && TotalDelay(run.steps) == Pow(BackoffBase, 1) + Pow(BackoffBase, 2)
      && run.found == Some(Found(start, "pcm"))
      && NextCursor(n, start, run) == (start + 1) % n
  {
    var reply := (c: nat) => if c < 2 then OtherError else Payload("pcm");
    var third := Attempts(n, start, 0, 3, 2, reply);
    assert third.steps == [Step(0, start % n, 3, Payload("pcm"), 0)];
    var second := Attempts(n, start, 0, 2, 1, reply);
    assert second.steps == [Step(0, start % n, 2, OtherError, 4)] + third.steps;
    var run := PrimaryRun(n, start, reply);
    assert run.steps == [Step(0, start % n, 1, OtherError, 2)] + second.steps;
    assert TotalDelay(third.steps) == 0;
    assert TotalDelay(second.steps) == 4;
    assert Pow(BackoffBase, 1) == 2 && Pow(BackoffBase, 2) == 4;
    ModUnique(start, 0, start, n);
  }

  /** The key that served each of a series of syntheses (None: the fallback did). */
  function ServedBy(n: nat, cursor: nat, calls: seq<nat -> Reply>): (served: seq<Option<nat>>)
    requires cursor < n
    ensures |served| == |calls|
    decreases |calls|
  {
    if calls == [] then []
    else
      var run := PrimaryRun(n, cursor, calls[0]);
      var used := match run.found case Some(f) => Some(f.key) case None => None;
      CursorInRange(n, cursor, calls[0]);
      [used] + ServedBy(n, NextCursor(n, cursor, run), calls[1..])
  }

  /**
    Round-robin across requests: when every synthesis succeeds on its first
    call, the t-th one is served by key `(cursor + t) mod n`.
  */
  lemma {:induction false} RoundRobin(n: nat, cursor: nat, calls: seq<nat -> Reply>)
    requires cursor < n
    requires forall t :: 0 <= t < |calls| ==> Delivers(calls[t](0))
    ensures forall t :: 0 <= t < |calls| ==> ServedBy(n, cursor, calls)[t] == Some((cursor + t) % n)
    decreases |calls|
  {
    if calls != [] {
      var run := PrimaryRun(n, cursor, calls[0]);
      ModUnique(cursor, 0, cursor, n);
      assert run.found == Some(Found(cursor, calls[0](0).data));
      var next := (cursor + 1) % n;
      RoundRobin(n, next, calls[1..]);
      var served := ServedBy(n, cursor, calls);
      forall t | 0 <= t < |calls| ensures served[t] == Some((cursor + t) % n) {
        if t > 0 {
          assert served[t] == ServedBy(n, next, calls[1..])[t - 1];
          if cursor + 1 < n {
            ModUnique(cursor + 1, 0, cursor + 1, n);
          } else {
            ModUnique(cursor + 1, 1, 0, n);
            ModAddN(t - 1, n);
          }
        }
      }
    }
  }

  /** One unfolding of `Attempts`: the roll-over to the next round, or the call at (`round`, `attempt`). */
  lemma AttemptsUnfold(n: nat, start: nat, round: nat, attempt: nat, call: nat, reply: nat -> Reply)
    requires 1 <= attempt <= MaxRetries + 1
    ensures round < n && attempt > MaxRetries ==>
      Attempts(n, start, round, attempt, call, reply) == Attempts(n, start, round + 1, 1, call, reply)
    ensures round < n && attempt <= MaxRetries ==>
      var r := reply(call);
      var step := Step(round, KeyOf(n, start, round), attempt, r, Delay(attempt, r));
      Attempts(n, start, round, attempt, call, reply)
        == if Delivers(r) then Run([step], Some(Found(step.key, r.data)))
           else Prepend(step, After(n, start, round, attempt, call, reply, r))
  {
  }

  /** Bookkeeping of one round of `RunPrimary`: the calls it made join the trace. */
  lemma RoundDone(spec: Run, trace: seq<Step>, steps: seq<Step>, whole: Run, rest: Run, more: bool)
    requires spec.steps == trace + whole.steps && spec.found == whole.found
    requires more ==> whole.steps == steps + rest.steps && whole.found == rest.found
    requires !more ==> whole.steps == steps
    ensures more ==> spec.steps == (trace + steps) + rest.steps && spec.found == rest.found
    ensures !more ==> spec.steps == trace + steps
  {
    if more {
      assert trace + (steps + rest.steps) == (trace + steps) + rest.steps;
    }
  }

  /**
    The inner loop of `get_gemini_tts_audio_data` (app.py:463-493) for
    round `i`, whose key is `key`: up to MaxRetries calls, the first being
    call number `call0`. It ends on a delivered payload, which it returns,
    on a 429, or when the attempts run out; `steps` are the calls it made,
    and the rest of the primary phase resumes with the next round.
  */
  method TryKey(n: nat, start: nat, i: nat, key: nat, call0: nat, reply: nat -> Reply)
      returns (found: Option<string>, calls: nat, ghost steps: seq<Step>)
    requires i < n && key == KeyOf(n, start, i)
    ensures calls == call0 + |steps|
    ensures var whole := Attempts(n, start, i, 1, call0, reply);
      found.Some? ==> whole == Run(steps, Some(Found(key, found.value)))
    ensures var whole := Attempts(n, start, i, 1, call0, reply);
      var rest := Attempts(n, start, i + 1, 1, calls, reply);
      found.None? ==> whole.steps == steps + rest.steps && whole.found == rest.found
  {
    ghost var whole := Attempts(n, start, i, 1, call0, reply);
    calls := call0;
    steps := [];
    var attempt: nat := 1;
    while attempt <= MaxRetries
      invariant 1 <= attempt <= MaxRetries + 1
      invariant calls == call0 + |steps|
      invariant whole.steps == steps + Attempts(n, start, i, attempt, calls, reply).steps
      invariant whole.found == Attempts(n, start, i, attempt, calls, reply).found
    {
      var r := reply(calls);
      ghost var step := Step(i, key, attempt, r, Delay(attempt, r));
      AttemptsUnfold(n, start, i, attempt, calls, reply);
      if Delivers(r) {
        steps := steps + [step];
        return Some(r.data), calls + 1, steps;
      }
      ghost var next := After(n, start, i, attempt, calls, reply, r);
      assert steps + ([step] + next.steps) == (steps + [step]) + next.steps;
      steps := steps + [step];
      calls := calls + 1;
      if r.RateLimited? {
        // a 429 abandons this key at once, without sleeping
        attempt := MaxRetries + 1;
        AttemptsUnfold(n, start, i, attempt, calls, reply);
      } else {
        // time.sleep(BackoffBase ^ attempt + jitter) is recorded in the step's delay
        attempt := attempt + 1;
      }
    }
    AttemptsUnfold(n, start, i, attempt, calls, reply);
    found := None;
  }

  /**
    The two loops of `get_gemini_tts_audio_data` (app.py:459-493) over `n`
    keys from the cursor snapshot `start`: the rounds in rotation order, each
    handing its key to `TryKey`, until a payload is delivered or every round
    is spent. It computes exactly the primary phase `PrimaryRun`.
  */
  method RunPrimary(n: nat, start: nat, reply: nat -> Reply) returns (found: Option<Found>, ghost trace: seq<Step>)
    ensures Run(trace, found) == PrimaryRun(n, start, reply)
  {
    ghost var spec := PrimaryRun(n, start, reply);
    var calls: nat := 0;
    trace := [];
    var i: nat := 0;
    while i < n
      invariant i <= n
      invariant calls == |trace|
      invariant spec.steps == trace + Attempts(n, start, i, 1, calls, reply).steps
      invariant spec.found == Attempts(n, start, i, 1, calls, reply).found
    {
      var key: nat := (start + i) % n;
      var audio, calls', steps := TryKey(n, start, i, key, calls, reply);
      RoundDone(spec, trace, steps, Attempts(n, start, i, 1, calls, reply), Attempts(n, start, i + 1, 1, calls', reply), audio.None?);
      trace := trace + steps;
      calls := calls';
      if audio.Some? {
        return Some(Found(key, audio.value)), trace;
      }
      i := i + 1;
    }
    assert Attempts(n, start, i, 1, calls, reply) == Run([], None);
    found := None;
  }

  /** The rotating pool of credentials and its persistent cursor `current_key_index`. */
  class KeyRotation {
    const keys: seq<string>
    var cursor: nat

    ghost predicate Valid()
      reads this
    {
      |keys| > 0 && cursor < |keys|
    }

    /** The pool starts at the first key (app.py:433); an empty key list never gets here (app.py:40-41). */
    constructor (keys: seq<string>)
      requires |keys| > 0
      ensures Valid() && this.keys == keys && cursor == 0
    {
      this.keys := keys;
      cursor := 0;
    }

    /**
      `get_gemini_tts_audio_data` (app.py:440-497): runs the primary phase
      from the cursor snapshot and, on a delivered payload, moves the cursor
      past the key used; when every key is exhausted the result is the
      fallback's answer, which is used in that case only. The cursor is
      written once, after the loops, which is the same as the source's write
      just before it returns.
    */
    method GeminiTts(reply: nat -> Reply, fallback: Option<string>)
        returns (audio: Option<string>, ghost trace: seq<Step>)
      requires Valid()
      modifies this
      ensures Valid()
      ensures trace == PrimaryRun(|keys|, old(cursor), reply).steps
      ensures cursor == NextCursor(|keys|, old(cursor), PrimaryRun(|keys|, old(cursor), reply))
      ensures audio == Outcome(PrimaryRun(|keys|, old(cursor), reply), fallback)
    {
      var found;
      found, trace := RunPrimary(|keys|, cursor, reply);
      match found
      case Some(f) =>
        cursor := (f.key + 1) % |keys|;
        audio := Some(f.audio);
      case None =>
        audio := fallback;
    }

    /**
      `get_tts_audio_data` (app.py:513-519). No exception leaves the primary
      phase in this model, so its `except` branch, which would call the
      fallback directly, is never taken.
    */
    method TtsAudio(reply: nat -> Reply, fallback: Option<string>) returns (audio: Option<string>)
      requires Valid()
      modifies this
      ensures Valid()
      ensures cursor == NextCursor(|keys|, old(cursor), PrimaryRun(|keys|, old(cursor), reply))
      ensures audio == Outcome(PrimaryRun(|keys|, old(cursor), reply), fallback)
    {
      ghost var trace;
      audio, trace := GeminiTts(reply, fallback);
    }
  }
}
