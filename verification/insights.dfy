/**
 * AIInsightsGenerator: the prompt built from the metric dictionary
 * (format_data_for_prompt) and the retry/backoff loop around the model call
 * (generate_insights).
 *
 * The model call is a given function from the prompt and the attempt number to a reply;
 * time.sleep is recorded as the list of delays slept, in order; the delay suggested in an
 * error message ("retry in Xs", parsed as int(float(X))) is a given function of the message.
 */
module Insights {
  import opened Wrappers
  import opened Text
  import opened OrderedMaps

  /** One key/value line of the prompt. */
  function PromptLine(entry: (string, string)): string
  {
    entry.0 + ": " + entry.1
  }

  /** Entries format_data_for_prompt keeps: not "error" or "slug", and a truthy value. */
  predicate Shown(entry: (string, string))
  {
    entry.0 != "error" && entry.0 != "slug" && entry.1 != ""
  }

  /** The lines of the prompt's data block, in dictionary order. */
  function PromptLines(data: OrderedMap<string>): seq<string>
  {
    if data == [] then []
    else (if Shown(data[0]) then [PromptLine(data[0])] else []) + PromptLines(data[1..])
  }

  /** format_data_for_prompt. */
  function FormatDataForPrompt(data: OrderedMap<string>): string
  {
    Join(PromptLines(data), "\n")
  }

  /** The lines of two consecutive stretches of the dictionary are those of each. */
  lemma {:induction false} PromptLinesConcat(a: OrderedMap<string>, b: OrderedMap<string>)
    ensures PromptLines(a + b) == PromptLines(a) + PromptLines(b)
  {
    if a != [] {
      assert (a + b)[1..] == a[1..] + b;
      PromptLinesConcat(a[1..], b);
    } else {
      assert a + b == b;
    }
  }

  /** An entry contributes exactly its "key: value" line when shown and nothing otherwise,
      at its own place in the order. */
  lemma PromptLinesAround(a: OrderedMap<string>, entry: (string, string), b: OrderedMap<string>)
    ensures PromptLines(a + [entry] + b)
            == PromptLines(a) + (if Shown(entry) then [PromptLine(entry)] else []) + PromptLines(b)
  {
    PromptLinesConcat(a + [entry], b);
    PromptLinesConcat(a, [entry]);
    assert PromptLines([entry]) == (if Shown(entry) then [PromptLine(entry)] else []) + PromptLines([]);
  }

  /** No line more than entries; none at all exactly when no entry is shown. */
  lemma {:induction false} PromptLinesCount(data: OrderedMap<string>)
    ensures |PromptLines(data)| <= |data|
    ensures PromptLines(data) == [] <==> forall i :: 0 <= i < |data| ==> !Shown(data[i])
  {
    if data != [] {
      PromptLinesCount(data[1..]);
      assert forall i :: 0 < i < |data| ==> data[1..][i - 1] == data[i];
    }
  }

  /** When no key or value holds a newline, splitting the data block at newlines gives the
      lines back: the block is unambiguous. */
  lemma PromptLinesRecoverable(data: OrderedMap<string>)
    requires forall i :: 0 <= i < |data| ==> '\n' !in data[i].0 && '\n' !in data[i].1
    requires PromptLines(data) != []
    ensures Split(FormatDataForPrompt(data), "\n") == PromptLines(data)
  {
    NoNewlineInLines(data);
    SplitJoinRoundTrip(PromptLines(data), '\n');
  }

  lemma {:induction false} NoNewlineInLines(data: OrderedMap<string>)
    requires forall i :: 0 <= i < |data| ==> '\n' !in data[i].0 && '\n' !in data[i].1
    ensures forall j :: 0 <= j < |PromptLines(data)| ==> '\n' !in PromptLines(data)[j]
  {
    if data != [] {
      assert forall i :: 0 < i < |data| ==> data[1..][i - 1] == data[i];
      NoNewlineInLines(data[1..]);
      var line := PromptLine(data[0]);
      assert '\n' !in line by {
        assert line == data[0].0 + ": " + data[0].1;
      }
    }
  }

  /** The system instruction, followed by the start of the analysis request. */
  const Preamble: string :=
    "You are an expert financial analyst specializing in Indian stock market analysis. "
    + "Provide clear, concise, and actionable insights.\n\n"
    + "You are a financial analyst. Analyze the following scraped data for "

  /** The four points asked for, up to the data block. */
  const Request: string :=
    ".\n"
    + "Provide:\n\n"
    + "1. Bullish insights (2-3 key positive points)\n"
    + "2. Bearish risks (2-3 key concerns)\n"
    + "3. Overall sentiment (Positive/Neutral/Negative)\n"
    + "4. Actionable summary in 4 lines\n\n"
    + "Data:\n"

  const Closing: string := "\n\nFormat your response clearly with headings for each section."

  /** The prompt sent on every attempt: the system instruction, then the analysis request
      for the stock with its data block. */
  function Prompt(stockName: string, data: OrderedMap<string>): string
  {
    Preamble + stockName + Request + FormatDataForPrompt(data) + Closing
  }

  /** What one model call produces: the response text, or the text of the exception. */
  datatype Reply = Answer(text: string) | Failure(message: string)

  /** How generate_insights reacts to an error message. */
  datatype ErrorKind = QuotaExhausted | RateLimited | InvalidKey | SafetyBlocked | Unexpected

  predicate HasRateLimitMarker(msg: string)
  {
    Contains(msg, "429") || Contains(Lower(msg), "quota") || Contains(Lower(msg), "rate_limit")
  }

  predicate HasFreeTierMarker(msg: string)
  {
    Contains(Lower(msg), "free_tier") || (Contains(Lower(msg), "limit: 0") && Contains(msg, "429"))
  }

  predicate HasAuthMarker(msg: string)
  {
    Contains(Lower(msg), "invalid") || Contains(msg, "401") || Contains(msg, "403")
  }

  /** The branch the except clause takes, tested in the code's order. */
  function Classify(msg: string): ErrorKind
  {
    if HasRateLimitMarker(msg) then (if HasFreeTierMarker(msg) then QuotaExhausted else RateLimited)
    else if HasAuthMarker(msg) then InvalidKey
    else if Contains(Lower(msg), "safety") then SafetyBlocked
    else Unexpected
  }

  const MaxRetries: nat := 3
  const InitialDelay: nat := 2

  const QuotaNotice: string :=
    "\U{26A0}\U{FE0F} **Free Tier Quota Exhausted**\n\n"
    + "Your daily free tier quota (1,500 requests/day) has been exhausted.\n\n"
    + "**What to do:**\n"
    + "\U{2022} Wait until midnight UTC for quota reset\n"
    + "\U{2022} Check your usage: https://ai.dev/usage\n"
    + "\U{2022} Consider upgrading to a paid plan for higher limits\n\n"
    + "The stock metrics above are still available!"

  /** The delay slept after a rate-limited attempt: the suggested one plus a second when
      the message says "retry in" and a number can be read from it, the current one
      otherwise. */
  function NextDelay(msg: string, hint: string -> Option<nat>, delay: nat): nat
  {
    if Contains(Lower(msg), "retry in") && hint(msg).Some? then hint(msg).value + 1 else delay
  }

  /** The result generate_insights returns, how many model calls it made, and the delays
      it slept, in order. */
  datatype Outcome = Outcome(insights: Option<string>, calls: nat, sleeps: seq<nat>)

  /** The remaining attempts from `attempt` on, with `delay` as the current retry delay. */
  function RunFrom(model: (string, nat) -> Reply, prompt: string, hint: string -> Option<nat>,
                   attempt: nat, delay: nat): Outcome
    decreases MaxRetries - attempt
  {
    if attempt >= MaxRetries then Outcome(None, attempt, [])
    else match model(prompt, attempt)
      case Answer(text) => Outcome(Some(Strip(text)), attempt + 1, [])
      case Failure(msg) =>
        match Classify(msg)
        case QuotaExhausted => Outcome(Some(QuotaNotice), attempt + 1, [])
        case RateLimited =>
          if attempt < MaxRetries - 1 then
            var d := NextDelay(msg, hint, delay);
            var rest := RunFrom(model, prompt, hint, attempt + 1, 2 * d);
            Outcome(rest.insights, rest.calls, [d] + rest.sleeps)
          else Outcome(None, attempt + 1, [])
        case _ => Outcome(None, attempt + 1, [])
  }

  /** generate_insights as a function of its inputs. */
  function Generate(stockName: string, data: OrderedMap<string>, model: (string, nat) -> Reply,
                    hint: string -> Option<nat>): Outcome
  {
    if "error" in Keys(data) then Outcome(None, 0, [])
    else RunFrom(model, Prompt(stockName, data), hint, 0, InitialDelay)
  }

  /** generate_insights. */
  method GenerateInsights(stockName: string, data: OrderedMap<string>, model: (string, nat) -> Reply,
                          hint: string -> Option<nat>)
    returns (insights: Option<string>, calls: nat, sleeps: seq<nat>)
    ensures Outcome(insights, calls, sleeps) == Generate(stockName, data, model, hint)
    ensures "error" in Keys(data) ==> insights == None && calls == 0 && sleeps == []
  {
    if "error" in Keys(data) {
      return None, 0, [];
    }
    var prompt := Prompt(stockName, data);
    ghost var total := RunFrom(model, prompt, hint, 0, InitialDelay);
    var retryDelay: nat := InitialDelay;
    calls, sleeps := 0, [];
    assert [] + total.sleeps == total.sleeps;
    for attempt := 0 to MaxRetries
      invariant calls == attempt
      invariant total == Resumed(sleeps, RunFrom(model, prompt, hint, attempt, retryDelay))
    {
      var reply := model(prompt, attempt);
      calls := calls + 1;
      if reply.Answer? {
        RunFromStops(model, prompt, hint, attempt, retryDelay);
        return Some(Strip(reply.text)), calls, sleeps;
      }
      var errorMsg := reply.message;
      if HasRateLimitMarker(errorMsg) {
        if HasFreeTierMarker(errorMsg) {
          RunFromStops(model, prompt, hint, attempt, retryDelay);
          return Some(QuotaNotice), calls, sleeps;
        }
        if attempt < MaxRetries - 1 {
          ghost var before := retryDelay;
          retryDelay := NextDelay(errorMsg, hint, retryDelay);
          RunFromRetries(model, prompt, hint, attempt, before);
          ghost var rest := RunFrom(model, prompt, hint, attempt + 1, 2 * retryDelay);
          assert RunFrom(model, prompt, hint, attempt, before) == Outcome(rest.insights, rest.calls, [retryDelay] + rest.sleeps);
          ResumedAppend(sleeps, retryDelay, rest);
          assert total == Resumed(sleeps + [retryDelay], rest);
          sleeps := sleeps + [retryDelay];
          retryDelay := retryDelay * 2;
          continue;
        } else {
          RunFromStops(model, prompt, hint, attempt, retryDelay);
          return None, calls, sleeps;
        }
      } else {
        // an invalid key, a safety block and any other error differ only in what is logged
        RunFromStops(model, prompt, hint, attempt, retryDelay);
        return None, calls, sleeps;
      }
    }
    RunFromPastEnd(model, prompt, hint, MaxRetries, retryDelay);
    return None, calls, sleeps;
  }

  /** The outcome of the remaining attempts after the delays already slept. */
  function Resumed(slept: seq<nat>, rest: Outcome): Outcome
  {
    Outcome(rest.insights, rest.calls, slept + rest.sleeps)
  }

  lemma ResumedAppend(slept: seq<nat>, d: nat, rest: Outcome)
    ensures Resumed(slept, Outcome(rest.insights, rest.calls, [d] + rest.sleeps)) == Resumed(slept + [d], rest)
  {
    assert slept + ([d] + rest.sleeps) == (slept + [d]) + rest.sleeps;
  }

  /** An attempt that is not a retried rate limit ends the run with that reply's result. */
  lemma RunFromStops(model: (string, nat) -> Reply, prompt: string, hint: string -> Option<nat>,
                     a: nat, delay: nat)
    requires a < MaxRetries
    requires !(RateLimitedAt(model, prompt, a) && a < MaxRetries - 1)
    ensures RunFrom(model, prompt, hint, a, delay) == Outcome(Final(model(prompt, a)), a + 1, [])
  {
  }

  /** A rate-limited attempt before the last sleeps the next delay and retries with double
      that delay. */
  lemma RunFromRetries(model: (string, nat) -> Reply, prompt: string, hint: string -> Option<nat>,
                       a: nat, delay: nat)
    requires a < MaxRetries - 1
    requires RateLimitedAt(model, prompt, a)
    ensures var d := NextDelay(model(prompt, a).message, hint, delay);
            var rest := RunFrom(model, prompt, hint, a + 1, 2 * d);
            RunFrom(model, prompt, hint, a, delay) == Outcome(rest.insights, rest.calls, [d] + rest.sleeps)
  {
  }

  lemma RunFromPastEnd(model: (string, nat) -> Reply, prompt: string, hint: string -> Option<nat>,
                       a: nat, delay: nat)
    requires a >= MaxRetries
    ensures RunFrom(model, prompt, hint, a, delay) == Outcome(None, a, [])
  {
  }

  /** The message of a failed reply, "" for an answer. */
  function MessageOf(r: Reply): string
  {
    if r.Failure? then r.message else ""
  }

  /** What the last call's reply makes generate_insights return. */
  function Final(r: Reply): Option<string>
  {
    match r
    case Answer(text) => Some(Strip(text))
    case Failure(msg) => if Classify(msg) == QuotaExhausted then Some(QuotaNotice) else None
  }

  /** The attempt's reply is a rate-limit failure that is not an exhausted free tier. */
  predicate RateLimitedAt(model: (string, nat) -> Reply, prompt: string, j: nat)
  {
    model(prompt, j).Failure? && Classify(model(prompt, j).message) == RateLimited
  }

  /** From attempt a on, at least one and at most the remaining calls are made, and a sleep
      follows every call but the last. */
  lemma {:induction false} RunFromCalls(model: (string, nat) -> Reply, prompt: string,
                                        hint: string -> Option<nat>, a: nat, delay: nat)
    requires a < MaxRetries
    ensures var o := RunFrom(model, prompt, hint, a, delay);
      a + 1 <= o.calls <= MaxRetries && |o.sleeps| == o.calls - 1 - a
    decreases MaxRetries - a
  {
    if RateLimitedAt(model, prompt, a) && a < MaxRetries - 1 {
      RunFromRetries(model, prompt, hint, a, delay);
      RunFromCalls(model, prompt, hint, a + 1, 2 * NextDelay(model(prompt, a).message, hint, delay));
    } else {
      RunFromStops(model, prompt, hint, a, delay);
    }
  }

  /** Only a rate-limited failure is followed by a sleep. */
  lemma {:induction false} RunFromSleepsAfterRateLimit(model: (string, nat) -> Reply, prompt: string,
                                                       hint: string -> Option<nat>, a: nat, delay: nat)
    requires a < MaxRetries
    ensures var o := RunFrom(model, prompt, hint, a, delay);
      forall j :: a <= j < a + |o.sleeps| ==> RateLimitedAt(model, prompt, j)
    decreases MaxRetries - a
  {
    if RateLimitedAt(model, prompt, a) && a < MaxRetries - 1 {
      RunFromRetries(model, prompt, hint, a, delay);
      RunFromSleepsAfterRateLimit(model, prompt, hint, a + 1, 2 * NextDelay(model(prompt, a).message, hint, delay));
    } else {
      RunFromStops(model, prompt, hint, a, delay);
    }
  }

  /** The first delay is derived from the current delay and each later one from double the
      previous. */
  lemma {:induction false} RunFromDelays(model: (string, nat) -> Reply, prompt: string,
                                         hint: string -> Option<nat>, a: nat, delay: nat)
    requires a < MaxRetries
    ensures var o := RunFrom(model, prompt, hint, a, delay);
      && (|o.sleeps| > 0 ==> o.sleeps[0] == NextDelay(MessageOf(model(prompt, a)), hint, delay))
      && (forall i :: 0 < i < |o.sleeps| ==>
            o.sleeps[i] == NextDelay(MessageOf(model(prompt, a + i)), hint, 2 * o.sleeps[i - 1]))
    decreases MaxRetries - a
  {
    if RateLimitedAt(model, prompt, a) && a < MaxRetries - 1 {
      var o := RunFrom(model, prompt, hint, a, delay);
      var d := NextDelay(model(prompt, a).message, hint, delay);
      var rest := RunFrom(model, prompt, hint, a + 1, 2 * d);
      RunFromRetries(model, prompt, hint, a, delay);
      RunFromDelays(model, prompt, hint, a + 1, 2 * d);
      assert o.sleeps == [d] + rest.sleeps;
      forall i | 0 < i < |o.sleeps|
        ensures o.sleeps[i] == NextDelay(MessageOf(model(prompt, a + i)), hint, 2 * o.sleeps[i - 1])
      {
        assert o.sleeps[i] == rest.sleeps[i - 1];
        if i > 1 {
          assert o.sleeps[i - 1] == rest.sleeps[i - 2];
        }
      }
    } else {
      RunFromStops(model, prompt, hint, a, delay);
    }
  }

  /** The last call's reply decides the result. */
  lemma {:induction false} RunFromFinal(model: (string, nat) -> Reply, prompt: string,
                                        hint: string -> Option<nat>, a: nat, delay: nat)
    requires a < MaxRetries
    ensures var o := RunFrom(model, prompt, hint, a, delay);
      o.insights == Final(model(prompt, o.calls - 1))
    decreases MaxRetries - a
  {
    if RateLimitedAt(model, prompt, a) && a < MaxRetries - 1 {
      RunFromRetries(model, prompt, hint, a, delay);
      RunFromCalls(model, prompt, hint, a + 1, 2 * NextDelay(model(prompt, a).message, hint, delay));
      RunFromFinal(model, prompt, hint, a + 1, 2 * NextDelay(model(prompt, a).message, hint, delay));
    } else {
      RunFromStops(model, prompt, hint, a, delay);
    }
  }

  /** A run that ends before the last attempt does not end on a retryable rate limit:
      such a failure with attempts left is always retried. */
  lemma {:induction false} RunFromRetriesWhileAttemptsLeft(model: (string, nat) -> Reply, prompt: string,
                                                           hint: string -> Option<nat>, a: nat, delay: nat)
    requires a < MaxRetries
    ensures var o := RunFrom(model, prompt, hint, a, delay);
      o.calls < MaxRetries ==> !RateLimitedAt(model, prompt, o.calls - 1)
    decreases MaxRetries - a
  {
    if RateLimitedAt(model, prompt, a) && a < MaxRetries - 1 {
      RunFromRetries(model, prompt, hint, a, delay);
      RunFromRetriesWhileAttemptsLeft(model, prompt, hint, a + 1, 2 * NextDelay(model(prompt, a).message, hint, delay));
    } else {
      RunFromStops(model, prompt, hint, a, delay);
    }
  }

  /** The promises of generate_insights: no call when the data holds "error"; otherwise
      one to three calls, a sleep between consecutive calls exactly after a rate-limited
      failure (such a failure before the third call is always retried), delays starting at 2 and doubling unless the message suggests one, and the
      result given by the last reply (the stripped text, the quota notice, or None). */
  lemma GenerateSpec(stockName: string, data: OrderedMap<string>, model: (string, nat) -> Reply,
                     hint: string -> Option<nat>)
    ensures var o := Generate(stockName, data, model, hint);
      var prompt := Prompt(stockName, data);
      && ("error" in Keys(data) ==> o == Outcome(None, 0, []))
      && ("error" !in Keys(data) ==>
            && 1 <= o.calls <= MaxRetries
            && |o.sleeps| == o.calls - 1
            && (forall i :: 0 <= i < |o.sleeps| ==> RateLimitedAt(model, prompt, i))
            && (|o.sleeps| > 0 ==> o.sleeps[0] == NextDelay(MessageOf(model(prompt, 0)), hint, InitialDelay))
            && (forall i :: 0 < i < |o.sleeps| ==>
                  o.sleeps[i] == NextDelay(MessageOf(model(prompt, i)), hint, 2 * o.sleeps[i - 1]))
            && (o.calls < MaxRetries ==> !RateLimitedAt(model, prompt, o.calls - 1))
            && o.insights == Final(model(prompt, o.calls - 1)))
  {
    if "error" !in Keys(data) {
      var prompt := Prompt(stockName, data);
      RunFromCalls(model, prompt, hint, 0, InitialDelay);
      RunFromRetriesWhileAttemptsLeft(model, prompt, hint, 0, InitialDelay);
      RunFromSleepsAfterRateLimit(model, prompt, hint, 0, InitialDelay);
      RunFromDelays(model, prompt, hint, 0, InitialDelay);
      RunFromFinal(model, prompt, hint, 0, InitialDelay);
    }
  }

  /** k rate-limited failures followed by an answer, within the three attempts, give the
      stripped answer after k + 1 calls and k sleeps. */
  lemma AnswerAfterRateLimits(model: (string, nat) -> Reply, prompt: string, hint: string -> Option<nat>,
                              k: nat)
    requires k < MaxRetries
    requires forall j :: 0 <= j < k ==> RateLimitedAt(model, prompt, j)
    requires model(prompt, k).Answer?
    ensures var o := RunFrom(model, prompt, hint, 0, InitialDelay);
      o.insights == Some(Strip(model(prompt, k).text)) && o.calls == k + 1 && |o.sleeps| == k
  {
    RunFromCalls(model, prompt, hint, 0, InitialDelay);
    RunFromSleepsAfterRateLimit(model, prompt, hint, 0, InitialDelay);
    RunFromRetriesWhileAttemptsLeft(model, prompt, hint, 0, InitialDelay);
    RunFromFinal(model, prompt, hint, 0, InitialDelay);
  }

  /** A failure that exhausts the free tier ends the run at once with the notice, and with
      no sleep, whatever the attempt. */
  lemma QuotaEndsRun(model: (string, nat) -> Reply, prompt: string, hint: string -> Option<nat>,
                     a: nat, delay: nat)
    requires a < MaxRetries && model(prompt, a).Failure?
    requires Classify(model(prompt, a).message) == QuotaExhausted
    ensures RunFrom(model, prompt, hint, a, delay) == Outcome(Some(QuotaNotice), a + 1, [])
  {
  }

  /** The rate-limit markers are tested first: a message carrying one is never treated as
      an invalid key, a safety block or an unexpected error, whatever else it carries; it
      ends the run with the quota notice exactly when it also carries a free-tier marker. */
  lemma RateLimitTakesPrecedence(msg: string)
    requires HasRateLimitMarker(msg)
    ensures Classify(msg) == QuotaExhausted <==> HasFreeTierMarker(msg)
    ensures Classify(msg) == RateLimited <==> !HasFreeTierMarker(msg)
  {
  }

  /** A failure without a rate-limit marker ends the run at once with None: no retry and no
      sleep. */
  lemma OtherErrorsStop(model: (string, nat) -> Reply, prompt: string, hint: string -> Option<nat>,
                        a: nat, delay: nat)
    requires a < MaxRetries && model(prompt, a).Failure?
    requires !HasRateLimitMarker(model(prompt, a).message)
    ensures RunFrom(model, prompt, hint, a, delay) == Outcome(None, a + 1, [])
  {
    RunFromStops(model, prompt, hint, a, delay);
  }

  /** A rate limit on the last attempt gives up with None, without sleeping. */
  lemma RateLimitOnLastAttempt(model: (string, nat) -> Reply, prompt: string, hint: string -> Option<nat>,
                               delay: nat)
    requires RateLimitedAt(model, prompt, MaxRetries - 1)
    ensures RunFrom(model, prompt, hint, MaxRetries - 1, delay) == Outcome(None, MaxRetries, [])
  {
    RunFromStops(model, prompt, hint, MaxRetries - 1, delay);
  }

  /** Without suggested delays the sleeps are 2 and then 4. */
  lemma UnhintedDelaysDouble(stockName: string, data: OrderedMap<string>, model: (string, nat) -> Reply,
                             hint: string -> Option<nat>)
    requires forall m :: hint(m) == None
    ensures var o := Generate(stockName, data, model, hint);
            o.sleeps == [2, 4][..|o.sleeps|]
  {
    var o := Generate(stockName, data, model, hint);
    if "error" !in Keys(data) {
      var prompt := Prompt(stockName, data);
      RunFromCalls(model, prompt, hint, 0, InitialDelay);
      RunFromDelays(model, prompt, hint, 0, InitialDelay);
      if |o.sleeps| == 1 {
        assert o.sleeps == [o.sleeps[0]] && o.sleeps[0] == 2;
      } else if |o.sleeps| == 2 {
        assert o.sleeps == [o.sleeps[0], o.sleeps[1]] && o.sleeps[0] == 2 && o.sleeps[1] == 4;
      }
    }
  }
}
