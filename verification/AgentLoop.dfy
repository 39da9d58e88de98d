/** The control skeleton of one agent turn against any model client: the counters, guards and exits of
    the loop. What the client, the parser and the tools answer is a parameter. */
module AgentLoop {

  import opened Wrappers

  const MAX_COMPRESS_RETRIES: nat := 2
  const LOOP_BREAK_THRESHOLD: nat := 2
  const LOOP_BREAK_MAX_NUDGES: nat := 2

  // ---------------------------------------------------------------------------
  // Empty responses
  // ---------------------------------------------------------------------------

  datatype Limits = Limits(enabled: bool, nudges: nat, prefills: nat, empties: nat)

  const DEFAULT_LIMITS := Limits(true, 1, 2, 3)

  datatype Recovery = Complete | Prefill | Nudge | Retry

  function Classify(
    thinking: bool, visible: bool, afterTools: bool, nudges: nat, prefills: nat, empties: nat, limits: Limits): Recovery
  {
    if visible || !limits.enabled then Complete
    else if thinking && prefills < limits.prefills then Prefill
    else if afterTools && !thinking && nudges < limits.nudges then Nudge
    else if empties < limits.empties && (!thinking || prefills >= limits.prefills) then Retry
    else Complete
  }

  /** Recovery is given up exactly when it is off, there is an answer, or every kind of recovery the
      response allows is spent; otherwise it takes one that is not. */
  lemma GivesUpIffSpent(
    thinking: bool, visible: bool, afterTools: bool, nudges: nat, prefills: nat, empties: nat, limits: Limits)
    ensures var r := Classify(thinking, visible, afterTools, nudges, prefills, empties, limits);
            && (r == Complete <==>
                  visible || !limits.enabled
                  || (empties >= limits.empties
                      && (if thinking then prefills >= limits.prefills else !afterTools || nudges >= limits.nudges)))
            && (r == Prefill ==> thinking && prefills < limits.prefills)
            && (r == Nudge ==> afterTools && !thinking && nudges < limits.nudges)
            && (r == Retry ==> empties < limits.empties)
  {
  }

  // ---------------------------------------------------------------------------
  // One iteration
  // ---------------------------------------------------------------------------

  datatype Config = Config(maxSteps: nat, maxCalls: Option<nat>, limits: Limits)

  /** What a text without native tool calls parses to. */
  datatype Parsed = OneTool | Malformed | Final

  /** What one provider request comes to. `entries` counts the calls it is charged for, at least one;
      `failures` holds, per tool call executed, the tool's name if it failed hard. */
  datatype Response =
    | Overflow(entries: nat, shouldCompress: bool, elides: bool)
    | Interrupted
    | Reply(entries: nat, calls: nat, blank: bool, thinking: bool, visible: bool, parsed: Parsed,
            failures: nat -> Option<string>, endsWithResult: bool)

  type Client = nat -> Response

  datatype Counters = Counters(
    toolSteps: nat, attempts: nat, nudges: nat, prefills: nat, empties: nat, overflows: nat, afterTools: bool,
    failing: Option<string>, streak: nat, loopNudges: nat, calls: nat)

  const START := Counters(0, 0, 0, 0, 0, 0, false, None, 0, 0, 0)

  function Max(a: nat, b: nat): nat { if a < b then b else a }

  function MaxAttempts(cfg: Config): nat
  {
    Max(Max(cfg.maxSteps * 3, cfg.maxSteps + 4),
        cfg.maxSteps + cfg.limits.nudges + cfg.limits.prefills + cfg.limits.empties + 1)
  }

  predicate CallsLeft(cfg: Config, s: Counters) { cfg.maxCalls.None? || s.calls < cfg.maxCalls.value }

  predicate Goes(cfg: Config, s: Counters)
  {
    s.toolSteps < cfg.maxSteps && s.attempts < MaxAttempts(cfg) && CallsLeft(cfg, s)
  }

  datatype Exit = Answered | Raised | RecoveryExhausted | CallLimit | TooManyMalformed | StepLimit

  datatype Step = Again(s: Counters) | Stop(exit: Exit, s: Counters)

  function Entries(n: nat): nat { if n == 0 then 1 else n }

  /** The tool failing in a row, and how often, after the results of the first `n` calls. */
  function Streak(failing: Option<string>, streak: nat, failures: nat -> Option<string>, n: nat): (Option<string>, nat)
  {
    if n == 0 then (failing, streak)
    else
      var (tool, streak) := Streak(failing, streak, failures, n - 1);
      match failures(n - 1)
      case None => (None, 0)
      case Some(name) => (Some(name), if tool == Some(name) then streak + 1 else 1)
  }

  function AfterTools(cfg: Config, s: Counters, r: Response, calls: nat): Counters
    requires s.toolSteps < cfg.maxSteps && r.Reply?
  {
    var taken := if calls < cfg.maxSteps - s.toolSteps then calls else cfg.maxSteps - s.toolSteps;
    var (tool, streak) := Streak(s.failing, s.streak, r.failures, taken);
    var breaks := streak >= LOOP_BREAK_THRESHOLD && s.loopNudges < LOOP_BREAK_MAX_NUDGES && r.endsWithResult;
    s.(toolSteps := s.toolSteps + taken, afterTools := true, failing := tool,
       streak := if breaks then 0 else streak, loopNudges := if breaks then s.loopNudges + 1 else s.loopNudges)
  }

  /** One iteration, after the attempt has been counted. */
  function Next(cfg: Config, before: Counters, r: Response): Step
    requires Goes(cfg, before)
  {
    var s := before.(attempts := before.attempts + 1);
    match r
    case Interrupted => Stop(Raised, s)
    case Overflow(entries, shouldCompress, elides) =>
      var t := s.(calls := s.calls + Entries(entries));
      if shouldCompress && elides && s.overflows < MAX_COMPRESS_RETRIES then Again(t.(overflows := s.overflows + 1))
      else Stop(Raised, t)
    case Reply(entries, calls, blank, thinking, visible, parsed, _, _) =>
      var t := s.(calls := s.calls + Entries(entries));
      if calls == 0 && (blank || (thinking && !visible)) then
        match Classify(thinking, visible, s.afterTools, s.nudges, s.prefills, s.empties, cfg.limits)
        case Prefill => Again(t.(prefills := s.prefills + 1, afterTools := false))
        case Nudge => Again(t.(nudges := s.nudges + 1, afterTools := false))
        case Retry => Again(t.(empties := s.empties + 1, afterTools := false))
        case Complete => Stop(RecoveryExhausted, t)
      else if calls > 0 then Again(AfterTools(cfg, t, r, calls))
      else
        match parsed
        case OneTool => Again(AfterTools(cfg, t, r, 1))
        case Malformed => Again(t.(afterTools := false))
        case Final => Stop(Answered, t)
  }

  function ExitOf(cfg: Config, s: Counters): Exit
  {
    if !CallsLeft(cfg, s) then CallLimit
    else if s.attempts >= MaxAttempts(cfg) && s.toolSteps < cfg.maxSteps then TooManyMalformed
    else StepLimit
  }

  /** The whole turn from some counters on. */
  function Turn(cfg: Config, client: Client, s: Counters): Step
    decreases MaxAttempts(cfg) - s.attempts
  {
    if !Goes(cfg, s) then Stop(ExitOf(cfg, s), s)
    else
      var next := Next(cfg, s, client(s.attempts));
      if next.Stop? then next else Turn(cfg, client, next.s)
  }

  // ---------------------------------------------------------------------------
  // The loop
  // ---------------------------------------------------------------------------

  method CountFailures(failing: Option<string>, streak: nat, failures: nat -> Option<string>, n: nat)
    returns (tool: Option<string>, count: nat)
    ensures (tool, count) == Streak(failing, streak, failures, n)
  {
    tool, count := failing, streak;
    for i := 0 to n
      invariant (tool, count) == Streak(failing, streak, failures, i)
    {
      match failures(i) {
        case None => tool, count := None, 0;
        case Some(name) =>
          if tool == Some(name) { count := count + 1; } else { tool, count := Some(name), 1; }
      }
    }
  }

  method Run(cfg: Config, client: Client) returns (exit: Exit, toolSteps: nat, attempts: nat, ghost last: Counters)
    ensures Turn(cfg, client, START) == Stop(exit, last)
    ensures exit == Turn(cfg, client, START).exit
    ensures toolSteps == Turn(cfg, client, START).s.toolSteps && attempts == Turn(cfg, client, START).s.attempts
  {
    hide Streak, MaxAttempts, Classify;
    toolSteps, attempts := 0, 0;
    var nudges: nat, prefills: nat, empties: nat, overflows: nat := 0, 0, 0, 0;
    var calls: nat, loopNudges: nat, streak: nat := 0, 0, 0;
    var afterTools, failing := false, None;
    var maxAttempts := MaxAttempts(cfg);
    last := START;
    while toolSteps < cfg.maxSteps && attempts < maxAttempts && (cfg.maxCalls.None? || calls < cfg.maxCalls.value)
      invariant last == Counters(toolSteps, attempts, nudges, prefills, empties, overflows, afterTools,
                                 failing, streak, loopNudges, calls)
      invariant Turn(cfg, client, last) == Turn(cfg, client, START)
      decreases maxAttempts - attempts
    {
      ghost var before := last;
      var response := client(attempts);
      attempts := attempts + 1;
      match response {
        case Interrupted =>
          last := before.(attempts := attempts);
          return Raised, toolSteps, attempts, last;
        case Overflow(entries, shouldCompress, elides) =>
          calls := calls + Entries(entries);
          if !(shouldCompress && elides && overflows < MAX_COMPRESS_RETRIES) {
            last := before.(attempts := attempts, calls := calls);
            return Raised, toolSteps, attempts, last;
          }
          overflows := overflows + 1;
        case Reply(entries, native, blank, thinking, visible, parsed, failures, endsWithResult) =>
          calls := calls + Entries(entries);
          var requested := native;
          if native == 0 && (blank || (thinking && !visible)) {
            var action := Classify(thinking, visible, afterTools, nudges, prefills, empties, cfg.limits);
            match action {
              case Prefill => prefills := prefills + 1;
              case Nudge => nudges := nudges + 1;
              case Retry => empties := empties + 1;
              case Complete =>
                last := before.(attempts := attempts, calls := calls);
                return RecoveryExhausted, toolSteps, attempts, last;
            }
            afterTools := false;
          } else {
            if native == 0 {
              match parsed {
                case OneTool => requested := 1;
                case Malformed =>
                case Final =>
                  last := before.(attempts := attempts, calls := calls);
                  return Answered, toolSteps, attempts, last;
              }
            }
            afterTools := requested > 0;
            if requested > 0 {
              var taken := if requested < cfg.maxSteps - toolSteps then requested else cfg.maxSteps - toolSteps;
              failing, streak := CountFailures(failing, streak, failures, taken);
              if streak >= LOOP_BREAK_THRESHOLD && loopNudges < LOOP_BREAK_MAX_NUDGES && endsWithResult {
                loopNudges, streak := loopNudges + 1, 0;
              }
              toolSteps := toolSteps + taken;
            }
          }
      }
      last := Counters(toolSteps, attempts, nudges, prefills, empties, overflows, afterTools,
                       failing, streak, loopNudges, calls);
      assert Next(cfg, before, client(before.attempts)) == Again(last);
    }
    exit := if cfg.maxCalls.Some? && calls >= cfg.maxCalls.value then CallLimit
            else if attempts >= maxAttempts && toolSteps < cfg.maxSteps then TooManyMalformed
            else StepLimit;
  }

  // ---------------------------------------------------------------------------
  // What every run keeps
  // ---------------------------------------------------------------------------

  predicate Bounded(cfg: Config, s: Counters)
  {
    && s.toolSteps <= cfg.maxSteps && s.attempts <= MaxAttempts(cfg)
    && s.nudges <= cfg.limits.nudges && s.prefills <= cfg.limits.prefills && s.empties <= cfg.limits.empties
    && s.overflows <= MAX_COMPRESS_RETRIES && s.loopNudges <= LOOP_BREAK_MAX_NUDGES
  }

  lemma IterationIsBounded(cfg: Config, s: Counters, r: Response)
    requires Bounded(cfg, s) && Goes(cfg, s)
    ensures Bounded(cfg, Next(cfg, s, r).s)
  {
    hide Streak;
  }

  /** Over every run the steps and every recovery counter stay within their limits. */
  lemma {:induction false} TurnIsBounded(cfg: Config, client: Client, s: Counters)
    requires Bounded(cfg, s)
    ensures Turn(cfg, client, s).Stop? && Bounded(cfg, Turn(cfg, client, s).s)
    decreases MaxAttempts(cfg) - s.attempts
  {
    hide Next, MaxAttempts;
    if Goes(cfg, s) {
      IterationIsBounded(cfg, s, client(s.attempts));
      AttemptCounted(cfg, s, client(s.attempts));
      var next := Next(cfg, s, client(s.attempts));
      if next.Again? { TurnIsBounded(cfg, client, next.s); }
    }
  }

  lemma AttemptCounted(cfg: Config, s: Counters, r: Response)
    requires Goes(cfg, s)
    ensures Next(cfg, s, r).s.attempts == s.attempts + 1
  {
    hide Streak;
  }

  /** The iteration only recorded a malformed output. */
  predicate IsMalformed(cfg: Config, s: Counters, r: Response)
  {
    r.Reply? && r.calls == 0 && !(r.blank || (r.thinking && !r.visible)) && r.parsed == Malformed
  }

  function MalformedIn(cfg: Config, client: Client, s: Counters): nat
    decreases MaxAttempts(cfg) - s.attempts
  {
    if !Goes(cfg, s) || Next(cfg, s, client(s.attempts)).Stop? then 0
    else
      AttemptCounted(cfg, s, client(s.attempts));
      (if IsMalformed(cfg, s, client(s.attempts)) then 1 else 0)
      + MalformedIn(cfg, client, Next(cfg, s, client(s.attempts)).s)
  }

  // ---------------------------------------------------------------------------
  // What an iteration does, and what an exit says
  // ---------------------------------------------------------------------------

  /** The last `count` results are failures of the tool and the one before them is not; where that is
      before the first result, the streak so far counts if it is the tool's. */
  predicate IsStreak(failing: Option<string>, streak: nat, failures: nat -> Option<string>, n: nat, name: string, count: nat)
  {
    && count >= 1 && (forall i: nat :: n - count <= i < n ==> failures(i) == Some(name))
    && if count < n then failures(n - count - 1) != Some(name)
       else count == n + if failing == Some(name) then streak else 0
  }

  lemma {:induction false} StreakMeans(failing: Option<string>, streak: nat, failures: nat -> Option<string>, n: nat)
    requires n > 0
    ensures var (tool, count) := Streak(failing, streak, failures, n);
            && tool == failures(n - 1)
            && if tool.None? then count == 0 else IsStreak(failing, streak, failures, n, tool.value, count)
  {
    if n > 1 { StreakMeans(failing, streak, failures, n - 1); }
  }

  predicate IsEmpty(r: Response) { r.Reply? && r.calls == 0 && (r.blank || (r.thinking && !r.visible)) }

  predicate CallsTools(r: Response) { r.Reply? && (r.calls > 0 || (!IsEmpty(r) && r.parsed == OneTool)) }

  /** As many of the calls count as the limit on steps leaves room for. From two failures of one tool
      in a row on, the last result is marked and the streak starts anew, at most twice in a turn. */
  lemma ToolsMeans(cfg: Config, s: Counters, r: Response)
    requires Goes(cfg, s) && CallsTools(r)
    ensures Next(cfg, s, r).Again?
    ensures var t := Next(cfg, s, r).s;
            var (tool, count) := Streak(s.failing, s.streak, r.failures, t.toolSteps - s.toolSteps);
            && t.afterTools && t.failing == tool
            && cfg.maxSteps - t.toolSteps >= 0 && s.toolSteps + (if r.calls > 0 then r.calls else 1) >= t.toolSteps
            && (t.toolSteps == cfg.maxSteps || t.toolSteps == s.toolSteps + (if r.calls > 0 then r.calls else 1))
            && if count > 1 && s.loopNudges in {0, 1} && r.endsWithResult
               then t.loopNudges == s.loopNudges + 1 && t.streak == 0
               else t.loopNudges == s.loopNudges && t.streak == count
  {
    hide Streak, MaxAttempts;
  }

  /** The turn goes on after tool calls, a malformed output, an empty response with a recovery left,
      and one of the first two overflows that can be compressed. */
  lemma GoesOnIff(cfg: Config, s: Counters, r: Response)
    requires Goes(cfg, s)
    ensures Next(cfg, s, r).Again? <==>
            || CallsTools(r) || IsMalformed(cfg, s, r)
            || (IsEmpty(r) && cfg.limits.enabled && !r.visible
                && (s.empties < cfg.limits.empties || (r.thinking && s.prefills < cfg.limits.prefills)
                    || (!r.thinking && s.afterTools && s.nudges < cfg.limits.nudges)))
            || (r.Overflow? && r.shouldCompress && r.elides && s.overflows in {0, 1})
    ensures Next(cfg, s, r).Again? ==> (Next(cfg, s, r).s.afterTools <==> CallsTools(r) || (r.Overflow? && s.afterTools))
    ensures Next(cfg, s, r).s.attempts == s.attempts + 1
    ensures r.Interrupted? ==> Next(cfg, s, r).s.calls == s.calls
    ensures !r.Interrupted? && r.entries > 0 ==> Next(cfg, s, r).s.calls == s.calls + r.entries
    ensures !r.Interrupted? && r.entries == 0 ==> Next(cfg, s, r).s.calls == s.calls + 1
  {
    hide Streak, MaxAttempts;
  }

  /** The least number that is three attempts a step, and four attempts more than steps, and one more
      than steps and recoveries. */
  lemma AttemptsAllowed(cfg: Config, n: nat)
    ensures MaxAttempts(cfg) <= n
            <==> && cfg.maxSteps + cfg.maxSteps + cfg.maxSteps <= n && cfg.maxSteps <= n - 4
                 && cfg.maxSteps + cfg.limits.nudges + cfg.limits.prefills + cfg.limits.empties < n
  {
  }

  /** How a turn ended tells what its last response was, or which limit it had reached. */
  predicate ExitSays(cfg: Config, last: Counters, exit: Exit, response: Response)
  {
    match exit
    case Answered => response.Reply? && response.calls == 0 && !IsEmpty(response) && response.parsed == Final
    case Raised => !response.Reply?
    case RecoveryExhausted => IsEmpty(response)
    case CallLimit => cfg.maxCalls.Some? && last.calls >= cfg.maxCalls.value
    case TooManyMalformed =>
      (cfg.maxCalls.Some? ==> last.calls < cfg.maxCalls.value) && last.toolSteps < cfg.maxSteps
      && last.attempts >= MaxAttempts(cfg)
    case StepLimit =>
      (cfg.maxCalls.Some? ==> last.calls < cfg.maxCalls.value) && last.toolSteps >= cfg.maxSteps
  }

  lemma {:induction false} ExitMeans(cfg: Config, client: Client, s: Counters)
    ensures Turn(cfg, client, s).Stop?
    ensures var turn := Turn(cfg, client, s);
            ExitSays(cfg, turn.s, turn.exit, client(if turn.s.attempts > 0 then turn.s.attempts - 1 else 0))
    ensures Turn(cfg, client, s).exit in {Answered, Raised, RecoveryExhausted} ==> Turn(cfg, client, s).s.attempts > s.attempts
    ensures Turn(cfg, client, s).s.attempts == s.attempts
            <==> s.toolSteps >= cfg.maxSteps || s.attempts >= MaxAttempts(cfg)
                 || (cfg.maxCalls.Some? && s.calls >= cfg.maxCalls.value)
    ensures Turn(cfg, client, s).s.attempts >= s.attempts
    decreases MaxAttempts(cfg) - s.attempts
  {
    hide MaxAttempts;
    if Goes(cfg, s) {
      AttemptCounted(cfg, s, client(s.attempts));
      StopMeans(cfg, s, client(s.attempts));
      hide Next;
      var next := Next(cfg, s, client(s.attempts));
      if next.Again? { ExitMeans(cfg, client, next.s); }
    }
  }

  lemma StopMeans(cfg: Config, s: Counters, r: Response)
    requires Goes(cfg, s)
    ensures Next(cfg, s, r).Stop? ==>
              Next(cfg, s, r).exit in {Answered, Raised, RecoveryExhausted}
              && ExitSays(cfg, Next(cfg, s, r).s, Next(cfg, s, r).exit, r)
  {
    hide Streak, MaxAttempts;
  }

  /** Everything an attempt may have been spent on, but malformed output. */
  function Spent(s: Counters): nat { s.toolSteps + s.nudges + s.prefills + s.empties + s.overflows }

  lemma IterationIsSpent(cfg: Config, s: Counters, r: Response)
    requires Goes(cfg, s) && Next(cfg, s, r).Again?
    ensures Spent(Next(cfg, s, r).s) + (if IsMalformed(cfg, s, r) then 1 else 0) >= Spent(s) + 1
  {
    hide Streak, MaxAttempts;
  }

  lemma {:induction false} AttemptsAreSpent(cfg: Config, client: Client, s: Counters)
    requires Turn(cfg, client, s).Stop? && Turn(cfg, client, s).exit == TooManyMalformed
    ensures var last := Turn(cfg, client, s).s;
            last.attempts - s.attempts <= Spent(last) - Spent(s) + MalformedIn(cfg, client, s)
    ensures Turn(cfg, client, s).s.attempts >= MaxAttempts(cfg) && Turn(cfg, client, s).s.toolSteps < cfg.maxSteps
    decreases MaxAttempts(cfg) - s.attempts
  {
    if Goes(cfg, s) {
      var r := client(s.attempts);
      AttemptCounted(cfg, s, r);
      NeverStopsMalformed(cfg, s, r);
      hide Next, MaxAttempts;
      IterationIsSpent(cfg, s, r);
      AttemptsAreSpent(cfg, client, Next(cfg, s, r).s);
    }
  }

  lemma NeverStopsMalformed(cfg: Config, s: Counters, r: Response)
    requires Goes(cfg, s)
    ensures Next(cfg, s, r).Stop? ==> Next(cfg, s, r).exit != TooManyMalformed
  {
  }

  /** A turn that stops for too many malformed responses had at least two iterations that were
      malformed outputs or overflow compressions: tool calls and empty responses alone never reach
      the limit on attempts. */
  lemma StopsMalformedOnlyAfterTwo(cfg: Config, client: Client)
    requires Turn(cfg, client, START).Stop? && Turn(cfg, client, START).exit == TooManyMalformed
    ensures MalformedIn(cfg, client, START) + Turn(cfg, client, START).s.overflows >= 2
  {
    hide Next, Turn, MalformedIn;
    TurnIsBounded(cfg, client, START);
    AttemptsAreSpent(cfg, client, START);
  }

  function Empty(thinking: bool): Response
  {
    Reply(1, 0, true, thinking, false, Final, _ => None, false)
  }

  /** A client with one tool call, every recovery spent, and two malformed outputs. */
  function Worst(n: nat): Response
  {
    if n == 0 then Reply(1, 1, false, false, true, Final, _ => None, true)
    else if n == 1 || 3 < n < 7 then Empty(false)
    else if n < 4 then Empty(true)
    else Reply(1, 0, false, false, true, Malformed, _ => None, false)
  }

  const TWO_STEPS := Config(2, None, DEFAULT_LIMITS)

  function WorstCounters(n: nat): Counters
    requires 1 <= n <= 9
  {
    Counters(1, n, if n >= 2 then 1 else 0, if n <= 2 then 0 else if n == 3 then 1 else 2,
             if n <= 4 then 0 else if n <= 7 then n - 4 else 3, 0, n == 1, None, 0, 0, n)
  }

  lemma WorstIteration(n: nat)
    requires 1 <= n < 9
    ensures Goes(TWO_STEPS, WorstCounters(n))
    ensures Next(TWO_STEPS, WorstCounters(n), Worst(n)) == Again(WorstCounters(n + 1))
    ensures IsMalformed(TWO_STEPS, WorstCounters(n), Worst(n)) <==> n >= 7
  {
  }

  lemma {:induction false} WorstFrom(n: nat)
    requires 1 <= n <= 9
    ensures Turn(TWO_STEPS, Worst, WorstCounters(n)) == Stop(TooManyMalformed, WorstCounters(9))
    ensures MalformedIn(TWO_STEPS, Worst, WorstCounters(n)) == (if n <= 7 then 2 else 9 - n)
    decreases 9 - n
  {
    if n < 9 {
      WorstIteration(n);
      hide Next;
      WorstFrom(n + 1);
    }
  }

  /** The bound is met: with the default limits and two steps, exactly two malformed outputs stop the
      turn. */
  lemma TwoMayBeEnough()
    ensures Turn(TWO_STEPS, Worst, START) == Stop(TooManyMalformed, WorstCounters(9))
    ensures MalformedIn(TWO_STEPS, Worst, START) == 2
  {
    assert Streak(None, 0, Worst(0).failures, 1) == (None, 0);
    assert Next(TWO_STEPS, START, Worst(0)) == Again(WorstCounters(1));
    WorstFrom(1);
  }
}
