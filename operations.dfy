/** `MaintenanceOperations`: running a list of steps one after another,
    reporting progress before each, appending one log record per step to the
    object's log and collecting a one-line verdict per step. External commands
    are abstracted by an environment that gives the outcome of each step. */
module Maintenance {
  import opened Text
  import opened SystemManagement
  import opened Catalog

  /** One record of `operations_log` (the wall-clock timestamp is left out). */
  datatype LogEntry = LogEntry(command: string, description: string, success: bool, output: string)

  /** What a run does that is visible from outside, in order: a call of the
      progress callback, or the execution of a step's command. */
  datatype Event = Progress(percent: real, description: string) | Ran(argv: seq<string>)

  /** How the `i`-th step of a run, with argument vector `argv`, ends. */
  type Environment = (nat, seq<string>) -> ProcessOutcome

  /** The longest output kept verbatim in a log record. */
  const MaxOutput: nat := 200

  /** The output stored in a log record: verbatim up to 200 characters,
      otherwise its first 200 characters and "...". */
  function Truncate(output: string): (r: string)
    ensures |r| <= MaxOutput + 3
    ensures |output| <= MaxOutput ==> r == output
    ensures |output| > MaxOutput ==> |r| == MaxOutput + 3 && r[..MaxOutput] == output[..MaxOutput] && r[MaxOutput..] == "..."
  {
    if |output| > MaxOutput then output[..MaxOutput] + "..." else output
  }

  /** The progress reported before step `i` of `n`: (i + 1) / n * 100. */
  function Percent(i: nat, n: nat): (r: real)
    requires i < n
    ensures 0.0 < r <= 100.0
    ensures i == n - 1 ==> r == 100.0
  {
    (i + 1) as real / n as real * 100.0
  }

  /** Later steps report strictly more progress. */
  lemma PercentIncreasing(i: nat, j: nat, n: nat)
    requires i < j < n
    ensures Percent(i, n) < Percent(j, n)
  {
  }

  /** The mark of a step's summary line: one character, a check mark exactly
      for success. */
  function Mark(success: bool): (r: char)
    ensures r != '\n'
    ensures r == '✓' <==> success
    ensures !success ==> r == '✗'
  {
    if success then '✓' else '✗'
  }

  // ---------------------------------------------------------------------------
  // What one step contributes
  // ---------------------------------------------------------------------------

  /** The `(success, output)` pair of step `i`. */
  function ResultAt(steps: seq<Step>, env: Environment, i: nat): CommandResult
    requires i < |steps|
  {
    RunCommand(env(i, steps[i].argv))
  }

  /** The log record of step `i`: the space-joined command, the label, success
      exactly on a zero exit status and the `run_command` output cut to at
      most 203 characters: what the command printed for a success, the
      timeout message for a step that timed out. */
  function EntryAt(steps: seq<Step>, env: Environment, i: nat): (r: LogEntry)
    requires i < |steps|
    ensures r.command == Join(" ", steps[i].argv) && r.description == steps[i].description
    ensures r.success <==> env(i, steps[i].argv).Completed? && env(i, steps[i].argv).exitCode == 0
    ensures |r.output| <= MaxOutput + 3
    ensures r.output == Truncate(RunCommand(env(i, steps[i].argv)).output)
    ensures r.success ==> r.output == Truncate(env(i, steps[i].argv).stdout + env(i, steps[i].argv).stderr)
    ensures env(i, steps[i].argv).TimedOut? ==> !r.success && r.output == "Command timed out"
  {
    var res := ResultAt(steps, env, i);
    LogEntry(Join(" ", steps[i].argv), steps[i].description, res.success, Truncate(res.output))
  }

  /** The summary line of step `i`: a check mark for a zero exit status and a
      cross otherwise, a space and the label; a single line when the label
      is. */
  function LineAt(steps: seq<Step>, env: Environment, i: nat): (r: string)
    requires i < |steps|
    ensures |r| == |steps[i].description| + 2 && r[1] == ' ' && r[2..] == steps[i].description
    ensures r[0] == '✓' <==> env(i, steps[i].argv).Completed? && env(i, steps[i].argv).exitCode == 0
    ensures !(env(i, steps[i].argv).Completed? && env(i, steps[i].argv).exitCode == 0) ==> r[0] == '✗'
    ensures '\n' !in steps[i].description ==> '\n' !in r
  {
    [Mark(ResultAt(steps, env, i).success)] + " " + steps[i].description
  }

  /** The events of step `i`: the progress report, when a callback is given,
      then the command. */
  function StepEvents(steps: seq<Step>, hasCallback: bool, i: nat): seq<Event>
    requires i < |steps|
  {
    (if hasCallback then [Progress(Percent(i, |steps|), steps[i].description)] else [])
    + [Ran(steps[i].argv)]
  }

  // ---------------------------------------------------------------------------
  // What the first n steps contribute
  // ---------------------------------------------------------------------------

  function EntriesUpTo(steps: seq<Step>, env: Environment, n: nat): seq<LogEntry>
    requires n <= |steps|
  {
    if n == 0 then [] else EntriesUpTo(steps, env, n - 1) + [EntryAt(steps, env, n - 1)]
  }

  function LinesUpTo(steps: seq<Step>, env: Environment, n: nat): seq<string>
    requires n <= |steps|
  {
    if n == 0 then [] else LinesUpTo(steps, env, n - 1) + [LineAt(steps, env, n - 1)]
  }

  function TraceUpTo(steps: seq<Step>, hasCallback: bool, n: nat): seq<Event>
    requires n <= |steps|
  {
    if n == 0 then [] else TraceUpTo(steps, hasCallback, n - 1) + StepEvents(steps, hasCallback, n - 1)
  }

  /** Step `i` extends the trace, the log records and the summary lines of the
      steps before it by its events, its record and its line. */
  lemma StepContributes(steps: seq<Step>, env: Environment, hasCallback: bool, i: nat)
    requires i < |steps|
    ensures TraceUpTo(steps, hasCallback, i + 1) == TraceUpTo(steps, hasCallback, i) + StepEvents(steps, hasCallback, i)
    ensures EntriesUpTo(steps, env, i + 1) == EntriesUpTo(steps, env, i) + [EntryAt(steps, env, i)]
    ensures LinesUpTo(steps, env, i + 1) == LinesUpTo(steps, env, i) + [LineAt(steps, env, i)]
  {
  }

  /** The records a run appends to the log. */
  function RunLog(steps: seq<Step>, env: Environment): seq<LogEntry>
  {
    EntriesUpTo(steps, env, |steps|)
  }

  /** The verdict lines of a run, one per step. */
  function RunLines(steps: seq<Step>, env: Environment): seq<string>
  {
    LinesUpTo(steps, env, |steps|)
  }

  /** The summary a run returns: its verdict lines joined by line breaks, empty
      exactly for an empty run. */
  function RunSummary(steps: seq<Step>, env: Environment): (r: string)
    ensures |steps| == 0 <==> r == ""
  {
    LinesUpToAt(steps, env, |steps|);
    Join("\n", RunLines(steps, env))
  }

  /** A non-empty run's summary begins with the first step's line and ends with
      the last step's. */
  lemma SummaryEnds(steps: seq<Step>, env: Environment)
    requires |steps| > 0
    ensures var first := LineAt(steps, env, 0);
      |first| <= |RunSummary(steps, env)| && RunSummary(steps, env)[..|first|] == first
    ensures var last := LineAt(steps, env, |steps| - 1);
      |last| <= |RunSummary(steps, env)| && RunSummary(steps, env)[|RunSummary(steps, env)| - |last|..] == last
  {
    LinesUpToAt(steps, env, |steps|);
    JoinEnds("\n", RunLines(steps, env));
  }

  /** The callback calls and command executions of a run, in order. */
  function RunTrace(steps: seq<Step>, hasCallback: bool): seq<Event>
  {
    TraceUpTo(steps, hasCallback, |steps|)
  }

  // ---------------------------------------------------------------------------
  // Properties of a run
  // ---------------------------------------------------------------------------

  /** The log gets exactly one record per step, in step order. */
  lemma {:induction false} EntriesUpToAt(steps: seq<Step>, env: Environment, n: nat)
    requires n <= |steps|
    ensures |EntriesUpTo(steps, env, n)| == n
    ensures forall i :: 0 <= i < n ==> EntriesUpTo(steps, env, n)[i] == EntryAt(steps, env, i)
  {
    if n > 0 {
      EntriesUpToAt(steps, env, n - 1);
      var prev := EntriesUpTo(steps, env, n - 1);
      assert EntriesUpTo(steps, env, n) == prev + [EntryAt(steps, env, n - 1)];
      forall i | 0 <= i < n
        ensures EntriesUpTo(steps, env, n)[i] == EntryAt(steps, env, i)
      {
        if i < n - 1 {
          assert EntriesUpTo(steps, env, n)[i] == prev[i];
        }
      }
    }
  }

  /** The summary has exactly one line per step, in step order. */
  lemma {:induction false} LinesUpToAt(steps: seq<Step>, env: Environment, n: nat)
    requires n <= |steps|
    ensures |LinesUpTo(steps, env, n)| == n
    ensures forall i :: 0 <= i < n ==> LinesUpTo(steps, env, n)[i] == LineAt(steps, env, i)
  {
    if n > 0 {
      LinesUpToAt(steps, env, n - 1);
    }
  }

  /** The record of each step holds the joined command, the step's label, the
      step's success (a zero exit status) and output of at most 203 characters;
      the step's summary line carries the mark of that same success flag. */
  lemma RunLogAt(steps: seq<Step>, env: Environment, i: nat)
    requires i < |steps|
    ensures |RunLog(steps, env)| == |steps| && |RunLines(steps, env)| == |steps|
    ensures RunLog(steps, env)[i].command == Join(" ", steps[i].argv)
    ensures RunLog(steps, env)[i].description == steps[i].description
    ensures RunLog(steps, env)[i].success <==> env(i, steps[i].argv).Completed? && env(i, steps[i].argv).exitCode == 0
    ensures |RunLog(steps, env)[i].output| <= MaxOutput + 3
    ensures RunLog(steps, env)[i].output == Truncate(RunCommand(env(i, steps[i].argv)).output)
    ensures RunLines(steps, env)[i] == [Mark(RunLog(steps, env)[i].success)] + " " + steps[i].description
  {
    EntriesUpToAt(steps, env, |steps|);
    LinesUpToAt(steps, env, |steps|);
  }

  /** With a callback, each step is one report followed by its command, the
      report carrying (i + 1) / n * 100 and the step's label; without one, the
      run is just the commands in order. */
  lemma {:induction false} TraceUpToAt(steps: seq<Step>, hasCallback: bool, n: nat)
    requires n <= |steps|
    ensures hasCallback ==> |TraceUpTo(steps, hasCallback, n)| == 2 * n
    ensures hasCallback ==> forall i :: 0 <= i < n ==>
      TraceUpTo(steps, hasCallback, n)[2 * i] == Progress(Percent(i, |steps|), steps[i].description) &&
      TraceUpTo(steps, hasCallback, n)[2 * i + 1] == Ran(steps[i].argv)
    ensures !hasCallback ==> |TraceUpTo(steps, hasCallback, n)| == n
    ensures !hasCallback ==> forall i :: 0 <= i < n ==> TraceUpTo(steps, hasCallback, n)[i] == Ran(steps[i].argv)
  {
    if n > 0 {
      TraceUpToAt(steps, hasCallback, n - 1);
    }
  }

  /** The callback call an event stands for, if it is a progress report. */
  function CallOf(e: Event): seq<(real, string)>
  {
    if e.Progress? then [(e.percent, e.description)] else []
  }

  /** The calls of the progress callback in a trace, in order. */
  function ProgressCalls(trace: seq<Event>): seq<(real, string)>
  {
    if |trace| == 0 then [] else CallOf(trace[0]) + ProgressCalls(trace[1..])
  }

  /** The calls of two traces one after the other are the calls of the first
      followed by those of the second. */
  lemma {:induction false} ProgressCallsAppend(a: seq<Event>, b: seq<Event>)
    ensures ProgressCalls(a + b) == ProgressCalls(a) + ProgressCalls(b)
  {
    if |a| == 0 {
      assert a + b == b;
    } else {
      assert (a + b)[0] == a[0];
      assert (a + b)[1..] == a[1..] + b;
      ProgressCallsAppend(a[1..], b);
    }
  }

  /** Step `i` calls the callback once, with its progress and label, when a
      callback is given, and otherwise not at all. */
  lemma StepCalls(steps: seq<Step>, hasCallback: bool, i: nat)
    requires i < |steps|
    ensures ProgressCalls(StepEvents(steps, hasCallback, i))
      == if hasCallback then [(Percent(i, |steps|), steps[i].description)] else []
  {
    var ran := [Ran(steps[i].argv)];
    assert ProgressCalls(ran) == [] by { assert ran[1..] == []; }
    if hasCallback {
      assert StepEvents(steps, hasCallback, i)[1..] == ran;
    } else {
      assert StepEvents(steps, hasCallback, i) == ran;
    }
  }

  /** `calls` are the reports of the first n steps: (i + 1) / N * 100 and the
      label of step i, for each i in turn. */
  ghost predicate ReportsOf(calls: seq<(real, string)>, steps: seq<Step>, n: nat)
    requires n <= |steps|
  {
    |calls| == n && forall i :: 0 <= i < n ==> calls[i] == (Percent(i, |steps|), steps[i].description)
  }

  lemma ReportsSnoc(calls: seq<(real, string)>, steps: seq<Step>, n: nat)
    requires n < |steps| && ReportsOf(calls, steps, n)
    ensures ReportsOf(calls + [(Percent(n, |steps|), steps[n].description)], steps, n + 1)
  {
    var next := calls + [(Percent(n, |steps|), steps[n].description)];
    forall i | 0 <= i < n + 1
      ensures next[i] == (Percent(i, |steps|), steps[i].description)
    {
      if i < n {
        assert next[i] == calls[i];
      }
    }
  }

  /** Step n - 1 adds its own calls, and only those, to the calls of the
      steps before it. */
  lemma ProgressCallsSnoc(steps: seq<Step>, hasCallback: bool, n: nat)
    requires 0 < n <= |steps|
    ensures ProgressCalls(TraceUpTo(steps, hasCallback, n))
      == ProgressCalls(TraceUpTo(steps, hasCallback, n - 1))
         + if hasCallback then [(Percent(n - 1, |steps|), steps[n - 1].description)] else []
  {
    var before := TraceUpTo(steps, hasCallback, n - 1);
    var events := StepEvents(steps, hasCallback, n - 1);
    assert TraceUpTo(steps, hasCallback, n) == before + events;
    ProgressCallsAppend(before, events);
    StepCalls(steps, hasCallback, n - 1);
  }

  /** After n steps the callback has been called once per step with
      (i + 1) / N * 100 and the step's label, or never without a callback. */
  lemma {:induction false} ProgressCallsUpTo(steps: seq<Step>, hasCallback: bool, n: nat)
    requires n <= |steps|
    ensures hasCallback ==> ReportsOf(ProgressCalls(TraceUpTo(steps, hasCallback, n)), steps, n)
    ensures !hasCallback ==> ProgressCalls(TraceUpTo(steps, hasCallback, n)) == []
  {
    if n > 0 {
      ProgressCallsUpTo(steps, hasCallback, n - 1);
      ProgressCallsSnoc(steps, hasCallback, n);
      if hasCallback {
        ReportsSnoc(ProgressCalls(TraceUpTo(steps, hasCallback, n - 1)), steps, n - 1);
      }
    }
  }

  /** The progress callback, when given, is called exactly once per step, with
      (i + 1) / N * 100 and the step's label; the values strictly increase and
      the last is exactly 100. Without a callback there are no calls. */
  lemma ProgressReports(steps: seq<Step>, hasCallback: bool)
    ensures hasCallback ==> |ProgressCalls(RunTrace(steps, hasCallback))| == |steps|
    ensures hasCallback ==> forall i :: 0 <= i < |steps| ==>
      ProgressCalls(RunTrace(steps, hasCallback))[i] == (Percent(i, |steps|), steps[i].description)
    ensures hasCallback ==> forall i, j :: 0 <= i < j < |steps| ==>
      ProgressCalls(RunTrace(steps, hasCallback))[i].0 < ProgressCalls(RunTrace(steps, hasCallback))[j].0
    ensures hasCallback && |steps| > 0 ==> ProgressCalls(RunTrace(steps, hasCallback))[|steps| - 1].0 == 100.0
    ensures !hasCallback ==> ProgressCalls(RunTrace(steps, hasCallback)) == []
  {
    ProgressCallsUpTo(steps, hasCallback, |steps|);
    forall i, j | 0 <= i < j < |steps|
      ensures Percent(i, |steps|) < Percent(j, |steps|)
    {
      PercentIncreasing(i, j, |steps|);
    }
  }

  /** Splitting the summary at its line breaks gives back one verdict line per
      step, provided no label contains a line break. */
  lemma SummaryLines(steps: seq<Step>, env: Environment)
    requires forall i :: 0 <= i < |steps| ==> '\n' !in steps[i].description
    ensures |steps| > 0 ==> Split(RunSummary(steps, env), '\n') == RunLines(steps, env)
    ensures |steps| == 0 ==> RunSummary(steps, env) == ""
  {
    var lines := RunLines(steps, env);
    LinesUpToAt(steps, env, |steps|);
    forall i | 0 <= i < |lines| ensures '\n' !in lines[i] {
      assert lines[i] == [Mark(ResultAt(steps, env, i).success)] + " " + steps[i].description;
    }
    SplitJoin(lines, '\n');
  }

  /** An empty step list reports nothing, runs nothing, logs nothing and
      summarises to the empty string. */
  lemma EmptyRun(env: Environment, hasCallback: bool)
    ensures RunTrace([], hasCallback) == [] && RunLog([], env) == [] && RunSummary([], env) == ""
  {
  }

  lemma AppendAssociative<T>(a: seq<T>, b: seq<T>, c: seq<T>)
    ensures (a + b) + c == a + (b + c)
  {
  }

  /** One pass of the runner's loop: report progress if a callback is given,
      run the command, and build the step's log record and summary line. */
  method RunStep(steps: seq<Step>, hasCallback: bool, env: Environment, i: nat)
    returns (events: seq<Event>, entry: LogEntry, line: string)
    requires i < |steps|
    ensures events == StepEvents(steps, hasCallback, i)
    ensures entry == EntryAt(steps, env, i)
    ensures line == LineAt(steps, env, i)
  {
    var command, description := steps[i].argv, steps[i].description;
    events := [];
    if hasCallback {
      var progress := Percent(i, |steps|);
      events := [Progress(progress, description)];
    }
    var res := RunCommand(env(i, command));
    events := events + [Ran(command)];
    entry := LogEntry(Join(" ", command), description, res.success, Truncate(res.output));
    line := [Mark(res.success)] + " " + description;
  }

  // ---------------------------------------------------------------------------
  // The object
  // ---------------------------------------------------------------------------

  class MaintenanceOperations {
    const sm: SystemManager
    var operationsLog: seq<LogEntry>

    constructor (sm: SystemManager)
      ensures this.sm == sm && operationsLog == []
    {
      this.sm := sm;
      operationsLog := [];
    }

    /** `_execute_operations`: every step runs, whatever the earlier ones did;
        the log grows by one record per step and keeps what it had; the overall
        result is always true. `trace` records the callback calls and command
        runs, and has no callback calls when `hasCallback` is false. */
    method ExecuteOperations(operations: seq<Step>, hasCallback: bool, env: Environment)
      returns (ok: bool, summary: string, trace: seq<Event>)
      modifies this
      ensures ok
      ensures operationsLog == old(operationsLog) + RunLog(operations, env)
      ensures summary == RunSummary(operations, env)
      ensures trace == RunTrace(operations, hasCallback)
    {
      ghost var log0 := operationsLog;
      var results: seq<string> := [];
      var totalOps := |operations|;
      trace := [];
      var i := 0;
      while i < totalOps
        invariant 0 <= i <= totalOps
        invariant operationsLog == log0 + EntriesUpTo(operations, env, i)
        invariant results == LinesUpTo(operations, env, i)
        invariant trace == TraceUpTo(operations, hasCallback, i)
      {
        var events, entry, line := RunStep(operations, hasCallback, env, i);
        StepContributes(operations, env, hasCallback, i);
        AppendAssociative(log0, EntriesUpTo(operations, env, i), [entry]);
        trace := trace + events;
        operationsLog := operationsLog + [entry];
        results := results + [line];
        i := i + 1;
      }
      return true, Join("\n", results), trace;
    }

    /** `update_system`: the update steps of the selected package manager. */
    method UpdateSystem(hasCallback: bool, env: Environment) returns (ok: bool, summary: string, trace: seq<Event>)
      modifies this
      ensures ok
      ensures operationsLog == old(operationsLog) + RunLog(UpdateSteps(sm.packageManager), env)
      ensures summary == RunSummary(UpdateSteps(sm.packageManager), env)
      ensures trace == RunTrace(UpdateSteps(sm.packageManager), hasCallback)
    {
      ok, summary, trace := ExecuteOperations(UpdateSteps(sm.packageManager), hasCallback, env);
    }

    /** `fix_system`: the manager's repairs, then the common fixes. */
    method FixSystem(hasCallback: bool, env: Environment) returns (ok: bool, summary: string, trace: seq<Event>)
      modifies this
      ensures ok
      ensures operationsLog == old(operationsLog) + RunLog(FixSteps(sm.packageManager), env)
      ensures summary == RunSummary(FixSteps(sm.packageManager), env)
      ensures trace == RunTrace(FixSteps(sm.packageManager), hasCallback)
    {
      ok, summary, trace := ExecuteOperations(FixSteps(sm.packageManager), hasCallback, env);
    }

    /** `auto_remove_unused`: the manager's package cleanup, then the
        file-system cleanup. */
    method AutoRemoveUnused(hasCallback: bool, env: Environment) returns (ok: bool, summary: string, trace: seq<Event>)
      modifies this
      ensures ok
      ensures operationsLog == old(operationsLog) + RunLog(AutoRemoveSteps(sm.packageManager), env)
      ensures summary == RunSummary(AutoRemoveSteps(sm.packageManager), env)
      ensures trace == RunTrace(AutoRemoveSteps(sm.packageManager), hasCallback)
    {
      ok, summary, trace := ExecuteOperations(AutoRemoveSteps(sm.packageManager), hasCallback, env);
    }

    /** `boost_system`: the same ten tuning steps whatever the manager. */
    method BoostSystem(hasCallback: bool, env: Environment) returns (ok: bool, summary: string, trace: seq<Event>)
      modifies this
      ensures ok
      ensures operationsLog == old(operationsLog) + RunLog(BoostSteps(), env)
      ensures summary == RunSummary(BoostSteps(), env)
      ensures trace == RunTrace(BoostSteps(), hasCallback)
    {
      ok, summary, trace := ExecuteOperations(BoostSteps(), hasCallback, env);
    }
  }
}
