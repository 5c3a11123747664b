# LTool maintenance back end, modelled in Dafny

LTool is a Linux maintenance tool with a desktop front end. Behind the window
sits a small back end in `LTool.py`, and this project models that back end:

- **Distribution detection** (`SystemManager.detect_distro`). The lower-cased
  text of `/etc/os-release` is searched for ubuntu, debian, fedora, centos,
  arch and opensuse, in that order. If none matches, three marker files are
  checked. A read error gives `unknown` straight away.
- **Package-manager selection** (`get_package_manager`). It picks the first
  entry of the distribution's row in `supported_distros` whose command exists.
  The default is `apt`.
- **Command-result mapping** (`run_command`). The way a process ended becomes
  a `(success, output)` pair.
- **Maintenance operations** (`MaintenanceOperations`). There are four step
  catalogs chosen by the package manager: update, fix, cleanup and boost.
  The runner `_execute_operations` executes every step in order. Before each
  step it reports progress. After each step it appends one record to the
  object's `operations_log` and one ✓/✗ line to the summary. Its overall
  result is always `True`.

Modules:

- `text.dfy` (`Text`): the Python string operations the code uses, namely
  substring `in`, ASCII `lower` and `join`, and the first-match search.
  `LTool.py` never calls `split`. `Split` is defined only to state that the
  summary can be split back into its lines.
- `system_manager.dfy` (`SystemManagement`): detection, the
  `supported_distros` table, manager selection, the `run_command` mapping and
  the `SystemManager` class.
- `catalog.dfy` (`Catalog`): the four step lists and facts about them.
- `operations.dfy` (`Maintenance`): log records, the progress and command
  trace, the functions that specify a run, the lemmas about a run, and the
  `MaintenanceOperations` class.

The host is abstracted as follows:

- The file system is an `OsRelease` value: `Missing`, `Unreadable` or
  `Readable(content)`. The three marker files are a `Markers` value of three
  booleans.
- `which <name>` succeeding is a predicate `commandExists`.
- Running a step is an `Environment`. It gives the `ProcessOutcome` of the
  i-th step of a run from the step's index and argument vector. The outcome
  is one of: completed with an exit code, stdout and stderr; timed out; or
  some other error with its message.
- The optional progress callback is a flag `hasCallback`. Each run method
  returns the run's `trace`: callback reports and command executions, in the
  order they happen.

Three facts about the code that the model keeps:

- The common fixes of `fix_system` are four steps: journal vacuum, systemd
  reload, `ldconfig` and `updatedb`.
- `get_package_manager` can return `apt-get` as well as `apt`.
- `zypper` has no update steps at all.

## Model

| member | source | states |
|---|---|---|
| `Text.FirstIndex` | LTool.py:99-101 | the index returned is the first element satisfying the predicate (every earlier one fails it); `None` exactly when no element satisfies it |
| `Text.Contains` | LTool.py:70-81 | the substring test used by detection holds exactly when the pattern occurs at some position of the text |
| `Text.Lower` | LTool.py:69 | lower-casing keeps the length, folds each upper-case ASCII letter to its lower-case counterpart, leaves every other character unchanged, and so leaves no upper-case ASCII letter |
| `Text.LowerIdempotent` | LTool.py:69 | lower-casing twice is the same as lower-casing once |
| `Text.Join` | LTool.py:300 | the join of no parts is empty; otherwise its length is the parts' total length plus one separator between each two neighbours |
| `Text.JoinEnds` | LTool.py:312 | a join begins with its first part and ends with its last |
| `Text.SplitJoin` | LTool.py:312 | splitting a join on its one-character separator gives back the parts when no part contains the separator (`[""]` for no parts) |
| `SystemManagement.MarkerDistro` | LTool.py:84-91 | the fallback is debian iff `debian_version` exists, fedora iff only `redhat-release` of the first two exists, arch iff only `arch-release` exists, otherwise unknown |
| `SystemManagement.DetectDistro` | LTool.py:63-94 | the result is always one of the seven distribution names; an unreadable os-release gives unknown whatever the markers say; a missing one gives the marker fallback |
| `SystemManagement.DetectIsFirstMatch` | LTool.py:67-91 | detection on readable text equals the first name of the priority list that occurs in the lower-cased text, or the marker fallback when none occurs |
| `SystemManagement.ReleaseMatchWins` | LTool.py:67-81 | a priority name that occurs, with no earlier one occurring, is the result, whatever the markers say |
| `SystemManagement.UbuntuBeforeDebian` | LTool.py:70-73 | text that mentions both ubuntu and debian is classified as ubuntu |
| `SystemManagement.NoReleaseMatchFallsBack` | LTool.py:67-91 | readable text in which no priority name occurs gives the marker fallback |
| `SystemManagement.DetectIgnoresCase` | LTool.py:69 | detection gives the same result for the text and its lower-cased form |
| `SystemManagement.TableManagersKnown` | LTool.py:51-58 | every manager listed in `supported_distros` is one of apt, apt-get, dnf, yum, pacman, zypper |
| `SystemManagement.GetPackageManager` | LTool.py:96-102 | the result is one of the six managers; it is the first listed manager of the distribution that exists; it is apt when the distribution is not in the table or none of its managers exists |
| `SystemManagement.SelectedManagerExists` | LTool.py:98-101 | any result other than apt comes from the distribution's own row and names an existing command |
| `SystemManagement.RunCommand` | LTool.py:112-129 | success exactly for a zero exit status, then with stdout followed by stderr; on timeout "Command timed out"; on a non-zero exit "Command failed: " and stderr; on any other error "Error: " and the message |
| `SystemManagement.SystemManager.constructor` | LTool.py:50-60 | the object's distribution is the detected one and its package manager is the one selected for it |
| `Catalog.UpdateSteps` | LTool.py:171-197 | every command starts with sudo; the list is empty exactly for a manager other than apt, apt-get, dnf, yum and pacman |
| `Catalog.FixSteps` | LTool.py:199-233 | every command starts with sudo; the list always ends with the four common fixes; it is only those four exactly for a manager without its own repairs |
| `Catalog.AutoRemoveSteps` | LTool.py:235-267 | every command starts with sudo; the list always ends with the five file-system cleanup steps; it is only those five exactly for a manager without its own cleanup |
| `Catalog.BoostSteps` | LTool.py:269-284 | every command starts with sudo, and the list takes no package-manager parameter at all |
| `Catalog.BoostStepsOrder` | LTool.py:270-281 | the boost list has ten steps and ends with `sync` followed by `sysctl -p` |
| `Catalog.ManagerAliases` | LTool.py:175-255 | yum gets the same update, fix and cleanup lists as dnf, and apt-get the same as apt |
| `Catalog.ZypperHasNoManagerSteps` | LTool.py:171-267 | for zypper the update list is empty and fix and cleanup are only their common tails |
| `Catalog.PacmanCleanupOrder` | LTool.py:251-266 | cleanup on pacman is the orphan removal and the cache clean, then the five file-system steps: seven steps in that order |
| `Maintenance.Truncate` | LTool.py:303 | stored output is at most 203 characters: the output itself when it has at most 200, otherwise its first 200 characters followed by "..." |
| `Maintenance.Percent` | LTool.py:293 | the reported progress lies in (0, 100] and is exactly 100 for the last step |
| `Maintenance.PercentIncreasing` | LTool.py:293 | a later step reports strictly more progress than an earlier one |
| `Maintenance.Mark` | LTool.py:307 | the mark is a single character other than a line break; it is ✓ exactly for success and ✗ for a failure |
| `Maintenance.EntryAt` | LTool.py:298-304 | a step's record holds its space-joined command and its label, success exactly on a zero exit status, and output of at most 203 characters that is always the `run_command` output truncated (the stdout and stderr for a success); a timed-out step is a failure whose output is "Command timed out" |
| `Maintenance.LineAt` | LTool.py:307 | a step's summary line is one mark character, a space and the label; the mark is ✓ exactly on a zero exit status and ✗ otherwise; the line holds no line break when the label holds none |
| `Maintenance.RunSummary` | LTool.py:312 | the summary is empty exactly for an empty run |
| `Maintenance.SummaryEnds` | LTool.py:307-312 | a non-empty run's summary begins with the first step's line and ends with the last step's |
| `Maintenance.EntriesUpToAt` | LTool.py:291-306 | after n steps the log has gained exactly n records, the i-th being the record of step i |
| `Maintenance.LinesUpToAt` | LTool.py:291-307 | after n steps there are exactly n summary lines, the i-th being the line of step i |
| `Maintenance.RunLogAt` | LTool.py:298-307 | each step's record holds the space-joined command, the step's label, success exactly on a zero exit, and output of at most 203 characters that is the `run_command` output of that step, truncated; the step's summary line is the ✓/✗ mark of that flag, a space and the label |
| `Maintenance.TraceUpToAt` | LTool.py:291-296 | with a callback, step i is one progress report of (i+1)/N*100 with its label immediately followed by running its command; without one, the run is only the commands in order |
| `Maintenance.ProgressCallsAppend` | LTool.py:291-294 | the callback calls of two traces run one after the other are the calls of the first followed by those of the second |
| `Maintenance.StepCalls` | LTool.py:292-294 | one step calls the callback exactly once, with its progress and label, when a callback is given, and not at all otherwise |
| `Maintenance.ProgressCallsSnoc` | LTool.py:291-294 | step n adds exactly its own callback call, (n/N*100, label), to the calls of the steps before it when a callback is given, and adds none otherwise |
| `Maintenance.ProgressCallsUpTo` | LTool.py:291-294 | after n steps with a callback it has been called n times, the i-th time with (i+1)/N*100 and the label of step i; without one, never |
| `Maintenance.ProgressReports` | LTool.py:289-294 | with a callback it is called exactly once per step, the i-th time with (i+1)/N*100 and step i's label; the values strictly increase and the last is exactly 100; without a callback there are no calls |
| `Maintenance.SummaryLines` | LTool.py:312 | when no label contains a line break, splitting the summary on line breaks gives back exactly the N verdict lines; an empty run summarises to "" |
| `Maintenance.EmptyRun` | LTool.py:289-312 | an empty step list makes no report, runs nothing, logs nothing and returns the empty summary |
| `Maintenance.RunStep` | LTool.py:291-307 | one pass of the loop yields exactly the step's events, its log record and its summary line |
| `Maintenance.MaintenanceOperations.constructor` | LTool.py:167-169 | a new object holds its manager and an empty log |
| `Maintenance.MaintenanceOperations.ExecuteOperations` | LTool.py:286-312 | the result is always true; the log becomes the old log followed by one record per step, in order; the summary is the run's verdict lines joined by line breaks; the trace is the run's reports and commands |
| `Maintenance.MaintenanceOperations.UpdateSystem` | LTool.py:171-197 | runs the update list of the object's package manager, with the runner's guarantees |
| `Maintenance.MaintenanceOperations.FixSystem` | LTool.py:199-233 | runs the fix list of the object's package manager, with the runner's guarantees |
| `Maintenance.MaintenanceOperations.AutoRemoveUnused` | LTool.py:235-267 | runs the cleanup list of the object's package manager, with the runner's guarantees |
| `Maintenance.MaintenanceOperations.BoostSystem` | LTool.py:269-284 | runs the ten boost steps, with the runner's guarantees |

## Left out

- The desktop front end, `SystemManagerGUI` (LTool.py:314-527): widgets, message boxes, the root-privilege check and the one thread per button click. It is presentation and concurrency.
- `get_system_info` (LTool.py:131-162): it only copies shell output into strings.
- GetPackageManager: `command_exists` (LTool.py:104-110) catches only `CalledProcessError`. When `which` itself is missing, the `FileNotFoundError` escapes `get_package_manager` (LTool.py:100) and `SystemManager.__init__` (LTool.py:60), up to LTool.py:324. `commandExists` is a total predicate, so `GetPackageManager` always returns and this exception is not modelled.
- Process execution, `which` and the 300-second timeout: they are replaced by the `Environment` outcome function and the `commandExists` predicate.
- Logging setup, `logger` calls and the timestamp of each log record (LTool.py:27-35, 299): they are side effects and wall-clock time. `LogEntry` has no timestamp field.
- Floating-point rounding of the progress value: `Percent` is the exact real (i+1)/N*100.
- Unicode lower-casing: `Lower` folds only the ASCII letters A-Z.
- The token `$(pacman -Qtdq)` is kept as plain text. No shell expands it, because commands are passed as argument vectors.
- Line-break-free labels: the catalog functions do not state that their labels contain no line break. `Maintenance.SummaryLines` therefore takes that as a precondition. Checking it for the long literal lists is too costly for the verifier.
- The progress callback is modelled by a flag and the recorded trace, not as a function the runner calls. What the callback does with each report is outside the model.
