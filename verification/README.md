# process-manager: worker command lines and the output pump

`process-manager` is a small supervisor that starts `count` Laravel queue
workers (`php artisan queue:listen`, optionally behind the `herd` shim),
prefixes each worker's output lines with its number, and on Ctrl-C cancels a
shared token so that every pump still reading kills its child and exits (a
pump whose stream had already ended has left its loop by then).

This project models the two pieces of `src/main.rs` that are deterministic
once the async runtime is set aside:

- **The command line** (`Invocation`): from the flags `no_herd`, `timeout`
  and `verbose`, the program (`herd` or `php`) and the ordered argument
  vector, including the decimal rendering of the `u64` timeout (`Decimal`).
  Its inverse is a decoder, `Invocation.Decode`, proved to undo
  `Invocation.Build` in both directions.
- **The launch loop** (`Workers`): workers numbered `1..=count`, all with the
  same command line.
- **The output pump** (`OutputPump`): the per-worker loop, with the
  `select!` race replaced by a given trace of events (`Line(s)`, `Eof`,
  `ReadErr`, `Cancel`), each being the branch the race took on one turn. The
  state machine (`Reading`, then `Terminated`) is folded over the trace by
  `OutputPump.Run`. It is proved equal, on every trace, to an independent
  description by position in the trace (`OutputPump.Expected`: the lines
  before the first exit event, then the closing lines).
  Printed lines are kept as typed records (`Header`, `Echo`, `ShutdownNotice`,
  `CleanedUp`) and rendered to console text with the `[i] ` prefix by
  `OutputPump.Console`.
- **Scenarios** (`Scenarios`): one worked run of a worker whose stream yields
  empty and non-empty lines.

`Text` holds the space join used by the header line, with a split that
undoes it, so the header is shown to name the exact command launched.

## Behaviour worth knowing

- Every line the pump reads before it leaves its loop is echoed verbatim,
  empty lines included
  (`Scenarios.EmptyLinesAreEchoed`).
- The prefix is the worker number in brackets, `[1] `
  (`Scenarios.PlainPrefix`).
- `count` defaults to 2 and may be 0, which launches no worker.
- A child that prints the line `Cleaned up.` produces console text identical
  to the pump's own cleanup line; the typed record (`Echo` versus
  `CleanedUp`) keeps them apart in the model.

## Model

| member | source | states |
|---|---|---|
| Decimal.FromNat | src/main.rs:39 | the timeout is rendered as a canonical decimal: digits only, non-empty, no leading zero except for 0, a single digit exactly below 10 |
| Decimal.ToNatFromNat | src/main.rs:39 | reading a rendered number back gives the number |
| Decimal.FromNatToNat | src/main.rs:39 | every canonical digit string is the rendering of its value, so rendering is onto the canonical strings |
| Decimal.FromNatInjective | src/main.rs:39 | distinct timeouts render to distinct strings |
| Invocation.Build | src/main.rs:31-44 | with `no_herd` the program is `php` and the args begin `artisan queue:listen`, otherwise `herd` with `php artisan queue:listen`; the argument count is 2 or 3, plus 2 for a non-60 timeout, plus 1 for verbose |
| Invocation.HerdWrapsDirect | src/main.rs:31-35 | the herd arguments are `php` followed by exactly the direct arguments, so the trailing arguments agree in both modes |
| Invocation.DefaultCommand | src/main.rs:31-44 | with default flags every worker runs `herd php artisan queue:listen` |
| Invocation.TimeoutFlag | src/main.rs:37-40 | `--timeout` occurs iff the timeout is not 60, and then sits right after the base arguments followed by the decimal timeout; at 60 no numeric token occurs |
| Invocation.VerboseFlag | src/main.rs:42-44 | `-v` occurs iff verbose is set, and then it is the last argument, after any timeout pair |
| Invocation.DecodeBuild | src/main.rs:31-44 | decoding a built command line recovers the flags it was built from |
| Invocation.BuildDecode | src/main.rs:31-44 | every command line the decoder accepts is the one built from the decoded flags |
| Invocation.BuildInjective | src/main.rs:31-44 | different flag settings never yield the same command line |
| Invocation.BuildSplittable | src/main.rs:61 | every argument is non-empty and space-free, so splitting the header text `program args...` on spaces gives back the program and the arguments |
| Text.Join | src/main.rs:61 | the tokens with one separator between neighbours: "" for no token, the token itself for one; splitting undoes it (`Text.SplitJoin`) |
| Text.SplitJoin | src/main.rs:61 | joining a non-empty list of non-empty, space-free tokens with spaces and splitting again gives the tokens back |
| Workers.Plan | src/main.rs:30-47 | exactly `count` workers, the k-th numbered k+1, each with the command line built from the flags |
| Workers.IdsAreRange | src/main.rs:30 | the worker numbers are exactly `1..=count`, pairwise distinct; `count = 0` gives no worker |
| OutputPump.Step | src/main.rs:63-81 | a line keeps the pump reading; end of stream, a read error or shutdown ends it with the matching exit; nothing printed is taken back; a terminated pump is not changed |
| OutputPump.Run | src/main.rs:63-81 | running the loop over any trace only appends to what was printed |
| OutputPump.Pump | src/main.rs:61 | the first printed line is the header naming the program and its arguments |
| OutputPump.FirstExit | src/main.rs:66-79 | locates the first turn that leaves the loop: every earlier turn delivered a line |
| OutputPump.RunLines | src/main.rs:66-68 | while only lines arrive, the pump echoes each one in order and keeps reading without a kill |
| OutputPump.RunToExit | src/main.rs:63-82 | the pump echoes the lines before the first exit event, then prints the shutdown notice (on cancel only) and `Cleaned up.`, and requests a kill exactly on cancel |
| OutputPump.RunTerminated | src/main.rs:69-78 | after the loop has been left, later events change nothing |
| OutputPump.PumpMatchesReference | src/main.rs:61-82 | the folded loop equals the position-based description on every trace |
| OutputPump.HeaderFirstCleanupLast | src/main.rs:61-82 | the header is the first line; the pump terminates iff the trace holds an exit event; then `Cleaned up.` is the last line and printed exactly once; while reading it is not printed |
| OutputPump.KillExactlyOnCancel | src/main.rs:69-78 | a kill is requested iff the loop left through the shutdown branch, never on end of stream or read error; the shutdown notice is printed iff a kill is requested |
| OutputPump.LinesInOrder | src/main.rs:66-68 | the j-th line event before any exit is printed, verbatim, as the (j+1)-th output, right after the header |
| OutputPump.IgnoredAfterExit | src/main.rs:69-78 | events after the first exit event are never observed: the result equals that of the trace cut after it |
| OutputPump.FirstExitPrefix | src/main.rs:69-78 | cutting a trace after its first exit event keeps that event first |
| OutputPump.RunAppend | src/main.rs:63-81 | running on a concatenated trace is running on the first part then on the second |
| OutputPump.OutputIsStreamed | src/main.rs:63-81 | what a pump printed for a trace is a prefix of what it prints for any extension of that trace |
| OutputPump.CancelTerminates | src/main.rs:74-78 | a shutdown turn always ends the loop, and kills the child whenever the stream had not ended before |
| OutputPump.Console | src/main.rs:61-82 | renders each printed record as one console line `[i] ...` in printing order: one line per record, the first being `[i] program args` |
| OutputPump.ConsolePrefixed | src/main.rs:61-82 | every console line of worker `i` starts with its `[i] ` prefix |
| OutputPump.ConsoleText | src/main.rs:61-82 | as text: `[i] program args`, then `[i] <line>` for each line in order, then `[i] Received shutdown signal...` on cancel, then `[i] Cleaned up.` |
| Scenarios.EmptyLinesArePrinted | src/main.rs:66-70 | a stream yielding "", "hello", "", "world" then closing prints all four lines and ends without a kill |
| Scenarios.PlainPrefix | src/main.rs:68 | worker 1's prefix is `[1] ` |
| Scenarios.EmptyLinesAreEchoed | src/main.rs:68 | the two empty lines of that run appear as bare `[1] ` lines in their places |

## Left out

- Argument parsing with clap (src/main.rs:8-26): the parsed values are taken as inputs (`Invocation.Args`); `u32` and `u64` ranges are kept as subset types.
- Process spawning, `kill_on_drop`, stdout piping and stderr inheritance (src/main.rs:46-56), and the panic when spawning fails: operating-system calls. The kill is recorded as a request (`killRequested`); its result is discarded in the source, so failure is not modelled.
- `tokio::spawn` and the `select!` race (src/main.rs:60-64): the race is an arbitrary given trace of events. A trace that ends without an exit event stands for a pump still waiting; that the real stream or the cancellation eventually fires is not modelled.
- `signal::ctrl_c`, the `Shutdown signal received` notice, `token.cancel()` and the join loop (src/main.rs:88-97): signal handling and concurrency with no computed result beyond all handles being joined. Because the token is sticky, each worker's trace is free to end with `Cancel`; `OutputPump.CancelTerminates` covers that case.
- Interleaving of console lines across workers: no cross-worker order is promised, and modelling it would be concurrency. Each worker's lines are modelled on their own.
- OutputPump.KillExactlyOnCancel: `killRequested` records only the explicit `child.kill()` of src/main.rs:77. The child is moved into the pump task with `kill_on_drop(true)` (src/main.rs:50), so when the task ends after `Cleaned up.` a child still running is killed on every path, including end of stream and read error; that kill on drop is not modelled.
- OutputPump.HeaderFirstCleanupLast: console writes are assumed to succeed. `println!` at src/main.rs:61, 68, 75 and 82 panics when stdout cannot be written (a closed pipe, say), and the task then ends without `Cleaned up.` and without the explicit kill; that path is not modelled.
