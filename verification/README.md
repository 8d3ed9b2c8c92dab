# trayme, modelled in Dafny

trayme runs a command-line program in the background and keeps one system-tray icon for it. The icon's menu has two items, "Kill" and "Show Logs". The program notifies the user when the child starts and when it exits. This project models the logic in `src/main.rs` and proves properties about it:

- **Tray messages** (`tray_message.dfy`, module `TrayMessages`). This is the closed `TrayMessage` enum with its `Display` labels and its strict `FromStr` decoder. It also builds the menu from the variants in order. Each item's id is the variant's `to_string`, which is how the tray library converts a value into a menu id.
- **One tick** (`supervision.dfy`, module `Supervision`). This is `run_event_loop` as a pure function. The `try_wait`, `kill` and logs-directory calls become inputs (a `Probe`). The menu channel is a queue of ids. The tick returns `Ok(Poll)`, `Ok(Exit)` or `Err`, the effects it caused (notify, kill, open logs) and the queue left after it.
- **The event-loop closure** (`event_loop.dfy`, module `EventLoop`). The closure does nothing once the control flow is `Exit`. `Ok(cf)` sets the control flow. `Err` takes the tray (a `ReleaseTray` effect) and forces `Exit`.
- **Runs** (`runs.dfy`, module `Runs`). The closure is folded over a sequence of moments. In each moment, new menu ids may arrive and the OS calls have given outcomes. The lemmas here cover whole runs: `Exit` is absorbing, there is at most one kill and at most one exit notification, and the tray is released at most once. They also cover the normal-exit and Kill scenarios.
- **Spawning** (`spawn.dfy`, module `Spawn`). This is `spawn_process`. The program is `cmd[0]` and the arguments are `cmd[1..]`. The log file is named `{program}_{timestamp}.log`, and it can be read back to recover the program name. Each failing call gives its own error, in call order.
- **Start-up** (`startup.dfy`, module `Startup`, with `strings.dfy`, module `Strings`). This is `main` up to the event loop. The command line is the words joined by single spaces. It serves as the tray tooltip and as the body of the "Process started!" notification. When no word contains a space, splitting the line gives the command back.

## Behaviour worth knowing

- An unknown menu id is an `Err`. It is logged and ends supervision: the closure releases the tray and exits. It is not dropped with polling continuing.
- A logs directory that cannot be found or opened is an `Err` too, so "Show Logs" failing ends supervision.
- A failed kill is an `Err`. The loop still ends, with the tray released.
- A normal exit and a successful kill return `Ok(Exit)` without taking the tray. Only the error path takes it.
- Menu ids still queued after `Exit` are never consumed, because the guard returns before the channel is read.
- An `Err` ends supervision. A kill is attempted only when the `Err` is that kill failing; after any other error, no kill is attempted and the child is left running (`EventLoop.ErrorStopsSupervising`).
- The kill and open-logs effects record attempts. A failed kill is still recorded, and so is an opening of the logs directory when the directory cannot be found and the opener is never called.

## Model

| member | source | states |
|---|---|---|
| TrayMessages.Display | src/main.rs:40-47 | Each variant renders as a non-empty label. That the label decodes back to the variant is `DecodeDisplay`'s contract, and that the labels differ is `DisplayInjective`'s. |
| TrayMessages.FromStr | src/main.rs:49-59 | A string decodes exactly when it is the label of a variant, and then to that variant. Every other string is `VariantNotFound`, never a default variant. |
| TrayMessages.DecodeDisplay | src/main.rs:40-59 | Decoding a variant's label gives back that variant (the encode–decode round trip). |
| TrayMessages.DisplayInjective | src/main.rs:40-47 | The labels "Kill" and "Show Logs" are distinct, so rendering is injective. |
| TrayMessages.VariantsEnumerate | src/main.rs:34-38 | The variant list names every variant exactly once. |
| TrayMessages.BuildTrayMenu | src/main.rs:61-72 | The menu has one enabled item per variant, in variant order, labelled by `Display`. The ids are pairwise distinct, and each decodes back to its own item's variant. |
| Supervision.ExitNotice | src/main.rs:96 | The exit notification is titled "Process exited", and its body ends with the exit status text. |
| Supervision.Tick | src/main.rs:86-118 | The exit check has priority. A query error is `Err` with no effect and no event consumed. An exited child gives exactly one "Process exited" notification carrying its status, then `Ok(Exit)`, with no event consumed. A tick consumes at most one event and causes at most one effect. A kill happens iff "Kill" was clicked, and the logs are opened iff "Show Logs" was. `Ok(Exit)` comes iff the child exited or a requested kill succeeded. `Ok(Poll)` comes iff the child runs and nothing was pending, or the logs opened. An undecodable id is an effect-free `Err`. |
| EventLoop.Step | src/main.rs:230-245 | After `Exit` a call is a no-op: same state, no effect, no event consumed. `Ok(cf)` sets the control flow and leaves the tray alone. `Err` releases the tray and forces `Exit`. A call has at most one terminal effect (kill or exit notification) and at most one release, and either ends the loop. The tray is never regained, and "polling implies the tray is owned" is preserved. |
| EventLoop.ErrorStopsSupervising | src/main.rs:237-243 | A failed tick ends in `Exit` with the tray released last. A kill was attempted only when the error is that kill failing. |
| Runs.Run | src/main.rs:230-245 | Over a run, `Exit` is never left, the tray is never regained, and the ownership invariant is kept. |
| Runs.RunAppend | src/main.rs:230-245 | Running two stretches of moments in sequence is the same as running their concatenation. |
| Runs.ExitIsAbsorbing | src/main.rs:234-236 | From `Exit`, any run changes nothing, causes no effect, and leaves every arrived menu id unconsumed. |
| Runs.AtMostOneTerminal | src/main.rs:230-245 | Over any run there is at most one kill or exit notification in all, and none if the loop had already exited. After one, the loop has exited. |
| Runs.AtMostOneKillAndNotice | src/main.rs:230-245 | Over any run there is at most one kill and at most one exit notification. |
| Runs.TrayReleasedOnce | src/main.rs:239-243 | From a valid state, the tray is released exactly once if the run ends without it, and otherwise never. So it is never released twice, and never when it is already gone. |
| Runs.QuietRunPolls | src/main.rs:100-117 | While nothing is clicked and the child keeps running, the loop keeps polling with no effects. |
| Runs.ExitAfterQuietRun | src/main.rs:90-98 | A child that runs undisturbed and then exits ends the run in `Exit`, with the tray kept and exactly one notification carrying its status, whatever comes later. |
| Runs.KillEndsRun | src/main.rs:103-108 | A "Kill" click reaching a running child gives exactly one kill, whatever else is queued or arrives later, and ends the loop. If the kill fails, the tray is also released. |
| Strings.Join | src/main.rs:218 | Joined text has the parts' total length plus one separator between each two neighbours, and starts with the first part. |
| Strings.SplitOn | src/main.rs:218 | Splitting yields separator-free pieces that join back to the original text. |
| Strings.SplitJoin | src/main.rs:218 | Joining separator-free parts and splitting the result gives the parts back. |
| Startup.CommandLine | src/main.rs:218 | The command line is as long as the words plus one space between each two. When no word contains a space, it splits back into the command. |
| Spawn.LogFileName | src/main.rs:134 | The log file name is the program string followed by `_`, the timestamp and `.log`, so it is five characters longer than the two. |
| Spawn.ProgramOfLogFile | src/main.rs:132-134 | A name is read back as a program exactly when it is that program's log file name for the given timestamp. |
| Spawn.LogFileNameRoundTrip | src/main.rs:132-134 | The program string can be read back from its log file name `{program}_{timestamp}.log`, so different program strings at the same timestamp give different names. |
| Spawn.SpawnProcess | src/main.rs:131-160 | The spawn succeeds iff every call succeeds. The program followed by the arguments is exactly the command. Stdout and stderr both go to the program's log file. The first failing call decides the error. |
| Startup.Launch | src/main.rs:212-228 | Logging, then the tray, then the spawn; the first failure is the result. On success the tooltip is the command line, the child runs the command, and one "Process started!" notification carries the command line. The loop then starts polling with the tray owned. |

## Left out

- Tray icon and menu rendering: these belong to foreign UI libraries. Only the menu's items (text, id, enabled) are modelled. The `menu.append` failure path is not modelled.
- The event loop itself: the model only says what one call of the closure does. The initial control flow is taken to be `Poll`, the event-loop library's default. The `_event` argument is ignored, as in the code.
- Notifications are effect values. The panic on a failed notification is not modelled.
- Logging (`info!`, `error!`, `debug!`) and `init_logging`: these are output only. `init_logging` is reduced to a success/failure input.
- `get_logs_dir`, `open::that`, `OpenOptions`, `try_clone`: each is reduced to a success/failure input. "Logs directory missing" and "open failed" are one input for "Show Logs". The log file's directory path is not modelled, only its file name.
- Process spawning, `try_wait` and `kill` are abstract observations and outcomes. The child's own execution and its exit code are not modelled, and neither is the wrapper's own exit status.
- Log file paths: the name is joined onto the logs directory. A `cmd[0]` containing a path separator turns the name into a path: an absolute one replaces the directory, and a relative one may point into a missing subdirectory, or name the same file as another spelling (`./foo` and `foo`). The model covers only the name string and folds what happens when the file is opened into the `logFileOpens` input.
- The `chrono` timestamp and the `ExitStatus` text are opaque strings. The `%Y-%m-%d_%H-%M-%S` layout is not modelled.
- CLI parsing: clap guarantees a non-empty command, and that is the precondition `|cmd| > 0`.
- Concurrency between the child and the tray: the arrival order of menu ids is an input of each run.
