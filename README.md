# whyismyconnectionbad, modelled in Dafny

`whyismyconnectionbad` is a small Go program. It finds the default gateway, picks the
sites named on the command line that resolve (or google.com), and starts one ICMP
pinger for each of these targets. It then keeps writing a statistics block per pinger into
termbox's back buffer until the operator presses Ctrl+C. Space freezes and unfreezes the view.
After Ctrl+C it prints a final report for every pinger.

This project models the deterministic logic inside `main.go`:

- **Terminal** (`terminal.dfy`): termbox's back buffer as a map from (column, row) to
  cells, and `printTb` as a method of the `Screen` class. The method writes rune k of
  the message to (x + k, y). `Paint`/`PaintAll` are the specification functions, and
  the lemmas beside them give the exact footprint.
- **Probes** (`probes.dfy`): a pinger as an opaque handle that records its address.
  Its statistics come from an oracle `statsOf`.
- **Display** (`display.dfy`): `printStats`, `reportStats` and one pass of the render
  loop. Block i has its corner at column 7·i + 2, row 0. Each block writes rows 2 to 7.
- **Events** (`events.dfy`): `keyCommand`, and the listener loop as a fold `Run` over
  the polled events. The method `HandleEvents` runs the loop and is proved equal to
  the fold.
- **Targets** (`targets.dfy`): gateway discovery, site filtering with the google.com
  fallback, and pinger start-up in order, all with `os.Exit(1)` as an `Err`. DNS,
  gateway discovery and `ping.NewPinger` are the parameters `resolves`, `gateway`
  and `canPing`.
- **Session** (`session.dfy`): the final report written by `end` and the outcome of a
  whole run, with its exit status.

Four behaviours of the code that a reader may not expect:

- The blocks of the live view are only seven columns apart, on the same rows, so they
  overlap. `Display.HeadersOverlap` shows a cell of one header covered by the next.
- The final report is not printed on every exit path. An error event calls
  `os.Exit(1)` and skips the deferred `end` (main.go:190-192), and so does every
  start-up failure. Only Ctrl+C leads to the report.
- `flag.Parse` is never called, so `flag.Args()` is always empty and the shipped
  program always uses the fallback site (`Targets.ShippedTargets`). Site selection is
  still modelled over an explicit `sites` parameter.
- `main.go` never calls `termbox.Flush`. The render loop only writes termbox's back
  buffer, and the model describes that buffer.

## Model

| member | source | states |
|---|---|---|
| `Terminal.Screen.PrintTb` | main.go:32-37 | the back buffer afterwards is `Paint` of the one before: the message written rune by rune from (x, y) along the row |
| `Terminal.PaintAt` | main.go:32-37 | rune k of the message is in cell (x + k, y) with the given colours |
| `Terminal.PaintOutside` | main.go:32-37 | a cell the message does not cover is neither added nor changed |
| `Terminal.PaintKeys` | main.go:32-37 | the cells present afterwards are those present before plus the message's footprint |
| `Terminal.FootprintCells` | main.go:32-37 | the footprint is exactly the covered cells of row y, and there are len(msg) of them |
| `Terminal.PaintAllVisible` | main.go:44-64 | a rune written by one of several messages stays visible unless a later message covers its cell |
| `Terminal.PaintAllOutside` | main.go:44-64 | a cell that none of several messages covers keeps its content |
| `Display.Decimal` | main.go:47 | `%d` of a count is a non-empty string of decimal digits |
| `Display.DecimalValue` | main.go:47 | the digits `%d` produces stand for the count itself, with no leading zero |
| `Display.PrintStats` | main.go:44-64 | the screen afterwards holds the block's six lines written in order: the header at (x, y+2), then the five detail lines at (x+2, y+3) to (x+2, y+7) |
| `Display.StatsBlockVisible` | main.go:44-64 | every rune of each of the six lines shows at its place: the header from (x, y+2), detail line j from (x+2, y+2+j) |
| `Display.StatsBlockFrame` | main.go:44-64 | a block changes nothing above row y+2, below row y+7 or left of column x |
| `Display.BlockAt` | main.go:172-174 | line j of block i is line j of `printStats(7*i+2, 0, names[i], stats[i])` |
| `Display.BlockRows` | main.go:172-174 | every line of every block lies on rows 2 to 7, at column 7*i+2 (header) or 7*i+4 (details) |
| `Display.ReportStats` | main.go:168-175 | the screen afterwards holds the instruction line at (0, 0) followed by one block per pinger, in pinger order, labelled by the name at the same index |
| `Display.InstructionsVisible` | main.go:170-174 | the instruction line on row 0 is never overwritten by the blocks |
| `Display.LastBlockVisible` | main.go:172-174 | all six lines of the last pinger's block are fully visible |
| `Display.HeadersOverlap` | main.go:173 | blocks overlap: the header of block i+1 covers rune 7 ('i') of block i's header with 'S' |
| `Display.RenderPass` | main.go:198-202 | a frozen view is left unchanged; otherwise the statistics frame is drawn |
| `Probes.Snapshot` | main.go:172-173 | one statistics snapshot per pinger, taken in pinger order |
| `Events.KeyCommand` | main.go:66-71 | `exit` holds exactly for Ctrl+C and `stats` exactly for space, so the two are never both true |
| `Events.Step` | main.go:182-194 | one loop pass: `exit` becomes set exactly on Ctrl+C, the process ends exactly on an error event, `frozen` flips on space only and is kept by Ctrl+C and error events |
| `Events.Consumed` | main.go:180-195 | the loop takes every event up to and including the first Ctrl+C or error event, or all of them when there is none |
| `Events.RunConsumed` | main.go:180-195 | the events after the ones the loop takes never change its flags |
| `Events.RunAppend` | main.go:180-195 | polling a and then b is polling a + b |
| `Events.FrozenParity` | main.go:184-189 | without Ctrl+C or an error event, the loop keeps listening and `frozen` flips exactly when an odd number of spaces came in |
| `Events.ToggleTwice` | main.go:189 | two spaces in a row cancel out wherever they come |
| `Events.CtrlCEnds` | main.go:185-187 | Ctrl+C sets `exit`, keeps `frozen`, and no later event is processed |
| `Events.ErrorEnds` | main.go:190-193 | an error event ends the loop without setting `exit`, and no later event is processed |
| `Events.HandleEvents` | main.go:177-196 | starting from frozen = exit = false, the loop's flags equal the fold `Run` over the events, and it takes exactly `Consumed` of them |
| `Targets.FilterAppend` | main.go:112-123 | filtering keeps argument order: filtering a + b is filtering a, then b |
| `Targets.FilterCount` | main.go:112-123 | a site occurs in the filtered list as often as among the arguments when it resolves, and never otherwise |
| `Targets.SelectionSpec` | main.go:109-146 | when some argument resolves, the sites to ping are exactly the resolving ones in argument order; when none does, google.com alone if it resolves, else start-up aborts |
| `Targets.SelectSites` | main.go:109-146 | the argument loop gives `Selection` and reports every argument, numbered from 1, as resolved or ignored |
| `Targets.Startable` | main.go:148-162 | the number of targets, from the front, that get a pinger: all of them can, and the next one cannot |
| `Targets.PingersFor` | main.go:153-160 | one pinger per address, each probing the address at the same index |
| `Targets.StartPingers` | main.go:148-162 | the gateway's pinger is created first and then one per site in order; the first failure aborts with that target, and only the pingers before it exist |
| `Targets.Setup` | main.go:87-165 | start-up gives `SetupResult` with `SetupStarted` pingers running, and logs every argument when it gets that far |
| `Targets.SetupOk` | main.go:148-165 | start-up succeeds exactly when the terminal starts, the gateway is found, a site or the fallback resolves and every target gets a pinger; then names = gateway label + selected sites, aligned index by index with the pingers, the gateway's pinger first |
| `Targets.SetupFailure` | main.go:125-162 | a failure other than pinger set-up leaves no pinger running; a pinger failure names the first target that failed, and only the targets before it have pingers |
| `Targets.ShippedTargets` | main.go:109-146 | with no arguments, the session pings the gateway and google.com, labelled in that order |
| `Session.FinalReportAt` | main.go:79-84 | report entry i is labelled names[i] and shows the statistics of pingers[i]; there is one entry per pinger |
| `Session.End` | main.go:73-85 | `end` produces one report entry per pinger, labelled by the name at the same index |
| `Session.EndedReport` | main.go:164-166 | after a successful start-up the report is printed exactly when Ctrl+C ended the loop; it has 1 + len(valid) entries, the gateway's first under its label, then each selected site under its own name |
| `Session.ImmediateCtrlC` | main.go:185-187 | Ctrl+C as the very first event still ends the run with a report of one entry per pinger |
| `Session.SessionOutcome` | main.go:164-202 | a run fails at start-up exactly when start-up failed; after a successful start-up it ends with a report of one entry per pinger exactly when Ctrl+C came, crashes exactly when an error event came first, and otherwise is still monitoring with the listener's `frozen` flag |
| `Session.ExitStatuses` | main.go:185-193 | the exit status is 1 exactly when start-up failed or an error event came first, 0 exactly when the report was printed, and there is none while the loop still listens |
| `Session.NeverBoth` | main.go:185-193 | the listener never both exits normally and crashes |

## Left out

- ICMP probing (`runPing`'s privilege, interval and count settings, `Pinger.Run`, `Statistics()`): a foreign library over raw sockets. A pinger is an opaque handle, and `canPing` says whether `ping.NewPinger` accepts an address.
- Gateway discovery and `net.LookupHost`: network I/O. They become the parameters `gateway` and `resolves`. The resolved addresses joined into the log line are not modelled.
- Float and duration formatting with `%v` (packet loss, RTTs): these values come from go-ping. `Statistics` carries their text.
- Start-up messages written to the screen (main.go:96-146, 149, 156) and the `fmt.Println` at line 143: only the per-argument report is kept, as `SiteReport`.
- `termbox.Init`/`Clear`/`Close`/`PollEvent` and `SetCell`: terminal I/O. `Init` is the `terminalOk` flag, a blank screen is the empty map, and the events are a sequence.
- Terminal.Screen.PrintTb: termbox ignores cells outside the terminal's size; the model's plane has no edges. The message is already a sequence of runes, so UTF-8 decoding is not modelled.
- The goroutine and the unsynchronised sharing of `frozen` and `exit` between it and the render loop (main.go:177-202): this is concurrency. The listener is a sequential fold, and the render loop is a single `RenderPass`.
- The busy-wait render loop itself (main.go:198-202): it has no termination measure. Only one pass is modelled.
- The deferred `Printf` after `os.Exit` on an error event (main.go:191) and the "Test ended!" line of `end`: process-exit and print side effects. They appear only as the `Crashed` and `Ended` outcomes.
- Pinger identity: a pinger is identified by its address, so a site given twice, or a site equal to the gateway's address, shares one `statsOf` value in the model, whereas the program creates a separate pinger with its own statistics for each.
