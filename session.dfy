/**
 * The whole run: start-up, the listener, and the final report that `end` prints when
 * the loop ends on Ctrl+C. An error event exits with status 1 before the deferred
 * `end` runs, so no report is printed then.
 */
module Session {
  import opened Wrappers
  import opened Probes
  import opened Targets
  import opened Events

  /** One block of the final report: a label and the statistics read from its pinger. */
  datatype ReportEntry = ReportEntry(name: string, stats: Statistics)

  /** The report `end(names, pingers)` prints: one entry per pinger, in pinger order. */
  function FinalReport(names: seq<string>, pingers: seq<Pinger>, statsOf: Pinger -> Statistics): (r: seq<ReportEntry>)
    requires |pingers| <= |names|
    ensures |r| == |pingers|
    decreases |pingers|
  {
    if pingers == [] then []
    else FinalReport(names, pingers[..|pingers| - 1], statsOf) +
         [ReportEntry(names[|pingers| - 1], statsOf(pingers[|pingers| - 1]))]
  }

  /** Entry i of the report is labelled names[i] and shows the statistics of pingers[i]. */
  lemma {:induction false} FinalReportAt(names: seq<string>, pingers: seq<Pinger>, statsOf: Pinger -> Statistics, i: nat)
    requires |pingers| <= |names| && i < |pingers|
    ensures |FinalReport(names, pingers, statsOf)| == |pingers|
    ensures FinalReport(names, pingers, statsOf)[i] == ReportEntry(names[i], statsOf(pingers[i]))
    decreases |pingers|
  {
    if i < |pingers| - 1 {
      FinalReportAt(names, pingers[..|pingers| - 1], statsOf, i);
    } else if |pingers| > 1 {
      FinalReportAt(names, pingers[..|pingers| - 1], statsOf, 0);
    }
  }

  /** end: one report entry per pinger, labelled by the name at the same index. */
  method End(names: seq<string>, pingers: seq<Pinger>, statsOf: Pinger -> Statistics)
    returns (report: seq<ReportEntry>)
    requires |pingers| <= |names|
    ensures report == FinalReport(names, pingers, statsOf)
    ensures |report| == |pingers|
    ensures forall i :: 0 <= i < |pingers| ==> report[i] == ReportEntry(names[i], statsOf(pingers[i]))
  {
    report := [];
    var i := 0;
    while i < |pingers|
      invariant i <= |pingers|
      invariant report == FinalReport(names, pingers[..i], statsOf)
      invariant |report| == i
      invariant forall j :: 0 <= j < i ==> report[j] == ReportEntry(names[j], statsOf(pingers[j]))
    {
      assert pingers[..i + 1][..i] == pingers[..i];
      report := report + [ReportEntry(names[i], statsOf(pingers[i]))];
      i := i + 1;
    }
    assert pingers[..i] == pingers;
  }

  datatype Outcome =
    | SetupFailed(error: SetupError)   // printed a reason and exited with status 1
    | Monitoring(frozen: bool)         // still waiting for the next event
    | Crashed                          // an error event: exited with status 1, no report
    | Ended(report: seq<ReportEntry>)  // Ctrl+C: the final report, then status 0

  /** The process exit status, once there is one. */
  function ExitStatus(o: Outcome): Option<int>
  {
    match o
    case SetupFailed(_) => Some(1)
    case Monitoring(_) => None
    case Crashed => Some(1)
    case Ended(_) => Some(0)
  }

  /** The state of a run after start-up and the events polled so far. */
  function SessionOutcome(setup: Result<Session, SetupError>, events: seq<Event>, statsOf: Pinger -> Statistics): (o: Outcome)
    requires setup.Ok? ==> Aligned(setup.value)
    ensures o.SetupFailed? <==> setup.Err?
    ensures o.Ended? <==> setup.Ok? && Run(Initial, events).exit
    ensures o.Crashed? <==> setup.Ok? && Run(Initial, events).crashed && !Run(Initial, events).exit
    ensures o.Ended? ==> |o.report| == |setup.value.pingers|
    ensures o.Monitoring? ==> o.frozen == Run(Initial, events).frozen
  {
    match setup
    case Err(e) => SetupFailed(e)
    case Ok(s) =>
      var l := Run(Initial, events);
      if l.exit then Ended(FinalReport(s.names, s.pingers, statsOf))
      else if l.crashed then Crashed
      else Monitoring(l.frozen)
  }

  /**
   * The final report is printed, once, exactly when start-up succeeded and Ctrl+C came
   * before any error event; it has one entry per pinger, the gateway first under its
   * label, then each selected site under its own name.
   */
  lemma EndedReport(terminalOk: bool, gateway: Option<string>, sites: seq<string>,
                    resolves: string -> bool, canPing: string -> bool,
                    s: Session, events: seq<Event>, statsOf: Pinger -> Statistics)
    requires SetupResult(terminalOk, gateway, sites, resolves, canPing) == Ok(s)
    ensures Aligned(s)
    ensures SessionOutcome(Ok(s), events, statsOf).Ended? <==> Run(Initial, events).exit
    ensures SessionOutcome(Ok(s), events, statsOf).Ended? ==>
      var report := SessionOutcome(Ok(s), events, statsOf).report;
      var valid := Selection(sites, resolves).value;
      |report| == 1 + |valid| &&
      report[0] == ReportEntry(GatewayLabel(gateway.value), statsOf(Pinger(gateway.value))) &&
      forall i :: 0 <= i < |valid| ==> report[i + 1] == ReportEntry(valid[i], statsOf(Pinger(valid[i])))
  {
    SetupOk(terminalOk, gateway, sites, resolves, canPing);
    var valid := Selection(sites, resolves).value;
    var report := FinalReport(s.names, s.pingers, statsOf);
    FinalReportAt(s.names, s.pingers, statsOf, 0);
    forall i | 0 <= i < |valid|
      ensures report[i + 1] == ReportEntry(valid[i], statsOf(Pinger(valid[i])))
    {
      FinalReportAt(s.names, s.pingers, statsOf, i + 1);
      assert s.names[i + 1] == valid[i];
    }
  }

  /**
   * Ctrl+C as the very first event still ends the run with a report of one entry per
   * started pinger, whatever events follow it.
   */
  lemma ImmediateCtrlC(s: Session, rest: seq<Event>, statsOf: Pinger -> Statistics)
    requires Aligned(s)
    ensures SessionOutcome(Ok(s), [KeyEvent(KeyCtrlC)] + rest, statsOf) == Ended(FinalReport(s.names, s.pingers, statsOf))
    ensures |FinalReport(s.names, s.pingers, statsOf)| == |s.pingers|
  {
    CtrlCEnds(Initial, [], rest);
    assert [] + [KeyEvent(KeyCtrlC)] + rest == [KeyEvent(KeyCtrlC)] + rest;
    FinalReportAt(s.names, s.pingers, statsOf, 0);
  }

  /**
   * The exit status is 1 exactly when start-up failed or an error event came first, and
   * 0 exactly when the final report was printed.
   */
  lemma ExitStatuses(setup: Result<Session, SetupError>, events: seq<Event>, statsOf: Pinger -> Statistics)
    requires setup.Ok? ==> Aligned(setup.value)
    ensures ExitStatus(SessionOutcome(setup, events, statsOf)) == Some(1) <==>
      setup.Err? || Run(Initial, events).crashed
    ensures ExitStatus(SessionOutcome(setup, events, statsOf)) == Some(0) <==>
      SessionOutcome(setup, events, statsOf).Ended?
    ensures ExitStatus(SessionOutcome(setup, events, statsOf)) == None <==>
      setup.Ok? && Listening(Run(Initial, events))
  {
    if setup.Ok? {
      NeverBoth(Initial, events);
    }
  }

  /** The listener never both exits and crashes. */
  lemma {:induction false} NeverBoth(l: Listener, events: seq<Event>)
    requires !(l.exit && l.crashed)
    ensures !(Run(l, events).exit && Run(l, events).crashed)
    decreases |events|
  {
    if Listening(l) && events != [] {
      NeverBoth(Step(l, events[0]), events[1..]);
    }
  }
}
