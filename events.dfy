/**
 * The key-event listener: `keyCommand` classifies a key, and the listener loop folds
 * the polled events into the `frozen` and `exit` flags until Ctrl+C ends it or an
 * error event makes the program exit with status 1.
 */
module Events {

  /** termbox.Key (a uint16). */
  newtype Key = k: int | 0 <= k < 0x1_0000

  const KeyCtrlC: Key := 0x03
  const KeySpace: Key := 0x20

  /** The two flags `keyCommand` returns. */
  datatype Command = Command(exit: bool, stats: bool)

  /**
   * keyCommand: `exit` exactly for Ctrl+C, `stats` (toggle freeze) exactly for space;
   * no key asks for both.
   */
  function KeyCommand(key: Key): (r: Command)
    ensures r.exit <==> key == KeyCtrlC
    ensures r.stats <==> key == KeySpace
    ensures !(r.exit && r.stats)
  {
    Command(key == KeyCtrlC, key == KeySpace)
  }

  /** What termbox.PollEvent returns, as far as the listener distinguishes it. */
  datatype Event =
    | KeyEvent(key: Key)
    | ErrorEvent
    | OtherEvent   // resize, mouse and the other event types fall through the switch

  /** The listener's flags; `crashed` records that the process exited with status 1. */
  datatype Listener = Listener(frozen: bool, exit: bool, crashed: bool)

  /** Neither Ctrl+C nor an error event has been seen: the loop still polls. */
  predicate Listening(l: Listener)
  {
    !l.exit && !l.crashed
  }

  const Initial: Listener := Listener(false, false, false)

  /**
   * One pass of the loop body on an event: Ctrl+C sets `exit`, an error event ends the
   * process, space flips `frozen`, and nothing else changes anything.
   */
  function Step(l: Listener, ev: Event): (r: Listener)
    ensures r.exit <==> l.exit || ev == KeyEvent(KeyCtrlC)
    ensures r.crashed <==> l.crashed || ev == ErrorEvent
    ensures Stops(ev) ==> r.frozen == l.frozen
    ensures !Stops(ev) ==> r.frozen == (l.frozen != (ev == KeyEvent(KeySpace)))
  {
    match ev
    case KeyEvent(k) =>
      var cmd := KeyCommand(k);
      if cmd.exit then l.(exit := true) else l.(frozen := cmd.stats != l.frozen)
    case ErrorEvent => l.(crashed := true)
    case OtherEvent => l
  }

  /** The listener after polling `events` in order; nothing is processed once it stops. */
  function Run(l: Listener, events: seq<Event>): Listener
    decreases |events|
  {
    if !Listening(l) || events == [] then l else Run(Step(l, events[0]), events[1..])
  }

  /** Whether an event ends the loop. */
  predicate Stops(ev: Event)
  {
    ev == KeyEvent(KeyCtrlC) || ev == ErrorEvent
  }

  /** How many of `events` the loop takes before it stops or they run out. */
  function Consumed(events: seq<Event>): (n: nat)
    ensures n <= |events|
    ensures forall i :: 0 <= i < n - 1 ==> !Stops(events[i])
    ensures events != [] ==> n >= 1
    ensures n < |events| ==> Stops(events[n - 1])
  {
    if events == [] then 0
    else if Stops(events[0]) then 1
    else 1 + Consumed(events[1..])
  }

  /** The events after the ones the loop takes are never looked at. */
  lemma {:induction false} RunConsumed(l: Listener, events: seq<Event>)
    requires Listening(l)
    ensures Run(l, events) == Run(l, events[..Consumed(events)])
    decreases |events|
  {
    var n := Consumed(events);
    if events != [] {
      var front := events[..n];
      assert front[0] == events[0];
      if Stops(events[0]) {
        assert Run(l, events) == Run(Step(l, events[0]), events[1..]);
        StoppedIgnores(Step(l, events[0]), events[1..]);
        StoppedIgnores(Step(l, events[0]), front[1..]);
      } else {
        var next := Step(l, events[0]);
        assert front[1..] == events[1..][..Consumed(events[1..])];
        RunConsumed(next, events[1..]);
      }
    }
  }

  /** Number of space key events. */
  function Spaces(events: seq<Event>): nat
  {
    if events == [] then 0
    else (if events[0] == KeyEvent(KeySpace) then 1 else 0) + Spaces(events[1..])
  }

  /** A listener that has stopped ignores every later event. */
  lemma {:induction false} StoppedIgnores(l: Listener, events: seq<Event>)
    requires !Listening(l)
    ensures Run(l, events) == l
  {
  }

  /** Polling `a` and then `b` is polling `a + b`. */
  lemma {:induction false} RunAppend(l: Listener, a: seq<Event>, b: seq<Event>)
    ensures Run(l, a + b) == Run(Run(l, a), b)
    decreases |a|
  {
    if a == [] {
      assert a + b == b;
    } else if Listening(l) {
      assert (a + b)[0] == a[0] && (a + b)[1..] == a[1..] + b;
      RunAppend(Step(l, a[0]), a[1..], b);
    } else {
      assert Run(l, a) == l;
    }
  }

  /**
   * Without Ctrl+C or an error event the loop keeps listening, and `frozen` ends up
   * flipped exactly when an odd number of spaces came in.
   */
  lemma {:induction false} FrozenParity(l: Listener, events: seq<Event>)
    requires Listening(l)
    requires forall i :: 0 <= i < |events| ==> !Stops(events[i])
    ensures Run(l, events) == l.(frozen := l.frozen != (Spaces(events) % 2 == 1))
    decreases |events|
  {
    if events != [] {
      FrozenParity(Step(l, events[0]), events[1..]);
    }
  }

  /** Two spaces in a row cancel out, wherever they come. */
  lemma ToggleTwice(l: Listener, a: seq<Event>, b: seq<Event>)
    ensures Run(l, a + [KeyEvent(KeySpace), KeyEvent(KeySpace)] + b) == Run(l, a + b)
  {
    var pair := [KeyEvent(KeySpace), KeyEvent(KeySpace)];
    RunAppend(l, a + pair, b);
    RunAppend(l, a, pair);
    RunAppend(l, a, b);
    var m := Run(l, a);
    assert pair[1..] == [KeyEvent(KeySpace)];
    if Listening(m) {
      var flipped := m.(frozen := !m.frozen);
      assert Run(flipped, [KeyEvent(KeySpace)]) == Run(m, []) by {
        assert [KeyEvent(KeySpace)][1..] == [];
      }
      assert Run(m, pair) == Run(flipped, [KeyEvent(KeySpace)]);
    } else {
      StoppedIgnores(m, pair);
    }
  }

  /**
   * Ctrl+C sets `exit`, keeps `frozen` as it was, and ends the loop: nothing after it
   * is processed.
   */
  lemma CtrlCEnds(l: Listener, a: seq<Event>, rest: seq<Event>)
    requires Listening(Run(l, a))
    ensures Run(l, a + [KeyEvent(KeyCtrlC)] + rest) == Run(l, a).(exit := true)
  {
    var m := Run(l, a);
    RunAppend(l, a + [KeyEvent(KeyCtrlC)], rest);
    RunAppend(l, a, [KeyEvent(KeyCtrlC)]);
    assert Run(m, [KeyEvent(KeyCtrlC)]) == m.(exit := true);
    StoppedIgnores(m.(exit := true), rest);
  }

  /** An error event ends the loop with the process exiting; `exit` is never set. */
  lemma ErrorEnds(l: Listener, a: seq<Event>, rest: seq<Event>)
    requires Listening(Run(l, a))
    ensures Run(l, a + [ErrorEvent] + rest) == Run(l, a).(crashed := true)
  {
    var m := Run(l, a);
    RunAppend(l, a + [ErrorEvent], rest);
    RunAppend(l, a, [ErrorEvent]);
    assert Run(m, [ErrorEvent]) == m.(crashed := true);
    StoppedIgnores(m.(crashed := true), rest);
  }

  /**
   * The listener goroutine: polls `events` in order starting from frozen = exit = false,
   * and returns the flags and how many events it took.
   */
  method HandleEvents(events: seq<Event>) returns (frozen: bool, exit: bool, crashed: bool, processed: nat)
    ensures Listener(frozen, exit, crashed) == Run(Initial, events)
    ensures processed == Consumed(events)
  {
    frozen, exit, crashed := false, false, false;
    processed := 0;
    while processed < |events|
      invariant processed <= |events|
      invariant !exit && !crashed
      invariant Run(Initial, events) == Run(Listener(frozen, exit, crashed), events[processed..])
      invariant Consumed(events) == processed + Consumed(events[processed..])
    {
      var ev := events[processed];
      assert events[processed..][1..] == events[processed + 1..];
      processed := processed + 1;
      match ev
      case KeyEvent(k) =>
        var cmd := KeyCommand(k);
        if cmd.exit {
          exit := true;
          break;
        }
        frozen := cmd.stats != frozen;
      case ErrorEvent =>
        crashed := true;
        break;
      case OtherEvent =>
    }
  }
}
