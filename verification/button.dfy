/** The press-duration state machine of the hardware button
    (src/core_embedded/button.rs): edges of the GPIO line become presses and
    releases according to the line's polarity, a release measures the time
    since the recorded press and classifies it. Instants are whole
    milliseconds, coarser than the source's `Instant`, so durations that are
    not whole milliseconds are not represented; opening the GPIO line is
    outside the model. */
module ButtonMonitor {
  import opened Common

  datatype EdgeKind = RisingEdge | FallingEdge

  datatype ButtonEvent = Press | LongPress | VeryLongPress

  /** One item of the line's event stream: an edge, seen at instant `at`,
      or a read error. */
  datatype LineEvent = Edge(kind: EdgeKind, at: nat) | ReadError

  /** A press is a falling edge on an active-low line and a rising edge
      otherwise. */
  function IsPressed(activeLow: bool, kind: EdgeKind): (p: bool)
    ensures p ==> kind == (if activeLow then FallingEdge else RisingEdge)
    ensures kind == (if activeLow then FallingEdge else RisingEdge) ==> p
  {
    if activeLow then
      match kind
      case FallingEdge => true
      case RisingEdge => false
    else
      match kind
      case RisingEdge => true
      case FallingEdge => false
  }

  /** The class of a press held for `duration` milliseconds: exactly one of
      the four outcomes applies. */
  function Classify(duration: nat): (r: Option<ButtonEvent>)
    ensures r == Some(VeryLongPress) <==> duration >= 7500
    ensures r == Some(LongPress) <==> 2500 <= duration < 7500
    ensures r == Some(Press) <==> 50 <= duration < 2500
    ensures r == None <==> duration < 50
  {
    if duration >= 7500 then Some(VeryLongPress)
    else if duration >= 2500 then Some(LongPress)
    else if duration >= 50 then Some(Press)
    else None
  }

  /** `Instant::elapsed` of an instant recorded at `start`, at `now`. */
  function Elapsed(start: nat, now: nat): nat
  {
    if now >= start then now - start else 0
  }

  /** One event of the stream: the new `press_start` and the event sent,
      if any. */
  function Step(activeLow: bool, pressStart: Option<nat>, e: LineEvent): (r: (Option<nat>, Option<ButtonEvent>))
    ensures r.1.Some? ==> pressStart.Some? && r.0.None? && e.Edge? && !IsPressed(activeLow, e.kind)
    ensures e.Edge? && IsPressed(activeLow, e.kind) ==> r == (Some(e.at), None)
    ensures e.ReadError? ==> r == (pressStart, None)
  {
    match e
    case ReadError => (pressStart, None)
    case Edge(kind, at) =>
      if IsPressed(activeLow, kind) then (Some(at), None)
      else if pressStart.Some? then (None, Classify(Elapsed(pressStart.value, at)))
      else (None, None)
  }

  /** `press_start` after a stream of events. */
  function FinalStart(activeLow: bool, pressStart: Option<nat>, events: seq<LineEvent>): Option<nat>
  {
    if |events| == 0 then pressStart
    else Step(activeLow, FinalStart(activeLow, pressStart, events[..|events| - 1]), events[|events| - 1]).0
  }

  /** The button events a stream of line events produces, in order. */
  function Emitted(activeLow: bool, pressStart: Option<nat>, events: seq<LineEvent>): seq<ButtonEvent>
  {
    if |events| == 0 then []
    else
      var out := Step(activeLow, FinalStart(activeLow, pressStart, events[..|events| - 1]), events[|events| - 1]).1;
      Emitted(activeLow, pressStart, events[..|events| - 1]) + (if out.Some? then [out.value] else [])
  }

  /** A press at `t0` followed by a release at `t1` sends the class of the
      time between them, whatever came before; a release with nothing
      recorded sends nothing. */
  lemma PressThenRelease(activeLow: bool, start: Option<nat>, t0: nat, t1: nat)
    ensures var press := if activeLow then FallingEdge else RisingEdge;
            var release := if activeLow then RisingEdge else FallingEdge;
            var events := [Edge(press, t0), Edge(release, t1)];
            && FinalStart(activeLow, start, events) == None
            && Emitted(activeLow, start, events)
                 == (if Classify(Elapsed(t0, t1)).Some? then [Classify(Elapsed(t0, t1)).value] else [])
  {
    var press := if activeLow then FallingEdge else RisingEdge;
    var release := if activeLow then RisingEdge else FallingEdge;
    var events := [Edge(press, t0), Edge(release, t1)];
    assert events[..1] == [Edge(press, t0)];
    assert events[..1][..0] == [];
    assert FinalStart(activeLow, start, events[..1]) == Some(t0);
    assert Emitted(activeLow, start, events[..1]) == [];
  }

  /** Every sent event closes a press: there are never more events sent than
      release edges. */
  lemma {:induction false} EmittedAtMostReleases(activeLow: bool, start: Option<nat>, events: seq<LineEvent>)
    ensures |Emitted(activeLow, start, events)| <= |Releases(activeLow, events)|
    decreases |events|
  {
    if |events| > 0 {
      var init := events[..|events| - 1];
      EmittedAtMostReleases(activeLow, start, init);
    }
  }

  /** The release edges of a stream. */
  function Releases(activeLow: bool, events: seq<LineEvent>): seq<LineEvent>
  {
    if |events| == 0 then []
    else
      var e := events[|events| - 1];
      Releases(activeLow, events[..|events| - 1]) + (if e.Edge? && !IsPressed(activeLow, e.kind) then [e] else [])
  }

  class Button {
    const activeLow: bool
    var pressStart: Option<nat>
    /** Events sent to the receiver, in order. */
    var sent: seq<ButtonEvent>

    constructor(activeLow: bool)
      ensures this.activeLow == activeLow && pressStart == None && sent == []
    {
      this.activeLow := activeLow;
      pressStart := None;
      sent := [];
    }

    /** The loop of `monitor` over the line's event stream. Read errors are
        logged and skipped; when the receiver has been dropped the first
        send fails and monitoring stops. `consumed` is the number of line
        events taken from the stream. */
    method Monitor(events: seq<LineEvent>, receiverOpen: bool) returns (consumed: nat)
      modifies this
      ensures consumed <= |events|
      ensures receiverOpen ==>
                && consumed == |events|
                && sent == old(sent) + Emitted(activeLow, old(pressStart), events)
      ensures !receiverOpen ==>
                && sent == old(sent)
                && |Emitted(activeLow, old(pressStart), events[..consumed])| <= 1
                && (consumed < |events| ==> |Emitted(activeLow, old(pressStart), events[..consumed])| == 1)
                && (|Emitted(activeLow, old(pressStart), events)| == 0 ==> consumed == |events|)
      ensures pressStart == FinalStart(activeLow, old(pressStart), events[..consumed])
    {
      ghost var start := pressStart;
      consumed := 0;
      while consumed < |events|
        invariant consumed <= |events|
        invariant pressStart == FinalStart(activeLow, start, events[..consumed])
        invariant receiverOpen ==> sent == old(sent) + Emitted(activeLow, start, events[..consumed])
        invariant !receiverOpen ==> sent == old(sent) && Emitted(activeLow, start, events[..consumed]) == []
        decreases |events| - consumed
      {
        var e := events[consumed];
        StepSnoc(activeLow, start, events, consumed);
        match e {
          case ReadError =>
          case Edge(kind, at) =>
            var isPressed := IsPressed(activeLow, kind);
            if isPressed {
              pressStart := Some(at);
            } else {
              if pressStart.Some? {
                var duration := Elapsed(pressStart.value, at);
                pressStart := None;
                var eventType := Classify(duration);
                if eventType.Some? {
                  if !receiverOpen {
                    consumed := consumed + 1;
                    EmittedPrefix(activeLow, start, events, consumed);
                    return;
                  }
                  sent := sent + [eventType.value];
                }
              }
            }
        }
        consumed := consumed + 1;
      }
      assert events[..consumed] == events;
    }
  }

  /** One more line event takes one more step from the state the earlier
      events left. */
  lemma StepSnoc(activeLow: bool, start: Option<nat>, events: seq<LineEvent>, i: nat)
    requires i < |events|
    ensures var (st, out) := Step(activeLow, FinalStart(activeLow, start, events[..i]), events[i]);
            && FinalStart(activeLow, start, events[..i + 1]) == st
            && Emitted(activeLow, start, events[..i + 1])
                 == Emitted(activeLow, start, events[..i]) + (if out.Some? then [out.value] else [])
  {
    assert events[..i + 1][..i] == events[..i];
  }

  /** Emitted events only accumulate: a longer stream sends at least what
      its prefix sends. */
  lemma {:induction false} EmittedPrefix(activeLow: bool, start: Option<nat>, events: seq<LineEvent>, n: nat)
    requires n <= |events|
    ensures |Emitted(activeLow, start, events[..n])| <= |Emitted(activeLow, start, events)|
    decreases |events| - n
  {
    if n < |events| {
      EmittedPrefix(activeLow, start, events, n + 1);
      assert events[..n + 1][..n] == events[..n];
    } else {
      assert events[..n] == events;
    }
  }
}
