/** The state rules of the desktop application (src/gui.rs): tap tempo, MIDI
    learn and the learnt tap mapping, the detection toggle, the table of
    remote peers fed by presence messages, and, in the analysis thread, the
    sample accumulator and the five-value tempo history whose mean is
    published. Instants are seconds as reals; the window toolkit, threads
    and channels are outside the model, and the messages they carry are
    passed in or recorded as lists. */
module Gui {
  import opened Common
  import Midi

  /** The learnt tap trigger: a note or a controller on a channel. */
  datatype MidiMapping = MidiMapping(channel: Midi.Byte, noteOrCc: Midi.Byte, isNote: bool)

  /** Commands the window sends to the analysis thread. */
  datatype GuiCommand = SetDetection(enabled: bool) | SetBpm(bpm: real)

  /** Messages from other instances on the network. */
  datatype NetworkMessage =
    | Presence(id: string, name: string, online: bool)
    | EnergyLevel(level: real)
    | AutoGainState(state: bool)
    | OtherMessage

  // ---------------------------------------------------------------------
  // MIDI learn and mapping

  /** The mapping learnt from an event. */
  function Learn(e: Midi.MidiEvent): (m: MidiMapping)
    ensures m.isNote == e.NoteOn? && m.channel == e.channel
    ensures m.noteOrCc == (if e.NoteOn? then e.note else e.controller)
  {
    match e
    case NoteOn(c, n, _) => MidiMapping(c, n, true)
    case ControlChange(c, k, _) => MidiMapping(c, k, false)
  }

  /** An event triggers the mapping when it is of the mapped kind, on the
      mapped channel, with the mapped note or controller number. */
  predicate Triggers(m: MidiMapping, e: Midi.MidiEvent)
  {
    match e
    case NoteOn(c, n, _) => m.isNote && m.channel == c && m.noteOrCc == n
    case ControlChange(c, k, _) => !m.isNote && m.channel == c && m.noteOrCc == k
  }

  /** An event triggers exactly the mapping learnt from an event with the
      same kind, channel and number, whatever its velocity or value. */
  lemma TriggersIffSameSource(e: Midi.MidiEvent, e': Midi.MidiEvent)
    ensures Triggers(Learn(e), e') <==> Learn(e') == Learn(e)
  {
  }

  /** What the MIDI poll of one tick keeps between events: whether learn
      mode is on, the current mapping, and whether a tap was triggered. */
  datatype MidiState = MidiState(learn: bool, mapping: Option<MidiMapping>, tap: bool)

  /** One received event: in learn mode it becomes the mapping and ends
      learn mode; otherwise it triggers a tap when it matches the mapping. */
  function MidiStep(s: MidiState, e: Midi.MidiEvent): MidiState
  {
    if s.learn then MidiState(false, Some(Learn(e)), s.tap)
    else if s.mapping.Some? && Triggers(s.mapping.value, e) then s.(tap := true)
    else s
  }

  /** The events of one poll, in arrival order. */
  function MidiRun(s: MidiState, events: seq<Midi.MidiEvent>): MidiState
  {
    if |events| == 0 then s else MidiStep(MidiRun(s, events[..|events| - 1]), events[|events| - 1])
  }

  /** The feedback message learning from `e` sends: channel 6, the learnt
      number, value 3. */
  function LearnFeedback(e: Midi.MidiEvent): seq<Midi.Byte>
  {
    match e
    case NoteOn(_, n, _) => Midi.NoteOnMessage(6, n, 3)
    case ControlChange(_, k, _) => Midi.ControlChangeMessage(6, k, 3)
  }

  /** The feedback messages of a poll. */
  function MidiFeedback(s: MidiState, events: seq<Midi.MidiEvent>): seq<seq<Midi.Byte>>
  {
    if |events| == 0 then []
    else
      var before := MidiRun(s, events[..|events| - 1]);
      MidiFeedback(s, events[..|events| - 1])
        + (if before.learn then [LearnFeedback(events[|events| - 1])] else [])
  }

  /** One more event of a poll takes one more step and sends the feedback
      of that step. */
  lemma MidiSnoc(s: MidiState, events: seq<Midi.MidiEvent>, n: nat)
    requires n < |events|
    ensures MidiRun(s, events[..n + 1]) == MidiStep(MidiRun(s, events[..n]), events[n])
    ensures MidiFeedback(s, events[..n + 1])
              == MidiFeedback(s, events[..n])
                 + (if MidiRun(s, events[..n]).learn then [LearnFeedback(events[n])] else [])
  {
    assert events[..n + 1][..n] == events[..n];
  }

  /** In learn mode the first event of the poll becomes the mapping, and
      learn mode is over afterwards. */
  lemma {:induction false} FirstEventIsLearnt(s: MidiState, events: seq<Midi.MidiEvent>)
    requires s.learn && |events| > 0
    ensures !MidiRun(s, events).learn
    ensures MidiRun(s, events).mapping == Some(Learn(events[0]))
    decreases |events|
  {
    if |events| > 1 {
      FirstEventIsLearnt(s, events[..|events| - 1]);
    }
  }

  /** Outside learn mode the mapping stays, and a tap is triggered exactly
      when some event matches the mapping. */
  lemma {:induction false} TapIffSomeEventMatches(s: MidiState, events: seq<Midi.MidiEvent>)
    requires !s.learn
    ensures MidiRun(s, events).mapping == s.mapping && !MidiRun(s, events).learn
    ensures MidiRun(s, events).tap <==>
              s.tap || (s.mapping.Some? && exists k :: 0 <= k < |events| && Triggers(s.mapping.value, events[k]))
    decreases |events|
  {
    if |events| > 0 {
      var init := events[..|events| - 1];
      TapIffSomeEventMatches(s, init);
      if s.mapping.Some? {
        var m := s.mapping.value;
        if exists k :: 0 <= k < |events| && Triggers(m, events[k]) {
          var k :| 0 <= k < |events| && Triggers(m, events[k]);
          if k < |events| - 1 {
            assert Triggers(m, init[k]);
          }
        }
        if exists k :: 0 <= k < |init| && Triggers(m, init[k]) {
          var k :| 0 <= k < |init| && Triggers(m, init[k]);
          assert Triggers(m, events[k]);
        }
      }
    }
  }

  // ---------------------------------------------------------------------
  // Tap tempo

  /** `Instant::duration_since`, saturating at zero, in seconds. */
  function Elapsed(earlier: real, later: real): real
  {
    if later >= earlier then later - earlier else 0.0
  }

  /** The intervals between consecutive taps. */
  function Intervals(taps: seq<real>): (r: seq<real>)
    ensures |taps| > 0 ==> |r| == |taps| - 1
    ensures |taps| == 0 ==> r == []
  {
    if |taps| <= 1 then [] else seq(|taps| - 1, i requires 0 <= i < |taps| - 1 => Elapsed(taps[i], taps[i + 1]))
  }

  predicate Ascending(taps: seq<real>)
  {
    forall i, j :: 0 <= i <= j < |taps| ==> taps[i] <= taps[j]
  }

  /** For taps in time order the intervals add up to the time from the
      first tap to the last. */
  lemma {:induction false} IntervalsTelescope(taps: seq<real>)
    requires |taps| > 0 && Ascending(taps)
    ensures Sum(Intervals(taps)) == taps[|taps| - 1] - taps[0]
    decreases |taps|
  {
    if |taps| > 1 {
      var init := taps[..|taps| - 1];
      IntervalsTelescope(init);
      var ints := Intervals(taps);
      assert ints[..|ints| - 1] == Intervals(init);
    }
  }

  /** The tempo a full list of taps sets: 60 over the mean interval, when
      there are five taps, the mean interval is positive and the tempo lies
      in [100, 400]. */
  function TapTempo(taps: seq<real>): Option<real>
  {
    if |taps| >= 5 then
      var avg := Sum(Intervals(taps)) / (|taps| - 1) as real;
      if avg > 0.0 && 100.0 <= 60.0 / avg <= 400.0 then Some(60.0 / avg) else None
    else None
  }

  /** Five taps in time order set a tempo exactly when they span between
      0.6 s and 2.4 s, and the tempo is four beats over that span. */
  lemma TapTempoFromSpan(taps: seq<real>)
    requires |taps| == 5 && Ascending(taps)
    ensures var span := taps[4] - taps[0];
            && (TapTempo(taps).Some? <==> 0.6 <= span <= 2.4)
            && (TapTempo(taps).Some? ==> TapTempo(taps).value * span == 240.0)
  {
    IntervalsTelescope(taps);
    var span := taps[4] - taps[0];
    var avg := span / 4.0;
    assert Sum(Intervals(taps)) / (|taps| - 1) as real == avg;
    if avg > 0.0 {
      var b := 60.0 / avg;
      assert b * avg == 60.0;
      assert b * span == 240.0;
      if 100.0 <= b {
        assert 100.0 * span <= b * span;
      }
      if b <= 400.0 {
        assert b * span <= 400.0 * span;
      }
      if 0.6 <= span {
        assert 60.0 == b * avg >= b * 0.15;
      }
      if span <= 2.4 {
        assert 60.0 == b * avg <= b * 0.6;
      }
    }
  }

  /** The tap list a new tap at `now` starts from: emptied when the last
      tap is more than 0.6 s old. */
  function TapBase(taps: seq<real>, now: real): seq<real>
  {
    if |taps| > 0 && Elapsed(taps[|taps| - 1], now) > 0.6 then [] else taps
  }

  // ---------------------------------------------------------------------
  // Presence

  /** The peer table after a list of network messages. */
  function ApplyPresence(peers: map<string, string>, msgs: seq<NetworkMessage>): map<string, string>
  {
    if |msgs| == 0 then peers
    else
      var before := ApplyPresence(peers, msgs[..|msgs| - 1]);
      match msgs[|msgs| - 1]
      case Presence(id, name, online) => if online then before[id := name] else before - {id}
      case _ => before
  }

  /** The energy level after a list of network messages: the level of the
      last `EnergyLevel` message, or `e` when there is none. */
  function LastEnergy(e: real, msgs: seq<NetworkMessage>): (r: real)
    ensures (forall k :: 0 <= k < |msgs| ==> !msgs[k].EnergyLevel?) ==> r == e
    ensures forall k :: 0 <= k < |msgs| && msgs[k].EnergyLevel? ==>
              (forall j :: k < j < |msgs| ==> !msgs[j].EnergyLevel?) ==> r == msgs[k].level
  {
    if |msgs| == 0 then e
    else if msgs[|msgs| - 1].EnergyLevel? then msgs[|msgs| - 1].level
    else
      var init := msgs[..|msgs| - 1];
      assert forall k :: 0 <= k < |init| ==> init[k] == msgs[k];
      LastEnergy(e, init)
  }

  /** The remote auto-gain flag after a list of network messages: the state
      of the last `AutoGainState` message, or `g` when there is none. */
  function LastAutoGain(g: bool, msgs: seq<NetworkMessage>): (r: bool)
    ensures (forall k :: 0 <= k < |msgs| ==> !msgs[k].AutoGainState?) ==> r == g
    ensures forall k :: 0 <= k < |msgs| && msgs[k].AutoGainState? ==>
              (forall j :: k < j < |msgs| ==> !msgs[j].AutoGainState?) ==> r == msgs[k].state
  {
    if |msgs| == 0 then g
    else if msgs[|msgs| - 1].AutoGainState? then msgs[|msgs| - 1].state
    else
      var init := msgs[..|msgs| - 1];
      assert forall k :: 0 <= k < |init| ==> init[k] == msgs[k];
      LastAutoGain(g, init)
  }

  /** Handling one more message continues each of the three folds from
      where the earlier messages left it. */
  lemma NetworkSnoc(peers: map<string, string>, e: real, g: bool, msgs: seq<NetworkMessage>, i: nat)
    requires i < |msgs|
    ensures ApplyPresence(peers, msgs[..i + 1]) == ApplyPresence(ApplyPresence(peers, msgs[..i]), [msgs[i]])
    ensures LastEnergy(e, msgs[..i + 1]) == LastEnergy(LastEnergy(e, msgs[..i]), [msgs[i]])
    ensures LastAutoGain(g, msgs[..i + 1]) == LastAutoGain(LastAutoGain(g, msgs[..i]), [msgs[i]])
  {
    assert msgs[..i + 1][..i] == msgs[..i];
    assert [msgs[i]][..0] == [];
  }

  /** A peer that no message mentions keeps its entry. */
  lemma {:induction false} UnmentionedPeerKept(peers: map<string, string>, msgs: seq<NetworkMessage>, id: string)
    requires forall k :: 0 <= k < |msgs| ==> !(msgs[k].Presence? && msgs[k].id == id)
    ensures id in ApplyPresence(peers, msgs) <==> id in peers
    ensures id in peers ==> ApplyPresence(peers, msgs)[id] == peers[id]
    decreases |msgs|
  {
    if |msgs| > 0 {
      UnmentionedPeerKept(peers, msgs[..|msgs| - 1], id);
    }
  }

  /** A peer's entry is decided by the last presence message about it: an
      online message lists it under the name it carried, an offline one
      removes it. */
  lemma {:induction false} LastPresenceDecides(peers: map<string, string>, msgs: seq<NetworkMessage>, id: string, k: nat)
    requires k < |msgs| && msgs[k].Presence? && msgs[k].id == id
    requires forall j :: k < j < |msgs| ==> !(msgs[j].Presence? && msgs[j].id == id)
    ensures id in ApplyPresence(peers, msgs) <==> msgs[k].online
    ensures msgs[k].online ==> ApplyPresence(peers, msgs)[id] == msgs[k].name
    decreases |msgs|
  {
    var init := msgs[..|msgs| - 1];
    if k < |msgs| - 1 {
      LastPresenceDecides(peers, init, id, k);
    }
  }

  /** The window's state. */
  class BpmApp {
    var bpm: Option<real>
    var isEnabled: bool
    var tapTimes: seq<real>
    var midiLearn: bool
    var tapMidiMapping: Option<MidiMapping>
    var remotePeers: map<string, string>
    var networkEnergy: real
    var remoteAutoGain: bool
    /** Commands sent to the analysis thread, in order. */
    var commands: seq<GuiCommand>

    ghost predicate Valid()
      reads this
    {
      |tapTimes| <= 5
    }

    constructor()
      ensures Valid()
      ensures bpm == None && !isEnabled && tapTimes == [] && !midiLearn && tapMidiMapping == None
      ensures remotePeers == map[] && networkEnergy == 0.0 && !remoteAutoGain && commands == []
    {
      bpm := None;
      isEnabled := false;
      tapTimes := [];
      midiLearn := false;
      tapMidiMapping := None;
      remotePeers := map[];
      networkEnergy := 0.0;
      remoteAutoGain := false;
      commands := [];
    }

    /** The loop of `Message::Tap` that adds up the tap intervals. */
    method SumIntervals() returns (sum: real)
      requires |tapTimes| >= 1
      ensures sum == Sum(Intervals(tapTimes))
    {
      sum := 0.0;
      ghost var ints := Intervals(tapTimes);
      for i := 0 to |tapTimes| - 1
        invariant sum == Sum(ints[..i])
      {
        assert ints[..i + 1][..i] == ints[..i];
        sum := sum + Elapsed(tapTimes[i], tapTimes[i + 1]);
      }
      assert ints[..|tapTimes| - 1] == ints;
    }

    /** The tempo computation of `Message::Tap` on the current list. */
    method CurrentTapTempo() returns (t: Option<real>)
      ensures t == TapTempo(tapTimes)
    {
      t := None;
      if |tapTimes| >= 5 {
        var sumIntervals := SumIntervals();
        var avgInterval := sumIntervals / (|tapTimes| - 1) as real;
        if avgInterval > 0.0 {
          var newBpm := 60.0 / avgInterval;
          if newBpm >= 100.0 && newBpm <= 400.0 {
            t := Some(newBpm);
          }
        }
      }
    }

    /** `Message::Tap` at instant `now`: a pause of more than 0.6 s
        restarts the list, only the last five taps are kept, and a full
        list sets and sends the tempo `TapTempo` gives. */
    method Tap(now: real)
      requires Valid()
      modifies this
      ensures Valid()
      ensures tapTimes == Suffix(TapBase(old(tapTimes), now) + [now], 5)
      ensures TapTempo(tapTimes).Some? ==>
                bpm == TapTempo(tapTimes) && commands == old(commands) + [SetBpm(TapTempo(tapTimes).value)]
      ensures TapTempo(tapTimes).None? ==> bpm == old(bpm) && commands == old(commands)
      ensures isEnabled == old(isEnabled) && midiLearn == old(midiLearn)
      ensures tapMidiMapping == old(tapMidiMapping) && remotePeers == old(remotePeers)
      ensures networkEnergy == old(networkEnergy) && remoteAutoGain == old(remoteAutoGain)
    {
      PushTap(now);
      PublishTapTempo();
    }

    /** The list update of `Message::Tap`. */
    method PushTap(now: real)
      requires Valid()
      modifies this
      ensures Valid()
      ensures tapTimes == Suffix(TapBase(old(tapTimes), now) + [now], 5)
      ensures bpm == old(bpm) && commands == old(commands)
      ensures isEnabled == old(isEnabled) && midiLearn == old(midiLearn)
      ensures tapMidiMapping == old(tapMidiMapping) && remotePeers == old(remotePeers)
      ensures networkEnergy == old(networkEnergy) && remoteAutoGain == old(remoteAutoGain)
    {
      if |tapTimes| > 0 && Elapsed(tapTimes[|tapTimes| - 1], now) > 0.6 {
        tapTimes := [];
      }
      BoundedPush(tapTimes, now, 5);
      tapTimes := tapTimes + [now];
      if |tapTimes| > 5 {
        tapTimes := tapTimes[1..];
      }
    }

    /** The tempo update of `Message::Tap` on the updated list. */
    method PublishTapTempo()
      modifies this
      ensures TapTempo(tapTimes).Some? ==>
                bpm == TapTempo(tapTimes) && commands == old(commands) + [SetBpm(TapTempo(tapTimes).value)]
      ensures TapTempo(tapTimes).None? ==> bpm == old(bpm) && commands == old(commands)
      ensures tapTimes == old(tapTimes) && isEnabled == old(isEnabled) && midiLearn == old(midiLearn)
      ensures tapMidiMapping == old(tapMidiMapping) && remotePeers == old(remotePeers)
      ensures networkEnergy == old(networkEnergy) && remoteAutoGain == old(remoteAutoGain)
    {
      var tempo := CurrentTapTempo();
      if tempo.Some? {
        bpm := tempo;
        commands := commands + [SetBpm(tempo.value)];
      }
    }

    /** `Message::ToggleDetection`: flips detection, forgets the tempo
        when it is turned off, and tells the analysis thread. */
    method ToggleDetection()
      requires Valid()
      modifies this
      ensures Valid()
      ensures isEnabled == !old(isEnabled)
      ensures bpm == (if isEnabled then old(bpm) else None)
      ensures commands == old(commands) + [SetDetection(isEnabled)]
      ensures tapTimes == old(tapTimes) && midiLearn == old(midiLearn)
      ensures tapMidiMapping == old(tapMidiMapping) && remotePeers == old(remotePeers)
      ensures networkEnergy == old(networkEnergy) && remoteAutoGain == old(remoteAutoGain)
    {
      isEnabled := !isEnabled;
      if !isEnabled {
        bpm := None;
      }
      commands := commands + [SetDetection(isEnabled)];
    }

    /** `Message::ToggleMidiLearn`. */
    method ToggleMidiLearn()
      modifies this
      ensures midiLearn == !old(midiLearn)
      ensures tapMidiMapping == old(tapMidiMapping) && tapTimes == old(tapTimes) && bpm == old(bpm)
      ensures isEnabled == old(isEnabled) && remotePeers == old(remotePeers) && commands == old(commands)
      ensures networkEnergy == old(networkEnergy) && remoteAutoGain == old(remoteAutoGain)
    {
      midiLearn := !midiLearn;
    }

    /** The network poll of `Message::Tick`. */
    method PollNetwork(msgs: seq<NetworkMessage>)
      modifies this
      ensures remotePeers == ApplyPresence(old(remotePeers), msgs)
      ensures networkEnergy == LastEnergy(old(networkEnergy), msgs)
      ensures remoteAutoGain == LastAutoGain(old(remoteAutoGain), msgs)
      ensures bpm == old(bpm) && tapTimes == old(tapTimes) && commands == old(commands)
      ensures midiLearn == old(midiLearn) && tapMidiMapping == old(tapMidiMapping)
      ensures isEnabled == old(isEnabled)
    {
      for i := 0 to |msgs|
        invariant remotePeers == ApplyPresence(old(remotePeers), msgs[..i])
        invariant networkEnergy == LastEnergy(old(networkEnergy), msgs[..i])
        invariant remoteAutoGain == LastAutoGain(old(remoteAutoGain), msgs[..i])
        invariant bpm == old(bpm) && tapTimes == old(tapTimes) && commands == old(commands)
        invariant midiLearn == old(midiLearn) && tapMidiMapping == old(tapMidiMapping)
        invariant isEnabled == old(isEnabled)
      {
        NetworkSnoc(old(remotePeers), old(networkEnergy), old(remoteAutoGain), msgs, i);
        Receive(msgs[i]);
      }
      assert msgs[..|msgs|] == msgs;
    }

    /** One network message of the poll. */
    method Receive(msg: NetworkMessage)
      modifies this
      ensures remotePeers == ApplyPresence(old(remotePeers), [msg])
      ensures networkEnergy == LastEnergy(old(networkEnergy), [msg])
      ensures remoteAutoGain == LastAutoGain(old(remoteAutoGain), [msg])
      ensures bpm == old(bpm) && tapTimes == old(tapTimes) && commands == old(commands)
      ensures midiLearn == old(midiLearn) && tapMidiMapping == old(tapMidiMapping)
      ensures isEnabled == old(isEnabled)
    {
      assert [msg][..0] == [];
      match msg
      case Presence(id, name, online) =>
        if online {
          remotePeers := remotePeers[id := name];
        } else {
          remotePeers := remotePeers - {id};
        }
      case EnergyLevel(level) =>
        networkEnergy := level;
      case AutoGainState(state) =>
        remoteAutoGain := state;
      case OtherMessage =>
    }

    /** The MIDI poll of `Message::Tick`: every pending event is received
        and handled by `MidiStep`; learning sends its feedback message.
        The answer says whether a tap was triggered. */
    method PollMidi(midi: Midi.MidiManager) returns (shouldTap: bool)
      modifies this, midi
      ensures var after := MidiRun(MidiState(old(midiLearn), old(tapMidiMapping), false), old(midi.pending));
              && midiLearn == after.learn && tapMidiMapping == after.mapping && shouldTap == after.tap
      ensures midi.pending == [] && midi.outputOpen == old(midi.outputOpen)
      ensures midi.written == old(midi.written)
                + (if midi.outputOpen
                   then MidiFeedback(MidiState(old(midiLearn), old(tapMidiMapping), false), old(midi.pending))
                   else [])
      ensures bpm == old(bpm) && tapTimes == old(tapTimes) && commands == old(commands)
      ensures isEnabled == old(isEnabled) && remotePeers == old(remotePeers)
      ensures networkEnergy == old(networkEnergy) && remoteAutoGain == old(remoteAutoGain)
    {
      ghost var events := midi.pending;
      ghost var s0 := MidiState(midiLearn, tapMidiMapping, false);
      shouldTap := false;
      ghost var n := 0;
      while true
        invariant 0 <= n <= |events| && midi.pending == events[n..]
        invariant MidiState(midiLearn, tapMidiMapping, shouldTap) == MidiRun(s0, events[..n])
        invariant midi.outputOpen == old(midi.outputOpen)
        invariant midi.written == old(midi.written)
                    + (if midi.outputOpen then MidiFeedback(s0, events[..n]) else [])
        invariant bpm == old(bpm) && tapTimes == old(tapTimes) && commands == old(commands)
        invariant isEnabled == old(isEnabled) && remotePeers == old(remotePeers)
        invariant networkEnergy == old(networkEnergy) && remoteAutoGain == old(remoteAutoGain)
        decreases |midi.pending|
      {
        var received := midi.TryRecv();
        if received.None? {
          break;
        }
        var event := received.value;
        assert event == events[n];
        MidiSnoc(s0, events, n);
        if midiLearn {
          tapMidiMapping := Some(Learn(event));
          midiLearn := false;
          match event
          case NoteOn(_, note, _) =>
            midi.SendNoteOn(6, note, 3);
          case ControlChange(_, controller, _) =>
            midi.SendControlChange(6, controller, 3);
        } else if tapMidiMapping.Some? {
          if Triggers(tapMidiMapping.value, event) {
            shouldTap := true;
          }
        }
        n := n + 1;
      }
      assert events[..n] == events;
    }
  }

  // ---------------------------------------------------------------------
  // The analysis thread

  /** Mean of a non-empty list. */
  function Mean(s: seq<real>): real
    requires |s| > 0
  {
    Sum(s) / |s| as real
  }

  /** A sum lies between the length times the smallest and the length
      times the largest element. */
  lemma {:induction false} SumBounds(s: seq<real>, lo: real, hi: real)
    requires forall k :: 0 <= k < |s| ==> lo <= s[k] <= hi
    ensures |s| as real * lo <= Sum(s) <= |s| as real * hi
    decreases |s|
  {
    if |s| > 0 {
      SumBounds(s[..|s| - 1], lo, hi);
      var m := (|s| - 1) as real;
      assert m * lo + lo == |s| as real * lo;
      assert m * hi + hi == |s| as real * hi;
    }
  }

  /** The published mean lies within the range of the history it averages. */
  lemma MeanWithinRange(s: seq<real>, lo: real, hi: real)
    requires |s| > 0
    requires forall k :: 0 <= k < |s| ==> lo <= s[k] <= hi
    ensures lo <= Mean(s) <= hi
  {
    SumBounds(s, lo, hi);
    var n := |s| as real;
    assert Mean(s) * n == Sum(s);
  }

  /** The state of `run_analysis_loop` that the model follows. */
  class AnalysisLoop {
    var isEnabled: bool
    var hopSize: nat
    var accumulator: seq<real>
    var history: seq<real>
    /** Averaged tempi sent to the window, in order. */
    var sent: seq<real>

    ghost predicate Valid()
      reads this
    {
      && |history| <= 5
      && (!isEnabled ==> accumulator == [] && history == [])
    }

    constructor(targetSampleRate: nat)
      ensures Valid()
      ensures !isEnabled && hopSize == targetSampleRate && accumulator == [] && history == [] && sent == []
    {
      isEnabled := false;
      hopSize := targetSampleRate;
      accumulator := [];
      history := [];
      sent := [];
    }

    /** `GuiCommand::SetDetection`: disabling clears the accumulator and
        the history. */
    method SetDetection(enabled: bool)
      requires Valid()
      modifies this
      ensures Valid()
      ensures isEnabled == enabled && hopSize == old(hopSize) && sent == old(sent)
      ensures enabled ==> accumulator == old(accumulator) && history == old(history)
      ensures !enabled ==> accumulator == [] && history == []
    {
      isEnabled := enabled;
      if !enabled {
        accumulator := [];
        history := [];
      }
    }

    /** `AudioMessage::Samples`: while enabled the packet is accumulated and,
        once a hop's worth is there, analysed (`analysis` is the analyser's
        tempo, if it finds one): the tempo enters the five-value history, the
        history's mean is sent, and the accumulator is emptied. */
    method OnSamples(packet: seq<real>, analysis: Option<real>)
      requires Valid()
      modifies this
      ensures Valid()
      ensures isEnabled == old(isEnabled) && hopSize == old(hopSize)
      ensures !isEnabled ==> accumulator == [] && history == old(history) && sent == old(sent)
      ensures isEnabled && |old(accumulator) + packet| < hopSize ==>
                accumulator == old(accumulator) + packet && history == old(history) && sent == old(sent)
      ensures isEnabled && |old(accumulator) + packet| >= hopSize ==>
                && accumulator == []
                && (analysis.None? ==> history == old(history) && sent == old(sent))
                && (analysis.Some? ==>
                      && history == Suffix(old(history) + [analysis.value], 5)
                      && sent == old(sent) + [Mean(history)])
    {
      if isEnabled {
        accumulator := accumulator + packet;
        if |accumulator| >= hopSize {
          if analysis.Some? {
            PublishTempo(analysis.value);
          }
          accumulator := [];
        }
      } else {
        accumulator := [];
      }
    }

    /** A tempo found by the analyser enters the history, which keeps the
        last five, and the history's mean is sent to the window. */
    method PublishTempo(bpm: real)
      requires Valid() && isEnabled
      modifies this
      ensures Valid()
      ensures history == Suffix(old(history) + [bpm], 5)
      ensures sent == old(sent) + [Mean(history)]
      ensures isEnabled == old(isEnabled) && hopSize == old(hopSize) && accumulator == old(accumulator)
    {
      BoundedPush(history, bpm, 5);
      if |history| >= 5 {
        history := history[1..];
      }
      history := history + [bpm];
      var avgBpm := Sum(history) / |history| as real;
      sent := sent + [avgBpm];
    }

    /** `AudioMessage::Reset`. */
    method OnReset()
      requires Valid()
      modifies this
      ensures Valid()
      ensures accumulator == [] && history == old(history) && sent == old(sent)
      ensures isEnabled == old(isEnabled) && hopSize == old(hopSize)
    {
      accumulator := [];
    }

    /** `AudioMessage::SampleRateChanged`: when the analyser can be rebuilt
        for the new rate, the hop becomes half a second at that rate. */
    method OnSampleRateChanged(rate: nat, analyzerBuilt: bool)
      requires Valid()
      modifies this
      ensures Valid()
      ensures hopSize == (if analyzerBuilt then rate / 2 else old(hopSize))
      ensures accumulator == old(accumulator) && history == old(history) && sent == old(sent)
      ensures isEnabled == old(isEnabled)
    {
      if analyzerBuilt {
        hopSize := rate / 2;
      }
    }
  }
}
