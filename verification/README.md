# Tempo detector: a verified model

This project is a Dafny model of the core of a live tempo detector. The detector listens to audio, estimates its tempo in beats per minute (BPM), and shares it with MIDI devices, network peers and an embedded display. The model covers:

- **Template-voting tempo estimator**, in both implementations:
  - the Python one (`ExtractBpmPatterns.py`, `BpmAnalizer.py`);
  - the Rust one (`src/core_bpm/bpm_pattern.rs`, `src/core_bpm/analyzer.rs`).

  A pattern grid holds, for each candidate tempo, the frame positions where beats would fall. The audio signal becomes one "beat event" per half-second window. Each event votes for the rows of the candidate patterns that contain a beat within 20 frames of it. A candidate's score is the multiplicity of its most frequent voted row. In the Rust analyzer, and in the corrected Python gate, a unique winner with a score of at least 6 is accepted. The Python `check_bpm_wrapped` as written compares the scores with the winner's index rather than with 6 (see Findings). A second pass over a 40-candidate window of the fine grid refines the result.
- **Capture side:**
  - the Python rolling sample window (`AudioStreamer.py`);
  - the Rust capture worker's crash limiter, sample-rate and buffer-size selection, and retry step count (`src/core_bpm/audio.rs`).
- **Control side:**
  - MIDI decoding, encoding and sends (`src/midi.rs`);
  - the GUI's tap tempo, MIDI learn and mapping, detection toggle and peer presence, and the analysis loop's accumulator and tempo history (`src/gui.rs`);
  - the hardware button's press classifier (`src/core_embedded/button.rs`);
  - the uevent parser and USB-add filter (`src/core_embedded/usb.rs`);
  - the netlink link-status handling and interface-name cache (`src/core_embedded/network.rs`);
  - the discovery manager's interface bookkeeping (`src/network_sync/discovery.rs`).

Modules and files:

| module | file | models |
|---|---|---|
| `Common` | common.dfy | shared helpers: `Option`, `Result`, `u32` saturation, sequence suffix, flatten and stride |
| `Voting` | voting.dfy | vote semantics shared by both estimators: row hits within ±20 frames, multiplicity, mode, arg-max |
| `PyPatterns` | pattern_py.dfy | `ExtractBpmPatterns.py`: grid filling in place on a 3-D array |
| `RsPattern` | pattern_rs.dfy | `bpm_pattern.rs`: `BpmPattern::generate` with saturating `u32` arithmetic |
| `PyAnalyzer` | analyzer_py.dfy | `BpmAnalizer.py`: beat events marked in place on an array, container, wrap, finalise, gate, windows, the `BpmAnalyzer` class |
| `RsAnalyzer` | analyzer_rs.dfy | `analyzer.rs`: the same pipeline with binary search, no seed zeros, ceil-free windows, the `Analyzer` class with its bounded buffer |
| `Streamer` | audio_streamer.dfy | `AudioStreamer.py`: int16 unpacking, the bounded deque, the stream callback, device listing |
| `CaptureWorker` | audio_worker.dfy | `audio.rs`: crash limiter, retry steps, rate selection loop, buffer clamp |
| `Midi` | midi.dfy | `midi.rs` |
| `Gui` | gui.dfy | `gui.rs` |
| `ButtonMonitor` | button.dfy | `button.rs` |
| `Uevent` | uevent.dfy | `usb.rs` |
| `Link` | link.dfy | `network.rs` |
| `Discovery` | discovery.dfy | `discovery.rs` |

Throughout the model:

- Floating-point tempo values are exact reals.
- The beat period in frames, which the source computes as `int(60 / bpm * frame_rate)`, is a function parameter from tempo to frames.
- Clocks, devices, sockets and threads are parameters or are left out.
- Where a finding below shows the source deviating from its evident intent, the analyzer classes (`PyAnalyzer.BpmAnalyzer`, `RsAnalyzer.Analyzer`) compute what the program computes, with the definition as written. The corrected definition stands beside it, with lemmas that prove the intended property of the corrected one and exhibit the difference.

## Model

| member | source | states |
|---|---|---|
| PyPatterns.FillGrid | ExtractBpmPatterns.py:12-22 | the new array has `count` layers of `lengh` rows of 32 entries; entry (i,x,y) is y periods of candidate i's tempo plus 20(x+1) |
| PyPatterns.FillLayer | ExtractBpmPatterns.py:15-22 | fills layer i with the beat positions of one period and leaves every other layer unchanged |
| PyPatterns.FillRow | ExtractBpmPatterns.py:16-22 | fills row (i,x) with y·period + 20(x+1) and leaves every other row unchanged |
| PyPatterns.ExtractBpmPattern | ExtractBpmPatterns.py:6-24 | the coarse grid has int((width+10)/0.25) candidates, and candidate i stands for tempo start−10+(i+1)·0.25, because `add` is incremented before the period is taken |
| PyPatterns.ExtractBpmPatternFine | ExtractBpmPatterns.py:27-45 | the fine grid has int((width+10)/0.05) candidates, and candidate i stands for tempo start−10+i·0.05, because the period is taken before `add` is incremented |
| PyPatterns.Lengh | ExtractBpmPatterns.py:52 | the row count is the floor of frameRate/40: 40·r ≤ frameRate < 40·(r+1) |
| PyPatterns.Extract | ExtractBpmPatterns.py:48-64 | the six grids: 440 coarse and 2200 fine candidates for the bases 60, 130 and 210 |
| PyPatterns.RowIncreasing | ExtractBpmPatterns.py:19-22 | along a row, entries differ by (y2−y1) periods, and they increase strictly when the period is positive |
| PyPatterns.RowShift | ExtractBpmPatterns.py:18-22 | the next row of a candidate is the same row shifted by 20 frames, and row x starts at 20(x+1) |
| PyPatterns.CoarseFineAlignment | ExtractBpmPatterns.py:13-14 | coarse candidate i has the tempo of fine candidate 5(i+1), and fine candidate 5i lies 0.25 BPM below coarse candidate i |
| PyPatterns.DefaultCounts | ExtractBpmPatterns.py:7 | with width 100 the grids have 440 and 2200 candidates |
| RsPattern.BeatPositions | src/core_bpm/bpm_pattern.rs:48-57 | the 32 beat positions of a row are y·period + jump, saturating at `u32::MAX` |
| RsPattern.SatMultiple | src/core_bpm/bpm_pattern.rs:50-57 | repeated saturating addition of the period equals the saturated multiple |
| RsPattern.CandidateRows | src/core_bpm/bpm_pattern.rs:45-59 | `lengh` rows of 32 entries, each entry the saturated position of beat y of row x |
| RsPattern.Generate | src/core_bpm/bpm_pattern.rs:27-69 | ceil((end−start+10)/step) candidates, saturating to 0 when that quotient is negative; candidate i stands for tempo start−10+(i+1)·step; the metadata is echoed |
| RsPattern.RowsSorted | src/core_bpm/bpm_pattern.rs:50-57 | every generated row is sorted ascending, which the binary search in `bpm_container` relies on |
| RsPattern.EntryMatchesPython | src/core_bpm/bpm_pattern.rs:54-57 | below the `u32` limit, a Rust entry equals the Python entry |
| RsPattern.CountAndTempoMatchPython | src/core_bpm/bpm_pattern.rs:36-42 | the Rust coarse grid over 100 BPM at step 0.25 has the same candidate count and tempos as the Python coarse grid |
| RsPattern.FineTempoOffByOneStep | src/core_bpm/bpm_pattern.rs:39-44 | Rust fine candidate i has the tempo of Python fine candidate i+1, because Rust increments before taking the period |
| Voting.RowHits | BpmAnalizer.py:76 | the hits of one event in one row number at most the row length |
| Voting.ModeOf | BpmAnalizer.py:96-97 | the chosen value occurs, has the largest multiplicity, and is the smallest among the values with that multiplicity, as `np.unique` returns sorted values |
| Voting.SmallestModeIsMode | BpmAnalizer.py:96-97 | the smallest mode of a non-empty list is a member and no value is more frequent |
| Voting.MaxMultBounds | BpmAnalizer.py:96-100 | the top multiplicity of a non-empty list lies in 1..length, is reached, and bounds every value's multiplicity |
| Voting.FirstArgMax | BpmAnalizer.py:70 | `argmax` gives the first index holding the maximum |
| Voting.LastArgMax | src/core_bpm/analyzer.rs:193-198 | `max_by` gives the last index holding the maximum |
| Voting.IndicesOf | BpmAnalizer.py:103-104 | `np.where(x == v)` gives exactly the indices holding v, ascending |
| Voting.VotesRange | BpmAnalizer.py:76-79 | every vote is a row index of the candidate |
| PyAnalyzer.ChunkMax | BpmAnalizer.py:68 | the window maximum is an element and bounds every element |
| PyAnalyzer.WindowEvent | BpmAnalizer.py:66-71 | the event of the window starting at p lies inside that window |
| PyAnalyzer.MarkWindow | BpmAnalizer.py:67-70 | the window is overwritten in place with its 0/1 marks, the rest of the array is unchanged, and the event is the first arg-max of the marks |
| PyAnalyzer.SearchBeatEvents | BpmAnalizer.py:63-72 | the array ends up marked window by window, and the events are one per window of frameRate/2 samples, the last window possibly short |
| PyAnalyzer.EventCount | BpmAnalizer.py:65 | there are ceil(n/step) events, one per `range(0, n, step)` start |
| PyAnalyzer.EventInWindow | BpmAnalizer.py:66-71 | event j lies in [j·step, min((j+1)·step, n)) |
| PyAnalyzer.PositiveWindowEvent | BpmAnalizer.py:68-70 | in a window of positive samples, the marks are 1 exactly at the maximum, and the event is the earliest maximal sample |
| PyAnalyzer.NegativeWindowEvent | BpmAnalizer.py:68-70 | in a window whose maximum is negative, the maximum is never turned into 1: on [−3,−5] the event is index 1, not the maximum at index 0 |
| PyAnalyzer.BpmContainer | BpmAnalizer.py:74-80 | cell i·steps+q holds a seed 0 followed by the row indices of candidate q that have a beat within ±20 of event i, in row order |
| PyAnalyzer.NonZeroKeeps | BpmAnalizer.py:90 | the zero filter removes every 0 and keeps the multiplicity of every other value |
| PyAnalyzer.RemoveFirst | BpmAnalizer.py:89 | `list.remove` of a present value drops its first occurrence: the list is one shorter, and the entries before and after that index keep their order |
| PyAnalyzer.RemoveFirstCount | BpmAnalizer.py:89 | `list.remove` takes away exactly one copy of the value |
| PyAnalyzer.WrapBpmContainer | BpmAnalizer.py:82-91 | wrapped candidate q is the zero-filtered concatenation of cells q, q+steps, … |
| PyAnalyzer.WrapIsVotes | BpmAnalizer.py:74-91 | wrapped candidate q is exactly the non-zero votes of candidate q over all events, so row-0 hits are dropped |
| PyAnalyzer.FinaliseBpmContainer | BpmAnalizer.py:93-101 | the scores are the top multiplicity of each wrapped list; an empty list makes `.max()` fail, which is the `ValueError` path |
| PyAnalyzer.PositiveScore | BpmAnalizer.py:96-100 | for a list of positive votes the score is the top multiplicity, between 1 and the list length |
| PyAnalyzer.GetBpmWrapped | BpmAnalizer.py:103-104 | the winners are exactly the indices holding the maximal score, and the first is the first arg-max |
| PyAnalyzer.UniqueWinnerGateSpec | BpmAnalizer.py:106-111 | the intended gate holds iff the first arg-max is strictly above every other score and is at least 6 |
| PyAnalyzer.CheckAcceptsTie | BpmAnalizer.py:106-111 | as written, the scores [0,7,7] pass although two candidates tie, and the intended gate rejects them |
| PyAnalyzer.CheckRejectsUniqueWinner | BpmAnalizer.py:106-111 | as written, the scores [9,0,0] fail although candidate 0 wins alone with 9, and the intended gate accepts them |
| PyAnalyzer.FineWindow | BpmAnalizer.py:113-116 | the fine window starts at int(idx/4/0.05 − 20), i.e. 5·idx−20, and is 40 long |
| PyAnalyzer.PySlice | BpmAnalizer.py:161-164 | Python slicing never yields more than the list or the span |
| PyAnalyzer.FineSlice | BpmAnalizer.py:161-164 | for idx ≥ 4 the slice is the 40 fine candidates 5idx−20 … 5idx+19; for idx < 4 the negative start makes the slice empty |
| PyAnalyzer.PyBpm | BpmAnalizer.py:118-123 | the reported tempo is fine candidate 5·idx−20+f |
| PyAnalyzer.WindowHoldsCoarseTempo | BpmAnalizer.py:113-123 | the fine candidate at offset 25 of the window has the coarse winner's tempo |
| PyAnalyzer.Pass | BpmAnalizer.py:144-157 | one pass (container, wrap, finalise) yields the scores of the specification, or none when some candidate received no vote |
| PyAnalyzer.ShortGridFails | BpmAnalizer.py:144-157 | a grid with fewer candidates than steps always takes the `ValueError` path |
| PyAnalyzer.FineWindowInside | BpmAnalizer.py:159-164 | after an accepted coarse pass whose fine pass is reached, the winner is at least 4 and the window lies inside the fine grid |
| PyAnalyzer.SearchUnfold | BpmAnalizer.py:141-169 | under either gate, an estimate means both passes produced scores that passed the gate, the coarse winner idx is at least 4 with its window inside the fine grid, and the value is the tempo of fine candidate 5·idx−20+f |
| PyAnalyzer.AsWrittenSearchEstimate | BpmAnalizer.py:141-169 | an estimate of `search_bpm` as written means: each winner scores at least 6 and fewer than two scores equal the winner's index; the winners need not be unique; the value is the tempo of fine candidate 5·idx−20+f |
| PyAnalyzer.AsWrittenGateIsThreshold | BpmAnalizer.py:106-111 | once the winner's index exceeds every score, the gate as written only asks for a score of at least 6, so ties at the maximum pass |
| PyAnalyzer.SearchesAgree | BpmAnalizer.py:141-169 | the search as written and the corrected search agree wherever the two gates agree on the scores they test |
| PyAnalyzer.SearchEstimate | BpmAnalizer.py:141-169 | with the corrected gate, an estimate means both passes had a unique winner of score ≥ 6 and the coarse winner idx is at least 4; its value is the tempo of fine candidate 5·idx−20+f |
| PyAnalyzer.BpmAnalyzer.constructor | BpmAnalizer.py:17-61 | the six grids are kept, and the 60–160 range is selected |
| PyAnalyzer.BpmAnalyzer.ChangeBpmPattern | BpmAnalizer.py:125-138 | each of the three range keys selects its coarse and fine grids and base tempo; any other key changes nothing |
| PyAnalyzer.BpmAnalyzer.SearchBpm | BpmAnalizer.py:141-169 | the signal is marked in place, and the result is the two-pass search over its beat events, gated by `check_bpm_wrapped` as written |
| RsAnalyzer.EventCount | src/core_bpm/analyzer.rs:182-202 | only full windows produce events: floor(n/step) of them |
| RsAnalyzer.EventInWindow | src/core_bpm/analyzer.rs:190-200 | event j lies in window j, holds its maximum, and every later sample of the window is smaller (last arg-max) |
| RsAnalyzer.EventCountVersusPython | src/core_bpm/analyzer.rs:182-202 | Python reports one more event than Rust exactly when the signal length is not a multiple of the step |
| RsAnalyzer.TieBreakDiffers | src/core_bpm/analyzer.rs:193-198 | on [5,5] Python picks index 0 and Rust index 1 |
| RsAnalyzer.PartitionPoint | src/core_bpm/analyzer.rs:225-227 | `partition_point` returns the length of the leading run that satisfies the predicate |
| RsAnalyzer.RangeCountIsRowHits | src/core_bpm/analyzer.rs:222-233 | on a sorted row, the two binary searches count exactly the entries within ±20 of the event (with the lower bound clamped at 0) |
| RsAnalyzer.CandidateMatches | src/core_bpm/analyzer.rs:218-235 | one event against one candidate gives each matching row index once per hit, in row order |
| RsAnalyzer.BpmContainer | src/core_bpm/analyzer.rs:206-238 | cell i·steps+q is the matching rows of candidate q for event i, with no seed zero |
| RsAnalyzer.WrapBpmContainer | src/core_bpm/analyzer.rs:241-249 | wrapped candidate q is the concatenation of cells q, q+steps, …, with no filtering |
| RsAnalyzer.WrapIsVotes | src/core_bpm/analyzer.rs:206-249 | wrapped candidate q is exactly the votes of candidate q, row 0 included |
| RsAnalyzer.ScoreSpec | src/core_bpm/analyzer.rs:252-267 | an empty list scores 0; otherwise the score is the top multiplicity, between 1 and the length, and reached |
| RsAnalyzer.Finalise | src/core_bpm/analyzer.rs:252-267 | one score per wrapped candidate, each that candidate's score |
| RsAnalyzer.ScoreMatchesPython | src/core_bpm/analyzer.rs:252-267 | for positive votes, the Rust score equals the Python score |
| RsAnalyzer.WinnersSpec | src/core_bpm/analyzer.rs:270-285 | there are no winners iff all scores are 0; otherwise the winners are exactly the indices of the positive maximal score, ascending |
| RsAnalyzer.GateSound | src/core_bpm/analyzer.rs:289-299 | a passed gate means a unique maximal score of at least 6 |
| RsAnalyzer.GateComplete | src/core_bpm/analyzer.rs:289-299 | a unique maximal score of at least 6 passes the gate |
| RsAnalyzer.GateIsIntendedPythonGate | src/core_bpm/analyzer.rs:289-299 | the Rust gate is exactly the gate the Python check evidently intends |
| RsAnalyzer.FineWindow | src/core_bpm/analyzer.rs:303-324 | no winners gives (0,0); the end is clamped to the fine grid and is at most start+40 |
| RsAnalyzer.WindowMissesCoarseTempo | src/core_bpm/analyzer.rs:309-321 | with the default grids the window starts at 5·idx+140, whereas the coarse winner's tempo is fine candidate 5·idx+4; every candidate in the window is at least 6.8 BPM faster |
| RsAnalyzer.IntendedFineWindow | src/core_bpm/analyzer.rs:303-324 | the corrected window, centred on the coarse winner's own tempo, clamped the same way |
| RsAnalyzer.IntendedWindowHoldsCoarseTempo | src/core_bpm/analyzer.rs:303-324 | the corrected window contains fine candidate 5·idx+4, which has the coarse winner's tempo |
| RsAnalyzer.RoundCents | src/core_bpm/analyzer.rs:331-332 | rounding to two decimals moves the value by at most 0.005 |
| RsAnalyzer.ReportedOneStepBelow | src/core_bpm/analyzer.rs:327-333 | the reported tempo is fine candidate f's tempo minus one step, to within rounding |
| RsAnalyzer.CandidateBpm | src/core_bpm/analyzer.rs:327-333 | the corrected conversion reports fine candidate f's own tempo, to within rounding |
| RsAnalyzer.Pass | src/core_bpm/analyzer.rs:117-134 | one pass (container, wrap, finalise) yields the specified scores |
| RsAnalyzer.FirstWinner | src/core_bpm/analyzer.rs:140-168 | there is no first winner iff there are no winners |
| RsAnalyzer.FineIndexAbove | src/core_bpm/analyzer.rs:140-177 | with the default grids, every fine candidate the search can report is at least 6.8 BPM above the coarse winner |
| RsAnalyzer.AsWrittenEstimateAbove | src/core_bpm/analyzer.rs:104-178 | as written, an estimate means there were events and the coarse gate passed; with the default grids it is at least 6.7 BPM above the coarse winner's tempo |
| RsAnalyzer.CandidateNearCoarse | src/core_bpm/analyzer.rs:303-333 | a candidate from the corrected window reports a tempo at most 1.005 BPM below the coarse winner's, and at most 0.955 above it when the window is not clamped |
| RsAnalyzer.SearchEstimate | src/core_bpm/analyzer.rs:104-178 | with the corrected window and conversion, an estimate means there were events and the coarse gate passed; with the default grids it lies within about 1 BPM of the coarse winner's tempo |
| RsAnalyzer.Analyzer.constructor | src/core_bpm/analyzer.rs:27-62 | coarse and fine grids over 130–230 BPM at steps 0.25 and 0.05, 275 rows each, at 11025 Hz, and an empty buffer |
| RsAnalyzer.Analyzer.SearchBpm | src/core_bpm/analyzer.rs:104-178 | the result is the two-pass search over the signal's beat events, with the fine window and tempo conversion as written |
| RsAnalyzer.Analyzer.FinePass | src/core_bpm/analyzer.rs:152-168 | the fine pass returns the first fine winner of the window when the fine gate passes |
| RsAnalyzer.FilterRun | src/core_bpm/analyzer.rs:373-377 | the chain filters sample by sample, carrying its state: one output per input sample |
| RsAnalyzer.FilterRunAppend | src/core_bpm/analyzer.rs:73-74 | filtering two blocks in successive calls, the state carried across, gives the same samples and state as filtering them together |
| RsAnalyzer.FilterRunStateless | src/core_bpm/analyzer.rs:373-377 | a chain without memory maps each sample on its own and keeps its state |
| RsAnalyzer.Analyzer.Process | src/core_bpm/analyzer.rs:71-101 | the chain's state advances over the input; the buffer becomes the last 110250 samples of the old buffer and the filtered input; fewer than frameRate/2 samples give no estimate; otherwise the estimate is the search as written over the buffer |
| RsAnalyzer.BufferBounded | src/core_bpm/analyzer.rs:77-80 | the buffer never exceeds 110250 samples, and no sample is dropped while it fits |
| Streamer.Int16LE | AudioStreamer.py:42-44 | a little-endian pair of bytes is a signed 16-bit value, negative iff the high byte's top bit is set |
| Streamer.Int16RoundTrip | AudioStreamer.py:42-44 | decoding the encoding of an int16 value gives the value back |
| Streamer.Int16BytesRoundTrip | AudioStreamer.py:42-44 | encoding the decoding of two bytes gives the bytes back |
| Streamer.Unpack | AudioStreamer.py:42-44 | the buffer becomes len/2 samples, sample k from bytes 2k and 2k+1 |
| Streamer.UnpackPack | AudioStreamer.py:42-44 | unpacking packed samples gives them back |
| Streamer.PushAll | AudioStreamer.py:24 | extending a bounded deque keeps exactly the last `maxlen` items of old + new |
| Streamer.InputDevices | AudioStreamer.py:113-123 | the listing keeps exactly the devices with an input channel |
| Streamer.AudioStreamer.constructor | AudioStreamer.py:12-33 | an empty window of frameRate·range samples, not updated, not stopping, no stream |
| Streamer.AudioStreamer.AudioCallback | AudioStreamer.py:35-50 | when stopping, or on an odd-length buffer, the callback aborts and leaves the window alone; otherwise the window becomes the last `maxlen` samples of old + unpacked, and the update flag is set |
| Streamer.AudioStreamer.GetBuffer | AudioStreamer.py:75-86 | returns a copy of the window, keeps the window, and clears the update flag |
| Streamer.AudioStreamer.StartStream | AudioStreamer.py:52-73 | no device index is an error; a failed `open` is an error that leaves the stream unassigned; a failed `start_stream` is an error after the stream is assigned; it succeeds exactly when a device is given and both calls succeed |
| Streamer.AudioStreamer.AvailableAudioDevices | AudioStreamer.py:102-134 | no device at all and no input device are distinct errors; with an input device the call succeeds, and returns two parallel lists of names and indices of the input devices |
| CaptureWorker.StopIffBurst | src/core_bpm/audio.rs:80-95 | restarts stop iff max_restarts ≥ 1, at least that many crashes happened, and the latest max_restarts of them span less than the time window |
| CaptureWorker.AudioWorker.ShouldStopRestarting | src/core_bpm/audio.rs:80-95 | the window evicts before pushing, so it holds the latest crashes and never more than the limit, and the answer is the burst test on it |
| CaptureWorker.AudioWorker.RetrySteps | src/core_bpm/audio.rs:138-139 | the step count is ceil(delay/100): enough 100 ms steps to cover the delay, and no more |
| CaptureWorker.SelectRate | src/core_bpm/audio.rs:169-214 | the first range containing the target gives the target itself; otherwise the nearest range end, the earliest on a tie; an error iff every end is `u32::MAX` or more away, including the empty configuration list |
| CaptureWorker.ChooseBufferSize | src/core_bpm/audio.rs:226-243 | no duration gives the default; an unknown range gives the requested size; a known range gives the requested size clamped into it, which is the nearest size the range allows |
| Midi.Decode | src/midi.rs:86-112 | messages under 3 bytes decode to nothing; note-on decodes iff velocity > 0; control change always decodes; the channel is the low nibble of the status byte |
| Midi.NoteOnRoundTrip | src/midi.rs:86-112 | a note-on message decodes back to its event when the velocity is positive, and to nothing when it is 0 |
| Midi.ControlChangeRoundTrip | src/midi.rs:86-112 | a control-change message decodes back to its event |
| Midi.DecodeEncode | src/midi.rs:86-112 | a decoded message re-encodes to its first three bytes |
| Midi.MidiManager.SelectOutput | src/midi.rs:123-143 | the output is open iff the port exists and the connection succeeds |
| Midi.MidiManager.OnInput | src/midi.rs:86-112 | incoming messages that decode are queued, in order |
| Midi.MidiManager.TryRecv | src/midi.rs:145-147 | the oldest queued event is returned and dequeued; an empty queue gives nothing |
| Midi.MidiManager.SendNoteOn | src/midi.rs:149-154 | a note-on message is written iff an output is open |
| Midi.MidiManager.SendControlChange | src/midi.rs:156-161 | a control-change message is written iff an output is open |
| Gui.Learn | src/gui.rs:293-336 | the learnt mapping records the event's kind, channel, and note or controller number |
| Gui.TriggersIffSameSource | src/gui.rs:337-361 | an event triggers a learnt mapping iff it would learn the same mapping |
| Gui.FirstEventIsLearnt | src/gui.rs:293-336 | in learn mode, the first event is learnt, and learn mode ends |
| Gui.TapIffSomeEventMatches | src/gui.rs:337-369 | outside learn mode, the mapping is unchanged, and a tap happens iff some polled event triggers it |
| Gui.BpmApp.PollMidi | src/gui.rs:287-369 | the learn flag, mapping and tap flag follow the event sequence; learn feedback is written only to an open output; the queue is drained |
| Gui.IntervalsTelescope | src/gui.rs:389-395 | the tap intervals sum to the span from the first to the last tap |
| Gui.TapTempoFromSpan | src/gui.rs:389-405 | five ascending taps set a tempo iff they span 0.6–2.4 s, and tempo × span = 240 (four beats) |
| Gui.BpmApp.SumIntervals | src/gui.rs:389-395 | the loop sums the successive tap intervals |
| Gui.BpmApp.CurrentTapTempo | src/gui.rs:389-405 | the tap tempo is 60 over the mean interval, only with 5 taps and only within 100–400 BPM |
| Gui.BpmApp.Tap | src/gui.rs:374-406 | a tap more than 0.6 s after the previous one starts a new series; the last five taps are kept; a valid tap tempo is set and sent, otherwise nothing changes |
| Gui.BpmApp.ToggleDetection | src/gui.rs:407-417 | detection flips, switching off clears the tempo, and the new state is sent to the analysis thread |
| Gui.BpmApp.ToggleMidiLearn | src/gui.rs:371-373 | learn mode flips and every other field is unchanged |
| Gui.UnmentionedPeerKept | src/gui.rs:261-266 | a peer absent from the presence messages keeps its entry, or keeps having none |
| Gui.LastPresenceDecides | src/gui.rs:261-266 | a peer's last presence message decides whether it is listed, and under which name |
| Gui.LastEnergy | src/gui.rs:268-270 | the energy level is that of the last energy message, or unchanged without one |
| Gui.LastAutoGain | src/gui.rs:271-273 | the remote auto-gain flag is that of the last auto-gain message, or unchanged without one |
| Gui.BpmApp.PollNetwork | src/gui.rs:253-277 | the peer table is the presence messages applied in order, the energy and auto-gain fields follow their last messages, and nothing else changes |
| Gui.MeanWithinRange | src/gui.rs:846-853 | the published mean of the tempo history lies between its smallest and largest values |
| Gui.AnalysisLoop.SetDetection | src/gui.rs:795-821 | switching detection off clears the accumulator and the history |
| Gui.AnalysisLoop.OnSamples | src/gui.rs:839-883 | samples accumulate while detection is on; a full hop is consumed, and an analysis result joins the 5-long history, whose mean is published |
| Gui.AnalysisLoop.PublishTempo | src/gui.rs:846-853 | the history keeps the last five tempos, and their mean is sent |
| Gui.AnalysisLoop.OnReset | src/gui.rs:884-886 | a reset empties the accumulator only |
| Gui.AnalysisLoop.OnSampleRateChanged | src/gui.rs:887-904 | a new rate sets the hop to half the rate when the analyzer could be rebuilt |
| ButtonMonitor.IsPressed | src/core_embedded/button.rs:84-96 | a press is the falling edge on an active-low line and the rising edge otherwise |
| ButtonMonitor.Classify | src/core_embedded/button.rs:105-113 | under 50 ms nothing; under 2.5 s a press; under 7.5 s a long press; otherwise a very long press |
| ButtonMonitor.Step | src/core_embedded/button.rs:98-119 | an event is sent only on a release after a recorded press; a press records its instant; a read error changes nothing |
| ButtonMonitor.PressThenRelease | src/core_embedded/button.rs:98-113 | a press at t0 then a release at t1 sends the class of t1−t0 and clears the press |
| ButtonMonitor.EmittedAtMostReleases | src/core_embedded/button.rs:98-119 | no more events are sent than there are release edges |
| ButtonMonitor.Button.Monitor | src/core_embedded/button.rs:79-127 | with an open receiver, every edge is consumed and the events are sent in order; with a dropped receiver, monitoring stops at the first event to send |
| Uevent.Split | src/core_embedded/usb.rs:111-124 | splitting on NUL gives at least one piece, none containing NUL |
| Uevent.JoinSplit | src/core_embedded/usb.rs:111-124 | the pieces join back to the uevent |
| Uevent.SplitJoin | src/core_embedded/usb.rs:111-124 | NUL-free entries joined and split give the entries back |
| Uevent.FirstValue | src/core_embedded/usb.rs:118-123 | no value iff no entry is `KEY=…`; otherwise the value after `=` of the first such entry |
| Uevent.ParseEnvOfEntries | src/core_embedded/usb.rs:111-124 | in a uevent built from entries, the key's value is that of its first entry |
| Uevent.LongerKeyIsNotEntry | src/core_embedded/usb.rs:118-121 | a key does not match an entry whose key merely starts with it |
| Uevent.UsbAddPath | src/core_embedded/usb.rs:138-156 | a path is returned iff SUBSYSTEM is usb, DEVTYPE is usb_device, ACTION is add and DEVPATH is present, and it is the DEVPATH |
| Link.FirstName | src/core_embedded/network.rs:131-134 | no name iff no name attribute; otherwise the first one |
| Link.ExtractLinkInfo | src/core_embedded/network.rs:128-144 | the link is active iff both IFF_UP (bit 0) and IFF_LOWER_UP (bit 16) are set |
| Link.StatusAction | src/core_embedded/network.rs:92-126 | only eth0 and usb0 are drawn; usb0 gets the USB icon and eth0 the Ethernet icon; the icon is drawn iff the link is up and cleared otherwise |
| Link.LastName | src/core_embedded/network.rs:164-190 | a name is known iff some scanned message names that index |
| Link.ScanLastNameWins | src/core_embedded/network.rs:164-190 | after the scan, the cache holds the last name seen for each index, or the earlier entry when none was seen |
| Link.ScanChecksCountEth0 | src/core_embedded/network.rs:179-184 | an update check is spawned only for an eth0 that is up, at most once per message |
| Link.InterfaceMonitor.Report | src/core_embedded/network.rs:92-126 | reporting draws the status icon and counts a spawned check; the cache is unchanged |
| Link.InterfaceMonitor.ScanOne | src/core_embedded/network.rs:169-186 | one dumped link is cached, reported and counted |
| Link.InterfaceMonitor.InitialScan | src/core_embedded/network.rs:164-190 | the cache, icons and checks are those of the whole dump |
| Link.InterfaceMonitor.OnEvent | src/core_embedded/network.rs:194-228 | a new-link event with a name caches and uses it; one without a name uses the cached name; an unknown index is ignored; other events change nothing |
| Discovery.CurrentIsEligible | src/network_sync/discovery.rs:165-172 | an address is current iff some non-loopback IPv4 interface has it |
| Discovery.FreshIsNewCurrent | src/network_sync/discovery.rs:184-218 | the added addresses are exactly the current ones not yet known, each once |
| Discovery.FreshBoundWithinFresh | src/network_sync/discovery.rs:184-218 | every new socket is bound to an added address, at most one per address |
| Discovery.CollectCurrent | src/network_sync/discovery.rs:165-172 | the loop collects the set of current addresses |
| Discovery.AddNew | src/network_sync/discovery.rs:184-218 | the known set becomes retained ∪ current; the joins are the fresh addresses; the sockets are those whose bind succeeded |
| Discovery.JoinAndBindAll | src/network_sync/discovery.rs:45-112 | at start-up every eligible address is known and joined, and a socket is bound for each one whose bind succeeds |
| Discovery.New | src/network_sync/discovery.rs:29-61 | a failure of the main receiving socket's creation, configuration, bind or clone returns no manager; otherwise the manager is the one the constructor builds |
| Discovery.NetworkManager.constructor | src/network_sync/discovery.rs:29-129 | joins every eligible address and then 0.0.0.0; the default-route socket comes first when it binds; every eligible address is known |
| Discovery.NetworkManager.CheckForNewInterfaces | src/network_sync/discovery.rs:158-220 | a failed listing changes nothing; otherwise vanished addresses are forgotten, and new ones are joined and bound, while sockets are never removed |
| Discovery.CheckJoinsExactlyNew | src/network_sync/discovery.rs:158-220 | a check joins exactly the current addresses that were not known before, each once |

## Left out

- Floating point: tempos, tap times and rounding are exact reals. NaN, infinities and binary rounding error are not modelled. `int(60 / bpm * frame_rate)` is a caller-supplied function from tempo to period.
- The band-pass filter's arithmetic: the Rust biquad chain is a caller-supplied step function from (state, sample) to (state, sample), whose state the analyzer carries across samples and calls. The Python `bandpass_filter` is not part of this model; the Python search receives the filtered signal.
- Device, audio, MIDI, netlink, socket and file I/O (PyAudio, cpal, midir, netlink sockets, UDP multicast, `np.save`/`np.load`): their outcomes are parameters.
- Threads, locks, channels and the `get_buffer` wait timeout: each method is one atomic step.
- `AudioStreamer.stop_stream`, and the setter of the `stopping` flag: the flag is a field that the callback reads.
- The `.npy` loading and on-demand pattern generation in the Python `__init__`. The constructor receives the six grids.
- `run_analyzer` averaging in the Python analyzer module.
- The frame-rate check and the filter-construction error of `BpmAnalyzer::new` (src/core_bpm/analyzer.rs:34-51): the generated grids are always at 11025 Hz, so the check cannot fail, and the filter is an opaque parameter.
- RsAnalyzer.BpmContainer: requires sorted rows, which the binary search assumes. `RsAnalyzer.GeneratedSorted` proves that every generated grid and window satisfies this.
- PyAnalyzer.BpmContainer: requires a grid no longer than the step count. The search passes only such grids; a longer grid would file votes under another event or index past the list.
- The GUI's poll of analysis results (src/gui.rs:280-285). The analysis loop receives the analyzer's answer as a parameter.
- The initial `connect` inside `MidiManager::new`, and input-port selection: outcomes are parameters.
- The network.rs ping/update task, the IS_CHECKING_UPDATE flag and display-lock failures: update checks are counted.
- Uevent.FirstValue: the source slices by byte index. The model uses character positions, which coincide for the ASCII keys the listener uses.
- `usb.rs` socket reading and plug-script execution.
- Discovery.NetworkManager.constructor: the two interface listings of `new` are one listing. Socket creation and bind errors of the send sockets are per-interface flags. The main socket's failures are one flag of `Discovery.New`.
- Sending, `announce_presence`, `try_recv` and the listener thread of discovery.rs.
- RsPattern.Generate: requires `20 * lengh <= u32::MAX`, so the plain `u32` counter `jump += 20` (src/core_bpm/bpm_pattern.rs:49) never overflows; a `lengh` above 214748364 rows, where the source would panic or wrap, is not modelled. RsPattern.CandidateRows carries the same bound.
- PyAnalyzer.SearchBeatEvents: requires `frame_rate // 2 > 0`. At a frame rate below 2 Python's `range` raises ValueError on the zero step; the analyzer always runs at 11025 Hz. BpmAnalyzer.SearchBpm carries the same bound.
- CaptureWorker.AudioWorker.RetrySteps: requires `delay + 99` to fit in `u64`. The source would overflow there.
- CaptureWorker.ChooseBufferSize: requires an uninverted range. `u32::clamp` panics otherwise.
- ButtonMonitor.Step (and ButtonMonitor.Classify, PressThenRelease, Button.Monitor): instants and durations are whole milliseconds. `Instant` and `Duration` in the source resolve below a millisecond, so a press whose length is not a whole number of milliseconds (such as 49.2 ms, which the source ignores as under 50 ms) cannot be represented.
- The retry loop's sleeps and stop checks (src/core_bpm/audio.rs:141-146): only the step count is modelled.

## Findings

| source | as written | input that shows it | evidently intended | confidence | as-written member | corrected member |
|---|---|---|---|---|---|---|
| BpmAnalizer.py:106-111 | `check_bpm_wrapped` counts the scores equal to the winner's index, not to the winner's score | scores [0,7,7] (a tie) are accepted; scores [9,0,0] (a unique winner with 9) are rejected | accept iff the winner's score is unique and at least 6 | not executed | PyAnalyzer.CheckAcceptsTie, PyAnalyzer.CheckRejectsUniqueWinner, PyAnalyzer.AsWrittenGateIsThreshold, PyAnalyzer.AsWrittenSearchEstimate | PyAnalyzer.UniqueWinnerGateSpec, PyAnalyzer.SearchEstimate, RsAnalyzer.GateIsIntendedPythonGate |
| src/core_bpm/analyzer.rs:309-321 | the coarse winner's tempo is taken as `start_bpm − 2 + idx·step`, not the generated `start_bpm − 10 + (idx+1)·step`, so the fine window starts at candidate 5·idx+140 | coarse winner idx = 0 with the default grids: the window is fine candidates 140–179, while the coarse tempo is fine candidate 4 | a window containing the coarse winner's own tempo | not executed | RsAnalyzer.WindowMissesCoarseTempo, RsAnalyzer.AsWrittenEstimateAbove | RsAnalyzer.IntendedWindowHoldsCoarseTempo, RsAnalyzer.SearchEstimate |
| src/core_bpm/analyzer.rs:329-330 | `bpm_indices_to_float` computes `start_bpm − 10 + fine·step`, omitting the `+1` that `generate` applies | fine winner 0 of a 130 BPM grid at step 0.05 is generated for 120.05 BPM but reported as 120.00 | report the tempo the winning fine candidate was generated for | not executed | RsAnalyzer.ReportedOneStepBelow | RsAnalyzer.CandidateBpm, RsAnalyzer.CandidateNearCoarse |
