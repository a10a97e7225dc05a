/** The rolling audio window of the Python front end (AudioStreamer.py): a
    bounded first-in-first-out deque of signed 16-bit samples fed by the
    capture callback, a stop flag that gates the callback, a snapshot read
    that clears the "updated" flag, and the input-device listing. The audio
    library itself (opening, starting and stopping streams, the host API
    queries) is outside the model; what it returns is passed in. */
module Streamer {
  import opened Common

  type Byte = x: int | 0 <= x < 256

  predicate IsInt16(v: int)
  {
    -0x8000 <= v < 0x8000
  }

  /** The little-endian signed 16-bit value of the byte pair `lo`, `hi`
      (format character `<h` of Python's `struct`). */
  function Int16LE(lo: Byte, hi: Byte): (v: int)
    ensures IsInt16(v)
    ensures (v < 0) == (hi >= 0x80)
  {
    var u := lo + 0x100 * hi;
    if u >= 0x8000 then u - 0x1_0000 else u
  }

  /** The two bytes, low first, that `<h` packs a sample into. */
  function PackInt16LE(v: int): (b: (Byte, Byte))
    requires IsInt16(v)
  {
    var u := if v < 0 then v + 0x1_0000 else v;
    (u % 0x100, u / 0x100)
  }

  /** Packing a sample and reading it back gives the sample. */
  lemma Int16RoundTrip(v: int)
    requires IsInt16(v)
    ensures Int16LE(PackInt16LE(v).0, PackInt16LE(v).1) == v
  {
    var u := if v < 0 then v + 0x1_0000 else v;
    assert u % 0x100 + 0x100 * (u / 0x100) == u;
  }

  /** Reading a byte pair and packing the value gives the pair back: the
      decoding loses nothing. */
  lemma Int16BytesRoundTrip(lo: Byte, hi: Byte)
    ensures PackInt16LE(Int16LE(lo, hi)) == (lo, hi)
  {
    var u := lo + 0x100 * hi;
    assert u % 0x100 == lo && u / 0x100 == hi;
  }

  /** `struct.unpack("<{n}h", data)` for `n == len(data) // 2`: defined only
      for an even number of bytes, as `unpack` raises otherwise. */
  function Unpack(data: seq<Byte>): (samples: seq<int>)
    requires |data| % 2 == 0
    ensures |samples| == |data| / 2
    ensures forall k :: 0 <= k < |samples| ==> samples[k] == Int16LE(data[2 * k], data[2 * k + 1])
    decreases |data|
  {
    if |data| == 0 then []
    else
      var rest := Unpack(data[2..]);
      assert forall k :: 0 <= k < |rest| ==> data[2..][2 * k] == data[2 * (k + 1)];
      [Int16LE(data[0], data[1])] + rest
  }

  /** `struct.pack("<{n}h", *samples)`. */
  function Pack(samples: seq<int>): (data: seq<Byte>)
    requires forall k :: 0 <= k < |samples| ==> IsInt16(samples[k])
  {
    if |samples| == 0 then []
    else
      var b := PackInt16LE(samples[0]);
      [b.0, b.1] + Pack(samples[1..])
  }

  /** Decoding what `<h` packing produced gives back the samples. */
  lemma {:induction false} UnpackPack(samples: seq<int>)
    requires forall k :: 0 <= k < |samples| ==> IsInt16(samples[k])
    ensures |Pack(samples)| == 2 * |samples|
    ensures Unpack(Pack(samples)) == samples
    decreases |samples|
  {
    if |samples| > 0 {
      UnpackPack(samples[1..]);
      var b := PackInt16LE(samples[0]);
      var data := Pack(samples);
      assert data == [b.0, b.1] + Pack(samples[1..]);
      assert data[2..] == Pack(samples[1..]);
      Int16RoundTrip(samples[0]);
    }
  }

  /** The last items of a list of samples are samples. */
  lemma SuffixInt16(s: seq<int>, n: nat)
    requires forall k :: 0 <= k < |s| ==> IsInt16(s[k])
    ensures forall k :: 0 <= k < |Suffix(s, n)| ==> IsInt16(Suffix(s, n)[k])
  {
  }

  /** The loop of `deque.extend` on a window of capacity `maxlen`: each
      sample is appended on the right and, once the window is over capacity,
      the oldest one drops out on the left. */
  method PushAll(window: seq<int>, samples: seq<int>, maxlen: nat) returns (w: seq<int>)
    requires |window| <= maxlen
    ensures w == Suffix(window + samples, maxlen)
  {
    w := window;
    assert Suffix(window, maxlen) == window;
    for i := 0 to |samples|
      invariant w == Suffix(window + samples[..i], maxlen)
    {
      SuffixSnoc(window + samples[..i], samples[i], maxlen);
      assert window + samples[..i + 1] == (window + samples[..i]) + [samples[i]];
      w := w + [samples[i]];
      if |w| > maxlen {
        w := w[1..];
      }
    }
    assert samples[..|samples|] == samples;
  }

  /** What the callback answers the audio library. */
  datatype CallbackStatus = Continue | Abort

  /** One entry of the host API's device table, or `None` where querying
      the entry raised. */
  datatype DeviceInfo = DeviceInfo(name: string, index: int, maxInputChannels: int)

  datatype DeviceError = NoDeviceOnSystem | NoInputDevice

  datatype StreamError = NoDeviceSelected | OpenFailed | StartFailed

  /** The devices of `infos` that can record, in table order. */
  function InputDevices(infos: seq<Option<DeviceInfo>>): (r: seq<DeviceInfo>)
    ensures forall d :: d in r <==> Some(d) in infos && d.maxInputChannels > 0
    ensures |r| <= |infos|
  {
    if |infos| == 0 then []
    else
      var last := infos[|infos| - 1];
      assert infos == infos[..|infos| - 1] + [last];
      InputDevices(infos[..|infos| - 1])
        + (if last.Some? && last.value.maxInputChannels > 0 then [last.value] else [])
  }

  /** One more table entry adds that entry when it can record. */
  lemma InputDevicesSnoc(infos: seq<Option<DeviceInfo>>, i: nat)
    requires i < |infos|
    ensures InputDevices(infos[..i + 1])
              == InputDevices(infos[..i])
                 + (if infos[i].Some? && infos[i].value.maxInputChannels > 0 then [infos[i].value] else [])
  {
    assert infos[..i + 1][..i] == infos[..i];
  }

  class AudioStreamer {
    const frameRate: nat
    const operatingRangeSeconds: nat
    /** Capacity of the rolling window: `frame_rate * operating_range_seconds`. */
    const maxlen: nat
    /** The rolling window of decoded samples, oldest first. */
    var signalBuffer: seq<int>
    var bufferUpdated: bool
    var stopping: bool
    /** The device the stream was opened on, once `start_stream` succeeded. */
    var streamDevice: Option<int>

    ghost predicate Valid()
      reads this
    {
      && maxlen == frameRate * operatingRangeSeconds
      && |signalBuffer| <= maxlen
      && forall k :: 0 <= k < |signalBuffer| ==> IsInt16(signalBuffer[k])
    }

    constructor(frameRate: nat, operatingRangeSeconds: nat)
      ensures Valid()
      ensures this.frameRate == frameRate && this.operatingRangeSeconds == operatingRangeSeconds
      ensures signalBuffer == [] && !bufferUpdated && !stopping && streamDevice == None
    {
      this.frameRate := frameRate;
      this.operatingRangeSeconds := operatingRangeSeconds;
      maxlen := frameRate * operatingRangeSeconds;
      signalBuffer := [];
      bufferUpdated := false;
      stopping := false;
      streamDevice := None;
    }

    /** `deque.extend` on the rolling window. */
    method Extend(samples: seq<int>)
      requires Valid()
      requires forall k :: 0 <= k < |samples| ==> IsInt16(samples[k])
      modifies this
      ensures Valid()
      ensures signalBuffer == Suffix(old(signalBuffer) + samples, maxlen)
      ensures bufferUpdated == old(bufferUpdated) && stopping == old(stopping)
      ensures streamDevice == old(streamDevice)
    {
      var window := PushAll(signalBuffer, samples, maxlen);
      SuffixInt16(signalBuffer + samples, maxlen);
      signalBuffer := window;
    }

    /** `audio_callback`: while stopping, or when the byte count is odd
        (`struct.unpack` raises), it aborts and leaves everything as it was;
        otherwise it decodes the bytes into the window, sets the flag and
        continues. */
    method AudioCallback(inData: seq<Byte>) returns (status: CallbackStatus)
      requires Valid()
      modifies this
      ensures Valid()
      ensures stopping == old(stopping) && streamDevice == old(streamDevice)
      ensures old(stopping) || |inData| % 2 == 1 ==>
                status == Abort && signalBuffer == old(signalBuffer) && bufferUpdated == old(bufferUpdated)
      ensures !old(stopping) && |inData| % 2 == 0 ==>
                && status == Continue
                && signalBuffer == Suffix(old(signalBuffer) + Unpack(inData), maxlen)
                && bufferUpdated
    {
      if stopping {
        return Abort;
      }
      if |inData| % 2 == 1 {
        return Abort;
      }
      var samples := Unpack(inData);
      Extend(samples);
      bufferUpdated := true;
      status := Continue;
    }

    /** `get_buffer`: an in-order copy of the window; the window is kept and
        the "updated" flag is cleared. */
    method GetBuffer() returns (buffer: seq<int>)
      requires Valid()
      modifies this
      ensures Valid()
      ensures buffer == signalBuffer == old(signalBuffer)
      ensures !bufferUpdated && stopping == old(stopping) && streamDevice == old(streamDevice)
    {
      buffer := signalBuffer;
      bufferUpdated := false;
    }

    /** `start_stream`: refuses a missing device index; otherwise the stream
        is opened on that device and started. `openOk` and `startOk` are the
        outcomes of PyAudio's `open` and `start_stream`; a failure of either is
        re-raised. A stream that opened but failed to start stays assigned. */
    method StartStream(inputDeviceIndex: Option<int>, openOk: bool, startOk: bool)
      returns (r: Result<(), StreamError>)
      requires Valid()
      modifies this
      ensures Valid()
      ensures signalBuffer == old(signalBuffer) && bufferUpdated == old(bufferUpdated)
      ensures stopping == old(stopping)
      ensures inputDeviceIndex.None? ==> r == Err(NoDeviceSelected) && streamDevice == old(streamDevice)
      ensures inputDeviceIndex.Some? && !openOk ==> r == Err(OpenFailed) && streamDevice == old(streamDevice)
      ensures inputDeviceIndex.Some? && openOk && !startOk ==> r == Err(StartFailed) && streamDevice == inputDeviceIndex
      ensures r.Ok? <==> inputDeviceIndex.Some? && openOk && startOk
      ensures r.Ok? ==> streamDevice == inputDeviceIndex
    {
      if inputDeviceIndex.None? {
        return Err(NoDeviceSelected);
      }
      if !openOk {
        return Err(OpenFailed);
      }
      streamDevice := inputDeviceIndex;
      if !startOk {
        return Err(StartFailed);
      }
      r := Ok(());
    }

    /** `available_audio_devices` over the host API's table of `numDevices`
        entries, given as `infos` (`None` for an entry whose query raised, which
        is skipped). Returns the parallel lists of names and indices of the
        devices with an input channel. */
    method AvailableAudioDevices(infos: seq<Option<DeviceInfo>>)
      returns (r: Result<(seq<string>, seq<int>), DeviceError>)
      ensures |infos| == 0 ==> r == Err(NoDeviceOnSystem)
      ensures |infos| > 0 && |InputDevices(infos)| == 0 ==> r == Err(NoInputDevice)
      ensures |infos| > 0 && |InputDevices(infos)| > 0 ==> r.Ok?
      ensures r.Ok? ==>
                var ins := InputDevices(infos);
                && |ins| > 0
                && |r.value.0| == |r.value.1| == |ins|
                && forall k :: 0 <= k < |ins| ==> r.value.0[k] == ins[k].name && r.value.1[k] == ins[k].index
    {
      if |infos| == 0 {
        return Err(NoDeviceOnSystem);
      }
      var devices: seq<string> := [];
      var indices: seq<int> := [];
      ghost var ins: seq<DeviceInfo> := [];
      for i := 0 to |infos|
        invariant ins == InputDevices(infos[..i])
        invariant |devices| == |indices| == |ins|
        invariant forall k :: 0 <= k < |ins| ==> devices[k] == ins[k].name && indices[k] == ins[k].index
      {
        InputDevicesSnoc(infos, i);
        match infos[i]
        case Some(info) =>
          if info.maxInputChannels > 0 {
            devices := devices + [info.name];
            indices := indices + [info.index];
            ins := ins + [info];
          }
        case None =>
      }
      assert infos[..|infos|] == infos;
      if |devices| == 0 {
        return Err(NoInputDevice);
      }
      r := Ok((devices, indices));
    }
  }
}
