/**
 * The u-blox GPS receivers of `src/sensors/ublox.rs` and `sensors/src/gps.rs`. The serial port
 * is a class holding the text its successive reads deliver, the numbers of the write attempts
 * that fail, and the log of the data written. The clock is the `now` argument, in nanoseconds;
 * the NTRIP correction service and the NMEA parser are function arguments.
 */
module Ublox {
  import opened Wrappers
  import opened Bytes
  import opened Time
  import opened Nmea
  import opened Utils
  import opened Bus

  /** `DURATION_BETWEEN_CORRECTION`, two seconds. */
  const DURATION_BETWEEN_CORRECTION: nat := 2 * NANOS_PER_SEC

  /** The concatenation of a sequence of sequences, first to last. */
  function Flatten<T>(s: seq<seq<T>>): seq<T>
    decreases |s|
  {
    if |s| == 0 then [] else s[0] + Flatten(s[1..])
  }

  lemma {:induction false} FlattenAppend<T>(a: seq<seq<T>>, b: seq<seq<T>>)
    ensures Flatten(a + b) == Flatten(a) + Flatten(b)
    decreases |a|
  {
    if |a| > 0 {
      assert (a + b)[1..] == a[1..] + b;
      FlattenAppend(a[1..], b);
    } else {
      assert a + b == b;
    }
  }

  /** Flattening a prefix one element longer appends that element. */
  lemma FlattenSnoc<T>(s: seq<seq<T>>, i: nat)
    requires i < |s|
    ensures Flatten(s[..i + 1]) == Flatten(s[..i]) + s[i]
  {
    assert s[..i + 1] == s[..i] + [s[i]];
    FlattenAppend(s[..i], [s[i]]);
    assert Flatten([s[i]]) == s[i] + Flatten([s[i]][1..]);
  }

  /** The items before `j` of element `i` follow the items of the elements before `i`. */
  lemma FlattenPrefix<T>(s: seq<seq<T>>, i: nat, j: nat)
    requires i < |s| && j <= |s[i]|
    ensures |Flatten(s[..i])| + j <= |Flatten(s)|
    ensures Flatten(s)[..|Flatten(s[..i])| + j] == Flatten(s[..i]) + s[i][..j]
  {
    assert s == s[..i] + s[i..];
    FlattenAppend(s[..i], s[i..]);
    assert Flatten(s[i..]) == s[i] + Flatten(s[i..][1..]);
  }

  /** The outcome of the next read of all available data. No data pending reads as the empty text. */
  function NextRead(input: seq<Option<string>>): Option<string> {
    if |input| == 0 then Some("") else input[0]
  }

  function AfterRead(input: seq<Option<string>>): seq<Option<string>> {
    if |input| == 0 then [] else input[1..]
  }

  /** The serial connection to the receiver. */
  class SerialPort {
    /** What successive reads return: the text received, or `None` for an I/O error. */
    var input: seq<Option<string>>
    /** The numbers of the write attempts that fail. */
    const failing: set<nat>
    /** How many writes have been attempted. */
    var attempts: nat
    /** The data of the successful writes, oldest first. */
    var written: seq<seq<u8>>

    constructor(input: seq<Option<string>>, failing: set<nat>)
      ensures this.input == input && this.failing == failing && attempts == 0 && written == []
    {
      this.input := input;
      this.failing := failing;
      attempts := 0;
      written := [];
    }

    /** `read_from_device`, with the UTF-8 decoding of the bytes. */
    method ReadFromDevice() returns (r: Option<string>)
      modifies this
      ensures r == NextRead(old(input)) && input == AfterRead(old(input))
      ensures attempts == old(attempts) && written == old(written)
    {
      if |input| == 0 {
        r := Some("");
      } else {
        r := input[0];
        input := input[1..];
      }
    }

    /** `apply_correction`: `write_all` of the data; a failed write leaves the log unchanged. */
    method WriteAll(data: seq<u8>) returns (ok: bool)
      modifies this
      ensures ok <==> old(attempts) !in failing
      ensures attempts == old(attempts) + 1 && input == old(input)
      ensures written == if ok then old(written) + [data] else old(written)
    {
      ok := attempts !in failing;
      if ok {
        written := written + [data];
      }
      attempts := attempts + 1;
    }
  }

  /** The GGA data of one read: nothing when the read fails, otherwise extract, then parse. */
  function GgaOfRead<G>(read: Option<string>, parse: string -> Option<G>): Option<G> {
    match read
    case None => None
    case Some(text) =>
      match ExtractGga(text)
      case None => None
      case Some(sentence) => parse(sentence)
  }

  class UbloxSensor {
    const port: SerialPort

    constructor(port: SerialPort)
      ensures this.port == port
    {
      this.port := port;
    }

    /** `Iterator::next` of `src/sensors/ublox.rs`: the text of one read, `None` when it fails. */
    method Next() returns (r: Option<string>)
      modifies port
      ensures r == NextRead(old(port.input)) && port.input == AfterRead(old(port.input))
      ensures port.attempts == old(port.attempts) && port.written == old(port.written)
    {
      r := port.ReadFromDevice();
    }

    /** `Iterator::next` of `sensors/src/gps.rs`: the GGA sentence of one read, parsed. */
    method NextGga<G>(parse: string -> Option<G>) returns (r: Option<G>)
      modifies port
      ensures r == GgaOfRead(NextRead(old(port.input)), parse) && port.input == AfterRead(old(port.input))
      ensures port.attempts == old(port.attempts) && port.written == old(port.written)
    {
      var data := port.ReadFromDevice();
      if data.Some? {
        var sentence := ExtractGga(data.value);
        r := if sentence.Some? then parse(sentence.value) else None;
      } else {
        r := None;
      }
    }
  }

  /** The nested loops of `apply_available_correction`: every message of every batch, in order, until a write fails. */
  method WriteBatches(port: SerialPort, batches: seq<seq<seq<u8>>>) returns (ok: bool)
    modifies port
    ensures ok <==> FirstFailure(port.failing, old(port.attempts), |Flatten(batches)|).None?
    ensures WroteUntilFailure(port.failing, old(port.attempts), old(port.written), Flatten(batches), port.written, port.attempts)
    ensures port.input == old(port.input)
  {
    ghost var start := port.attempts;
    ghost var w0 := port.written;
    var i := 0;
    while i < |batches|
      invariant 0 <= i <= |batches|
      invariant port.written == w0 + Flatten(batches[..i])
      invariant port.attempts == start + |Flatten(batches[..i])|
      invariant forall t :: start <= t < port.attempts ==> t !in port.failing
      invariant port.input == old(port.input)
    {
      var j := 0;
      while j < |batches[i]|
        invariant 0 <= j <= |batches[i]|
        invariant port.written == w0 + Flatten(batches[..i]) + batches[i][..j]
        invariant port.attempts == start + |Flatten(batches[..i])| + j
        invariant forall t :: start <= t < port.attempts ==> t !in port.failing
        invariant port.input == old(port.input)
      {
        ok := port.WriteAll(batches[i][j]);
        if !ok {
          StoppedAt(port.failing, start, w0, batches, i, j);
          return;
        }
        assert batches[i][..j + 1] == batches[i][..j] + [batches[i][j]];
        j := j + 1;
      }
      assert batches[i][..j] == batches[i];
      FlattenSnoc(batches, i);
      i := i + 1;
    }
    assert batches[..i] == batches;
    AllDelivered(port.failing, start, w0, Flatten(batches));
    return true;
  }

  /** A failure at message `j` of batch `i` ends the writing there. */
  lemma StoppedAt(failing: set<nat>, start: nat, w0: seq<seq<u8>>, batches: seq<seq<seq<u8>>>, i: nat, j: nat)
    requires i < |batches| && j < |batches[i]|
    requires start + |Flatten(batches[..i])| + j in failing
    requires forall t :: start <= t < start + |Flatten(batches[..i])| + j ==> t !in failing
    ensures FirstFailure(failing, start, |Flatten(batches)|).Some?
    ensures WroteUntilFailure(failing, start, w0, Flatten(batches),
      w0 + Flatten(batches[..i]) + batches[i][..j], start + |Flatten(batches[..i])| + j + 1)
  {
    FlattenPrefix(batches, i, j);
    FlattenPrefix(batches, i, j + 1);
    var k := |Flatten(batches[..i])| + j;
    FirstFailureAt(failing, start, |Flatten(batches)|, k);
  }

  /** The worker's handler: the correction for a sentence, or no messages when fetching it fails. */
  function CorrectionHandler(getCorrection: string -> Option<seq<seq<u8>>>): string -> seq<seq<u8>> {
    (gga: string) => getCorrection(gga).UnwrapOr([])
  }

  /**
   * `NtripUbloxSensor` of `src/sensors/ublox.rs`: GGA sentences go to the NTRIP worker at most
   * every two seconds, and the correction messages it returns are written to the receiver.
   */
  class NtripUbloxSensor {
    const gpsSensor: UbloxSensor
    const ntripRequester: Requester<string, seq<seq<u8>>>
    var lastTime: nat
    /** When each request was sent, oldest first. */
    ghost var requestTimes: seq<nat>

    /** Every request was sent at least two seconds after the one before, the last one at `lastTime`. */
    ghost predicate Valid()
      reads this, ntripRequester
    {
      && ntripRequester.Valid()
      && |requestTimes| == |ntripRequester.sent|
      && (forall k :: 0 < k < |requestTimes| ==> requestTimes[k - 1] + DURATION_BETWEEN_CORRECTION <= requestTimes[k])
      && (|requestTimes| > 0 ==> lastTime == requestTimes[|requestTimes| - 1])
    }

    /** Whether a request may be sent at `now`. */
    predicate Due(now: nat)
      reads this
    {
      SaturatingSub(now, lastTime) >= DURATION_BETWEEN_CORRECTION
    }

    /**
     * `new`: no request yet, and `last_time` two seconds before `now`; an instant less than two
     * seconds after the clock's origin makes the subtraction panic.
     */
    constructor(gpsSensor: UbloxSensor, getCorrection: string -> Option<seq<seq<u8>>>, now: nat)
      requires now >= DURATION_BETWEEN_CORRECTION
      ensures Valid() && this.gpsSensor == gpsSensor && fresh(ntripRequester)
      ensures ntripRequester.handle == CorrectionHandler(getCorrection)
      ensures ntripRequester.sent == [] && ntripRequester.responses == [] && ntripRequester.collected == []
      ensures lastTime == now - DURATION_BETWEEN_CORRECTION && Due(now)
    {
      this.gpsSensor := gpsSensor;
      ntripRequester := new Requester(CorrectionHandler(getCorrection));
      lastTime := now - DURATION_BETWEEN_CORRECTION;
      requestTimes := [];
    }

    /**
     * `apply_available_correction`: every collected correction message, batch by batch and in
     * order, is written to the receiver until the first write that fails.
     */
    method ApplyAvailableCorrection() returns (ok: bool)
      requires Valid()
      modifies ntripRequester, gpsSensor.port
      ensures Valid() && lastTime == old(lastTime) && requestTimes == old(requestTimes)
      ensures ntripRequester.responses == [] && ntripRequester.requests == old(ntripRequester.requests)
      ensures ntripRequester.sent == old(ntripRequester.sent)
      ensures ntripRequester.collected == old(ntripRequester.collected) + old(ntripRequester.responses)
      ensures ok <==> FirstFailure(gpsSensor.port.failing, old(gpsSensor.port.attempts), |Flatten(old(ntripRequester.responses))|).None?
      ensures WroteUntilFailure(gpsSensor.port.failing, old(gpsSensor.port.attempts), old(gpsSensor.port.written),
        Flatten(old(ntripRequester.responses)), gpsSensor.port.written, gpsSensor.port.attempts)
      ensures gpsSensor.port.input == old(gpsSensor.port.input)
    {
      var batches := ntripRequester.GetResponses();
      ok := WriteBatches(gpsSensor.port, batches);
    }

    /**
     * `request_new_correction`: the sentence is sent when at least two seconds have passed since
     * `last_time`, which is set to `now` before the send.
     */
    method RequestNewCorrection(ggaSentence: string, now: nat)
      requires Valid()
      modifies this, ntripRequester
      ensures Valid() && ntripRequester.responses == old(ntripRequester.responses)
      ensures ntripRequester.collected == old(ntripRequester.collected)
      ensures old(Due(now)) ==>
        && lastTime == now && requestTimes == old(requestTimes) + [now]
        && ntripRequester.requests == old(ntripRequester.requests) + [ggaSentence]
        && ntripRequester.sent == old(ntripRequester.sent) + [ggaSentence]
      ensures !old(Due(now)) ==>
        && lastTime == old(lastTime) && requestTimes == old(requestTimes)
        && ntripRequester.requests == old(ntripRequester.requests) && ntripRequester.sent == old(ntripRequester.sent)
    {
      if Due(now) {
        lastTime := now;
        requestTimes := requestTimes + [now];
        ntripRequester.Request(ggaSentence);
      }
    }

    /**
     * `Iterator::next`: a read without a GGA sentence changes nothing else and gives `None`.
     * Otherwise the available corrections are applied, a correction for the sentence is
     * requested when due, and the sentence is parsed; errors of either are only logged.
     */
    method Next<G>(now: nat, parse: string -> Option<G>) returns (r: Option<G>)
      requires Valid()
      modifies this, ntripRequester, gpsSensor.port
      ensures Valid() && gpsSensor.port.input == AfterRead(old(gpsSensor.port.input))
      ensures var read := NextRead(old(gpsSensor.port.input));
        var gga := if read.Some? then ExtractGga(read.value) else None;
        var port := gpsSensor.port;
        var msgs := Flatten(old(ntripRequester.responses));
        && (gga.None? ==>
              && r == None && lastTime == old(lastTime) && requestTimes == old(requestTimes)
              && port.written == old(port.written) && port.attempts == old(port.attempts)
              && ntripRequester.requests == old(ntripRequester.requests)
              && ntripRequester.responses == old(ntripRequester.responses)
              && ntripRequester.sent == old(ntripRequester.sent)
              && ntripRequester.collected == old(ntripRequester.collected))
        && (gga.Some? ==>
              && r == parse(gga.value)
              && WroteUntilFailure(port.failing, old(port.attempts), old(port.written), msgs, port.written, port.attempts)
              && ntripRequester.responses == []
              && ntripRequester.collected == old(ntripRequester.collected) + old(ntripRequester.responses)
              && (old(Due(now)) ==> lastTime == now && ntripRequester.sent == old(ntripRequester.sent) + [gga.value])
              && (!old(Due(now)) ==> lastTime == old(lastTime) && ntripRequester.sent == old(ntripRequester.sent)))
    {
      var data := gpsSensor.Next();
      var ggaString := if data.Some? then ExtractGga(data.value) else None;
      if ggaString.Some? {
        var _ := ApplyAvailableCorrection();
        RequestNewCorrection(ggaString.value, now);
        r := parse(ggaString.value);
      } else {
        r := None;
      }
    }
  }

  /** A request is due at any time after one at which it was due. */
  lemma DueLater(s: NtripUbloxSensor, t: nat, t': nat)
    requires s.Due(t) && t <= t'
    ensures s.Due(t')
  {
  }

  /** Requests are spaced: the `j`-th was sent at least `j - i` times two seconds after the `i`-th. */
  lemma {:induction false} RequestsSpaced(s: NtripUbloxSensor, i: nat, j: nat)
    requires s.Valid() && i <= j < |s.requestTimes|
    ensures s.requestTimes[i] + (j - i) * DURATION_BETWEEN_CORRECTION <= s.requestTimes[j]
    decreases j - i
  {
    if i < j {
      RequestsSpaced(s, i, j - 1);
    }
  }

  // ---------------------------------------------------------------------------------------
  // `sensors/src/gps.rs`: corrections arrive over a channel of byte chunks.

  /** The receiving end of the RTCM channel; `Send` stands for the NTRIP client's task. */
  class RtcmChannel {
    var pending: seq<seq<u8>>

    constructor()
      ensures pending == []
    {
      pending := [];
    }

    method Send(chunk: seq<u8>)
      modifies this
      ensures pending == old(pending) + [chunk]
    {
      pending := pending + [chunk];
    }

    /** `try_recv`: the oldest chunk, or `None` when the channel is empty. */
    method TryRecv() returns (r: Option<seq<u8>>)
      modifies this
      ensures old(pending) == [] ==> r == None && pending == []
      ensures old(pending) != [] ==> r == Some(old(pending)[0]) && pending == old(pending)[1..]
    {
      if |pending| == 0 {
        r := None;
      } else {
        r := Some(pending[0]);
        pending := pending[1..];
      }
    }
  }

  class CorrectedUbloxSensor {
    const gpsSensor: UbloxSensor
    const rtcmReceiver: RtcmChannel

    constructor(gpsSensor: UbloxSensor, rtcmReceiver: RtcmChannel)
      ensures this.gpsSensor == gpsSensor && this.rtcmReceiver == rtcmReceiver
    {
      this.gpsSensor := gpsSensor;
      this.rtcmReceiver := rtcmReceiver;
    }

    /**
     * `apply_available_correction`: the channel is drained, and the bytes of all chunks, in
     * arrival order, go to the receiver in one write, which is attempted even when empty.
     */
    method ApplyAvailableCorrection() returns (ok: bool)
      modifies rtcmReceiver, gpsSensor.port
      ensures rtcmReceiver.pending == []
      ensures var port := gpsSensor.port;
        && (ok <==> old(port.attempts) !in port.failing)
        && port.attempts == old(port.attempts) + 1 && port.input == old(port.input)
        && port.written == old(port.written) + (if ok then [Flatten(old(rtcmReceiver.pending))] else [])
    {
      ghost var chunks := rtcmReceiver.pending;
      var rtcmMessages: seq<seq<u8>> := [];
      var message := rtcmReceiver.TryRecv();
      if message.Some? {
        assert chunks == [message.value] + rtcmReceiver.pending;
      }
      while message.Some?
        invariant message.Some? ==> chunks == rtcmMessages + [message.value] + rtcmReceiver.pending
        invariant message.None? ==> chunks == rtcmMessages && rtcmReceiver.pending == []
        invariant gpsSensor.port.attempts == old(gpsSensor.port.attempts)
        invariant gpsSensor.port.written == old(gpsSensor.port.written)
        invariant gpsSensor.port.input == old(gpsSensor.port.input)
        decreases |rtcmReceiver.pending| + (if message.Some? then 1 else 0)
      {
        rtcmMessages := rtcmMessages + [message.value];
        ghost var before := rtcmReceiver.pending;
        message := rtcmReceiver.TryRecv();
        if message.Some? {
          assert before == [message.value] + rtcmReceiver.pending;
        }
      }
      assert rtcmMessages == chunks;
      var rtcmData := Flatten(rtcmMessages);
      ok := gpsSensor.port.WriteAll(rtcmData);
    }

    /** `Iterator::next`: the corrections are applied, whatever the outcome, before the read. */
    method Next<G>(parse: string -> Option<G>) returns (r: Option<G>)
      modifies rtcmReceiver, gpsSensor.port
      ensures rtcmReceiver.pending == []
      ensures r == GgaOfRead(NextRead(old(gpsSensor.port.input)), parse)
      ensures var port := gpsSensor.port;
        && port.input == AfterRead(old(port.input)) && port.attempts == old(port.attempts) + 1
        && port.written == old(port.written) +
             (if old(port.attempts) !in port.failing then [Flatten(old(rtcmReceiver.pending))] else [])
    {
      var _ := ApplyAvailableCorrection();
      r := gpsSensor.NextGga(parse);
    }
  }
}
