/**
 * `SimplePositionSensor` of `sensors/src/lib.rs`: positions in a plane whose origin is the
 * first GPS fix. The receiver is the corrected u-blox sensor of `sensors/src/gps.rs`; the NMEA
 * parser and the geodetic conversion of `GeoToENU` (trigonometry) are given functions.
 */
module Position {
  import opened Wrappers
  import opened Bytes
  import opened Nmea
  import opened Coordinates
  import opened Ublox

  /** The coordinate one read yields: GGA sentence extracted and parsed, with longitude and latitude. */
  function FixOfRead(read: Option<string>, parse: string -> Option<GgaFix>): Option<GeoCoord> {
    match GgaOfRead(read, parse)
    case None => None
    case Some(gga) => FromGga(gga)
  }

  /** There is no fix unless the read, the extraction, the parser and both coordinates succeed. */
  lemma FixOfReadSpec(read: Option<string>, parse: string -> Option<GgaFix>)
    ensures var fix := FixOfRead(read, parse);
      (fix.Some? <==>
         && read.Some? && ExtractGga(read.value).Some?
         && parse(ExtractGga(read.value).value).Some?
         && parse(ExtractGga(read.value).value).value.longitude.Some?
         && parse(ExtractGga(read.value).value).value.latitude.Some?)
      && (fix.Some? ==>
         var gga := parse(ExtractGga(read.value).value).value;
         fix.value == GeoCoord(gga.longitude.value, gga.latitude.value))
  {
  }

  /** The fix of each read of the input, in order. */
  function Fixes(input: seq<Option<string>>, parse: string -> Option<GgaFix>): (fs: seq<Option<GeoCoord>>)
    ensures |fs| == |input| && forall j :: 0 <= j < |input| ==> fs[j] == FixOfRead(input[j], parse)
  {
    seq(|input|, j requires 0 <= j < |input| => FixOfRead(input[j], parse))
  }

  ghost predicate HasSome<T>(s: seq<Option<T>>) {
    exists k :: 0 <= k < |s| && s[k].Some?
  }

  /** The index of the first present element. */
  ghost function FirstSome<T>(s: seq<Option<T>>): (k: nat)
    requires HasSome(s)
    ensures k < |s| && s[k].Some?
    ensures forall j :: 0 <= j < k ==> s[j].None?
    decreases |s|
  {
    if s[0].Some? then 0
    else
      assert HasSome(s[1..]) by {
        var w :| 0 <= w < |s| && s[w].Some?;
        assert s[1..][w - 1] == s[w];
      }
      var k := FirstSome(s[1..]);
      assert forall j :: 0 < j <= k ==> s[j] == s[1..][j - 1];
      1 + k
  }

  /**
   * What `n` successive reads of the corrected sensor, from write attempt `start` on, write to
   * the receiver: the pending corrections `data` on the first attempt, an empty write on the
   * others (the channel is drained), each only when its attempt succeeds.
   */
  function CorrectionWrites(failing: set<nat>, start: nat, data: seq<u8>, n: nat): seq<seq<u8>>
    decreases n
  {
    if n == 0 then [] else (if start in failing then [] else [data]) + CorrectionWrites(failing, start + 1, [], n - 1)
  }

  /** One more read appends the outcome of its own write. */
  lemma {:induction false} CorrectionWritesSnoc(failing: set<nat>, start: nat, data: seq<u8>, n: nat)
    ensures CorrectionWrites(failing, start, data, n + 1)
         == CorrectionWrites(failing, start, data, n) + CorrectionWrites(failing, start + n, if n == 0 then data else [], 1)
    decreases n
  {
    if n > 0 {
      CorrectionWritesSnoc(failing, start + 1, [], n - 1);
    }
  }

  /** The log after read `i` extends the log of the reads before it by that read's write. */
  lemma WrittenStep(failing: set<nat>, a0: nat, d0: seq<u8>, i: nat, w0: seq<seq<u8>>,
                    before: seq<seq<u8>>, after: seq<seq<u8>>)
    requires before == w0 + CorrectionWrites(failing, a0, d0, i)
    requires after == before + CorrectionWrites(failing, a0 + i, if i == 0 then d0 else [], 1)
    ensures after == w0 + CorrectionWrites(failing, a0, d0, i + 1)
  {
    CorrectionWritesSnoc(failing, a0, d0, i);
    AppendAssoc(w0, CorrectionWrites(failing, a0, d0, i), CorrectionWrites(failing, a0 + i, if i == 0 then d0 else [], 1));
  }

  lemma AppendAssoc<T>(a: seq<T>, b: seq<T>, c: seq<T>)
    ensures a + (b + c) == (a + b) + c
  {
  }

  /** A plane position from a fix: the conversion relative to the base point, height dropped. */
  function PositionOf(fix: Option<GeoCoord>, basePoint: GeoCoord, convert: (GeoCoord, GeoCoord) -> Cartesian3D)
    : (r: Option<Cartesian2D>)
    ensures r.Some? <==> fix.Some?
    ensures r.Some? ==> r.value == To2D(convert(basePoint, fix.value))
  {
    match fix
    case None => None
    case Some(g) => Some(To2D(convert(basePoint, g)))
  }

  /**
   * The state after reading up to and including the first fix of `input`, which is `base`,
   * starting from write attempt `a0` with the log `w0` and the pending corrections `d0`.
   */
  ghost predicate ReadFirstFix(sensor: CorrectedUbloxSensor, parse: string -> Option<GgaFix>, base: GeoCoord,
                               input: seq<Option<string>>, a0: nat, w0: seq<seq<u8>>, d0: seq<u8>)
    requires HasSome(Fixes(input, parse))
    reads sensor, sensor.gpsSensor, sensor.gpsSensor.port, sensor.rtcmReceiver
  {
    var k := FirstSome(Fixes(input, parse));
    var port := sensor.gpsSensor.port;
    && Some(base) == Fixes(input, parse)[k]
    && port.input == input[k + 1..]
    && port.attempts == a0 + k + 1
    && port.written == w0 + CorrectionWrites(port.failing, a0, d0, k + 1)
    && sensor.rtcmReceiver.pending == []
  }

  /** One read of the corrected sensor, reduced to its fix. */
  method ReadFix(sensor: CorrectedUbloxSensor, parse: string -> Option<GgaFix>) returns (geo: Option<GeoCoord>)
    modifies sensor.rtcmReceiver, sensor.gpsSensor.port
    ensures geo == FixOfRead(NextRead(old(sensor.gpsSensor.port.input)), parse)
    ensures var port := sensor.gpsSensor.port;
      && port.input == AfterRead(old(port.input)) && port.attempts == old(port.attempts) + 1
      && port.written == old(port.written) +
           CorrectionWrites(port.failing, old(port.attempts), Flatten(old(sensor.rtcmReceiver.pending)), 1)
      && sensor.rtcmReceiver.pending == []
  {
    var gga := sensor.Next(parse);
    geo := if gga.Some? then FromGga(gga.value) else None;
  }

  /**
   * The state after the first `i` reads of `input`, which started at write attempt `a0` with the
   * log `w0` and the pending corrections `d0`.
   */
  ghost predicate Progress(sensor: CorrectedUbloxSensor, input: seq<Option<string>>, a0: nat, w0: seq<seq<u8>>,
                           d0: seq<u8>, i: nat)
    reads sensor, sensor.gpsSensor, sensor.gpsSensor.port, sensor.rtcmReceiver
  {
    var port := sensor.gpsSensor.port;
    && i <= |input| && port.input == input[i..] && port.attempts == a0 + i
    && port.written == w0 + CorrectionWrites(port.failing, a0, d0, i)
    && (i == 0 ==> Flatten(sensor.rtcmReceiver.pending) == d0)
    && (i > 0 ==> sensor.rtcmReceiver.pending == [])
  }

  /** Read `i` of `input` yields its precomputed fix. */
  method ReadStep(sensor: CorrectedUbloxSensor, parse: string -> Option<GgaFix>, ghost input: seq<Option<string>>,
                  ghost fixes: seq<Option<GeoCoord>>, ghost a0: nat, ghost w0: seq<seq<u8>>, ghost d0: seq<u8>,
                  ghost i: nat) returns (geo: Option<GeoCoord>)
    requires fixes == Fixes(input, parse) && i < |input| && Progress(sensor, input, a0, w0, d0, i)
    modifies sensor.rtcmReceiver, sensor.gpsSensor.port
    ensures geo == fixes[i] && Progress(sensor, input, a0, w0, d0, i + 1)
  {
    var port := sensor.gpsSensor.port;
    ghost var logBefore := port.written;
    assert NextRead(input[i..]) == input[i];
    assert input[i..][1..] == input[i + 1..];
    assert Flatten(sensor.rtcmReceiver.pending) == if i == 0 then d0 else [];
    geo := ReadFix(sensor, parse);
    WrittenStep(port.failing, a0, d0, i, w0, logBefore, port.written);
  }

  /** The loop of `SimplePositionSensor::new`: reads until a read yields a fix. */
  method ReadUntilFix(sensor: CorrectedUbloxSensor, parse: string -> Option<GgaFix>) returns (base: GeoCoord)
    requires HasSome(Fixes(sensor.gpsSensor.port.input, parse))
    modifies sensor.rtcmReceiver, sensor.gpsSensor.port
    ensures ReadFirstFix(sensor, parse, base, old(sensor.gpsSensor.port.input), old(sensor.gpsSensor.port.attempts),
                         old(sensor.gpsSensor.port.written), Flatten(old(sensor.rtcmReceiver.pending)))
  {
    ghost var input := sensor.gpsSensor.port.input;
    ghost var fixes := Fixes(input, parse);
    ghost var k := FirstSome(fixes);
    ghost var a0, w0 := sensor.gpsSensor.port.attempts, sensor.gpsSensor.port.written;
    ghost var d0 := Flatten(sensor.rtcmReceiver.pending);
    var geo: Option<GeoCoord> := None;
    ghost var i: nat := 0;
    while geo.None?
      invariant i <= k + 1 && (geo.None? ==> i <= k) && (geo.Some? ==> i == k + 1 && geo == fixes[k])
      invariant Progress(sensor, input, a0, w0, d0, i)
      decreases k + 1 - i
    {
      geo := ReadStep(sensor, parse, input, fixes, a0, w0, d0, i);
      i := i + 1;
    }
    base := geo.value;
  }

  class SimplePositionSensor {
    const ubloxSensor: CorrectedUbloxSensor
    const parse: string -> Option<GgaFix>
    /** `GeoToENU::convert` at height 0 of the converter built from the base point at height 0. */
    const convert: (GeoCoord, GeoCoord) -> Cartesian3D
    /** The first fix, the origin of the plane. */
    const basePoint: GeoCoord

    /**
     * `new`: reads until the first fix, which becomes the base point. The source loops for ever
     * when no fix comes; here the input must hold one.
     */
    constructor(ubloxSensor: CorrectedUbloxSensor, parse: string -> Option<GgaFix>,
                convert: (GeoCoord, GeoCoord) -> Cartesian3D)
      requires HasSome(Fixes(ubloxSensor.gpsSensor.port.input, parse))
      modifies ubloxSensor.rtcmReceiver, ubloxSensor.gpsSensor.port
      ensures this.ubloxSensor == ubloxSensor && this.parse == parse && this.convert == convert
      ensures ReadFirstFix(ubloxSensor, parse, basePoint,
        old(ubloxSensor.gpsSensor.port.input), old(ubloxSensor.gpsSensor.port.attempts),
        old(ubloxSensor.gpsSensor.port.written), Flatten(old(ubloxSensor.rtcmReceiver.pending)))
    {
      var base := ReadUntilFix(ubloxSensor, parse);
      this.ubloxSensor := ubloxSensor;
      this.parse := parse;
      this.convert := convert;
      basePoint := base;
    }

    /** `next`: the next fix in the plane, `None` when the read yields no coordinate. */
    method Next() returns (r: Option<Cartesian2D>)
      modifies ubloxSensor.rtcmReceiver, ubloxSensor.gpsSensor.port
      ensures r == PositionOf(FixOfRead(NextRead(old(ubloxSensor.gpsSensor.port.input)), parse), basePoint, convert)
      ensures var port := ubloxSensor.gpsSensor.port;
        && port.input == AfterRead(old(port.input)) && port.attempts == old(port.attempts) + 1
        && port.written == old(port.written) +
             CorrectionWrites(port.failing, old(port.attempts), Flatten(old(ubloxSensor.rtcmReceiver.pending)), 1)
        && ubloxSensor.rtcmReceiver.pending == []
    {
      var geo := ReadFix(ubloxSensor, parse);
      r := PositionOf(geo, basePoint, convert);
    }
  }
}
