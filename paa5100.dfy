/**
 * The PAA5100 optical-flow sensor of `src/devices/paa5100.rs` on an SPI bus. Each register read
 * is one full-duplex transfer: the register address bytes go out and as many bytes come back.
 * The `k`-th transfer of the device gets the `k`-th of its responses.
 */
module Paa5100 {
  import opened Wrappers
  import opened Bytes
  import opened Bus
  import opened Kinematics

  /** `OpticalFlowError::BadData`, and the I/O error of a transfer. */
  datatype DistanceError = BadData(squal: u8, shutter: u16) | IoError

  /** Why opening the sensor fails: an I/O error, or a wrong product id. */
  datatype OpenError = OpenIo | InvalidData

  /** The approximation of `new`: millimetres per pixel of flow at a height above ground. */
  function MmPerPixel(heightInM: real): real {
    heightInM * 2.13195
  }

  const PRODUCT_ID_TX: seq<u8> := [0x00]
  const INVERSE_PRODUCT_ID_TX: seq<u8> := [0x5F]
  const SQUAL_TX: seq<u8> := [0x07]
  const SHUTTER_TX: seq<u8> := [0x0C, 0x0B]
  const DELTA_X_TX: seq<u8> := [0x04, 0x03]
  const DELTA_Y_TX: seq<u8> := [0x06, 0x05]

  /** The responses left after `k` transfers. */
  function Drop(responses: seq<Option<seq<u8>>>, k: nat): seq<Option<seq<u8>>> {
    if k <= |responses| then responses[k..] else []
  }

  lemma DropNext(responses: seq<Option<seq<u8>>>, k: nat)
    ensures AfterResponse(Drop(responses, k)) == Drop(responses, k + 1)
  {
  }

  /** What the `k`-th transfer, asking for `n` bytes, receives. */
  function Nth(responses: seq<Option<seq<u8>>>, k: nat, n: nat): (r: Option<seq<u8>>)
    ensures r.Some? ==> |r.value| == n
  {
    ReadOutcome(Drop(responses, k), n)
  }

  /** A response of exactly the requested length is received as it is. */
  lemma NthExact(responses: seq<Option<seq<u8>>>, k: nat, bs: seq<u8>)
    requires k < |responses| && responses[k] == Some(bs)
    ensures Nth(responses, k, |bs|) == Some(bs)
  {
    assert bs[..|bs|] == bs;
  }

  /** The outcome of a sequence of transfers on the device, and the bytes they sent. */
  datatype Exchange<T> = Exchange(result: T, sent: seq<seq<u8>>)

  /** The quality gate of `get_distance`: a low surface quality or a shutter low byte of `0x1F`. */
  predicate BadQuality(squal: u8, shutter: u16) {
    squal < 0x19 || shutter % 256 == 0x1F
  }

  /**
   * `get_distance` on the responses: the surface quality, then the shutter; when the gate
   * rejects them, no further transfer and `BadData`; otherwise the two deltas, each scaled to
   * millimetres. Any failing transfer ends it with an I/O error.
   */
  function DistanceExchange(responses: seq<Option<seq<u8>>>, mmPerPixel: real): Exchange<Result<DistanceMM, DistanceError>> {
    match Nth(responses, 0, 1)
    case None => Exchange(Err(IoError), [SQUAL_TX])
    case Some(q) =>
      match Nth(responses, 1, 2)
      case None => Exchange(Err(IoError), [SQUAL_TX, SHUTTER_TX])
      case Some(s) =>
        var squal, shutter := q[0], U16FromBeBytes(s[0], s[1]);
        if BadQuality(squal, shutter) then Exchange(Err(BadData(squal, shutter)), [SQUAL_TX, SHUTTER_TX])
        else match Nth(responses, 2, 2)
          case None => Exchange(Err(IoError), [SQUAL_TX, SHUTTER_TX, DELTA_X_TX])
          case Some(x) =>
            match Nth(responses, 3, 2)
            case None => Exchange(Err(IoError), [SQUAL_TX, SHUTTER_TX, DELTA_X_TX, DELTA_Y_TX])
            case Some(y) =>
              var dx, dy := I16FromBeBytes(x[0], x[1]), I16FromBeBytes(y[0], y[1]);
              Exchange(Ok(DistanceMM(dx as real * mmPerPixel, dy as real * mmPerPixel)),
                       [SQUAL_TX, SHUTTER_TX, DELTA_X_TX, DELTA_Y_TX])
  }

  /**
   * The quality gate: `BadData` exactly when both quality reads succeed and the gate rejects
   * them, and then the deltas are never read.
   */
  lemma QualityGate(responses: seq<Option<seq<u8>>>, mmPerPixel: real)
    ensures var e := DistanceExchange(responses, mmPerPixel);
      && (e.result.Err? && e.result.error.BadData? <==>
            && Nth(responses, 0, 1).Some? && Nth(responses, 1, 2).Some?
            && BadQuality(Nth(responses, 0, 1).value[0],
                          U16FromBeBytes(Nth(responses, 1, 2).value[0], Nth(responses, 1, 2).value[1])))
      && (e.result.Err? && e.result.error.BadData? ==>
            && e.result.error.squal == Nth(responses, 0, 1).value[0]
            && e.sent == [SQUAL_TX, SHUTTER_TX])
  {
  }

  /** A distance comes out exactly when all four transfers succeed and the gate lets it through. */
  lemma DistanceAvailable(responses: seq<Option<seq<u8>>>, mmPerPixel: real)
    ensures var e := DistanceExchange(responses, mmPerPixel);
      && (e.result.Ok? <==>
            && Nth(responses, 0, 1).Some? && Nth(responses, 1, 2).Some?
            && Nth(responses, 2, 2).Some? && Nth(responses, 3, 2).Some?
            && !BadQuality(Nth(responses, 0, 1).value[0],
                           U16FromBeBytes(Nth(responses, 1, 2).value[0], Nth(responses, 1, 2).value[1])))
      && 1 <= |e.sent| <= 4
      && e.sent == [SQUAL_TX, SHUTTER_TX, DELTA_X_TX, DELTA_Y_TX][..|e.sent|]
  {
  }

  /** The distance of four successful transfers that pass the gate. */
  lemma GoodReading(responses: seq<Option<seq<u8>>>, mmPerPixel: real)
    requires Nth(responses, 0, 1).Some? && Nth(responses, 1, 2).Some?
    requires Nth(responses, 2, 2).Some? && Nth(responses, 3, 2).Some?
    requires !BadQuality(Nth(responses, 0, 1).value[0], U16FromBeBytes(Nth(responses, 1, 2).value[0], Nth(responses, 1, 2).value[1]))
    ensures DistanceExchange(responses, mmPerPixel).result ==
      Ok(DistanceMM(I16FromBeBytes(Nth(responses, 2, 2).value[0], Nth(responses, 2, 2).value[1]) as real * mmPerPixel,
                    I16FromBeBytes(Nth(responses, 3, 2).value[0], Nth(responses, 3, 2).value[1]) as real * mmPerPixel))
  {
  }

  /**
   * The flow counts the sensor sends, big-endian two's complement, come back scaled: a good
   * reading of `dx` and `dy` pixels is `dx` and `dy` times the millimetres per pixel.
   */
  lemma DistanceRoundTrip(squal: u8, shutter: u16, dx: i16, dy: i16, mmPerPixel: real,
                          responses: seq<Option<seq<u8>>>)
    requires !BadQuality(squal, shutter)
    requires |responses| >= 4
    requires responses[0] == Some([squal])
    requires responses[1] == Some([shutter / 256, shutter % 256])
    requires responses[2] == Some([I16ToBeBytes(dx).0, I16ToBeBytes(dx).1])
    requires responses[3] == Some([I16ToBeBytes(dy).0, I16ToBeBytes(dy).1])
    ensures DistanceExchange(responses, mmPerPixel).result == Ok(DistanceMM(dx as real * mmPerPixel, dy as real * mmPerPixel))
  {
    var x, y := I16ToBeBytes(dx), I16ToBeBytes(dy);
    I16BeRoundTrip(dx, 0, 0);
    I16BeRoundTrip(dy, 0, 0);
    NthExact(responses, 0, [squal]);
    NthExact(responses, 1, [shutter / 256, shutter % 256]);
    NthExact(responses, 2, [x.0, x.1]);
    NthExact(responses, 3, [y.0, y.1]);
    assert U16FromBeBytes(shutter / 256, shutter % 256) == shutter;
    GoodReading(responses, mmPerPixel);
    var e := DistanceExchange(responses, mmPerPixel);
    assert e.result.value.dx == dx as real * mmPerPixel && e.result.value.dy == dy as real * mmPerPixel;
  }

  /** A forward motion of the sensor (a positive delta) is a positive distance, and backwards negative. */
  lemma DistanceSign(responses: seq<Option<seq<u8>>>, mmPerPixel: real)
    requires mmPerPixel > 0.0
    ensures var e := DistanceExchange(responses, mmPerPixel);
      e.result.Ok? ==>
        && (e.result.value.dx < 0.0 <==> Nth(responses, 2, 2).value[0] >= 128)
        && (e.result.value.dy < 0.0 <==> Nth(responses, 3, 2).value[0] >= 128)
  {
    var e := DistanceExchange(responses, mmPerPixel);
    if e.result.Ok? {
      var x, y := Nth(responses, 2, 2).value, Nth(responses, 3, 2).value;
      var dx, dy := I16FromBeBytes(x[0], x[1]), I16FromBeBytes(y[0], y[1]);
      assert e.result.value.dx == dx as real * mmPerPixel;
      assert e.result.value.dy == dy as real * mmPerPixel;
      if dx < 0 {
        assert (dx as real) * mmPerPixel < 0.0;
      } else {
        assert (dx as real) * mmPerPixel >= 0.0;
      }
      if dy < 0 {
        assert (dy as real) * mmPerPixel < 0.0;
      } else {
        assert (dy as real) * mmPerPixel >= 0.0;
      }
    }
  }

  /** The product-id check of `new`: the second id is read only when the first one is right. */
  function ProbeExchange(responses: seq<Option<seq<u8>>>): Exchange<Result<(), OpenError>> {
    match Nth(responses, 0, 1)
    case None => Exchange(Err(OpenIo), [PRODUCT_ID_TX])
    case Some(p) =>
      if p[0] != 0x49 then Exchange(Err(InvalidData), [PRODUCT_ID_TX])
      else match Nth(responses, 1, 1)
        case None => Exchange(Err(OpenIo), [PRODUCT_ID_TX, INVERSE_PRODUCT_ID_TX])
        case Some(i) =>
          if i[0] != 0xB6 then Exchange(Err(InvalidData), [PRODUCT_ID_TX, INVERSE_PRODUCT_ID_TX])
          else Exchange(Ok(()), [PRODUCT_ID_TX, INVERSE_PRODUCT_ID_TX])
  }

  /** The sensor is accepted exactly when the ids read are `0x49` and `0xB6`. */
  lemma ProbeAccepts(responses: seq<Option<seq<u8>>>)
    ensures var e := ProbeExchange(responses);
      && (e.result.Ok? <==>
            && Nth(responses, 0, 1).Some? && Nth(responses, 0, 1).value[0] == 0x49
            && Nth(responses, 1, 1).Some? && Nth(responses, 1, 1).value[0] == 0xB6)
      && (e.result == Err(InvalidData) ==> Nth(responses, 0, 1).Some?)
      && e.sent == [PRODUCT_ID_TX, INVERSE_PRODUCT_ID_TX][..|e.sent|] && 1 <= |e.sent| <= 2
  {
  }

  class PAA5100 {
    const mmPerPixel: real
    const spi: SpiDevice

    constructor(mmPerPixel: real, spi: SpiDevice)
      ensures this.mmPerPixel == mmPerPixel && this.spi == spi
    {
      this.mmPerPixel := mmPerPixel;
      this.spi := spi;
    }

    /** `read_write` as the `k`-th transfer of the device since `r0` were its responses. */
    method ReadWrite(tx: seq<u8>, n: nat, ghost r0: seq<Option<seq<u8>>>, ghost k: nat) returns (rx: Option<seq<u8>>)
      requires spi.responses == Drop(r0, k)
      modifies spi
      ensures rx == Nth(r0, k, n) && spi.responses == Drop(r0, k + 1) && spi.sent == old(spi.sent) + [tx]
    {
      rx := spi.Transfer(tx, n);
      DropNext(r0, k);
    }

    /** `get_distance`. */
    method GetDistance() returns (r: Result<DistanceMM, DistanceError>)
      modifies spi
      ensures var e := DistanceExchange(old(spi.responses), mmPerPixel);
        && r == e.result
        && spi.sent == old(spi.sent) + e.sent
        && spi.responses == Drop(old(spi.responses), |e.sent|)
    {
      ghost var r0, s0 := spi.responses, spi.sent;
      assert Drop(r0, 0) == r0;
      var q := ReadWrite(SQUAL_TX, 1, r0, 0);
      if q.None? {
        return Err(IoError);
      }
      var s := ReadWrite(SHUTTER_TX, 2, r0, 1);
      if s.None? {
        assert spi.sent == s0 + [SQUAL_TX, SHUTTER_TX];
        return Err(IoError);
      }
      var squal, shutter := q.value[0], U16FromBeBytes(s.value[0], s.value[1]);
      if squal < 0x19 || shutter % 256 == 0x1F {
        assert spi.sent == s0 + [SQUAL_TX, SHUTTER_TX];
        return Err(BadData(squal, shutter));
      }
      var x := ReadWrite(DELTA_X_TX, 2, r0, 2);
      if x.None? {
        assert spi.sent == s0 + [SQUAL_TX, SHUTTER_TX, DELTA_X_TX];
        return Err(IoError);
      }
      var y := ReadWrite(DELTA_Y_TX, 2, r0, 3);
      assert spi.sent == s0 + [SQUAL_TX, SHUTTER_TX, DELTA_X_TX, DELTA_Y_TX];
      if y.None? {
        return Err(IoError);
      }
      var dx, dy := I16FromBeBytes(x.value[0], x.value[1]), I16FromBeBytes(y.value[0], y.value[1]);
      r := Ok(DistanceMM(dx as real * mmPerPixel, dy as real * mmPerPixel));
      GoodReading(r0, mmPerPixel);
      assert DistanceExchange(r0, mmPerPixel).result.value == r.value;
    }

    /** `Iterator::next`: the distance, or none on any error. */
    method Next() returns (r: Option<DistanceMM>)
      modifies spi
      ensures var e := DistanceExchange(old(spi.responses), mmPerPixel);
        && r == e.result.ToOption()
        && spi.sent == old(spi.sent) + e.sent
        && spi.responses == Drop(old(spi.responses), |e.sent|)
    {
      var d := GetDistance();
      r := d.ToOption();
    }
  }

  /**
   * `PAA5100::new` on an opened and configured bus: the scale from the height, then the two
   * product ids checked.
   */
  method Open(heightInM: real, spi: SpiDevice) returns (r: Result<PAA5100, OpenError>)
    modifies spi
    ensures var e := ProbeExchange(old(spi.responses));
      && (r.Ok? <==> e.result.Ok?)
      && (r.Err? ==> r == Err(e.result.error))
      && (r.Ok? ==> fresh(r.value) && r.value.spi == spi && r.value.mmPerPixel == MmPerPixel(heightInM))
      && spi.sent == old(spi.sent) + e.sent
      && spi.responses == Drop(old(spi.responses), |e.sent|)
  {
    ghost var r0 := spi.responses;
    assert Drop(r0, 0) == r0;
    var p := spi.Transfer(PRODUCT_ID_TX, 1);
    DropNext(r0, 0);
    if p.None? {
      return Err(OpenIo);
    }
    if p.value[0] != 0x49 {
      return Err(InvalidData);
    }
    var i := spi.Transfer(INVERSE_PRODUCT_ID_TX, 1);
    DropNext(r0, 1);
    if i.None? {
      return Err(OpenIo);
    }
    if i.value[0] != 0xB6 {
      return Err(InvalidData);
    }
    var sensor := new PAA5100(MmPerPixel(heightInM), spi);
    r := Ok(sensor);
  }
}
