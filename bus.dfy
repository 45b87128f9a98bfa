/**
 * The buses the device drivers talk over. A write is one numbered attempt that fails when its
 * number is in the device's failing set; a read returns the next of the responses the device
 * is given, `None` standing for an I/O error (and for a device with no response left). The
 * bytes of a read land in a zeroed buffer of the requested length.
 */
module Bus {
  import opened Wrappers
  import opened Bytes

  /** The first of `n` consecutive write attempts, numbered from `start`, that fails. */
  function FirstFailure(failing: set<nat>, start: nat, n: nat): (r: Option<nat>)
    decreases n
    ensures r.Some? ==> r.value < n && start + r.value in failing
    ensures r.Some? ==> forall t :: start <= t < start + r.value ==> t !in failing
    ensures r.None? ==> forall t :: start <= t < start + n ==> t !in failing
  {
    if n == 0 then None
    else match FirstFailure(failing, start, n - 1)
      case Some(k) => Some(k)
      case None => if start + n - 1 in failing then Some(n - 1) else None
  }

  /** How many of the messages reach the device when they are written until the first failure. */
  function Delivered(failing: set<nat>, start: nat, n: nat): (d: nat)
    ensures d <= n
  {
    match FirstFailure(failing, start, n)
    case Some(k) => k
    case None => n
  }

  /** How many write attempts that takes: one more than delivered when a write fails. */
  function Attempted(failing: set<nat>, start: nat, n: nat): (a: nat)
    ensures a <= n
  {
    match FirstFailure(failing, start, n)
    case Some(k) => k + 1
    case None => n
  }

  /**
   * The state after writing `msgs` one by one from write attempt `start` on, stopping at the
   * first failure: the messages before the failing one (or all of them) appended to the log
   * `w0`, and one attempt per message tried.
   */
  predicate WroteUntilFailure(failing: set<nat>, start: nat, w0: seq<seq<u8>>, msgs: seq<seq<u8>>,
                              written: seq<seq<u8>>, attempts: nat)
  {
    && written == w0 + msgs[..Delivered(failing, start, |msgs|)]
    && attempts == start + Attempted(failing, start, |msgs|)
  }

  /** The first failing attempt is the one at `k` when it fails and none before it does. */
  lemma FirstFailureAt(failing: set<nat>, start: nat, n: nat, k: nat)
    requires k < n && start + k in failing
    requires forall t :: start <= t < start + k ==> t !in failing
    ensures FirstFailure(failing, start, n) == Some(k)
  {
  }

  lemma AllDelivered(failing: set<nat>, start: nat, w0: seq<seq<u8>>, msgs: seq<seq<u8>>)
    requires forall t :: start <= t < start + |msgs| ==> t !in failing
    ensures FirstFailure(failing, start, |msgs|).None?
    ensures WroteUntilFailure(failing, start, w0, msgs, w0 + msgs, start + |msgs|)
  {
    assert msgs[..|msgs|] == msgs;
  }


  /** A failure of the write of message `i`, after all before it went through, ends the writing there. */
  lemma FailedAt(failing: set<nat>, start: nat, w0: seq<seq<u8>>, msgs: seq<seq<u8>>, i: nat)
    requires i < |msgs| && start + i in failing
    requires forall t :: start <= t < start + i ==> t !in failing
    ensures FirstFailure(failing, start, |msgs|) == Some(i)
    ensures WroteUntilFailure(failing, start, w0, msgs, w0 + msgs[..i], start + i + 1)
  {
    FirstFailureAt(failing, start, |msgs|, i);
  }

  /** Attempts `m + n` fail first where the first `m` do, or else where the following `n` do. */
  lemma FirstFailureSplit(failing: set<nat>, start: nat, m: nat, n: nat)
    ensures FirstFailure(failing, start, m).Some? ==> FirstFailure(failing, start, m + n) == FirstFailure(failing, start, m)
    ensures FirstFailure(failing, start, m).None? && FirstFailure(failing, start + m, n).Some? ==>
      FirstFailure(failing, start, m + n) == Some(m + FirstFailure(failing, start + m, n).value)
    ensures FirstFailure(failing, start, m).None? && FirstFailure(failing, start + m, n).None? ==>
      FirstFailure(failing, start, m + n).None?
  {
    var first, second := FirstFailure(failing, start, m), FirstFailure(failing, start + m, n);
    if first.Some? {
      FirstFailureAt(failing, start, m + n, first.value);
    } else if second.Some? {
      FailureAfter(failing, start, m, n, second.value);
    } else {
      NoFailure(failing, start, m, n);
    }
  }

  lemma FailureAfter(failing: set<nat>, start: nat, m: nat, n: nat, k: nat)
    requires forall t :: start <= t < start + m ==> t !in failing
    requires FirstFailure(failing, start + m, n) == Some(k)
    ensures FirstFailure(failing, start, m + n) == Some(m + k)
  {
    assert forall t :: start <= t < start + m + k ==> t !in failing;
    FirstFailureAt(failing, start, m + n, m + k);
  }

  lemma NoFailure(failing: set<nat>, start: nat, m: nat, n: nat)
    requires forall t :: start <= t < start + m ==> t !in failing
    requires forall t :: start + m <= t < start + m + n ==> t !in failing
    ensures FirstFailure(failing, start, m + n).None?
  {
  }

  /** Writing `a` until a failure and then, if none failed, `b`, is writing `a + b` until a failure. */
  lemma WroteAppend(failing: set<nat>, start: nat, w0: seq<seq<u8>>, a: seq<seq<u8>>, b: seq<seq<u8>>,
                    w1: seq<seq<u8>>, t1: nat, w2: seq<seq<u8>>, t2: nat)
    requires WroteUntilFailure(failing, start, w0, a, w1, t1)
    requires FirstFailure(failing, start, |a|).None? ==> WroteUntilFailure(failing, t1, w1, b, w2, t2)
    requires FirstFailure(failing, start, |a|).Some? ==> w2 == w1 && t2 == t1
    ensures WroteUntilFailure(failing, start, w0, a + b, w2, t2)
    ensures FirstFailure(failing, start, |a + b|).None? <==>
      FirstFailure(failing, start, |a|).None? && FirstFailure(failing, t1, |b|).None?
  {
    var m, n := |a|, |b|;
    var stopped := FirstFailure(failing, start, m).Some?;
    CountsSplit(failing, start, m, n);
    var d1, d2, d := Delivered(failing, start, m), Delivered(failing, t1, n), Delivered(failing, start, m + n);
    if !stopped {
      assert t1 == start + m && d1 == m;
    }
    LogAppend(w0, a, b, w1, w2, stopped, d1, d2, d);
    assert |a + b| == m + n;
  }

  /** The log after writing a prefix of `a` and, when `a` went through, a prefix of `b`. */
  lemma LogAppend<T>(w0: seq<T>, a: seq<T>, b: seq<T>, w1: seq<T>, w2: seq<T>, stopped: bool, d1: nat, d2: nat, d: nat)
    requires d1 <= |a| && d2 <= |b| && w1 == w0 + a[..d1]
    requires !stopped ==> d1 == |a| && w2 == w1 + b[..d2] && d == |a| + d2
    requires stopped ==> w2 == w1 && d == d1
    ensures w2 == w0 + (a + b)[..d]
  {
    if stopped {
      PrefixOfShorter(a, b, d1);
    } else {
      assert a[..d1] == a;
      PrefixOfLonger(a, b, d2);
      Associative(w0, a, b[..d2]);
    }
  }

  /** How many of `m + n` writes get through, and how many are tried, from the counts of the two parts. */
  lemma CountsSplit(failing: set<nat>, start: nat, m: nat, n: nat)
    ensures Delivered(failing, start, m + n) ==
      if FirstFailure(failing, start, m).Some? then Delivered(failing, start, m) else m + Delivered(failing, start + m, n)
    ensures Attempted(failing, start, m + n) ==
      if FirstFailure(failing, start, m).Some? then Attempted(failing, start, m) else m + Attempted(failing, start + m, n)
    ensures FirstFailure(failing, start, m + n).None? <==>
      FirstFailure(failing, start, m).None? && FirstFailure(failing, start + m, n).None?
  {
    FirstFailureSplit(failing, start, m, n);
  }

  lemma PrefixOfLonger<T>(a: seq<T>, b: seq<T>, k: nat)
    requires k <= |b|
    ensures (a + b)[..|a| + k] == a + b[..k]
  {
  }

  lemma PrefixOfShorter<T>(a: seq<T>, b: seq<T>, k: nat)
    requires k <= |a|
    ensures (a + b)[..k] == a[..k]
  {
  }

  lemma Associative<T>(a: seq<T>, b: seq<T>, c: seq<T>)
    ensures a + (b + c) == (a + b) + c
  {
  }

  /** A read of `n` bytes into a zeroed buffer: the bytes received, cut or padded with zeros. */
  function Fit(bs: seq<u8>, n: nat): (r: seq<u8>)
    ensures |r| == n
    ensures forall i :: 0 <= i < n ==> r[i] == (if i < |bs| then bs[i] else 0)
  {
    if |bs| >= n then bs[..n] else bs + seq(n - |bs|, _ => 0)
  }

  /** The outcome of the next read of `n` bytes. */
  function ReadOutcome(responses: seq<Option<seq<u8>>>, n: nat): (r: Option<seq<u8>>)
    ensures r.Some? ==> |r.value| == n
  {
    if |responses| == 0 then None else MapOption(responses[0], (bs: seq<u8>) => Fit(bs, n))
  }

  function AfterResponse(responses: seq<Option<seq<u8>>>): seq<Option<seq<u8>>> {
    if |responses| == 0 then [] else responses[1..]
  }

  class I2CDevice {
    /** The numbers of the write attempts that fail. */
    const failing: set<nat>
    var attempts: nat
    /** The data of the successful writes, oldest first. */
    var written: seq<seq<u8>>
    /** What successive reads return. */
    var responses: seq<Option<seq<u8>>>

    constructor(failing: set<nat>, responses: seq<Option<seq<u8>>>)
      ensures this.failing == failing && this.responses == responses && attempts == 0 && written == []
    {
      this.failing := failing;
      this.responses := responses;
      attempts := 0;
      written := [];
    }

    method Write(data: seq<u8>) returns (ok: bool)
      modifies this
      ensures ok <==> old(attempts) !in failing
      ensures attempts == old(attempts) + 1 && responses == old(responses)
      ensures written == if ok then old(written) + [data] else old(written)
    {
      ok := attempts !in failing;
      if ok {
        written := written + [data];
      }
      attempts := attempts + 1;
    }

    method Read(n: nat) returns (r: Option<seq<u8>>)
      modifies this
      ensures r == ReadOutcome(old(responses), n) && responses == AfterResponse(old(responses))
      ensures attempts == old(attempts) && written == old(written)
    {
      if |responses| == 0 {
        r := None;
      } else {
        r := MapOption(responses[0], (bs: seq<u8>) => Fit(bs, n));
        responses := responses[1..];
      }
    }
  }

  /** An SPI device: every transfer sends its bytes and receives as many as asked for. */
  class SpiDevice {
    var responses: seq<Option<seq<u8>>>
    /** The bytes sent by each transfer, oldest first. */
    var sent: seq<seq<u8>>

    constructor(responses: seq<Option<seq<u8>>>)
      ensures this.responses == responses && sent == []
    {
      this.responses := responses;
      sent := [];
    }

    method Transfer(tx: seq<u8>, n: nat) returns (r: Option<seq<u8>>)
      modifies this
      ensures r == ReadOutcome(old(responses), n) && responses == AfterResponse(old(responses))
      ensures sent == old(sent) + [tx]
    {
      if |responses| == 0 {
        r := None;
      } else {
        r := MapOption(responses[0], (bs: seq<u8>) => Fit(bs, n));
        responses := responses[1..];
      }
      sent := sent + [tx];
    }
  }
  /** The first `k` of `msgs` have been written, one attempt each, since `start` and `w0`. */
  ghost predicate WroteFirst(device: I2CDevice, start: nat, w0: seq<seq<u8>>, msgs: seq<seq<u8>>, k: nat)
    reads device
  {
    && k <= |msgs|
    && device.written == w0 + msgs[..k] && device.attempts == start + k
    && forall t :: start <= t < start + k ==> t !in device.failing
  }

  /** One write of a fixed series of writes that stops at the first error, as `?` does. */
  method WriteNext(device: I2CDevice, msgs: seq<seq<u8>>, k: nat, ghost start: nat, ghost w0: seq<seq<u8>>)
    returns (ok: bool)
    requires k < |msgs| && WroteFirst(device, start, w0, msgs, k)
    modifies device
    ensures device.responses == old(device.responses)
    ensures ok ==> WroteFirst(device, start, w0, msgs, k + 1)
    ensures !ok ==> FirstFailure(device.failing, start, |msgs|) == Some(k)
    ensures !ok ==> WroteUntilFailure(device.failing, start, w0, msgs, device.written, device.attempts)
  {
    ok := device.Write(msgs[k]);
    if ok {
      assert msgs[..k + 1] == msgs[..k] + [msgs[k]];
    } else {
      FailedAt(device.failing, start, w0, msgs, k);
    }
  }
}
