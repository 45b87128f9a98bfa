/**
 * The helpers of `src/utils.rs` and `robot/src/utils.rs`: unwrapping with a default, the
 * calibration bytes of the environment, the frame counter of the game loop and the consumer
 * side of the two thread-backed queues. A worker thread's sends are modelled as explicit calls
 * that append to the channel, so each channel is a sequence the consumer drains in order.
 */
module Utils {
  import opened Wrappers
  import opened Decimal
  import opened Bytes

  /** `LogErrUnwrap::log_err_unwrap`: the success value, or `default` for an error (which is only logged). */
  function LogErrUnwrap<T, E>(r: Result<T, E>, default: T): (v: T)
    ensures r.Ok? ==> v == r.value
    ensures r.Err? ==> v == default
  {
    match r
    case Ok(x) => x
    case Err(_) => default
  }

  /** The unwrap agrees with `Result::ok` followed by `Option::unwrap_or`. */
  lemma LogErrUnwrapIsUnwrapOr<T, E>(r: Result<T, E>, default: T)
    ensures LogErrUnwrap(r, default) == r.ToOption().UnwrapOr(default)
  {
  }

  // ---------------------------------------------------------------------------------------
  // Calibration bytes.

  /** `str::split` on a single character: every piece between separators, empty ones included. */
  function Split(s: string, sep: char): (pieces: seq<string>)
    ensures |pieces| > 0
    ensures forall k :: 0 <= k < |pieces| ==> sep !in pieces[k]
    decreases |s|
  {
    if |s| == 0 then [""]
    else
      var rest := Split(s[1..], sep);
      if s[0] == sep then [""] + rest else [[s[0]] + rest[0]] + rest[1..]
  }

  /** The pieces put back together with the separator between them. */
  function Join(pieces: seq<string>, sep: char): string
    requires |pieces| > 0
    decreases |pieces|
  {
    if |pieces| == 1 then pieces[0] else pieces[0] + [sep] + Join(pieces[1..], sep)
  }

  /** Splitting loses nothing: joining the pieces gives the string back. */
  lemma {:induction false} JoinSplit(s: string, sep: char)
    ensures Join(Split(s, sep), sep) == s
    decreases |s|
  {
    if |s| > 0 {
      var rest := Split(s[1..], sep);
      JoinSplit(s[1..], sep);
      if s[0] != sep {
        var pieces := Split(s, sep);
        if |rest| > 1 {
          assert pieces[1..] == rest[1..];
        }
      }
    }
  }

  /** Splitting the joined pieces gives them back when no piece holds the separator. */
  lemma {:induction false} SplitJoin(pieces: seq<string>, sep: char)
    requires |pieces| > 0 && forall k :: 0 <= k < |pieces| ==> sep !in pieces[k]
    ensures Split(Join(pieces, sep), sep) == pieces
    decreases |pieces|, |pieces[0]|
  {
    var p := pieces[0];
    if |pieces| == 1 {
      SplitPiece(p, sep);
    } else {
      SplitJoin(pieces[1..], sep);
      SplitPrefix(p, Join(pieces[1..], sep), sep);
    }
  }

  /** A string without the separator is a single piece. */
  lemma {:induction false} SplitPiece(p: string, sep: char)
    requires sep !in p
    ensures Split(p, sep) == [p]
    decreases |p|
  {
    if |p| > 0 {
      SplitPiece(p[1..], sep);
      assert [p[0]] + p[1..] == p;
    }
  }

  /** A separator-free prefix followed by a separator becomes the first piece. */
  lemma {:induction false} SplitPrefix(p: string, rest: string, sep: char)
    requires sep !in p
    ensures Split(p + [sep] + rest, sep) == [p] + Split(rest, sep)
    decreases |p|
  {
    var s := p + [sep] + rest;
    if |p| == 0 {
      assert s[1..] == rest;
    } else {
      assert s[1..] == p[1..] + [sep] + rest;
      SplitPrefix(p[1..], rest, sep);
      assert [p[0]] + p[1..] == p;
    }
  }

  /**
   * `<u8 as FromStr>::from_str`: an optional `+`, then at least one decimal digit, with a value
   * below 256. Every parse error kind is `None` here.
   */
  function ParseU8(s: string): (r: Option<u8>)
    ensures r.Some? <==>
      var digits := if |s| > 0 && s[0] == '+' then s[1..] else s;
      |digits| > 0 && AllDigits(digits) && DecimalValue(digits) < 256
    ensures r.Some? ==> r.value == DecimalValue(if s[0] == '+' then s[1..] else s)
  {
    var digits := if |s| > 0 && s[0] == '+' then s[1..] else s;
    if |digits| > 0 && AllDigits(digits) && DecimalValue(digits) < 256 then Some(DecimalValue(digits))
    else None
  }

  /** A printed byte parses back to itself, with or without a leading `+`. */
  lemma ParseU8Display(b: u8)
    ensures ParseU8(NatToString(b)) == Some(b)
    ensures ParseU8("+" + NatToString(b)) == Some(b)
  {
    NatToStringValue(b);
    assert ("+" + NatToString(b))[1..] == NatToString(b);
  }

  /** The empty string, a lone sign and a negative number are rejected. */
  lemma ParseU8Rejects(s: string)
    ensures ParseU8("") == None && ParseU8("+") == None && ParseU8("-" + s) == None
  {
    assert ("-" + s)[0] == '-';
  }

  datatype CalibrationError = NotPresent | InvalidByte(piece: string)

  /** Collecting the parsed pieces into a `Result`: the first piece that fails decides the error. */
  function ParseAll(pieces: seq<string>): (r: Result<seq<u8>, CalibrationError>)
    ensures r.Ok? <==> forall k :: 0 <= k < |pieces| ==> ParseU8(pieces[k]).Some?
    ensures r.Ok? ==> |r.value| == |pieces| && forall k :: 0 <= k < |pieces| ==> ParseU8(pieces[k]) == Some(r.value[k])
  {
    if |pieces| == 0 then Ok([])
    else
      match ParseU8(pieces[0])
      case None => Err(InvalidByte(pieces[0]))
      case Some(b) =>
        match ParseAll(pieces[1..])
        case Err(e) => Err(e)
        case Ok(bs) => Ok([b] + bs)
  }

  /** The error names the first piece that is not a byte. */
  lemma {:induction false} ParseAllFirstError(pieces: seq<string>, k: nat)
    requires k < |pieces| && ParseU8(pieces[k]).None?
    requires forall j :: 0 <= j < k ==> ParseU8(pieces[j]).Some?
    ensures ParseAll(pieces) == Err(InvalidByte(pieces[k]))
  {
    if k > 0 {
      ParseAllFirstError(pieces[1..], k - 1);
    }
  }

  /** `Utils::get_calibration`: the comma-separated bytes of `ORIENTATION_CALIBRATION`. */
  function GetCalibration(variable: Option<string>): (r: Result<seq<u8>, CalibrationError>)
    ensures variable.None? ==> r == Err(NotPresent)
    ensures variable.Some? ==> r == ParseAll(Split(variable.value, ','))
  {
    match variable
    case None => Err(NotPresent)
    case Some(s) => ParseAll(Split(s, ','))
  }

  /** The comma-separated text of a sequence of bytes. */
  function FormatCalibration(bs: seq<u8>): string
    requires |bs| > 0
  {
    Join(seq(|bs|, k requires 0 <= k < |bs| => NatToString(bs[k])), ',')
  }

  /** Printing bytes and reading them back as the calibration variable gives the bytes. */
  lemma CalibrationRoundTrip(bs: seq<u8>)
    requires |bs| > 0
    ensures GetCalibration(Some(FormatCalibration(bs))) == Ok(bs)
  {
    var pieces := seq(|bs|, k requires 0 <= k < |bs| => NatToString(bs[k]));
    forall k | 0 <= k < |bs|
      ensures ',' !in pieces[k] && ParseU8(pieces[k]) == Some(bs[k])
    {
      ParseU8Display(bs[k]);
      assert !IsDigit(',');
    }
    SplitJoin(pieces, ',');
    var r := ParseAll(pieces);
    assert r.Ok? && r.value == bs;
  }

  /** An empty variable is one empty piece, which is not a byte. */
  lemma CalibrationEmpty()
    ensures GetCalibration(Some("")) == Err(InvalidByte(""))
  {
  }

  // ---------------------------------------------------------------------------------------
  // The frame counter of `robot/src/utils.rs`'s game loop; the waiting is left out.

  class GameLoop {
    var frame: nat

    /** `GameLoop::new`: the first frame is number zero. */
    constructor()
      ensures frame == 0
    {
      frame := 0;
    }

    /** `next`: the current frame number, after which the counter moves on; never `None`. */
    method Next() returns (r: Option<nat>)
      modifies this
      ensures r == Some(old(frame)) && frame == old(frame) + 1
    {
      var frameNumber := frame;
      frame := frame + 1;
      return Some(frameNumber);
    }
  }

  /** Calling `next` `count` times on a new game loop yields the frames 0, 1, 2, ... in order. */
  method FirstFrames(count: nat) returns (frames: seq<nat>)
    ensures |frames| == count && forall i :: 0 <= i < count ==> frames[i] == i
  {
    var gameLoop := new GameLoop();
    frames := [];
    while |frames| < count
      invariant |frames| <= count && gameLoop.frame == |frames|
      invariant forall i :: 0 <= i < |frames| ==> frames[i] == i
    {
      var r := gameLoop.Next();
      frames := frames + [r.value];
    }
  }

  // ---------------------------------------------------------------------------------------
  // The sampled state of a `ParSampler`.

  /** The last `Some` of a batch of samples, or `previous` when the batch holds none. */
  function LastSome<T>(batch: seq<Option<T>>, previous: Option<T>): Option<T>
    decreases |batch|
  {
    if |batch| == 0 then previous
    else if batch[|batch| - 1].Some? then batch[|batch| - 1]
    else LastSome(batch[..|batch| - 1], previous)
  }

  /**
   * What the last `Some` is: `previous` when the batch has no `Some`, otherwise a `Some` of the
   * batch after which only `None`s were sent.
   */
  lemma {:induction false} LastSomeSpec<T>(batch: seq<Option<T>>, previous: Option<T>)
    decreases |batch|
    ensures var r := LastSome(batch, previous);
      && ((forall k :: 0 <= k < |batch| ==> batch[k].None?) ==> r == previous)
      && ((exists k :: 0 <= k < |batch| && batch[k].Some?) ==>
            exists k :: 0 <= k < |batch| && r == batch[k] && r.Some? &&
              forall j :: k < j < |batch| ==> batch[j].None?)
  {
    if |batch| == 0 {
    } else if batch[|batch| - 1].Some? {
      assert LastSome(batch, previous) == batch[|batch| - 1];
    } else {
      var init := batch[..|batch| - 1];
      assert forall k :: 0 <= k < |init| ==> init[k] == batch[k];
      LastSomeSpec(init, previous);
      assert LastSome(batch, previous) == LastSome(init, previous);
      if exists k :: 0 <= k < |batch| && batch[k].Some? {
        var k :| 0 <= k < |batch| && batch[k].Some?;
        assert init[k].Some?;
        var m :| 0 <= m < |init| && LastSome(init, previous) == init[m] && init[m].Some? &&
          forall j :: m < j < |init| ==> init[j].None?;
        assert forall j :: m < j < |batch| ==> batch[j].None?;
      }
    }
  }

  /** Once the state holds a sample, no batch brings it back to `None`. */
  lemma {:induction false} LastSomeKeepsSome<T>(batch: seq<Option<T>>, previous: Option<T>)
    requires previous.Some?
    ensures LastSome(batch, previous).Some?
    decreases |batch|
  {
    if |batch| > 0 && batch[|batch| - 1].None? {
      LastSomeKeepsSome(batch[..|batch| - 1], previous);
    }
  }

  /** Draining two batches one after the other is draining their concatenation. */
  lemma {:induction false} LastSomeConcat<T>(a: seq<Option<T>>, b: seq<Option<T>>, previous: Option<T>)
    ensures LastSome(b, LastSome(a, previous)) == LastSome(a + b, previous)
    decreases |b|
  {
    if |b| == 0 {
      assert a + b == a;
    } else {
      assert (a + b)[..|a + b| - 1] == a + b[..|b| - 1];
      if b[|b| - 1].None? {
        LastSomeConcat(a, b[..|b| - 1], previous);
      }
    }
  }

  lemma LastSomeStep<T>(batch: seq<Option<T>>, k: nat, previous: Option<T>)
    requires k < |batch|
    ensures LastSome(batch[..k + 1], previous) ==
      if batch[k].Some? then batch[k] else LastSome(batch[..k], previous)
  {
    assert batch[..k + 1][..k] == batch[..k];
  }

  /** `src/utils.rs`'s `ParSampler`, which remembers the last sample across calls. */
  class ParSampler<T> {
    var state: Option<T>
    /** The samples the worker has sent and `next` has not yet received. */
    var pending: seq<Option<T>>

    /** `ParSampler::new`: no sample yet, nothing sent. */
    constructor()
      ensures state == None && pending == []
    {
      state := None;
      pending := [];
    }

    /** One round of the worker: the iterator's next value is sent over the channel. */
    method Send(sample: Option<T>)
      modifies this
      ensures pending == old(pending) + [sample] && state == old(state)
    {
      pending := pending + [sample];
    }

    /** `next`: drains the channel, keeps the last `Some` received and returns the state. */
    method Next() returns (r: Option<T>)
      modifies this
      ensures pending == [] && state == LastSome(old(pending), old(state)) && r == state
    {
      ghost var batch := pending;
      ghost var k := 0;
      while |pending| > 0
        invariant 0 <= k <= |batch| && pending == batch[k..]
        invariant state == LastSome(batch[..k], old(state))
        decreases |pending|
      {
        var sample := pending[0];
        pending := pending[1..];
        if sample.Some? {
          state := sample;
        }
        LastSomeStep(batch, k, old(state));
        k := k + 1;
      }
      assert batch[..k] == batch;
      return state;
    }
  }

  /** `robot/src/utils.rs`'s `ParSampler`, which keeps nothing between calls. */
  class StatelessParSampler<T> {
    var pending: seq<Option<T>>

    constructor()
      ensures pending == []
    {
      pending := [];
    }

    method Send(sample: Option<T>)
      modifies this
      ensures pending == old(pending) + [sample]
    {
      pending := pending + [sample];
    }

    /** `next`: the last `Some` received in this call, `None` when there was none. */
    method Next() returns (r: Option<T>)
      modifies this
      ensures pending == [] && r == LastSome(old(pending), None)
    {
      ghost var batch := pending;
      ghost var k := 0;
      var currentState: Option<T> := None;
      while |pending| > 0
        invariant 0 <= k <= |batch| && pending == batch[k..]
        invariant currentState == LastSome(batch[..k], None)
        decreases |pending|
      {
        var sample := pending[0];
        pending := pending[1..];
        if sample.Some? {
          currentState := sample;
        }
        LastSomeStep(batch, k, None);
        k := k + 1;
      }
      assert batch[..k] == batch;
      return currentState;
    }
  }

  // ---------------------------------------------------------------------------------------
  // The request queue.

  function MapSeq<A, B>(f: A -> B, s: seq<A>): (r: seq<B>)
    ensures |r| == |s| && forall k :: 0 <= k < |s| ==> r[k] == f(s[k])
  {
    seq(|s|, k requires 0 <= k < |s| => f(s[k]))
  }

  /**
   * `Requester`: requests go to a single worker that answers them with `handle` in the order they
   * were sent; `get_responses` collects every answer so far. The ghost fields record the whole
   * history, so that `Valid` can state the FIFO order.
   */
  class Requester<Req, Resp> {
    const handle: Req -> Resp
    /** Sent and not yet answered. */
    var requests: seq<Req>
    /** Answered and not yet collected. */
    var responses: seq<Resp>
    ghost var sent: seq<Req>
    ghost var collected: seq<Resp>

    /** The collected answers, then the uncollected ones, then those still due are the answers to every request, in order. */
    ghost predicate Valid()
      reads this
    {
      collected + responses + MapSeq(handle, requests) == MapSeq(handle, sent)
    }

    constructor(f: Req -> Resp)
      ensures Valid() && handle == f && requests == [] && responses == [] && sent == [] && collected == []
    {
      handle := f;
      requests := [];
      responses := [];
      sent := [];
      collected := [];
    }

    /** `request`: the request joins the queue. */
    method Request(request: Req)
      requires Valid()
      modifies this
      ensures Valid() && requests == old(requests) + [request] && responses == old(responses)
      ensures sent == old(sent) + [request] && collected == old(collected)
    {
      requests := requests + [request];
      sent := sent + [request];
      assert MapSeq(handle, requests) == MapSeq(handle, old(requests)) + [handle(request)];
      assert MapSeq(handle, sent) == MapSeq(handle, old(sent)) + [handle(request)];
    }

    /** One round of the worker: the oldest request is answered. */
    method Work()
      requires Valid()
      modifies this
      ensures Valid() && sent == old(sent) && collected == old(collected)
      ensures old(requests) == [] ==> requests == [] && responses == old(responses)
      ensures old(requests) != [] ==>
        requests == old(requests)[1..] && responses == old(responses) + [handle(old(requests)[0])]
    {
      if |requests| > 0 {
        var request := requests[0];
        assert MapSeq(handle, requests) == [handle(request)] + MapSeq(handle, requests[1..]);
        requests := requests[1..];
        responses := responses + [handle(request)];
      }
    }

    /** `get_responses`: every answer not yet collected, oldest first; the queue is left empty. */
    method GetResponses() returns (r: seq<Resp>)
      requires Valid()
      modifies this
      ensures Valid() && r == old(responses) && responses == [] && requests == old(requests)
      ensures sent == old(sent) && collected == old(collected) + r
    {
      r := responses;
      collected := collected + responses;
      responses := [];
    }
  }

  /** Everything collected so far answers a prefix of the requests, in sending order. */
  lemma RequesterFifo<Req, Resp>(q: Requester<Req, Resp>)
    requires q.Valid()
    ensures |q.collected| <= |q.sent|
    ensures forall k :: 0 <= k < |q.collected| ==> q.collected[k] == q.handle(q.sent[k])
  {
    var all := MapSeq(q.handle, q.sent);
    forall k | 0 <= k < |q.collected|
      ensures q.collected[k] == q.handle(q.sent[k])
    {
      assert all[k] == (q.collected + q.responses + MapSeq(q.handle, q.requests))[k];
    }
  }
}
