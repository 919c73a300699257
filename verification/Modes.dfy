// The two server modes on the same byte stream: the thread-per-client loop and
// the reactor process the same frames, up to the end of the connection.
module Modes {
  import opened Text
  import opened Codec
  import opened Stream
  import opened FrameCodec
  import R = Reads
  import P = ActorPool
  import ReadOrder
  import Reactor

  // A frame after which a connection is to be closed.
  predicate IsLast(f: Frame)
  {
    f.command == "DISCONNECT"
  }

  // What the thread-per-client loop processes of a decoded stream: it stops
  // after a DISCONNECT, at a frame that does not parse, and after the first
  // frame whose processing throws; `n` frames came before.
  function UntilEnd(out: seq<Parsed>, n: nat, throws: nat -> bool): seq<Frame>
  {
    if out == [] || out[0].Err? then []
    else
      var f := out[0].value;
      [f] + (if IsLast(f) || throws(n) then [] else UntilEnd(out[1..], n + 1, throws))
  }

  // The stream's frames up to and including the first DISCONNECT.
  function UntilDisconnect(fs: seq<Frame>): (r: seq<Frame>)
    ensures r <= fs
    ensures forall i :: 0 <= i < |r| - 1 ==> r[i].command != "DISCONNECT"
    ensures |r| == |fs| || (r != [] && r[|r| - 1].command == "DISCONNECT")
  {
    if fs == [] then []
    else if fs[0].command == "DISCONNECT" then [fs[0]]
    else [fs[0]] + UntilDisconnect(fs[1..])
  }

  class BlockingConnectionHandler {
    const encdec: StompEncodeDecoder
    var socketOpen: bool
    var connected: bool
    var shouldTerminate: bool
    var processed: seq<Frame>

    constructor ()
      ensures socketOpen && connected && !shouldTerminate && processed == [] && encdec.buffer == "" && fresh(encdec)
    {
      encdec := new StompEncodeDecoder();
      socketOpen := true;
      connected := true;
      shouldTerminate := false;
      processed := [];
    }

    // The protocol's part: DISCONNECT sets the flag unless processing throws.
    method Process(frame: StompFrame, throws: nat -> bool) returns (threw: bool)
      modifies this`processed, this`shouldTerminate
      ensures processed == old(processed) + [frame.Value()] && threw == throws(|old(processed)|)
      ensures shouldTerminate == (old(shouldTerminate) || (!threw && IsLast(frame.Value())))
    {
      threw := throws(|processed|);
      processed := processed + [frame.Value()];
      if !threw && frame.command == "DISCONNECT" {
        shouldTerminate := true;
      }
    }

    // The body of the loop: decode one byte, process a completed frame. `all`
    // are the frames to be processed in the end, `later` the bytes to come.
    method ReadOne(x: byte, throws: nat -> bool, ghost all: seq<Frame>, ghost later: seq<byte>) returns (threw: bool)
      requires !shouldTerminate && Left(all, processed, false, encdec.buffer, [x] + later, throws)
      modifies this`processed, this`shouldTerminate, encdec
      ensures Left(all, processed, shouldTerminate || threw, encdec.buffer, later, throws)
    {
      ghost var buffer, before := encdec.buffer, processed;
      threw := DecodeOne(x, throws);
      LeftStep(all, before, buffer, x, later, throws, processed, shouldTerminate, threw);
    }

    method DecodeOne(x: byte, throws: nat -> bool) returns (threw: bool)
      requires !shouldTerminate
      modifies this`processed, this`shouldTerminate, encdec
      ensures encdec.buffer == DecodeByte(old(encdec.buffer), x).buffer
      ensures OneRead(DecodeByte(old(encdec.buffer), x).out, old(processed), throws, processed, shouldTerminate, threw)
    {
      threw := false;
      var next := encdec.DecodeNextByte(x);
      if next.Some? {
        if next.value.Err? {
          return true;
        }
        threw := Process(next.value.value, throws);
      }
    }

    // `run` over the bytes the peer sends until it closes. The socket is closed
    // in any case; an exception skips the handler's own close.
    method Run(input: seq<byte>, throws: nat -> bool) returns (threw: bool)
      requires connected && !shouldTerminate && processed == [] && encdec.buffer == ""
      modifies this, encdec
      ensures processed == UntilEnd(Decode("", input).out, 0, throws)
      ensures !socketOpen && connected == threw
    {
      LeftAtStart(input, throws);
      threw := ReadAll(input, throws, UntilEnd(Decode("", input).out, 0, throws));
      socketOpen := false;
      if !threw {
        connected := false;
      }
    }

    // Its loop; `all` are the frames to be processed in the end.
    method ReadAll(input: seq<byte>, throws: nat -> bool, ghost all: seq<Frame>) returns (threw: bool)
      requires connected && !shouldTerminate && Left(all, processed, false, encdec.buffer, input, throws)
      modifies this`processed, this`shouldTerminate, encdec
      ensures processed == all
    {
      var i := 0;
      threw := false;
      ghost var ahead := input;
      while !shouldTerminate && connected && i < |input|
        invariant i <= |input| && connected && !threw && ahead == input[i..]
        invariant Left(all, processed, shouldTerminate, encdec.buffer, ahead, throws)
        decreases |input| - i
      {
        ghost var later := ahead[1..];
        assert ahead == [input[i]] + later;
        threw := ReadOne(input[i], throws, all, later);
        if threw {
          LeftOver(all, processed, true, encdec.buffer, later, throws);
          return;
        }
        i, ahead := i + 1, later;
      }
      LeftOver(all, processed, shouldTerminate, encdec.buffer, ahead, throws);
    }
  }

  // All the frames are those processed and, unless the loop is over, those
  // that the bytes ahead complete.
  predicate Left(all: seq<Frame>, processed: seq<Frame>, over: bool, buffer: string, ahead: seq<byte>, throws: nat -> bool)
  {
    all == processed + (if over then [] else UntilEnd(Decode(buffer, ahead).out, |processed|, throws))
  }

  lemma LeftAtStart(input: seq<byte>, throws: nat -> bool)
    ensures Left(UntilEnd(Decode("", input).out, 0, throws), [], false, "", input, throws)
  {
    assert [] + UntilEnd(Decode("", input).out, 0, throws) == UntilEnd(Decode("", input).out, 0, throws);
  }

  lemma LeftOver(all: seq<Frame>, processed: seq<Frame>, over: bool, buffer: string, ahead: seq<byte>, throws: nat -> bool)
    requires Left(all, processed, over, buffer, ahead, throws) && (over || ahead == [])
    ensures processed == all
  {
    assert processed + [] == processed;
  }

  lemma LeftStep(all: seq<Frame>, before: seq<Frame>, buffer: string, x: byte, later: seq<byte>, throws: nat -> bool,
                 after: seq<Frame>, terminate: bool, threw: bool)
    requires Left(all, before, false, buffer, [x] + later, throws)
    requires OneRead(DecodeByte(buffer, x).out, before, throws, after, terminate, threw)
    ensures Left(all, after, terminate || threw, DecodeByte(buffer, x).buffer, later, throws)
  {
    DecodeCons(buffer, x, later);
    AheadStep(DecodeByte(buffer, x).out, Decode(DecodeByte(buffer, x).buffer, later).out,
              before, throws, after, terminate, threw);
  }

  // One round of the loop, from and to what was processed; `out` is what the
  // byte completed.
  predicate OneRead(out: seq<Parsed>, before: seq<Frame>, throws: nat -> bool,
                    after: seq<Frame>, terminate: bool, threw: bool)
  {
    if out == [] then after == before && !threw && !terminate
    else if out[0].Err? then after == before && threw
    else
      && after == before + [out[0].value] && threw == throws(|before|)
      && terminate == (!threw && IsLast(out[0].value))
  }

  lemma AheadStep(out: seq<Parsed>, rest: seq<Parsed>, before: seq<Frame>, throws: nat -> bool,
                  after: seq<Frame>, terminate: bool, threw: bool)
    requires |out| <= 1 && OneRead(out, before, throws, after, terminate, threw)
    ensures before + UntilEnd(out + rest, |before|, throws)
         == after + (if terminate || threw then [] else UntilEnd(rest, |after|, throws))
  {
    if out == [] {
      assert out + rest == rest;
    } else {
      assert out == [out[0]];
      UntilEndCons(out[0], rest, |before|, throws);
      MoveOver(out[0], before, UntilEnd(rest, |before| + 1, throws));
    }
  }

  // A frame moves from what is ahead to what was processed.
  lemma MoveOver(p: Parsed, before: seq<Frame>, more: seq<Frame>)
    ensures p.Err? ==> before + [] == before
    ensures p.Ok? ==> before + [p.value] == before + [p.value] + []
    ensures p.Ok? ==> before + ([p.value] + more) == before + [p.value] + more
  {
  }

  lemma DecodeCons(buffer: string, x: byte, later: seq<byte>)
    ensures |DecodeByte(buffer, x).out| <= 1
    ensures Decode(buffer, [x] + later).out == DecodeByte(buffer, x).out + Decode(DecodeByte(buffer, x).buffer, later).out
  {
    assert ([x] + later)[1..] == later;
  }

  lemma UntilEndCons(p: Parsed, rest: seq<Parsed>, n: nat, throws: nat -> bool)
    ensures UntilEnd([p] + rest, n, throws)
         == if p.Err? then []
            else if IsLast(p.value) || throws(n) then [p.value]
            else [p.value] + UntilEnd(rest, n + 1, throws)
  {
    assert ([p] + rest)[1..] == rest;
  }

  // --------------------------------------------------------- the modes agree

  // The frames up to and including the first DISCONNECT, or up to a frame that
  // does not parse.
  function UntilLast(out: seq<Parsed>): (r: seq<Frame>)
    ensures AllOk(r) <= out
    ensures forall i :: 0 <= i < |r| - 1 ==> !IsLast(r[i])
    ensures |r| == |out| || out[|r|].Err? || (r != [] && IsLast(r[|r| - 1]))
  {
    if out == [] || out[0].Err? then []
    else if IsLast(out[0].value) then [out[0].value]
    else [out[0].value] + UntilLast(out[1..])
  }

  // Nothing up to the first DISCONNECT can raise an exception.
  predicate CalmUntilLast(out: seq<Parsed>)
  {
    out == [] || (!ReadOrder.Raising(out[0]) && (IsLast(out[0].value) || CalmUntilLast(out[1..])))
  }

  // Which `process` calls may throw: those with a SUBSCRIBE without an id.
  predicate Possible(out: seq<Parsed>, n: nat, throws: nat -> bool)
  {
    forall i :: 0 <= i < |out| && out[i].Ok? && throws(n + i) ==> Idless(out[i].value)
  }

  // The loop then goes on to the first DISCONNECT.
  lemma {:induction false} CalmLoop(out: seq<Parsed>, n: nat, throws: nat -> bool)
    requires CalmUntilLast(out) && Possible(out, n, throws)
    ensures UntilEnd(out, n, throws) == UntilLast(out)
  {
    if out != [] && !IsLast(out[0].value) {
      assert Possible(out[1..], n + 1, throws) by {
        assert forall i :: 0 <= i < |out| - 1 ==> out[1..][i] == out[i + 1] && n + 1 + i == n + (i + 1);
      }
      CalmLoop(out[1..], n + 1, throws);
    }
  }

  lemma {:induction false} OksCons(out: seq<Parsed>)
    requires out != [] && out[0].Ok?
    ensures ReadOrder.Oks(out) == [out[0].value] + ReadOrder.Oks(out[1..])
  {
    var m := |out| - 1;
    if m > 0 {
      OksCons(out[..m]);
      assert out[..m][1..] == out[1..][..m - 1];
    }
  }

  predicate HasLast(fs: seq<Frame>)
  {
    exists i :: 0 <= i < |fs| && IsLast(fs[i])
  }

  lemma HasLastCons(f: Frame, fs: seq<Frame>)
    requires HasLast([f] + fs) && !IsLast(f)
    ensures HasLast(fs)
  {
    var i :| 0 <= i < |fs| + 1 && IsLast(([f] + fs)[i]);
    assert IsLast(fs[i - 1]);
  }

  // Decoded frames `out` that agree with the stream's frames `all`, to their
  // end or up to a raising one.
  predicate Agreeing(out: seq<Parsed>, all: seq<Parsed>)
  {
    out <= all || exists r :: 0 <= r < |out| && RaisesAt(out, all, r)
  }

  predicate RaisesAt(out: seq<Parsed>, all: seq<Parsed>, r: nat)
    requires r < |out|
  {
    ReadOrder.Raising(out[r]) && out[..r + 1] <= all
  }

  lemma AgreeingTail(out: seq<Parsed>, all: seq<Parsed>)
    requires Agreeing(out, all) && out != [] && (all != [] ==> !ReadOrder.Raising(all[0]))
    ensures all != [] && out[0] == all[0] && Agreeing(out[1..], all[1..]) && (out <= all <==> out[1..] <= all[1..])
  {
    if !(out <= all) {
      var r :| 0 <= r < |out| && RaisesAt(out, all, r);
      assert out[..r + 1][0] == out[0];
      assert out[1..][..r] == out[..r + 1][1..];
      assert RaisesAt(out[1..], all[1..], r - 1);
      assert out == [out[0]] + out[1..] && all == [all[0]] + all[1..];
    }
  }

  lemma {:induction false} SameFrames(out: seq<Parsed>, all: seq<Parsed>)
    requires Agreeing(out, all) && CalmUntilLast(all)
    ensures var fs := UntilDisconnect(ReadOrder.Oks(out));
      && fs <= UntilLast(all)
      && (HasLast(ReadOrder.Oks(out)) || out == all || !(out <= all) ==> fs == UntilLast(all))
    decreases |out|
  {
    if out != [] {
      AgreeingTail(out, all);
      OksCons(out);
      var f, rest := out[0].value, ReadOrder.Oks(out[1..]);
      assert ([f] + rest)[1..] == rest;
      if !IsLast(f) {
        SameFrames(out[1..], all[1..]);
        if HasLast([f] + rest) {
          HasLastCons(f, rest);
        }
      }
    }
  }

  // What the reactor has processed for a connection, against the stream that
  // was read.
  lemma ReactorAgrees(s: R.State, c: int)
    requires ReadOrder.Inv(s)
    ensures Agreeing(Decode("", R.In(s, c).fed).out, Decode("", R.In(s, c).received).out)
    ensures R.In(s, c).processed == ReadOrder.Oks(Decode("", R.In(s, c).fed).out)
  {
    var i := R.In(s, c);
    ReadOrder.FedAndProcessed(s, c);
    if r: nat :| ReadOrder.SameUntil(i, r) {
      assert RaisesAt(Decode("", i.fed).out, Decode("", i.received).out, r);
    } else {
      ReadOrder.DecodePrefix(i.fed, i.received);
    }
  }

  lemma QuietAgrees(s: R.State, c: int)
    requires ReadOrder.Inv(s) && P.Quiet(s.pool) && !s.reader.Submitting?
    requires Decode("", R.In(s, c).fed).out <= Decode("", R.In(s, c).received).out
    requires CalmUntilLast(Decode("", R.In(s, c).received).out)
    ensures Decode("", R.In(s, c).fed).out == Decode("", R.In(s, c).received).out
      || HasLast(ReadOrder.Oks(Decode("", R.In(s, c).fed).out))
  {
    var i := R.In(s, c);
    var out, all := Decode("", i.fed).out, Decode("", i.received).out;
    assert ReadOrder.Decoding(i);
    if i.lost {
      var r: nat :| ReadOrder.SameUntil(i, r);
      CalmBefore(out, all, r);
    } else {
      ReadOrder.QuietFed(s, c);
    }
  }

  // A raising frame comes only after a DISCONNECT.
  lemma {:induction false} CalmBefore(out: seq<Parsed>, all: seq<Parsed>, r: nat)
    requires out <= all && r < |out| && ReadOrder.Raising(out[r]) && CalmUntilLast(all)
    ensures HasLast(ReadOrder.Oks(out))
  {
    OksCons(out);
    var f, rest := out[0].value, ReadOrder.Oks(out[1..]);
    if IsLast(f) {
      assert IsLast(([f] + rest)[0]);
    } else {
      CalmBefore(out[1..], all[1..], r - 1);
      var k :| 0 <= k < |rest| && IsLast(rest[k]);
      assert IsLast(([f] + rest)[k + 1]);
    }
  }

  // On a stream in which nothing up to the first DISCONNECT can raise an
  // exception, the thread-per-client loop processes exactly the frames up to
  // and including that DISCONNECT; what the reactor has processed at any moment
  // agrees with it up to there, and completely once it has processed a
  // DISCONNECT or is idle.
  lemma ModesAgree(n: nat, es: seq<Reactor.Step>, s: Reactor.State, c: int, throws: nat -> bool)
    requires Reactor.Reached(n, es, s)
    requires CalmUntilLast(Decode("", R.In(s.r, c).received).out)
    requires Possible(Decode("", R.In(s.r, c).received).out, 0, throws)
    ensures var loop := UntilEnd(Decode("", R.In(s.r, c).received).out, 0, throws);
      && loop == UntilLast(Decode("", R.In(s.r, c).received).out)
      && UntilDisconnect(R.In(s.r, c).processed) <= loop
      && (HasLast(R.In(s.r, c).processed) || (P.Quiet(s.r.pool) && !s.r.reader.Submitting?)
          ==> UntilDisconnect(R.In(s.r, c).processed) == loop)
  {
    var out, all := Decode("", R.In(s.r, c).fed).out, Decode("", R.In(s.r, c).received).out;
    Reactor.Reachable(n, es, s);
    CalmLoop(all, 0, throws);
    ReactorAgrees(s.r, c);
    SameFrames(out, all);
    if P.Quiet(s.r.pool) && !s.r.reader.Submitting? && out <= all {
      QuietAgrees(s.r, c);
    }
  }
}
