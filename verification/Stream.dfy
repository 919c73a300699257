// The decoder and encoder on bytes: what a stream of bytes decodes to, however
// it is cut into reads.
module Stream {
  import opened Text
  import opened Codec

  // A Java byte.
  newtype byte = x: int | -128 <= x < 128

  // Java's `(char) b`: a negative byte is sign-extended to 16 bits.
  function ToChar(b: byte): char
  {
    if b >= 0 then b as int as char else (0x1_0000 + b as int) as char
  }

  function ToByte(n: int): byte
    requires 0 <= n < 256
  {
    if n < 128 then n as byte else (n - 256) as byte
  }

  // The UTF-8 bytes of a character.
  function Utf8(c: char): (bs: seq<byte>)
    ensures bs != []
    ensures c as int < 0x80 ==> bs == [c as int as byte]
    ensures c as int >= 0x80 ==> |bs| > 1 && forall i :: 0 <= i < |bs| ==> bs[i] < 0
  {
    var n := c as int;
    if n < 0x80 then [n as byte]
    else if n < 0x800 then [ToByte(0xC0 + n / 0x40), ToByte(0x80 + n % 0x40)]
    else if n < 0x1_0000 then
      [ToByte(0xE0 + n / 0x1000), ToByte(0x80 + n / 0x40 % 0x40), ToByte(0x80 + n % 0x40)]
    else
      [ToByte(0xF0 + n / 0x4_0000), ToByte(0x80 + n / 0x1000 % 0x40), ToByte(0x80 + n / 0x40 % 0x40),
       ToByte(0x80 + n % 0x40)]
  }

  function EncodeText(s: string): seq<byte>
  {
    if s == "" then [] else Utf8(s[0]) + EncodeText(s[1..])
  }

  // What `encode` returns for one iteration order of the header map.
  ghost function Encode(f: Frame, order: seq<string>): seq<byte>
    requires Enumerates(order, f.headers.Keys)
  {
    EncodeText(Print(f, order))
  }

  function Chars(bs: seq<byte>): (s: string)
    ensures |s| == |bs|
    ensures forall i :: 0 <= i < |s| ==> s[i] == ToChar(bs[i])
  {
    seq(|bs|, i requires 0 <= i < |bs| => ToChar(bs[i]))
  }

  // --------------------------------------------------------------- decoding

  type Parsed = Result<Frame, ParseError>

  // What came out of the decoder, in order, and the text it still holds.
  datatype Decoded = Decoded(out: seq<Parsed>, buffer: string)

  // One call of decodeNextByte; a failed parse has already emptied the buffer.
  function DecodeByte(buffer: string, b: byte): Decoded
  {
    if b == 0 then Decoded([Parse(buffer)], "") else Decoded([], buffer + [ToChar(b)])
  }

  function Decode(buffer: string, bs: seq<byte>): Decoded
    decreases |bs|
  {
    if bs == [] then Decoded([], buffer)
    else
      var d := DecodeByte(buffer, bs[0]);
      var e := Decode(d.buffer, bs[1..]);
      Decoded(d.out + e.out, e.buffer)
  }

  // The same bytes arriving as a sequence of reads.
  function DecodeReads(buffer: string, chunks: seq<seq<byte>>): Decoded
    decreases |chunks|
  {
    if chunks == [] then Decoded([], buffer)
    else
      var d := Decode(buffer, chunks[0]);
      var e := DecodeReads(d.buffer, chunks[1..]);
      Decoded(d.out + e.out, e.buffer)
  }

  function Flatten<T>(ss: seq<seq<T>>): seq<T>
  {
    if ss == [] then [] else ss[0] + Flatten(ss[1..])
  }

  lemma {:induction false} FlattenAppend<T>(xs: seq<seq<T>>, ys: seq<seq<T>>)
    ensures Flatten(xs + ys) == Flatten(xs) + Flatten(ys)
  {
    if xs == [] {
      assert xs + ys == ys;
    } else {
      assert (xs + ys)[0] == xs[0] && (xs + ys)[1..] == xs[1..] + ys;
      FlattenAppend(xs[1..], ys);
    }
  }

  lemma FlattenSnoc<T>(xs: seq<seq<T>>, y: seq<T>)
    ensures Flatten(xs + [y]) == Flatten(xs) + y
  {
    FlattenAppend(xs, [y]);
    assert [y][1..] == [];
  }

  lemma {:induction false} DecodeAppend(buffer: string, xs: seq<byte>, ys: seq<byte>)
    ensures var d := Decode(buffer, xs);
      var e := Decode(d.buffer, ys);
      Decode(buffer, xs + ys) == Decoded(d.out + e.out, e.buffer)
    decreases |xs|
  {
    if xs == [] {
      assert xs + ys == ys;
    } else {
      assert (xs + ys)[0] == xs[0] && (xs + ys)[1..] == xs[1..] + ys;
      var first := DecodeByte(buffer, xs[0]);
      DecodeAppend(first.buffer, xs[1..], ys);
      var d := Decode(first.buffer, xs[1..]);
      var e := Decode(d.buffer, ys);
      assert first.out + (d.out + e.out) == first.out + d.out + e.out;
    }
  }

  // Chunking does not matter.
  lemma {:induction false} DecodeReadsIsDecode(buffer: string, chunks: seq<seq<byte>>)
    ensures DecodeReads(buffer, chunks) == Decode(buffer, Flatten(chunks))
    decreases |chunks|
  {
    if chunks != [] {
      DecodeAppend(buffer, chunks[0], Flatten(chunks[1..]));
      DecodeReadsIsDecode(Decode(buffer, chunks[0]).buffer, chunks[1..]);
    }
  }

  function ParseEach(texts: seq<string>): (r: seq<Parsed>)
    ensures |r| == |texts|
    ensures forall i :: 0 <= i < |r| ==> r[i] == Parse(texts[i])
  {
    if texts == [] then [] else [Parse(texts[0])] + ParseEach(texts[1..])
  }

  // The stream cut at NUL: each complete piece parsed, the rest kept.
  function CutAndParse(text: string): Decoded
  {
    var ps := Pieces(text, NUL);
    Decoded(ParseEach(ps[..|ps| - 1]), ps[|ps| - 1])
  }

  // The byte-at-a-time decoder computes exactly "cut at NUL, parse each
  // piece, keep the rest".
  lemma {:induction false} DecodeIsCut(buffer: string, bs: seq<byte>)
    requires NUL !in buffer
    ensures Decode(buffer, bs) == CutAndParse(buffer + Chars(bs))
    decreases |bs|
  {
    if bs == [] {
      assert buffer + Chars(bs) == buffer;
      PiecesOfPiece(buffer, NUL);
    } else {
      var c := ToChar(bs[0]);
      assert buffer + Chars(bs) == buffer + [c] + Chars(bs[1..]);
      if bs[0] == 0 {
        DecodeIsCut("", bs[1..]);
        assert "" + Chars(bs[1..]) == Chars(bs[1..]);
        CutAfterPiece(buffer, Chars(bs[1..]));
      } else {
        DecodeIsCut(buffer + [c], bs[1..]);
      }
    }
  }

  lemma CutAfterPiece(piece: string, text: string)
    requires NUL !in piece
    ensures CutAndParse(piece + [NUL] + text)
         == Decoded([Parse(piece)] + CutAndParse(text).out, CutAndParse(text).buffer)
  {
    PiecesAfterPiece(piece, text, NUL);
    var ps := Pieces(text, NUL);
    var qs := [piece] + ps;
    assert qs[..|qs| - 1] == [piece] + ps[..|ps| - 1];
    assert ([piece] + ps[..|ps| - 1])[1..] == ps[..|ps| - 1];
  }

  // ------------------------------------------------------------ round trips

  // Characters that one UTF-8 byte carries and that do not end a frame.
  predicate Plain(s: string)
  {
    forall i :: 0 <= i < |s| ==> 1 <= s[i] as int < 128
  }

  predicate PlainFrame(f: Frame)
  {
    Plain(f.command) && Plain(f.body) && forall k :: k in f.headers ==> Plain(k) && Plain(f.headers[k])
  }

  lemma {:induction false} PlainUnlines(h: map<string, string>, order: seq<string>)
    requires forall k :: k in order ==> k in h && Plain(k) && Plain(h[k])
    ensures Plain(Unlines(HeaderLines(h, order), '\n'))
  {
    if order != [] {
      var ls, line := HeaderLines(h, order), order[0] + (":" + h[order[0]]);
      PlainUnlines(h, order[1..]);
      assert ls[0] == line && ls[1..] == HeaderLines(h, order[1..]);
      assert order[0] in order;
      PlainAppend(order[0], ":" + h[order[0]]);
      PlainAppend(line, ['\n']);
      PlainAppend(line + ['\n'], Unlines(ls[1..], '\n'));
    }
  }

  lemma PlainAppend(s: string, t: string)
    requires Plain(s) && Plain(t)
    ensures Plain(s + t)
  {
  }

  lemma PlainPrintText(f: Frame, order: seq<string>)
    requires PlainFrame(f) && Enumerates(order, f.headers.Keys)
    ensures Plain(PrintText(f, order))
  {
    PlainUnlines(f.headers, order);
  }

  lemma {:induction false} EncodeTextAppend(s: string, t: string)
    ensures EncodeText(s + t) == EncodeText(s) + EncodeText(t)
  {
    if s == "" {
      assert s + t == t;
    } else {
      assert (s + t)[0] == s[0] && (s + t)[1..] == s[1..] + t;
      EncodeTextAppend(s[1..], t);
      var a, b, c := Utf8(s[0]), EncodeText(s[1..]), EncodeText(t);
      assert a + (b + c) == a + b + c;
    }
  }

  lemma {:induction false} CharsOfPlain(s: string)
    requires forall i :: 0 <= i < |s| ==> s[i] as int < 128
    ensures Chars(EncodeText(s)) == s
  {
    if s != "" {
      CharsOfPlain(s[1..]);
      assert Chars(EncodeText(s)) == [s[0]] + Chars(EncodeText(s[1..]));
    }
  }

  ghost predicate Orders(fs: seq<Frame>, orders: seq<seq<string>>)
  {
    |orders| == |fs| && forall i :: 0 <= i < |fs| ==> Enumerates(orders[i], fs[i].headers.Keys)
  }

  // The concatenated encodings of a list of frames.
  ghost function EncodeAll(fs: seq<Frame>, orders: seq<seq<string>>): seq<byte>
    requires Orders(fs, orders)
  {
    if fs == [] then [] else Encode(fs[0], orders[0]) + EncodeAll(fs[1..], orders[1..])
  }

  function AllOk(fs: seq<Frame>): (r: seq<Parsed>)
    ensures |r| == |fs| && forall i :: 0 <= i < |r| ==> r[i] == Ok(fs[i])
  {
    seq(|fs|, i requires 0 <= i < |fs| => Ok(fs[i]))
  }

  lemma DecodeOne(f: Frame, order: seq<string>)
    requires WellFormed(f) && PlainFrame(f) && Enumerates(order, f.headers.Keys)
    ensures Decode("", Encode(f, order)) == Decoded([Ok(f)], "")
  {
    var text := PrintText(f, order);
    PlainPrintText(f, order);
    CharsOfPlain(text + [NUL]);
    DecodeIsCut("", Encode(f, order));
    assert "" + Chars(Encode(f, order)) == text + [NUL] + "";
    CutAfterPiece(text, "");
    PiecesOfPiece("", NUL);
    ParsePrinted(f, order);
  }

  // Stream round trip: the frames come out as they went in and nothing is
  // left over, however the bytes are cut into reads.
  lemma {:induction false} StreamRoundTrip(fs: seq<Frame>, orders: seq<seq<string>>, chunks: seq<seq<byte>>)
    requires Orders(fs, orders) && Flatten(chunks) == EncodeAll(fs, orders)
    requires forall i :: 0 <= i < |fs| ==> WellFormed(fs[i]) && PlainFrame(fs[i])
    ensures DecodeReads("", chunks) == Decoded(AllOk(fs), "")
  {
    DecodeReadsIsDecode("", chunks);
    DecodeAll(fs, orders);
  }

  lemma {:induction false} DecodeAll(fs: seq<Frame>, orders: seq<seq<string>>)
    requires Orders(fs, orders)
    requires forall i :: 0 <= i < |fs| ==> WellFormed(fs[i]) && PlainFrame(fs[i])
    ensures Decode("", EncodeAll(fs, orders)) == Decoded(AllOk(fs), "")
  {
    if fs != [] {
      assert AllOk(fs) == [Ok(fs[0])] + AllOk(fs[1..]);
      DecodeOne(fs[0], orders[0]);
      DecodeAll(fs[1..], orders[1..]);
      DecodeAppend("", Encode(fs[0], orders[0]), EncodeAll(fs[1..], orders[1..]));
    }
  }
}
