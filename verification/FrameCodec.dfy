// The server's frame object and its encoder/decoder, as the mutable objects
// they are, proved against the codec functions.
module FrameCodec {
  import opened Text
  import opened Codec
  import opened Stream
  import Utf8

  class StompFrame {
    const command: string
    var headers: map<string, string>
    var body: string

    function Value(): Frame
      reads this
    {
      Frame(command, headers, body)
    }

    constructor (command: string)
      ensures Value() == Frame(command, map[], "")
    {
      this.command := command;
      this.headers := map[];
      this.body := "";
    }

    method AddHeader(key: string, value: string)
      modifies this
      ensures Value() == Frame(command, old(headers)[key := value], old(body))
    {
      headers := headers[key := value];
    }

    method SetBody(text: string)
      modifies this
      ensures Value() == Frame(command, old(headers), text)
    {
      body := text;
    }

    // Serialises the frame; the map is iterated in some order.
    method ToText() returns (text: string, ghost order: seq<string>)
      ensures Enumerates(order, headers.Keys) && text == Print(Value(), order)
    {
      text := command + NL;
      order := [];
      var todo := headers.Keys;
      while todo != {}
        invariant todo <= headers.Keys && Enumerates(order, headers.Keys - todo)
        invariant text == command + NL + Unlines(HeaderLines(headers, order), '\n')
        decreases todo
      {
        var key :| key in todo;
        HeaderLinesSnoc(headers, order, key);
        var line := key + ":" + headers[key];
        assert Unlines(HeaderLines(headers, order), '\n') + (line + NL)
            == Unlines(HeaderLines(headers, order + [key]), '\n');
        text := text + (line + NL);
        order := order + [key];
        todo := todo - {key};
      }
      text := text + NL;
      if body != "" {
        text := text + body;
      }
      text := text + [NUL];
    }
  }

  lemma {:induction false} HeaderLinesSnoc(h: map<string, string>, order: seq<string>, key: string)
    requires forall k :: k in order + [key] ==> k in h
    ensures HeaderLines(h, order + [key]) == HeaderLines(h, order) + [key + ":" + h[key]]
    ensures Unlines(HeaderLines(h, order + [key]), '\n')
         == Unlines(HeaderLines(h, order), '\n') + (key + ":" + h[key] + NL)
  {
    assert HeaderLines(h, order + [key]) == HeaderLines(h, order) + [key + ":" + h[key]];
    UnlinesAppend(HeaderLines(h, order), [key + ":" + h[key]], '\n');
    assert [key + ":" + h[key]][1..] == [];
  }

  class StompEncodeDecoder {
    var buffer: string

    constructor ()
      ensures buffer == ""
    {
      buffer := "";
    }

    // Nothing until a NUL arrives; then the text so far, parsed. The buffer is
    // emptied before the parse, so a thrown exception leaves it empty too.
    method DecodeNextByte(nextByte: byte) returns (r: Option<Result<StompFrame, ParseError>>)
      modifies this
      ensures buffer == DecodeByte(old(buffer), nextByte).buffer
      ensures DecodeByte(old(buffer), nextByte).out == if r.None? then [] else [Outcome(r.value)]
      ensures r.Some? && r.value.Ok? ==> fresh(r.value.value)
    {
      if nextByte == 0 {
        var rawFrame := buffer;
        buffer := "";
        var parsed := ParseText(rawFrame);
        r := Some(parsed);
      } else {
        buffer := buffer + [ToChar(nextByte)];
        r := None;
      }
    }

    // The bytes are UTF-8: a reader of UTF-8 gets the printed text from them.
    method Encode(frame: StompFrame) returns (bytes: seq<byte>, ghost order: seq<string>)
      ensures Enumerates(order, frame.headers.Keys) && bytes == Stream.Encode(frame.Value(), order)
      ensures Utf8.ReadText(bytes) == Some(PrintText(frame.Value(), order) + [NUL])
    {
      var text;
      text, order := frame.ToText();
      bytes := EncodeText(text);
      Utf8.EncodedReadsBack(frame.Value(), order);
    }

    static function Outcome(r: Result<StompFrame, ParseError>): Result<Frame, ParseError>
      reads if r.Ok? then {r.value} else {}
    {
      match r
      case Ok(f) => Ok(f.Value())
      case Err(e) => Err(e)
    }

    static method ParseText(rawFrame: string) returns (r: Result<StompFrame, ParseError>)
      ensures Outcome(r) == Parse(rawFrame)
      ensures r.Ok? ==> fresh(r.value)
    {
      var lines := JavaSplit(rawFrame, '\n');
      if |lines| == 0 {
        return Err(EmptyFrame);
      }
      var command := Trim(Java, lines[0]);
      if command !in CLIENT_COMMANDS {
        return Err(UnknownCommand(command));
      }
      var frame := new StompFrame(command);
      var i := 1;
      while i < |lines| && lines[i] != ""
        invariant 1 <= i <= |lines| && frame.body == ""
        invariant HeaderBlock(lines[1..], map[]) == HeaderBlock(lines[i..], frame.headers)
      {
        assert lines[i..][0] == lines[i] && lines[i..][1..] == lines[i + 1..];
        if ':' !in lines[i] {
          return Err(MalformedHeader(lines[i]));
        }
        var colon := Find(lines[i], ':');
        frame.AddHeader(Trim(Java, lines[i][..colon]), Trim(Java, lines[i][colon + 1..]));
        i := i + 1;
      }
      assert HeaderBlock(lines[1..], map[]) == Ok(Block(frame.headers, lines[i..]));
      assert lines[i..] != [] ==> lines[i..][1..] == lines[i + 1..];
      if i < |lines| - 1 {
        var bodyText := JoinBody(lines, i + 1);
        frame.SetBody(Trim(Java, bodyText));
      }
      r := Ok(frame);
    }

    // The body loop: every remaining line and a newline.
    static method JoinBody(lines: seq<string>, first: nat) returns (bodyBuilder: string)
      requires first <= |lines|
      ensures bodyBuilder == Unlines(lines[first..], '\n')
    {
      bodyBuilder := "";
      for j := first to |lines|
        invariant bodyBuilder == Unlines(lines[first..j], '\n')
      {
        assert lines[first..j + 1] == lines[first..j] + [lines[j]];
        UnlinesAppend(lines[first..j], [lines[j]], '\n');
        assert [lines[j]][1..] == [];
        bodyBuilder := bodyBuilder + (lines[j] + NL);
      }
      assert lines[first..|lines|] == lines[first..];
    }
  }
}
