// What the wire makes of text that is not plain: every UTF-8 byte becomes a
// character of its own. Exactly the well-formed plain frames survive it.
module Garble {
  import opened Text
  import opened Codec
  import opened Stream

  // The encoder's UTF-8 bytes, read back one byte per character.
  function Garbled(s: string): string
  {
    Chars(EncodeText(s))
  }

  predicate Ascii(s: string)
  {
    forall i :: 0 <= i < |s| ==> s[i] as int < 128
  }

  lemma GarbledAppend(s: string, t: string)
    ensures Garbled(s + t) == Garbled(s) + Garbled(t)
  {
    EncodeTextAppend(s, t);
  }

  lemma GarbledCons(c: char, s: string)
    ensures Garbled([c] + s) == Chars(Utf8(c)) + Garbled(s)
  {
    assert ([c] + s)[1..] == s;
  }

  // One character becomes itself, or at least two that are not ASCII.
  lemma GarbledChar(c: char)
    ensures c as int < 128 ==> Chars(Utf8(c)) == [c]
    ensures c as int >= 128 ==> |Chars(Utf8(c))| > 1 && forall d :: d in Chars(Utf8(c)) ==> d as int >= 128
    ensures c as int >= 128 ==> !Ascii(Chars(Utf8(c)))
  {
    assert c as int >= 128 ==> Chars(Utf8(c))[0] as int >= 128;
  }

  // Only ASCII text keeps its length, its text, or its being ASCII; ASCII
  // characters neither come nor go.
  lemma {:induction false} GarbledFacts(s: string)
    ensures |Garbled(s)| >= |s|
    ensures Ascii(s) ==> Garbled(s) == s
    ensures !Ascii(s) ==> |Garbled(s)| > |s| && !Ascii(Garbled(s))
    ensures forall c: char :: c as int < 128 ==> (c in Garbled(s) <==> c in s)
  {
    if s != "" {
      GarbledFacts(s[1..]);
      GarbledChar(s[0]);
      assert s == [s[0]] + s[1..];
      GarbledCons(s[0], s[1..]);
      AsciiCons(s[0], s[1..]);
      GarbledAscii(Chars(Utf8(s[0])), Garbled(s[1..]));
    }
  }

  lemma AsciiCons(c: char, s: string)
    ensures Ascii([c] + s) <==> c as int < 128 && Ascii(s)
  {
    assert ([c] + s)[0] == c;
    assert forall i :: 0 <= i < |s| ==> s[i] == ([c] + s)[i + 1];
  }

  lemma GarbledAscii(s: string, t: string)
    ensures Ascii(s + t) <==> Ascii(s) && Ascii(t)
  {
    assert forall i :: 0 <= i < |s| ==> s[i] == (s + t)[i];
    assert forall i :: 0 <= i < |t| ==> t[i] == (s + t)[|s| + i];
  }

  // Being trimmed depends on the two ends only, and blanks are ASCII.
  lemma GarbledTrimmed(s: string)
    requires Trimmed(Java, s)
    ensures Trimmed(Java, Garbled(s))
  {
    if s != "" {
      var n := |s| - 1;
      assert s == [s[0]] + s[1..] && s == s[..n] + [s[n]];
      GarbledChar(s[0]);
      GarbledChar(s[n]);
      GarbledCons(s[0], s[1..]);
      GarbledAppend(s[..n], [s[n]]);
      GarbledCons(s[n], "");
      assert [s[n]] + "" == [s[n]];
    }
  }

  // The header lines that arrive.
  function GarbledLines(h: map<string, string>, order: seq<string>): (r: seq<string>)
    requires forall k :: k in order ==> k in h
    ensures |r| == |order|
    ensures forall i :: 0 <= i < |r| ==> r[i] == Garbled(order[i]) + ":" + Garbled(h[order[i]])
  {
    if order == [] then [] else [Garbled(order[0]) + ":" + Garbled(h[order[0]])] + GarbledLines(h, order[1..])
  }

  lemma {:induction false} GarbledHeader(h: map<string, string>, order: seq<string>)
    requires forall k :: k in order ==> k in h
    ensures Garbled(Unlines(HeaderLines(h, order), '\n')) == Unlines(GarbledLines(h, order), '\n')
    decreases |order|
  {
    if order != [] {
      var k := order[0];
      var rest := HeaderLines(h, order[1..]);
      GarbledHeader(h, order[1..]);
      assert HeaderLines(h, order)[1..] == rest;
      assert GarbledLines(h, order)[1..] == GarbledLines(h, order[1..]);
      GarbledLine(k, h[k]);
      GarbledFacts(NL);
      GarbledAppend(k + ":" + h[k], NL);
      GarbledAppend(k + ":" + h[k] + NL, Unlines(rest, '\n'));
    }
  }

  lemma GarbledLine(k: string, v: string)
    ensures Garbled(k + ":" + v) == Garbled(k) + ":" + Garbled(v)
  {
    GarbledFacts(":");
    GarbledAppend(k, ":");
    GarbledAppend(k + ":", v);
  }

  // The whole text that arrives.
  lemma GarbledText(f: Frame, order: seq<string>)
    requires WellFormed(f) && Enumerates(order, f.headers.Keys)
    ensures Garbled(PrintText(f, order))
         == f.command + NL + Unlines(GarbledLines(f.headers, order), '\n') + NL + Garbled(f.body)
  {
    var hl := Unlines(HeaderLines(f.headers, order), '\n');
    CommandAscii(f.command);
    GarbledFacts(f.command);
    GarbledFacts(NL);
    GarbledHeader(f.headers, order);
    GarbledAppend(f.command, NL);
    GarbledAppend(f.command + NL, hl);
    GarbledAppend(f.command + NL + hl, NL);
    GarbledAppend(f.command + NL + hl + NL, f.body);
  }

  lemma CommandAscii(command: string)
    requires command in CLIENT_COMMANDS
    ensures Ascii(command) && NUL !in command
  {
  }

  lemma GarbledLinesShape(h: map<string, string>, order: seq<string>)
    requires HeadersWellFormed(h) && forall k :: k in order ==> k in h
    ensures forall i :: 0 <= i < |order| ==>
      '\n' !in GarbledLines(h, order)[i] && GarbledLines(h, order)[i] != "" && ':' in GarbledLines(h, order)[i]
    ensures forall i :: 0 <= i < |order| ==> HeaderKey(GarbledLines(h, order)[i]) == Garbled(order[i])
  {
    forall i | 0 <= i < |order|
      ensures '\n' !in GarbledLines(h, order)[i] && GarbledLines(h, order)[i] != "" && ':' in GarbledLines(h, order)[i]
      ensures HeaderKey(GarbledLines(h, order)[i]) == Garbled(order[i])
    {
      var k := order[i];
      GarbledFacts(k);
      GarbledFacts(h[k]);
      GarbledTrimmed(k);
      GarbledTrimmed(h[k]);
      HeaderLineParts(Garbled(k), Garbled(h[k]));
    }
  }

  // Every key of a parsed header block comes from one of its lines.
  lemma {:induction false} KeysFromLines(ls: seq<string>, rest: seq<string>, acc: map<string, string>, k: string)
    requires forall i :: 0 <= i < |ls| ==> ls[i] != "" && ':' in ls[i]
    requires rest == [] || rest[0] == ""
    ensures HeaderBlock(ls + rest, acc).Ok?
    ensures k in HeaderBlock(ls + rest, acc).value.headers ==>
      k in acc || exists i :: 0 <= i < |ls| && HeaderKey(ls[i]) == k
    decreases |ls|
  {
    if ls == [] {
      assert ls + rest == rest;
    } else {
      assert (ls + rest)[0] == ls[0] && (ls + rest)[1..] == ls[1..] + rest;
      KeysFromLines(ls[1..], rest, acc[HeaderKey(ls[0]) := HeaderValue(ls[0])], k);
      if i :| 0 <= i < |ls[1..]| && HeaderKey(ls[1..][i]) == k {
        assert ls[i + 1] == ls[1..][i];
      }
    }
  }

  // Reading what arrives: the same command, header keys all garbled, and the
  // body garbled.
  lemma GarbledParse(f: Frame, order: seq<string>, k: string)
    requires WellFormed(f) && Enumerates(order, f.headers.Keys)
    ensures var g := Garbled(PrintText(f, order));
      && Parse(g).Ok? && Parse(g).value.body == Garbled(f.body)
      && (k in Parse(g).value.headers ==> exists k' :: k' in f.headers && Garbled(k') == k)
  {
    var hl, bl := GarbledLines(f.headers, order), BodyLines(Garbled(f.body));
    GarbledText(f, order);
    GarbledTrimmed(f.body);
    GarbledLinesShape(f.headers, order);
    CommandShape(f.command);
    LayoutLines(f.command, hl, Garbled(f.body), Garbled(PrintText(f, order)));
    KeysFromLines(hl, bl, map[], k);
    ParseOfLines(Garbled(PrintText(f, order)), f.command, hl, bl);
    RestOfBlock(hl, bl, map[]);
    BodyOfPrinted(Garbled(f.body));
  }

  lemma {:induction false} RestOfBlock(ls: seq<string>, rest: seq<string>, acc: map<string, string>)
    requires forall i :: 0 <= i < |ls| ==> ls[i] != "" && ':' in ls[i]
    requires rest == [] || rest[0] == ""
    ensures HeaderBlock(ls + rest, acc).Ok? && HeaderBlock(ls + rest, acc).value.rest == rest
    decreases |ls|
  {
    if ls == [] {
      assert ls + rest == rest;
    } else {
      assert (ls + rest)[0] == ls[0] && (ls + rest)[1..] == ls[1..] + rest;
      RestOfBlock(ls[1..], rest, acc[HeaderKey(ls[0]) := HeaderValue(ls[0])]);
    }
  }

  // A set of keys that garbling maps onto itself is ASCII: a key that is not
  // would be the garbling of a shorter one that is not either, and so on.
  lemma {:induction false} NoForeignKeys(keys: set<string>, k: string)
    requires forall x :: x in keys ==> exists y :: y in keys && Garbled(y) == x
    requires k in keys
    ensures Ascii(k)
    decreases |k|
  {
    var y :| y in keys && Garbled(y) == k;
    GarbledFacts(y);
    if !Ascii(y) {
      NoForeignKeys(keys, y);
    }
  }

  // With ASCII keys the values arrive garbled under their own keys.
  lemma GarbledValues(f: Frame, order: seq<string>, h: map<string, string>)
    requires WellFormed(f) && Enumerates(order, f.headers.Keys)
    requires forall k :: k in f.headers ==> Ascii(k)
    requires h.Keys == f.headers.Keys && forall k :: k in h ==> h[k] == Garbled(f.headers[k])
    ensures Parse(Garbled(PrintText(f, order))) == Ok(Frame(f.command, h, Garbled(f.body)))
  {
    var g := Frame(f.command, h, Garbled(f.body));
    forall k | k in h ensures Trimmed(Java, h[k]) && '\n' !in h[k] && Garbled(k) == k {
      GarbledFacts(k);
      GarbledFacts(f.headers[k]);
      GarbledTrimmed(f.headers[k]);
    }
    GarbledTrimmed(f.body);
    GarbledText(f, order);
    assert GarbledLines(f.headers, order) == HeaderLines(h, order);
    ParsePrinted(g, order);
  }

  lemma KeysAreAscii(f: Frame, order: seq<string>)
    requires WellFormed(f) && Enumerates(order, f.headers.Keys)
    requires Parse(Garbled(PrintText(f, order))) == Ok(f)
    ensures forall k :: k in f.headers ==> Ascii(k)
  {
    forall x | x in f.headers.Keys ensures exists y :: y in f.headers.Keys && Garbled(y) == x {
      GarbledParse(f, order, x);
    }
    forall k | k in f.headers ensures Ascii(k) {
      NoForeignKeys(f.headers.Keys, k);
    }
  }

  // Text level: what arrives reads as the frame only if it is ASCII.
  lemma GarbledRoundTrip(f: Frame, order: seq<string>)
    requires Enumerates(order, f.headers.Keys)
    requires Parse(Garbled(PrintText(f, order))) == Ok(f)
    ensures WellFormed(f) && Ascii(f.body) && forall k :: k in f.headers ==> Ascii(k) && Ascii(f.headers[k])
  {
    ParseWellFormed(Garbled(PrintText(f, order)));
    KeysAreAscii(f, order);
    var h := map k | k in f.headers :: Garbled(f.headers[k]);
    GarbledValues(f, order, h);
    GarbledFacts(f.body);
    forall k | k in f.headers ensures Ascii(f.headers[k]) {
      GarbledFacts(f.headers[k]);
      assert h[k] == f.headers[k];
    }
  }

  // A NUL inside the text ends the frame early: there are two frames at least.
  lemma NulSplits(text: string)
    requires NUL in text
    ensures |CutAndParse(text + [NUL]).out| > 1
  {
    var k := Find(text, NUL);
    assert text[..k] + text[k..] == text;
    var rest := text[k + 1..] + [NUL];
    assert text + [NUL] == text[..k] + [NUL] + rest;
    CutAfterPiece(text[..k], rest);
    assert rest[|rest| - 1] == NUL;
    OnePiece(rest, NUL);
  }

  // Byte round trip, exactly: a frame is decoded from its encoding, with
  // nothing left over, if and only if it is well-formed and plain.
  lemma ByteRoundTripIff(f: Frame, order: seq<string>)
    requires Enumerates(order, f.headers.Keys)
    ensures Decode("", Encode(f, order)) == Decoded([Ok(f)], "") <==> WellFormed(f) && PlainFrame(f)
  {
    if WellFormed(f) && PlainFrame(f) {
      DecodeOne(f, order);
    } else if Decode("", Encode(f, order)) == Decoded([Ok(f)], "") {
      var text := PrintText(f, order);
      ArrivesGarbled(text);
      GarbledFacts(text);
      if NUL in Garbled(text) {
        NulSplits(Garbled(text));
      } else {
        ParseOfGarbled(text);
        GarbledRoundTrip(f, order);
        CommandAscii(f.command);
        PlainFromText(f, order);
      }
      assert false;
    }
  }

  lemma ArrivesGarbled(text: string)
    ensures Decode("", EncodeText(text + [NUL])) == CutAndParse(Garbled(text) + [NUL])
  {
    DecodeIsCut("", EncodeText(text + [NUL]));
    GarbledAppend(text, [NUL]);
    GarbledFacts([NUL]);
    assert "" + Garbled(text + [NUL]) == Garbled(text) + [NUL];
  }

  lemma ParseOfGarbled(text: string)
    requires NUL !in Garbled(text)
    ensures CutAndParse(Garbled(text) + [NUL]).out == [Parse(Garbled(text))]
  {
    CutAfterPiece(Garbled(text), "");
    PiecesOfPiece("", NUL);
    assert Garbled(text) + [NUL] + "" == Garbled(text) + [NUL];
  }

  lemma PlainFromText(f: Frame, order: seq<string>)
    requires Enumerates(order, f.headers.Keys) && NUL !in PrintText(f, order)
    requires Ascii(f.command) && Ascii(f.body) && forall k :: k in f.headers ==> Ascii(k) && Ascii(f.headers[k])
    ensures PlainFrame(f)
  {
    NoNulInLines(f.headers, order);
    forall s: string | NUL !in s && Ascii(s) ensures Plain(s) {
    }
  }

  lemma {:induction false} NoNulInLines(h: map<string, string>, order: seq<string>)
    requires forall k :: k in order ==> k in h
    requires NUL !in Unlines(HeaderLines(h, order), '\n')
    ensures forall k :: k in order ==> NUL !in k && NUL !in h[k]
    decreases |order|
  {
    if order != [] {
      assert HeaderLines(h, order)[1..] == HeaderLines(h, order[1..]);
      NoNulInLines(h, order[1..]);
    }
  }
}
