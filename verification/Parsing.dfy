// What the parser accepts and what it takes from a text, and what the printer
// writes, both without their own functions: by lines, by trimming, and by a
// reader that takes every character as it is.
module Parsing {
  import opened Text
  import opened Codec
  import Pipeline

  // ----------------------------------------------------------------- the lines

  predicate OnlyNewlines(s: string)
  {
    s != "" && forall i :: 0 <= i < |s| ==> s[i] == '\n'
  }

  lemma {:induction false} EmptyPieces(s: string)
    ensures (forall i :: 0 <= i < |Pieces(s, '\n')| ==> Pieces(s, '\n')[i] == "") <==> (s == "" || OnlyNewlines(s))
  {
    if s != "" {
      var rest := Pieces(s[1..], '\n');
      EmptyPieces(s[1..]);
      if s[0] == '\n' {
        assert Pieces(s, '\n') == [""] + rest;
        assert (forall i :: 0 <= i < |rest| ==> rest[i] == "") <==> forall i :: 0 <= i < |rest| + 1 ==> ([""] + rest)[i] == "";
      } else {
        assert Pieces(s, '\n')[0] != "";
      }
    }
  }

  // The lines that `split` gives: all of them without the empty ones at the
  // end, and a text without any newline as it is.
  lemma SplitSays(s: string)
    ensures var ls, ps := JavaSplit(s, '\n'), Pieces(s, '\n');
      && ls <= ps && (forall i :: |ls| <= i < |ps| ==> ps[i] == "")
      && ('\n' !in s ==> ls == [s])
      && ('\n' in s && ls != [] ==> ls[|ls| - 1] != "")
      && (ls == [] <==> OnlyNewlines(s))
  {
    OnePiece(s, '\n');
    EmptyPieces(s);
    if OnlyNewlines(s) {
      assert s[0] == '\n';
    }
  }

  predicate NoneEmpty(ls: seq<string>)
  {
    forall i :: 0 <= i < |ls| ==> ls[i] != ""
  }

  // Line `i` comes before the first empty one.
  predicate InHeader(ls: seq<string>, i: nat)
  {
    i < |ls| && forall j :: 0 <= j <= i ==> ls[j] != ""
  }

  // Each of those lines has a colon.
  predicate Colons(ls: seq<string>)
  {
    forall i: nat :: i < |ls| && InHeader(ls, i) ==> ':' in ls[i]
  }

  // Line `i` is the first of them that has none.
  predicate FirstWithout(ls: seq<string>, i: nat)
  {
    InHeader(ls, i) && ':' !in ls[i] && forall j :: 0 <= j < i ==> ':' in ls[j]
  }

  lemma ColonsTail(ls: seq<string>)
    requires ls != [] && ls[0] != "" && ':' in ls[0]
    ensures Colons(ls) <==> Colons(ls[1..])
    ensures forall i: nat :: FirstWithout(ls[1..], i) ==> FirstWithout(ls, i + 1)
  {
    forall i: nat ensures InHeader(ls[1..], i) <==> InHeader(ls, i + 1) {
      if InHeader(ls, i + 1) {
        assert forall j :: 0 <= j <= i ==> ls[1..][j] == ls[j + 1];
      }
    }
    if Colons(ls[1..]) {
      forall i: nat | InHeader(ls, i) ensures ':' in ls[i] {
        if i > 0 {
          assert InHeader(ls[1..], i - 1) && ls[1..][i - 1] == ls[i];
        }
      }
    }
    if Colons(ls) {
      forall i: nat | InHeader(ls[1..], i) ensures ':' in ls[1..][i] {
        assert InHeader(ls, i + 1) && ls[i + 1] == ls[1..][i];
      }
    }
  }

  lemma {:induction false} HeaderBlockOkIff(ls: seq<string>, acc: map<string, string>)
    ensures HeaderBlock(ls, acc).Ok? <==> Colons(ls)
    ensures HeaderBlock(ls, acc).Err? ==> exists i: nat :: FirstWithout(ls, i) && HeaderBlock(ls, acc) == Err(MalformedHeader(ls[i]))
    decreases |ls|
  {
    if ls == [] {
    } else if ls[0] == "" {
      assert forall i: nat :: !InHeader(ls, i);
    } else if ':' !in ls[0] {
      assert FirstWithout(ls, 0);
    } else {
      HeaderBlockOkIff(ls[1..], acc[HeaderKey(ls[0]) := HeaderValue(ls[0])]);
      ColonsTail(ls);
    }
  }

  // ------------------------------------------------------------ what is accepted

  // A text is accepted if and only if its first line is, blanks aside, one of
  // the five client commands and every further line up to the first empty one
  // has a colon. The frame's command is that first line.
  lemma ParseOkIff(raw: string)
    ensures var ls := JavaSplit(raw, '\n');
      && (Parse(raw).Ok? <==>
            ls != [] && Trim(Java, ls[0]) in {"CONNECT", "SEND", "SUBSCRIBE", "UNSUBSCRIBE", "DISCONNECT"} && Colons(ls[1..]))
      && (Parse(raw).Ok? ==> Parse(raw).value.command == Trim(Java, ls[0]))
  {
    var ls := JavaSplit(raw, '\n');
    if ls != [] {
      HeaderBlockOkIff(ls[1..], map[]);
    }
  }

  // And the exception for each that is not: newlines alone, then a first line
  // that is no command, then the first header line without a colon.
  lemma ParseErrors(raw: string)
    ensures var ls := JavaSplit(raw, '\n');
      && (OnlyNewlines(raw) ==> Parse(raw) == Err(EmptyFrame))
      && (!OnlyNewlines(raw) ==>
            ls != []
            && var command := Trim(Java, ls[0]);
               if command !in {"CONNECT", "SEND", "SUBSCRIBE", "UNSUBSCRIBE", "DISCONNECT"} then Parse(raw) == Err(UnknownCommand(command))
               else !Colons(ls[1..]) ==> exists i: nat :: FirstWithout(ls[1..], i) && Parse(raw) == Err(MalformedHeader(ls[1..][i])))
  {
    var ls := JavaSplit(raw, '\n');
    SplitSays(raw);
    if ls != [] {
      HeaderBlockOkIff(ls[1..], map[]);
    }
  }

  // --------------------------------------------------------------- what is taken

  predicate JavaBlanks(s: string)
  {
    forall i :: 0 <= i < |s| ==> s[i] as int <= 32
  }

  predicate NoBlankEnds(s: string)
  {
    s != "" ==> s[0] as int > 32 && s[|s| - 1] as int > 32
  }

  // `core` is `s` without the blanks around it.
  predicate IsTrimOf(core: string, s: string)
  {
    NoBlankEnds(core) && exists i, j :: 0 <= i <= j <= |s| && IsMiddle(core, s, i, j)
  }

  predicate IsMiddle(core: string, s: string, i: nat, j: nat)
    requires i <= j <= |s|
  {
    core == s[i..j] && JavaBlanks(s[..i]) && JavaBlanks(s[j..])
  }

  lemma TrimIs(s: string)
    ensures IsTrimOf(Trim(Java, s), s)
  {
    var i, j := TrimSplits(Java, s);
    assert IsMiddle(Trim(Java, s), s, i, j);
  }

  // There is one such text.
  lemma TrimIsOne(core: string, s: string)
    requires IsTrimOf(core, s)
    ensures core == Trim(Java, s)
  {
    var i, j :| 0 <= i <= j <= |s| && IsMiddle(core, s, i, j);
    TrimUnique(Java, s[..i], core, s[j..]);
    assert s == s[..i] + core + s[j..];
  }

  // Key and value of any header line are its two parts around the first colon,
  // each without the blanks around it.
  lemma HeaderParts(line: string) returns (k: nat)
    requires ':' in line
    ensures k < |line| && line[k] == ':' && ':' !in line[..k]
    ensures IsTrimOf(HeaderKey(line), line[..k]) && IsTrimOf(HeaderValue(line), line[k + 1..])
  {
    k := Find(line, ':');
    TrimIs(line[..k]);
    TrimIs(line[k + 1..]);
  }

  // A text that reads `top` before its first empty line has `body` as its body,
  // without the blanks around it.
  lemma ParseBody(raw: string, top: seq<string>, body: string)
    requires raw == Unlines(top, '\n') + NL + body
    requires top != [] && forall i :: 0 <= i < |top| ==> top[i] != "" && '\n' !in top[i]
    requires Parse(raw).Ok?
    ensures IsTrimOf(Parse(raw).value.body, body)
  {
    var ps := Pieces(body, '\n');
    BlankLinePieces(raw, top, body);
    TrimIs(body);
    if body == "" || OnlyNewlines(body) {
      NothingAfter(raw, top, body);
      AllBlankBody(body);
    } else {
      EmptyPieces(body);
      SomethingAfter(raw, top, body);
      BodyTrimmed(body);
    }
  }

  lemma BlankLinePieces(raw: string, top: seq<string>, body: string)
    requires raw == Unlines(top, '\n') + NL + body
    requires top != [] && forall i :: 0 <= i < |top| ==> '\n' !in top[i]
    ensures Pieces(raw, '\n') == top + ([""] + Pieces(body, '\n'))
  {
    assert top == [top[0]] + top[1..];
    LayoutPieces(top[0], top[1..], body);
    assert [top[0]] + top[1..] + ([""] + Pieces(body, '\n')) == top + ([""] + Pieces(body, '\n'));
    assert top[0] + NL + Unlines(top[1..], '\n') + NL + body == raw;
  }

  lemma AllBlankBody(body: string)
    requires body == "" || OnlyNewlines(body)
    ensures Trim(Java, body) == ""
  {
    TrimUnique(Java, body, "", "");
    assert body + "" + "" == body;
  }

  lemma NothingAfter(raw: string, top: seq<string>, body: string)
    requires top != [] && NoneEmpty(top) && Pieces(raw, '\n') == top + ([""] + Pieces(body, '\n'))
    requires body == "" || OnlyNewlines(body)
    requires Parse(raw).Ok?
    ensures Parse(raw).value.body == ""
  {
    EmptyPieces(body);
    DropTrailingEmptyKeeps(top, [""] + Pieces(body, '\n'));
    NoEmptyNoBody(top[1..], map[]);
  }

  lemma {:induction false} NoEmptyNoBody(ls: seq<string>, acc: map<string, string>)
    requires NoneEmpty(ls) && HeaderBlock(ls, acc).Ok?
    ensures HeaderBlock(ls, acc).value.rest == []
    decreases |ls|
  {
    if ls != [] {
      NoEmptyNoBody(ls[1..], acc[HeaderKey(ls[0]) := HeaderValue(ls[0])]);
    }
  }

  lemma SomethingAfter(raw: string, top: seq<string>, body: string)
    requires top != [] && NoneEmpty(top) && Pieces(raw, '\n') == top + ([""] + Pieces(body, '\n'))
    requires exists i :: 0 <= i < |Pieces(body, '\n')| && Pieces(body, '\n')[i] != ""
    requires Parse(raw).Ok?
    ensures Parse(raw).value.body == BodyOf([""] + DropTrailingEmpty(Pieces(body, '\n')))
  {
    SplitWithBlank(raw, top, Pieces(body, '\n'));
    ParseAfter(raw, top, [""] + DropTrailingEmpty(Pieces(body, '\n')));
  }

  lemma SplitWithBlank(raw: string, top: seq<string>, ps: seq<string>)
    requires top != [] && Pieces(raw, '\n') == top + ([""] + ps)
    requires exists i :: 0 <= i < |ps| && ps[i] != ""
    ensures JavaSplit(raw, '\n') == top + ([""] + DropTrailingEmpty(ps))
  {
    Regroup(top, [""], ps);
    Pipeline.DropKeepsTop(top + [""], ps);
    Regroup(top, [""], DropTrailingEmpty(ps));
  }

  lemma ParseAfter(raw: string, top: seq<string>, rest: seq<string>)
    requires top != [] && NoneEmpty(top) && JavaSplit(raw, '\n') == top + rest && rest != [] && rest[0] == ""
    requires Parse(raw).Ok?
    ensures Parse(raw).value.body == BodyOf(rest)
  {
    assert (top + rest)[1..] == top[1..] + rest;
    RestAfter(top[1..], rest, map[]);
  }

  lemma {:induction false} RestAfter(hl: seq<string>, rest: seq<string>, acc: map<string, string>)
    requires NoneEmpty(hl) && rest != [] && rest[0] == "" && HeaderBlock(hl + rest, acc).Ok?
    ensures HeaderBlock(hl + rest, acc).value.rest == rest
    decreases |hl|
  {
    if hl == [] {
      assert hl + rest == rest;
    } else {
      assert (hl + rest)[0] == hl[0] && (hl + rest)[1..] == hl[1..] + rest;
      RestAfter(hl[1..], rest, acc[HeaderKey(hl[0]) := HeaderValue(hl[0])]);
    }
  }

  lemma BodyTrimmed(body: string)
    requires exists i :: 0 <= i < |Pieces(body, '\n')| && Pieces(body, '\n')[i] != ""
    ensures BodyOf([""] + DropTrailingEmpty(Pieces(body, '\n'))) == Trim(Java, body)
  {
    var ps := Pieces(body, '\n');
    var post := Pipeline.UnlinesOfDropped(ps);
    Pipeline.DropKeepsTop([], ps);
    UnlinesIsJoin(ps, '\n');
    Pipeline.SameTrim(body, Unlines(DropTrailingEmpty(ps), '\n'), post);
    assert ([""] + DropTrailingEmpty(ps))[1..] == DropTrailingEmpty(ps);
  }

  // Without an empty line among those that `split` gives there is no body.
  lemma ParseNoBody(raw: string)
    requires Parse(raw).Ok? && NoneEmpty(JavaSplit(raw, '\n')[1..])
    ensures Parse(raw).value.body == ""
  {
    NoEmptyNoBody(JavaSplit(raw, '\n')[1..], map[]);
  }

  // ------------------------------------------------------------ what is printed

  // Reads a frame character by character: the first line is the command, then
  // key and value around the first colon of each line up to an empty one, then
  // the body.
  function ReadExactly(text: string): Option<Frame>
  {
    var ls := Pieces(text, '\n');
    match ReadHeaders(ls[1..], map[])
    case None => None
    case Some(b) => Some(Frame(ls[0], b.headers, Join(b.rest, '\n')))
  }

  // The header lines, and the lines after the empty one.
  function ReadHeaders(ls: seq<string>, acc: map<string, string>): (r: Option<Block>)
    ensures r.Some? ==> r.value.rest != []
  {
    if ls == [] then None
    else if ls[0] == "" then if |ls| > 1 then Some(Block(acc, ls[1..])) else None
    else
      var k := Find(ls[0], ':');
      if k == |ls[0]| then None else ReadHeaders(ls[1..], acc[ls[0][..k] := ls[0][k + 1..]])
  }

  // Keys without colon and newline, values without newline.
  predicate Printable(h: map<string, string>)
  {
    forall k :: k in h ==> ':' !in k && '\n' !in k && '\n' !in h[k]
  }

  lemma {:induction false} ReadsHeaders(h: map<string, string>, order: seq<string>, rest: seq<string>, acc: map<string, string>)
    requires Printable(h) && (forall k :: k in order ==> k in h) && rest != []
    ensures ReadHeaders(HeaderLines(h, order) + ([""] + rest), acc) == Some(Block(Overlay(acc, h, order), rest))
    decreases |order|
  {
    var ls := HeaderLines(h, order) + ([""] + rest);
    if order == [] {
      assert ls == [""] + rest && ls[1..] == rest;
    } else {
      var k := order[0];
      assert ls[0] == k + [':'] + h[k] && ls[1..] == HeaderLines(h, order[1..]) + ([""] + rest);
      FindAfter(k, ':', h[k]);
      assert ls[0][..|k|] == k && ls[0][|k| + 1..] == h[k];
      ReadsHeaders(h, order[1..], rest, acc[k := h[k]]);
    }
  }

  lemma OneLineEach(h: map<string, string>, order: seq<string>)
    requires Printable(h) && forall k :: k in order ==> k in h
    ensures forall i :: 0 <= i < |order| ==> '\n' !in HeaderLines(h, order)[i]
  {
  }

  // The printed text says the frame and nothing else: a reader that trims
  // nothing gets back any frame, of the client's or the server's commands, with
  // any body, whatever the header order.
  lemma PrintedExactly(f: Frame, order: seq<string>)
    requires '\n' !in f.command && Printable(f.headers) && Enumerates(order, f.headers.Keys)
    ensures ReadExactly(PrintText(f, order)) == Some(f)
  {
    var hl, bl := HeaderLines(f.headers, order), Pieces(f.body, '\n');
    OneLineEach(f.headers, order);
    LayoutPieces(f.command, hl, f.body);
    AllHeaders(f.headers, order, bl);
    ReadsLines(PrintText(f, order), f.command, hl, f.headers, bl);
  }

  lemma AllHeaders(h: map<string, string>, order: seq<string>, rest: seq<string>)
    requires Printable(h) && (forall k :: k in order <==> k in h) && rest != []
    ensures ReadHeaders(HeaderLines(h, order) + ([""] + rest), map[]) == Some(Block(h, rest))
  {
    var none: map<string, string> := map[];
    ReadsHeaders(h, order, rest, none);
    OverlayNone(none, h, order);
  }

  lemma OverlayNone(none: map<string, string>, h: map<string, string>, order: seq<string>)
    requires none == map[] && forall k :: k in order <==> k in h
    ensures Overlay(none, h, order) == h
  {
  }

  lemma ReadsLines(text: string, command: string, hl: seq<string>, h: map<string, string>, rest: seq<string>)
    requires rest != [] && ReadHeaders(hl + ([""] + rest), map[]) == Some(Block(h, rest))
    requires Pieces(text, '\n') == [command] + hl + ([""] + rest)
    ensures ReadExactly(text) == Some(Frame(command, h, Join(rest, '\n')))
  {
    FirstAndRest(command, hl, [""] + rest);
  }

  lemma FirstAndRest(command: string, hl: seq<string>, rest: seq<string>)
    ensures ([command] + hl + rest)[0] == command && ([command] + hl + rest)[1..] == hl + rest
  {
  }
}
