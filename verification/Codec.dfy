// The STOMP frame codec of the server as functions: the text parser, the
// printer with its unspecified header order, and the byte-at-a-time decoder
// seen as a function on streams.
module Codec {
  import opened Text

  // A frame's command, header map and body. Commands of client frames are
  // CLIENT_COMMANDS; the server also builds CONNECTED, MESSAGE, RECEIPT, ERROR.
  datatype Frame = Frame(command: string, headers: map<string, string>, body: string)

  // The exceptions `parse` throws.
  datatype ParseError = EmptyFrame | UnknownCommand(command: string) | MalformedHeader(line: string)

  const CLIENT_COMMANDS: set<string> := {"CONNECT", "SEND", "SUBSCRIBE", "UNSUBSCRIBE", "DISCONNECT"}

  // A SUBSCRIBE without an id: the one kind of client frame whose processing
  // can end in an exception.
  predicate Idless(f: Frame)
  {
    f.command == "SUBSCRIBE" && "id" !in f.headers
  }

  const NL: string := "\n"
  const NUL: char := '\0'

  // ---------------------------------------------------------------- parsing

  // The header map read so far and the lines from the one that stopped it.
  datatype Block = Block(headers: map<string, string>, rest: seq<string>)

  // Header lines up to the first empty line or the end of the text.
  function HeaderBlock(ls: seq<string>, acc: map<string, string>): Result<Block, ParseError>
  {
    if ls == [] || ls[0] == "" then Ok(Block(acc, ls))
    else if ':' !in ls[0] then Err(MalformedHeader(ls[0]))
    else HeaderBlock(ls[1..], acc[HeaderKey(ls[0]) := HeaderValue(ls[0])])
  }

  function HeaderKey(line: string): string
    requires ':' in line
  {
    Trim(Java, line[..Find(line, ':')])
  }

  function HeaderValue(line: string): string
    requires ':' in line
  {
    Trim(Java, line[Find(line, ':') + 1..])
  }

  // The body: every line after the blank one, trimmed as a whole. `rest`
  // starts at the blank line; a lone blank line gives no body.
  function BodyOf(rest: seq<string>): string
  {
    if |rest| > 1 then Trim(Java, Unlines(rest[1..], '\n')) else ""
  }

  function Parse(raw: string): Result<Frame, ParseError>
  {
    var lines := JavaSplit(raw, '\n');
    if lines == [] then Err(EmptyFrame)
    else
      var command := Trim(Java, lines[0]);
      if command !in CLIENT_COMMANDS then Err(UnknownCommand(command))
      else
        match HeaderBlock(lines[1..], map[])
        case Err(e) => Err(e)
        case Ok(b) => Ok(Frame(command, b.headers, BodyOf(b.rest)))
  }

  // --------------------------------------------------------------- printing

  function HeaderLines(h: map<string, string>, order: seq<string>): (r: seq<string>)
    requires forall k :: k in order ==> k in h
    ensures |r| == |order|
    ensures forall i :: 0 <= i < |r| ==> r[i] == order[i] + ":" + h[order[i]]
  {
    if order == [] then [] else [order[0] + ":" + h[order[0]]] + HeaderLines(h, order[1..])
  }

  // The printed frame before its final NUL, for one iteration order of the
  // header map.
  ghost function PrintText(f: Frame, order: seq<string>): string
    requires Enumerates(order, f.headers.Keys)
  {
    f.command + NL + Unlines(HeaderLines(f.headers, order), '\n') + NL + f.body
  }

  ghost function Print(f: Frame, order: seq<string>): string
    requires Enumerates(order, f.headers.Keys)
  {
    PrintText(f, order) + [NUL]
  }

  // ------------------------------------------------------------ round trips

  // What a parsed frame looks like, and all that printing needs to be undone.
  predicate WellFormed(f: Frame)
  {
    && f.command in CLIENT_COMMANDS
    && Trimmed(Java, f.body)
    && HeadersWellFormed(f.headers)
  }

  predicate HeadersWellFormed(h: map<string, string>)
  {
    forall k :: k in h ==>
      Trimmed(Java, k) && ':' !in k && '\n' !in k && Trimmed(Java, h[k]) && '\n' !in h[k]
  }

  lemma HeaderPartsWellFormed(line: string)
    requires ':' in line && '\n' !in line
    ensures Trimmed(Java, HeaderKey(line)) && ':' !in HeaderKey(line) && '\n' !in HeaderKey(line)
    ensures Trimmed(Java, HeaderValue(line)) && '\n' !in HeaderValue(line)
  {
    var k := Find(line, ':');
    var _, _ := TrimSplits(Java, line[..k]);
    var _, _ := TrimSplits(Java, line[k + 1..]);
  }

  lemma {:induction false} HeaderBlockWellFormed(ls: seq<string>, acc: map<string, string>)
    requires HeaderBlock(ls, acc).Ok? && HeadersWellFormed(acc)
    requires forall i :: 0 <= i < |ls| ==> '\n' !in ls[i]
    ensures HeadersWellFormed(HeaderBlock(ls, acc).value.headers)
  {
    if ls != [] && ls[0] != "" {
      HeaderPartsWellFormed(ls[0]);
      HeaderBlockWellFormed(ls[1..], acc[HeaderKey(ls[0]) := HeaderValue(ls[0])]);
    }
  }

  // Every accepted text gives a well-formed frame.
  lemma ParseWellFormed(raw: string)
    requires Parse(raw).Ok?
    ensures WellFormed(Parse(raw).value)
  {
    var lines := JavaSplit(raw, '\n');
    assert forall i :: 0 <= i < |lines| ==> lines[i] == Pieces(raw, '\n')[i];
    HeaderBlockWellFormed(lines[1..], map[]);
    var rest := HeaderBlock(lines[1..], map[]).value.rest;
    if |rest| > 1 {
      var _, _ := TrimSplits(Java, Unlines(rest[1..], '\n'));
    }
  }

  // Every client command is a non-empty trimmed word.
  lemma CommandShape(command: string)
    requires command in CLIENT_COMMANDS
    ensures command != "" && '\n' !in command && Trimmed(Java, command)
  {
  }

  lemma LayoutIsJoin(command: string, hl: seq<string>, bl: seq<string>)
    requires bl != []
    ensures Join([command] + hl + ([""] + bl), '\n')
         == command + NL + Unlines(hl, '\n') + NL + Join(bl, '\n')
  {
    var top, bottom := [command] + hl, [""] + bl;
    assert top[0] == command && top[1..] == hl;
    assert bottom[0] == "" && bottom[1..] == bl;
    JoinAppend(top, bottom, '\n');
    UnlinesIsJoin(top, '\n');
    var j, b := Join(top, '\n'), Join(bl, '\n');
    assert j + ['\n'] == command + NL + Unlines(hl, '\n');
    assert Join(bottom, '\n') == ['\n'] + b;
    assert j + ['\n'] + (['\n'] + b) == j + ['\n'] + NL + b;
  }

  // A text in the printed layout, cut into lines: first line, headers, a
  // blank, the body.
  lemma LayoutPieces(command: string, hl: seq<string>, body: string)
    requires '\n' !in command && forall i :: 0 <= i < |hl| ==> '\n' !in hl[i]
    ensures Pieces(command + NL + Unlines(hl, '\n') + NL + body, '\n')
         == [command] + hl + ([""] + Pieces(body, '\n'))
  {
    var bl := Pieces(body, '\n');
    LayoutIsJoin(command, hl, bl);
    PiecesOfJoin([command] + hl + ([""] + bl), '\n');
  }

  // What the printed body adds to the lines: nothing when it is empty,
  // because `split` drops the trailing blanks.
  function BodyLines(body: string): seq<string>
  {
    if body == "" then [] else [""] + Pieces(body, '\n')
  }

  lemma DropLayout(top: seq<string>, body: string)
    requires top != [] && top[|top| - 1] != "" && Trimmed(Java, body)
    ensures DropTrailingEmpty(top + ([""] + Pieces(body, '\n'))) == top + BodyLines(body)
  {
    var bl := Pieces(body, '\n');
    if body == "" {
      assert [""] + bl == ["", ""];
      DropTrailingEmptyKeeps(top, ["", ""]);
    } else {
      LastPieceNonEmpty(body);
      var all := top + ([""] + bl);
      assert all[|all| - 1] == bl[|bl| - 1];
      DropTrailingEmptyKeeps(all, []);
      assert all + [] == all;
    }
  }

  // What `split` leaves of them: without a body the blank line goes as well.
  lemma LayoutLines(command: string, hl: seq<string>, body: string, raw: string)
    requires '\n' !in command && command != "" && Trimmed(Java, body)
    requires forall i :: 0 <= i < |hl| ==> '\n' !in hl[i] && hl[i] != ""
    requires raw == command + NL + Unlines(hl, '\n') + NL + body
    ensures JavaSplit(raw, '\n') == [command] + hl + BodyLines(body)
  {
    var top := [command] + hl;
    assert top[|top| - 1] != "" by {
      assert |hl| > 0 ==> top[|top| - 1] == hl[|hl| - 1];
    }
    LayoutPieces(command, hl, body);
    SplitOfPieces(raw, top, body);
  }

  lemma SplitOfPieces(raw: string, top: seq<string>, body: string)
    requires top != [] && top[|top| - 1] != "" && Trimmed(Java, body)
    requires Pieces(raw, '\n') == top + ([""] + Pieces(body, '\n'))
    ensures JavaSplit(raw, '\n') == top + BodyLines(body)
  {
    DropLayout(top, body);
  }

  lemma LastPieceNonEmpty(body: string)
    requires body != "" && Trimmed(Java, body)
    ensures Pieces(body, '\n')[|Pieces(body, '\n')| - 1] != ""
  {
    var ps := Pieces(body, '\n');
    var n := |ps| - 1;
    if n > 0 {
      JoinAppend(ps[..n], ps[n..], '\n');
      assert ps[..n] + ps[n..] == ps;
    }
  }

  lemma HeaderLineParts(k: string, v: string)
    requires Trimmed(Java, k) && ':' !in k && Trimmed(Java, v)
    ensures ':' in k + ":" + v && HeaderKey(k + ":" + v) == k && HeaderValue(k + ":" + v) == v
  {
    var line := k + ":" + v;
    FindAfter(k, ':', v);
    assert line[|k|] == ':' && line[..|k|] == k && line[|k| + 1..] == v;
  }

  lemma {:induction false} HeaderBlockOfPrinted(h: map<string, string>, order: seq<string>, rest: seq<string>,
                                                acc: map<string, string>)
    requires HeadersWellFormed(h) && forall k :: k in order ==> k in h
    requires rest == [] || rest[0] == ""
    ensures HeaderBlock(HeaderLines(h, order) + rest, acc) == Ok(Block(Overlay(acc, h, order), rest))
  {
    var ls := HeaderLines(h, order) + rest;
    if order == [] {
      assert ls == rest;
    } else {
      var k := order[0];
      assert ls[0] == k + ":" + h[k] && ls[1..] == HeaderLines(h, order[1..]) + rest;
      HeaderLineParts(k, h[k]);
      HeaderBlockOfPrinted(h, order[1..], rest, acc[k := h[k]]);
    }
  }

  // `acc` with the entries of `h` for the keys of `order` put on top.
  function Overlay(acc: map<string, string>, h: map<string, string>, order: seq<string>): (r: map<string, string>)
    requires forall k :: k in order ==> k in h
    ensures forall k :: k in r <==> k in acc || k in order
    ensures forall k :: k in r ==> r[k] == if k in order then h[k] else acc[k]
    decreases |order|
  {
    if order == [] then acc else Overlay(acc[order[0] := h[order[0]]], h, order[1..])
  }

  lemma HeaderLinesShape(h: map<string, string>, order: seq<string>)
    requires HeadersWellFormed(h) && forall k :: k in order ==> k in h
    ensures forall i :: 0 <= i < |order| ==>
      '\n' !in HeaderLines(h, order)[i] && HeaderLines(h, order)[i] != ""
  {
  }

  lemma BodyOfPrinted(body: string)
    requires Trimmed(Java, body)
    ensures BodyOf(BodyLines(body)) == body
  {
    if body != "" {
      var rest := [""] + Pieces(body, '\n');
      assert rest[1..] == Pieces(body, '\n');
      UnlinesIsJoin(rest[1..], '\n');
      TrimUnique(Java, "", body, NL);
      assert "" + body + NL == body + NL;
    }
  }

  // The lines of a printed header map, read back.
  lemma HeadersOfPrinted(h: map<string, string>, order: seq<string>, rest: seq<string>)
    requires HeadersWellFormed(h) && forall k :: k in order <==> k in h
    requires rest == [] || rest[0] == ""
    ensures HeaderBlock(HeaderLines(h, order) + rest, map[]) == Ok(Block(h, rest))
  {
    var none: map<string, string> := map[];
    assert Overlay(none, h, order) == h;
    HeaderBlockOfPrinted(h, order, rest, none);
  }

  lemma PrintedLines(f: Frame, order: seq<string>)
    requires WellFormed(f) && Enumerates(order, f.headers.Keys)
    ensures JavaSplit(PrintText(f, order), '\n')
         == [f.command] + HeaderLines(f.headers, order) + BodyLines(f.body)
  {
    var hl := HeaderLines(f.headers, order);
    CommandShape(f.command);
    HeaderLinesShape(f.headers, order);
    LayoutLines(f.command, hl, f.body, PrintText(f, order));
  }

  // Printing and parsing are inverse on well-formed frames, whatever order
  // the header map is iterated in.
  lemma ParsePrinted(f: Frame, order: seq<string>)
    requires WellFormed(f) && Enumerates(order, f.headers.Keys)
    ensures Parse(PrintText(f, order)) == Ok(f)
  {
    PrintedLines(f, order);
    HeadersOfPrinted(f.headers, order, BodyLines(f.body));
    ParseOfLines(PrintText(f, order), f.command, HeaderLines(f.headers, order), BodyLines(f.body));
    BodyOfPrinted(f.body);
  }

  lemma ParseOfLines(raw: string, command: string, hl: seq<string>, rest: seq<string>)
    requires command in CLIENT_COMMANDS && JavaSplit(raw, '\n') == [command] + hl + rest
    requires HeaderBlock(hl + rest, map[]).Ok?
    ensures var b := HeaderBlock(hl + rest, map[]).value;
      Parse(raw) == Ok(Frame(command, b.headers, BodyOf(b.rest)))
  {
    CommandShape(command);
    TrimOfTrimmed(Java, command);
    var lines := JavaSplit(raw, '\n');
    assert lines[0] == command && lines[1..] == hl + rest;
  }

  // Parsing is canonicalising: reprinting what was accepted, in any header
  // order, and parsing again changes nothing.
  lemma ParseCanonical(raw: string, order: seq<string>)
    requires Parse(raw).Ok? && Enumerates(order, Parse(raw).value.headers.Keys)
    ensures Parse(PrintText(Parse(raw).value, order)) == Parse(raw)
  {
    ParseWellFormed(raw);
    ParsePrinted(Parse(raw).value, order);
  }

  // Exactly the well-formed frames survive: any frame that printing and
  // parsing gives back was well-formed.
  lemma RoundTripIffWellFormed(f: Frame, order: seq<string>)
    requires Enumerates(order, f.headers.Keys)
    ensures Parse(PrintText(f, order)) == Ok(f) <==> WellFormed(f)
  {
    if WellFormed(f) {
      ParsePrinted(f, order);
    } else if Parse(PrintText(f, order)) == Ok(f) {
      ParseWellFormed(PrintText(f, order));
    }
  }

  // The last of the first `n` lines that carries key `k`.
  predicate LastWith(ls: seq<string>, n: nat, k: string, i: int)
    requires n <= |ls| && forall j :: 0 <= j < n ==> ':' in ls[j]
  {
    0 <= i < n && HeaderKey(ls[i]) == k && forall j :: i < j < n ==> HeaderKey(ls[j]) != k
  }

  // Repeated headers: a key is present exactly when some header line carries
  // it, and it has the value of the last such line.
  lemma {:induction false} LastHeaderWins(ls: seq<string>, acc: map<string, string>, k: string) returns (n: nat)
    requires HeaderBlock(ls, acc).Ok?
    ensures n <= |ls| && HeaderBlock(ls, acc).value.rest == ls[n..]
    ensures (n == |ls| || ls[n] == "") && forall i :: 0 <= i < n ==> ':' in ls[i]
    ensures forall i :: LastWith(ls, n, k, i) ==> HasEntry(HeaderBlock(ls, acc).value.headers, k, HeaderValue(ls[i]))
    ensures (forall i :: 0 <= i < n ==> HeaderKey(ls[i]) != k) ==> SameEntry(HeaderBlock(ls, acc).value.headers, acc, k)
  {
    if ls == [] || ls[0] == "" {
      n := 0;
    } else {
      var acc' := acc[HeaderKey(ls[0]) := HeaderValue(ls[0])];
      var m := LastHeaderWins(ls[1..], acc', k);
      n := m + 1;
      LastWithTail(ls, m + 1, k);
      assert ls[1..][m..] == ls[n..];
      forall i | LastWith(ls, n, k, i) ensures HasEntry(HeaderBlock(ls, acc).value.headers, k, HeaderValue(ls[i])) {
        if i > 0 {
          assert LastWith(ls[1..], m, k, i - 1) && ls[1..][i - 1] == ls[i];
        }
      }
    }
  }

  predicate HasEntry(h: map<string, string>, k: string, v: string)
  {
    k in h && h[k] == v
  }

  predicate SameEntry(h: map<string, string>, g: map<string, string>, k: string)
  {
    (k in h <==> k in g) && (k in h ==> h[k] == g[k])
  }

  lemma LastWithTail(ls: seq<string>, n: nat, k: string)
    requires 0 < n <= |ls| && forall j :: 0 <= j < n ==> ':' in ls[j]
    ensures forall j :: 0 <= j < n - 1 ==> ':' in ls[1..][j] && HeaderKey(ls[1..][j]) == HeaderKey(ls[j + 1])
    ensures forall i :: i > 0 && LastWith(ls, n, k, i) ==> LastWith(ls[1..], n - 1, k, i - 1)
    ensures LastWith(ls, n, k, 0) ==> forall j :: 0 <= j < n - 1 ==> HeaderKey(ls[1..][j]) != k
  {
    var tail := ls[1..];
    assert forall j :: 0 <= j < n - 1 ==> tail[j] == ls[j + 1];
  }
}
