// A report's way from one client to the others: printed as a SEND, parsed by
// the server, printed again as a MESSAGE, and read back.
module Pipeline {
  import opened Text
  import opened Codec
  import opened Events

  // ------------------------------------------------- the server's reading

  // Dropping trailing empty lines loses nothing but newlines.
  lemma {:induction false} UnlinesOfDropped(ps: seq<string>) returns (post: string)
    ensures Unlines(ps, '\n') == Unlines(DropTrailingEmpty(ps), '\n') + post && AllBlank(Java, post)
  {
    if ps != [] && ps[|ps| - 1] == "" {
      var front := ps[..|ps| - 1];
      var more := UnlinesOfDropped(front);
      UnlinesAppend(front, [""], '\n');
      assert front + [""] == ps;
      post := more + Unlines([""], '\n');
      var kept := Unlines(DropTrailingEmpty(front), '\n');
      assert kept + more + Unlines([""], '\n') == kept + post;
      assert Unlines([""], '\n') == "\n" by { assert [""][1..] == []; }
    } else {
      post := "";
      assert Unlines(ps, '\n') + "" == Unlines(ps, '\n');
    }
  }

  lemma {:induction false} DropKeepsTop(top: seq<string>, ps: seq<string>)
    requires exists i :: 0 <= i < |ps| && ps[i] != ""
    ensures DropTrailingEmpty(top + ps) == top + DropTrailingEmpty(ps)
    ensures |DropTrailingEmpty(ps)| > 0
    decreases |ps|
  {
    var all := top + ps;
    assert all[|all| - 1] == ps[|ps| - 1];
    if ps[|ps| - 1] == "" {
      var front := ps[..|ps| - 1];
      assert all[..|all| - 1] == top + front;
      var i :| 0 <= i < |ps| && ps[i] != "";
      assert front[i] == ps[i];
      DropKeepsTop(top, front);
    }
  }

  // The body of a text in frame layout is its part after the blank line,
  // trimmed, when that part does not start with an empty line.
  lemma BodyOfLayout(body: string)
    requires body != "" && body[0] != '\n'
    ensures BodyOf([""] + DropTrailingEmpty(Pieces(body, '\n'))) == Trim(Java, body)
  {
    var ps := Pieces(body, '\n');
    var post := UnlinesOfDropped(ps);
    FirstPiece(body);
    DropKeepsTop([], ps);
    UnlinesIsJoin(ps, '\n');
    SameTrim(body, Unlines(DropTrailingEmpty(ps), '\n'), post);
    assert ([""] + DropTrailingEmpty(ps))[1..] == DropTrailingEmpty(ps);
  }

  lemma SameTrim(body: string, kept: string, post: string)
    requires body + NL == kept + post && AllBlank(Java, post)
    ensures Trim(Java, body) == Trim(Java, kept)
  {
    TrimPadded(Java, "", body, NL);
    TrimPadded(Java, "", kept, post);
    assert "" + body + NL == body + NL && "" + kept + post == kept + post;
  }

  lemma FirstPiece(body: string)
    requires body != "" && body[0] != '\n'
    ensures exists i :: 0 <= i < |Pieces(body, '\n')| && Pieces(body, '\n')[i] != ""
  {
    assert Pieces(body, '\n')[0] != "";
  }

  lemma ParseLayout(raw: string, command: string, line: string, body: string)
    requires command in CLIENT_COMMANDS && ':' in line && '\n' !in line
    requires body != "" && body[0] != '\n'
    requires raw == command + NL + Unlines([line], '\n') + NL + body
    ensures Parse(raw) == Ok(Frame(command, map[HeaderKey(line) := HeaderValue(line)], Trim(Java, body)))
  {
    CommandShape(command);
    LayoutPieces(command, [line], body);
    BodyOfLayout(body);
    var ps := Pieces(body, '\n');
    var top, rest := [command] + [line] + [""], [""] + DropTrailingEmpty(ps);
    assert Pieces(raw, '\n') == top + ps;
    FirstPiece(body);
    DropKeepsTop(top, ps);
    assert JavaSplit(raw, '\n') == top + DropTrailingEmpty(ps) == [command] + [line] + rest;
    HeaderOfLine(line, rest);
    ParseOfLines(raw, command, [line], rest);
  }

  lemma HeaderOfLine(line: string, rest: seq<string>)
    requires ':' in line && rest != [] && rest[0] == ""
    ensures HeaderBlock([line] + rest, map[]) == Ok(Block(map[HeaderKey(line) := HeaderValue(line)], rest))
  {
    assert line != "" && ([line] + rest)[0] == line && ([line] + rest)[1..] == rest;
    var none: map<string, string> := map[];
    assert none[HeaderKey(line) := HeaderValue(line)] == map[HeaderKey(line) := HeaderValue(line)];
  }

  // ---------------------------------------------------------- the body text

  // The lines a report's body starts with.
  function ReportLines(user: string, e: Event, order: seq<string>): seq<string>
    requires forall k :: k in order ==> k in e.info
  {
    ["user: " + user] + TopLines(e, order)
  }

  // How it ends, once its trailing blanks are gone.
  function Ending(description: string): string
  {
    var d := TrimRight(Java, description);
    if d == "" then "description:" else "description: \n" + d
  }

  // The body that the server takes from the report.
  ghost function BodyText(user: string, e: Event, order: seq<string>): string
    requires Enumerates(order, e.info.Keys)
  {
    Unlines(ReportLines(user, e, order), '\n') + Ending(e.description)
  }

  lemma TrimEnding(top: string, description: string)
    requires top != "" && !Blank(Java, top[0])
    ensures Trim(Java, top + ("description: \n" + description + NL + NL)) == top + Ending(description)
  {
    var post := EndingPadded(description);
    EndingShape(description);
    var whole := "description: \n" + description + NL + NL;
    assert top + whole == "" + (top + Ending(description)) + post;
    TrimUnique(Java, "", top + Ending(description), post);
  }

  lemma EndingPadded(description: string) returns (post: string)
    ensures AllBlank(Java, post) && "description: \n" + description + NL + NL == Ending(description) + post
  {
    var k := TrimRightSplits(Java, description);
    var d, tail := description[..k], description[k..];
    var head := "description: \n";
    assert description == d + tail;
    if k == 0 {
      post := " \n" + (tail + NL + NL);
      assert head == "description:" + " \n" && d + tail == tail;
      Regroup("description:", " \n", tail + NL + NL);
      FiveParts(head, "", tail);
    } else {
      post := tail + NL + NL;
      FiveParts(head, d, tail);
    }
  }

  lemma FiveParts(head: string, d: string, tail: string)
    ensures head + (d + tail) + NL + NL == head + d + (tail + NL + NL)
    ensures d == "" ==> head + (d + tail) + NL + NL == head + (tail + NL + NL)
  {
  }

  lemma EndingShape(description: string)
    ensures Ending(description) != "" && !Blank(Java, Ending(description)[|Ending(description)| - 1])
  {
    var _ := TrimRightSplits(Java, description);
  }

  // The server reads the report as a SEND with the trimmed text as its body.
  lemma SendParses(channel: string, user: string, e: Event, order: seq<string>)
    requires Sendable(channel, user, e) && Enumerates(order, e.info.Keys)
    ensures Parse(SendText(channel, user, e, order))
         == Ok(Frame("SEND", map["destination" := Trim(Java, "/" + channel)], BodyText(user, e, order)))
  {
    var line := "destination:/" + channel;
    var top := Unlines(ReportLines(user, e, order), '\n');
    SendLayout(channel, user, e, order, line, top);
    assert top[0] == 'u';
    TrimEnding(top, e.description);
    DestinationLine(channel, line);
    ParseLayout(SendText(channel, user, e, order), "SEND", line, top + ("description: \n" + e.description + NL + NL));
  }

  lemma SendLayout(channel: string, user: string, e: Event, order: seq<string>, line: string, top: string)
    requires Enumerates(order, e.info.Keys) && e.owner == ""
    requires line == "destination:/" + channel && top == Unlines(ReportLines(user, e, order), '\n')
    ensures SendText(channel, user, e, order)
         == "SEND" + NL + Unlines([line], '\n') + NL + (top + ("description: \n" + e.description + NL + NL))
  {
    assert [line][1..] == [];
    var rest := TopLines(e, order);
    assert (["user: " + user] + rest)[0] == "user: " + user && (["user: " + user] + rest)[1..] == rest;
    assert top == ("user: " + user + NL) + Unlines(rest, '\n');
    assert "\nuser: " + user + NL == NL + ("user: " + user + NL);
  }

  lemma DestinationLine(channel: string, line: string)
    requires '\n' !in channel && line == "destination:/" + channel
    ensures ':' in line && '\n' !in line
    ensures HeaderKey(line) == "destination" && HeaderValue(line) == Trim(Java, "/" + channel)
  {
    FindAfter("destination", ':', "/" + channel);
    assert line == "destination" + [':'] + ("/" + channel);
    assert line[..11] == "destination" && line[12..] == "/" + channel;
  }

  // -------------------------------------------------- the receiver's reading

  lemma ScanReport(user: string, e: Event, order: seq<string>, line: string, ls: seq<string>)
    requires Sendable("", user, e) && Enumerates(order, e.info.Keys)
    requires line == "description:" || line == "description: "
    ensures ScanLines(ReportLines(user, e, order) + ([line] + ls), BLANK_EVENT, false)
      == Ok(Event("", Carried(e.city), Carried(e.name), e.dateTime, Unlines(ls, '\n'),
                  CarriedInfo(e.info)["escription" := if line == "description:" then "" else " "], Carried(user)))
  {
    var top := Event("", Carried(e.city), Carried(e.name), e.dateTime, "", map[], Carried(user));
    var rest := InfoLines(e.info, order) + ([line] + ls);
    ReportSplit(user, e, order, [line] + ls);
    ScanFields(user, e, rest);
    ScanInfo(e.info, order, [line] + ls, top);
    EntriesAreCarried(e.info, order);
    ScanDescription(line, ls, top.(info := CarriedInfo(e.info)));
  }

  lemma ReportSplit(user: string, e: Event, order: seq<string>, tail: seq<string>)
    requires forall k :: k in order ==> k in e.info
    ensures ReportLines(user, e, order) + tail == Fields(user, e) + (InfoLines(e.info, order) + tail)
  {
    var f, entries := Fields(user, e), InfoLines(e.info, order);
    assert ReportLines(user, e, order) == f + entries;
    Regroup(f, entries, tail);
  }

  function Fields(user: string, e: Event): seq<string>
  {
    ["user: " + user, "city: " + e.city, "event name: " + e.name, "date time: " + Decimal(e.dateTime),
     "general information:"]
  }

  lemma ScanFields(user: string, e: Event, rest: seq<string>)
    requires MIN_INT <= e.dateTime <= MAX_INT
    ensures ScanLines(Fields(user, e) + rest, BLANK_EVENT, false)
      == ScanLines(rest, Event("", Carried(e.city), Carried(e.name), e.dateTime, "", map[], Carried(user)), true)
  {
    var l := Fields(user, e);
    var e1 := BLANK_EVENT.(owner := Carried(user));
    var e2 := e1.(city := Carried(e.city));
    var e3 := e2.(name := Carried(e.name));
    var l4 := [l[4]] + rest;
    var l3 := [l[3]] + l4;
    var l2 := [l[2]] + l3;
    var l1 := [l[1]] + l2;
    assert l + rest == [l[0]] + l1;
    ScanOwner(l[0], user, l1, BLANK_EVENT);
    ScanCity(l[1], e.city, l2, e1);
    ScanName(l[2], e.name, l3, e2);
    ScanDate(l[3], e.dateTime, l4, e3);
    ScanInfoHeading(l[4], rest, e3.(dateTime := e.dateTime));
  }

  lemma EntriesAreCarried(info: map<string, string>, order: seq<string>)
    requires Enumerates(order, info.Keys)
    ensures Entries(map[], info, order) == CarriedInfo(info)
  {
    var none: map<string, string> := map[];
    forall s ensures SameEntry(Entries(none, info, order), CarriedInfo(info), s) {
      EntryIsCarried(none, info, order, s);
    }
    SameMap(Entries(none, info, order), CarriedInfo(info));
  }

  lemma SameMap(h: map<string, string>, g: map<string, string>)
    requires forall k :: SameEntry(h, g, k)
    ensures h == g
  {
    forall k ensures (k in h <==> k in g) && (k in h ==> h[k] == g[k]) {
      assert SameEntry(h, g, k);
    }
  }

  lemma EntryIsCarried(none: map<string, string>, info: map<string, string>, order: seq<string>, s: string)
    requires none == map[] && forall k :: k in order <==> k in info
    ensures SameEntry(Entries(none, info, order), CarriedInfo(info), s)
  {
    if s != "" && s[0] == ' ' {
      assert s == " " + s[1..];
    }
  }

  // The lines of a MESSAGE with the report as its body.
  lemma MessageLines(m: Frame, order: seq<string>, user: string, e: Event, infoOrder: seq<string>)
    returns (line: string, ls: seq<string>)
    requires Enumerates(order, m.headers.Keys) && Enumerates(infoOrder, e.info.Keys)
    requires Sendable("", user, e) && m.body == BodyText(user, e, infoOrder)
    requires '\n' !in m.command && forall k :: k in m.headers ==> '\n' !in k && '\n' !in m.headers[k]
    ensures GetLines(PrintText(m, order), '\n')
         == [m.command] + HeaderLines(m.headers, order) + [""] + (ReportLines(user, e, infoOrder) + ([line] + ls))
    ensures (line == "description:" <==> TrimRight(Java, e.description) == "")
    ensures line == "description:" || line == "description: "
    ensures Unlines(ls, '\n') == CarriedDescription(e.description)
  {
    var top := ReportLines(user, e, infoOrder);
    line, ls := EndingPieces(e.description);
    ReportLinesShape(user, e, infoOrder);
    PiecesAfterUnlines(top, Ending(e.description));
    LayoutPieces(m.command, HeaderLines(m.headers, order), m.body);
    JoinBlank([m.command] + HeaderLines(m.headers, order), top + ([line] + ls));
    LastLine([m.command] + HeaderLines(m.headers, order) + [""], top, [line] + ls);
  }

  lemma JoinBlank(head: seq<string>, body: seq<string>)
    ensures head + ([""] + body) == head + [""] + body
  {
  }

  lemma LastLine(head: seq<string>, top: seq<string>, tail: seq<string>)
    requires tail != [] && tail[|tail| - 1] != ""
    ensures DropLastEmpty(head + (top + tail)) == head + (top + tail)
  {
  }

  lemma ReportLinesShape(user: string, e: Event, order: seq<string>)
    requires Sendable("", user, e) && forall k :: k in order ==> k in e.info
    ensures forall i :: 0 <= i < |ReportLines(user, e, order)| ==> '\n' !in ReportLines(user, e, order)[i]
  {
    DecimalHasNo(e.dateTime, '\n');
  }

  lemma PiecesAfterUnlines(top: seq<string>, s: string)
    requires forall i :: 0 <= i < |top| ==> '\n' !in top[i]
    ensures Pieces(Unlines(top, '\n') + s, '\n') == top + Pieces(s, '\n')
  {
    JoinAfterUnlines(top, Pieces(s, '\n'));
    PiecesOfJoin(top + Pieces(s, '\n'), '\n');
  }

  lemma {:induction false} JoinAfterUnlines(top: seq<string>, ps: seq<string>)
    requires ps != []
    ensures Join(top + ps, '\n') == Unlines(top, '\n') + Join(ps, '\n')
  {
    if top == [] {
      assert top + ps == ps;
    } else {
      JoinAfterUnlines(top[1..], ps);
      assert (top + ps)[0] == top[0] && (top + ps)[1..] == top[1..] + ps;
    }
  }

  lemma EndingPieces(description: string) returns (line: string, ls: seq<string>)
    ensures Pieces(Ending(description), '\n') == [line] + ls && ([line] + ls)[|ls|] != ""
    ensures (line == "description:" <==> TrimRight(Java, description) == "")
    ensures line == "description:" || line == "description: "
    ensures Unlines(ls, '\n') == CarriedDescription(description)
  {
    var d := TrimRight(Java, description);
    if d == "" {
      line, ls := "description:", [];
      PiecesOfPiece(line, '\n');
    } else {
      line, ls := "description: ", Pieces(d, '\n');
      assert "description: \n" + d == line + ['\n'] + d;
      PiecesAfterPiece(line, d, '\n');
      UnlinesIsJoin(ls, '\n');
      var _ := TrimRightSplits(Java, description);
      LastOfPieces(d);
    }
  }

  lemma LastOfPieces(d: string)
    requires d != "" && d[|d| - 1] != '\n'
    ensures Pieces(d, '\n')[|Pieces(d, '\n')| - 1] != ""
  {
    var ps := Pieces(d, '\n');
    var n := |ps| - 1;
    if n > 0 {
      JoinAppend(ps[..n], ps[n..], '\n');
      assert ps[..n] + ps[n..] == ps;
    }
  }

  // Reading any frame that carries the report gives the received event,
  // whatever its command and headers, unless a header has the name of a field.
  lemma MessageReads(m: Frame, order: seq<string>, user: string, e: Event, infoOrder: seq<string>)
    requires Enumerates(order, m.headers.Keys) && Enumerates(infoOrder, e.info.Keys)
    requires Sendable("", user, e) && m.body == BodyText(user, e, infoOrder)
    requires '\n' !in m.command && ':' !in m.command
    requires forall k :: k in m.headers ==> '\n' !in k && ':' !in k && '\n' !in m.headers[k] && !KnownKey(k)
    ensures ReadEvent(PrintText(m, order)) == Ok(Received(user, e))
  {
    var line, ls := MessageLines(m, order, user, e, infoOrder);
    var hl := HeaderLines(m.headers, order);
    var head := [m.command] + hl + [""];
    forall i | 0 <= i < |head| ensures Ignored(head[i]) {
      if 0 < i <= |hl| {
        var k := order[i - 1];
        assert head[i] == hl[i - 1] == k + [':'] + m.headers[k];
        LineParts(k, m.headers[k]);
      }
    }
    SkipIgnored(head, ReportLines(user, e, infoOrder) + ([line] + ls), BLANK_EVENT);
    ScanReport(user, e, infoOrder, line, ls);
  }

  // ------------------------------------------------------- what is the same

  // Every field with one blank in front.
  predicate Whole(user: string, e: Event, r: Event)
  {
    && r.owner == " " + user && r.city == " " + e.city && r.name == " " + e.name
    && forall k :: k in e.info ==> EntryWhole(e, r, k)
  }

  predicate EntryWhole(e: Event, r: Event, k: string)
    requires k in e.info
  {
    " " + k in r.info && r.info[" " + k] == " " + e.info[k]
  }

  lemma EntryCarried(user: string, e: Event, k: string)
    requires k in e.info
    ensures " " + k in Received(user, e).info && Received(user, e).info[" " + k] == Carried(e.info[k])
    ensures EntryWhole(e, Received(user, e), k) <==> ':' !in e.info[k]
  {
    NotDescription(k);
    CarriedIff(e.info[k]);
  }

  predicate ColonFree(user: string, e: Event)
  {
    ':' !in user && ':' !in e.city && ':' !in e.name && forall k :: k in e.info ==> ':' !in e.info[k]
  }

  // Exactly the reports without a colon in a value arrive whole.
  lemma WholeIffColonFree(user: string, e: Event)
    ensures Whole(user, e, Received(user, e)) <==> ColonFree(user, e)
  {
    CarriedIff(user);
    CarriedIff(e.city);
    CarriedIff(e.name);
    forall k | k in e.info ensures EntryWhole(e, Received(user, e), k) <==> ':' !in e.info[k] {
      EntryCarried(user, e, k);
    }
  }

  lemma NotDescription(k: string)
    ensures " " + k != "escription"
  {
    assert (" " + k)[0] == ' ';
  }

  // The event is the same up to trim, except for the one entry that the
  // description line adds.
  lemma MeaningSurvives(l: Language, user: string, e: Event)
    requires ColonFree(user, e)
    ensures var r := Received(user, e);
      && r.dateTime == e.dateTime
      && Trim(l, r.owner) == Trim(l, user) && Trim(l, r.city) == Trim(l, e.city) && Trim(l, r.name) == Trim(l, e.name)
      && Trim(Java, r.description) == Trim(Java, e.description)
      && r.info.Keys == (set k | k in e.info :: " " + k) + {"escription"}
      && forall k :: k in e.info ==> Trim(l, " " + k) == Trim(l, k) && Trim(l, r.info[" " + k]) == Trim(l, e.info[k])
  {
    WholeIffColonFree(user, e);
    TrimAfterBlank(l, user);
    TrimAfterBlank(l, e.city);
    TrimAfterBlank(l, e.name);
    forall k | k in e.info
      ensures Trim(l, " " + k) == Trim(l, k) && Trim(l, " " + e.info[k]) == Trim(l, e.info[k])
    {
      assert EntryWhole(e, Received(user, e), k);
      TrimAfterBlank(l, k);
      TrimAfterBlank(l, e.info[k]);
    }
    DescriptionUpToTrim(e.description);
    KeysReceived(user, e);
  }

  lemma TrimAfterBlank(l: Language, s: string)
    ensures Trim(l, " " + s) == Trim(l, s)
  {
    TrimPadded(l, " ", s, "");
    assert " " + s + "" == " " + s;
  }

  lemma DescriptionUpToTrim(description: string)
    ensures Trim(Java, CarriedDescription(description)) == Trim(Java, description)
  {
    var k := TrimRightSplits(Java, description);
    var d := TrimRight(Java, description);
    assert description == "" + d + description[k..];
    TrimPadded(Java, "", d, description[k..]);
    TrimPadded(Java, "", d, NL);
    assert "" + d + NL == d + NL;
  }

  lemma KeysReceived(user: string, e: Event)
    ensures Received(user, e).info.Keys == (set k | k in e.info :: " " + k) + {"escription"}
  {
    var r := CarriedInfo(e.info);
    forall s ensures s in r.Keys <==> s in (set k | k in e.info :: " " + k) {
      if s in r {
        assert s == " " + s[1..];
      }
    }
    assert r.Keys == (set k | k in e.info :: " " + k);
  }
}
