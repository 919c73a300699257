// The client's event object, its line splitting and the summary loop, as the
// mutable code they are, proved against the event functions.
module Client {
  import opened Text
  import opened Codec
  import E = Events
  import S = Summary

  lemma NextLine(s: string, sep: char)
    ensures GetLines(s, sep) == if s == "" then []
      else var k := Find(s, sep);
        if k == |s| then [s] else [s[..k]] + GetLines(s[k + 1..], sep)
  {
    var k := Find(s, sep);
    if k == |s| {
      assert s[..k] == s;
      GetLinesOne(s, sep);
    } else {
      assert s == s[..k] + [sep] + s[k + 1..];
      GetLinesAfter(s[..k], s[k + 1..], sep);
    }
  }

  lemma NextLineAt(text: string, position: nat, sep: char)
    requires position < |text|
    ensures var k := position + Find(text[position..], sep);
      if k == |text| then GetLines(text[position..], sep) == [text[position..k]]
      else GetLines(text[position..], sep) == [text[position..k]] + GetLines(text[k + 1..], sep)
  {
    NextLine(text[position..], sep);
    SliceAt(text, position, Find(text[position..], sep));
  }

  lemma SliceAt(text: string, position: nat, k: nat)
    requires position + k <= |text|
    ensures text[position..][..k] == text[position..position + k]
    ensures k == |text[position..]| ==> text[position..][..k] == text[position..]
    ensures position + k < |text| ==> text[position..][k + 1..] == text[position + k + 1..]
  {
  }

  // std::istringstream, as far as std::getline reads it.
  class InputStream {
    const text: string
    var position: nat

    ghost predicate Valid()
      reads this
    {
      position <= |text|
    }

    // The lines that are still to come.
    ghost function Ahead(delimiter: char): seq<string>
      reads this
      requires Valid()
    {
      GetLines(text[position..], delimiter)
    }

    constructor (text: string)
      ensures Valid() && this.text == text && forall d :: Ahead(d) == GetLines(text, d)
    {
      this.text := text;
      position := 0;
      new;
      assert text[0..] == text;
    }

    method GetLine(delimiter: char) returns (line: Option<string>)
      requires Valid()
      modifies this
      ensures Valid() && position >= old(position)
      ensures match line
        case Some(l) => old(Ahead(delimiter)) == [l] + Ahead(delimiter) && position > old(position)
        case None => old(Ahead(delimiter)) == [] == Ahead(delimiter)
    {
      NextLine("", delimiter);
      if position == |text| {
        return None;
      }
      NextLineAt(text, position, delimiter);
      var end := position + Find(text[position..], delimiter);
      line := Some(text[position..end]);
      position := if end < |text| then end + 1 else end;
    }
  }

  method SplitStr(str: string, delimiter: char) returns (out: seq<string>)
    ensures out == GetLines(str, delimiter)
  {
    var stream := new InputStream(str);
    out := [];
    var token := stream.GetLine(delimiter);
    while token.Some?
      invariant stream.Valid()
      invariant GetLines(str, delimiter) == out + Coming(token, stream.Ahead(delimiter))
      decreases |stream.text| - stream.position, token.Some?
    {
      Regroup(out, [token.value], stream.Ahead(delimiter));
      out := out + [token.value];
      token := stream.GetLine(delimiter);
    }
  }

  // The line just read and those after it.
  function Coming(line: Option<string>, ahead: seq<string>): seq<string>
  {
    if line.Some? then [line.value] + ahead else []
  }

  class Event {
    var channelName: string
    var city: string
    var name: string
    var dateTime: int
    var description: string
    var generalInformation: map<string, string>
    var eventOwnerUser: string

    function Value(): E.Event
      reads this
    {
      E.Event(channelName, city, name, dateTime, description, generalInformation, eventOwnerUser)
    }

    constructor (channelName: string, city: string, name: string, dateTime: int, description: string,
                 generalInformation: map<string, string>)
      ensures Value() == E.Event(channelName, city, name, dateTime, description, generalInformation, "")
    {
      this.channelName, this.city, this.name, this.dateTime := channelName, city, name, dateTime;
      this.description, this.generalInformation, eventOwnerUser := description, generalInformation, "";
    }

    method SetEventOwnerUser(user: string)
      modifies this`eventOwnerUser
      ensures Value() == old(Value()).(owner := user)
    {
      eventOwnerUser := user;
    }

    method ToText() returns (body: string, ghost order: seq<string>)
      ensures Enumerates(order, generalInformation.Keys) && body == E.EventText(Value(), order)
    {
      body := "city: " + city + NL;
      body := body + ("event name: " + name + NL);
      body := body + ("date time: " + Decimal(dateTime) + NL);
      body := body + "general information:\n";
      ghost var top := body;
      var entries;
      entries, order := EntriesText();
      TopLinesText(Value(), order, top);
      body := body + entries;
      body := body + ("description: \n" + description + NL);
      if eventOwnerUser != "" {
        body := body + ("Event Owner: " + eventOwnerUser + NL);
      }
    }

    // The loop over the general information.
    method EntriesText() returns (text: string, ghost order: seq<string>)
      ensures Enumerates(order, generalInformation.Keys)
      ensures text == Unlines(E.InfoLines(generalInformation, order), '\n')
    {
      text, order := "", [];
      var todo := generalInformation.Keys;
      while todo != {}
        invariant todo <= generalInformation.Keys && Enumerates(order, generalInformation.Keys - todo)
        invariant text == Unlines(E.InfoLines(generalInformation, order), '\n')
        decreases todo
      {
        var key :| key in todo;
        InfoLinesSnoc(generalInformation, order, key);
        text := text + ("  " + key + ": " + generalInformation[key] + NL);
        order := order + [key];
        todo := todo - {key};
      }
    }
  }

  lemma InfoLinesSnoc(info: map<string, string>, order: seq<string>, key: string)
    requires forall k :: k in order + [key] ==> k in info
    ensures forall k :: k in order ==> k in info
    ensures Unlines(E.InfoLines(info, order + [key]), '\n')
         == Unlines(E.InfoLines(info, order), '\n') + ("  " + key + ": " + info[key] + NL)
  {
    var line := "  " + key + ": " + info[key];
    assert E.InfoLines(info, order + [key]) == E.InfoLines(info, order) + [line];
    UnlinesSnoc(E.InfoLines(info, order), line);
  }

  lemma TopLinesText(e: E.Event, order: seq<string>, top: string)
    requires forall k :: k in order ==> k in e.info
    requires top == "city: " + e.city + NL + ("event name: " + e.name + NL) + ("date time: " + Decimal(e.dateTime) + NL)
      + "general information:\n"
    ensures Unlines(E.TopLines(e, order), '\n') == top + Unlines(E.InfoLines(e.info, order), '\n')
  {
    var head := ["city: " + e.city, "event name: " + e.name, "date time: " + Decimal(e.dateTime), "general information:"];
    UnlinesAppend(head, E.InfoLines(e.info, order), '\n');
    FourLines(head[0], head[1], head[2], head[3]);
  }

  lemma FourLines(a: string, b: string, c: string, d: string)
    ensures Unlines([a, b, c, d], '\n') == a + NL + (b + NL) + (c + NL) + (d + NL)
  {
    UnlinesSnoc([], a);
    UnlinesSnoc([a], b);
    UnlinesSnoc([a, b], c);
    UnlinesSnoc([a, b, c], d);
    assert [] + [a] == [a] && [a] + [b] == [a, b] && [a, b] + [c] == [a, b, c] && [a, b, c] + [d] == [a, b, c, d];
    assert "" + (a + NL) == a + NL;
  }

  lemma UnlinesSnoc(ls: seq<string>, line: string)
    ensures Unlines(ls + [line], '\n') == Unlines(ls, '\n') + (line + NL)
  {
    UnlinesAppend(ls, [line], '\n');
    assert [line][1..] == [];
  }

  // The parsing constructor; an exception leaves no object behind.
  method EventFromFrame(frameBody: string) returns (r: Result<Event, E.EventError>)
    ensures E.ReadEvent(frameBody) == (match r case Ok(e) => Ok(e.Value()) case Err(x) => Err(x))
    ensures r.Ok? ==> fresh(r.value)
  {
    var e := new Event("", "", "", 0, "", map[]);
    var ss := new InputStream(frameBody);
    var info: map<string, string> := map[];
    var inGeneralInformation := false;
    var line := ss.GetLine('\n');
    ghost var goal := E.ReadEvent(frameBody);
    while line.Some?
      invariant ss.Valid()
      invariant goal == E.ScanLines(Coming(line, ss.Ahead('\n')), e.Value().(info := info), inGeneralInformation)
      decreases |ss.text| - ss.position, line.Some?
    {
      var error;
      error, info, inGeneralInformation := ReadOne(e, ss, line.value, info, inGeneralInformation);
      if error.Some? {
        return Err(error.value);
      }
      line := ss.GetLine('\n');
    }
    e.generalInformation := info;
    r := Ok(e);
  }

  // The body of its loop, for one line.
  method ReadOne(e: Event, ss: InputStream, line: string, info: map<string, string>, inInfo: bool)
    returns (error: Option<E.EventError>, info': map<string, string>, inInfo': bool)
    requires ss.Valid()
    modifies e, ss
    ensures ss.Valid() && ss.position >= old(ss.position)
    ensures E.ScanLines([line] + old(ss.Ahead('\n')), old(e.Value()).(info := info), inInfo)
         == if error.Some? then Err(error.value) else E.ScanLines(ss.Ahead('\n'), e.Value().(info := info'), inInfo')
  {
    E.ScanUnkeyed(line, ss.Ahead('\n'), e.Value().(info := info), inInfo);
    error, info', inInfo' := None, info, inInfo;
    if ':' !in line {
      return;
    }
    var lineArgs := SplitStr(line, ':');
    E.TokensNonEmpty(line);
    var key := lineArgs[0];
    var val := if |lineArgs| == 2 then lineArgs[1] else "";
    if key == "general information" {
      inInfo' := true;
      return;
    }
    if key == "date time" && Stoi(val).None? {
      error := Some(E.BadDate(val));
      return;
    }
    error, info' := ReadEntry(e, ss, line, key, val, info, inInfo);
  }

  method ReadEntry(e: Event, ss: InputStream, line: string, key: string, val: string, info: map<string, string>, inInfo: bool)
    returns (error: Option<E.EventError>, info': map<string, string>)
    requires ss.Valid() && ':' in line && key == E.KeyOf(line) && val == E.ValueOf(line)
    requires key != "general information" && (key == "date time" ==> Stoi(val).Some?)
    modifies e, ss
    ensures ss.Valid() && ss.position >= old(ss.position)
    ensures E.ScanLines([line] + old(ss.Ahead('\n')), old(e.Value()).(info := info), inInfo)
         == if error.Some? then Err(error.value) else E.ScanLines(ss.Ahead('\n'), e.Value().(info := info'), inInfo)
  {
    E.ScanKeyed(line, ss.Ahead('\n'), e.Value().(info := info), inInfo);
    E.SetFieldKeepsInfo(e.Value(), info, key, val);
    error, info' := None, info;
    SetField(e, key, val);
    if key == "description" {
      var text := ReadRest(ss);
      e.description := text;
    }
    if inInfo {
      if key == "" {
        error := Some(E.NoKey);
        return;
      }
      info' := info[key[1..] := val];
    }
  }

  method SetField(e: Event, key: string, val: string)
    requires key == "date time" ==> Stoi(val).Some?
    modifies e
    ensures e.Value() == E.SetField(old(e.Value()), key, val)
  {
    match key
    case "user" => e.SetEventOwnerUser(val);
    case "channel name" => e.channelName := val;
    case "city" => e.city := val;
    case "event name" => e.name := val;
    case "date time" => e.dateTime := Stoi(val).value;
    case _ =>
  }

  // The description loop: every remaining line with its newline.
  method ReadRest(ss: InputStream) returns (text: string)
    requires ss.Valid()
    modifies ss
    ensures ss.Valid() && ss.position >= old(ss.position)
    ensures ss.Ahead('\n') == [] && text == Unlines(old(ss.Ahead('\n')), '\n')
  {
    text := "";
    ghost var all := Unlines(ss.Ahead('\n'), '\n');
    var line := ss.GetLine('\n');
    while line.Some?
      invariant ss.Valid() && ss.position >= old(ss.position)
      invariant all == text + Unlines(Coming(line, ss.Ahead('\n')), '\n')
      invariant line.None? ==> ss.Ahead('\n') == []
      decreases |ss.text| - ss.position, line.Some?
    {
      UnlinesCons(text, line.value, ss.Ahead('\n'));
      text := text + (line.value + NL);
      line := ss.GetLine('\n');
    }
  }

  lemma UnlinesCons(text: string, line: string, ahead: seq<string>)
    ensures text + Unlines([line] + ahead, '\n') == text + (line + NL) + Unlines(ahead, '\n')
  {
    assert ([line] + ahead)[1..] == ahead;
    Regroup(text, line + NL, Unlines(ahead, '\n'));
  }

  // The report command: one SEND per event, each printed in some order.
  method ReportFrames(channelName: string, username: string, events: seq<Event>)
    returns (frames: seq<string>, ghost orders: seq<seq<string>>)
    ensures |frames| == |orders| == |events|
    ensures forall i :: 0 <= i < |events| ==> IsReport(frames[i], channelName, username, events[i].Value(), orders[i])
  {
    frames, orders := [], [];
    for i := 0 to |events|
      invariant |frames| == |orders| == i
      invariant forall j :: 0 <= j < i ==> IsReport(frames[j], channelName, username, events[j].Value(), orders[j])
    {
      var frame, order := ReportFrame(channelName, username, events[i]);
      frames, orders := frames + [frame], orders + [order];
    }
  }

  ghost predicate IsReport(frame: string, channelName: string, username: string, e: E.Event, order: seq<string>)
  {
    Enumerates(order, e.info.Keys) && frame == E.SendText(channelName, username, e, order)
  }

  // The text of one report, up to the NUL that is sent after it.
  method ReportFrame(channelName: string, username: string, event: Event)
    returns (frame: string, ghost order: seq<string>)
    ensures IsReport(frame, channelName, username, event.Value(), order)
  {
    var text;
    text, order := event.ToText();
    frame := "SEND\n";
    frame := frame + ("destination:/" + channelName + NL);
    frame := frame + ("\nuser: " + username + NL);
    frame := frame + text + NL;
  }

  // The index loops of the client's `trim`; `end` may pass `start`.
  method TrimText(str: string) returns (r: string)
    ensures r == Trim(Cpp, str)
  {
    var start := 0;
    while start < |str| && Blank(Cpp, str[start])
      invariant start <= |str| && TrimLeft(Cpp, str) == TrimLeft(Cpp, str[start..])
    {
      assert str[start..][1..] == str[start + 1..];
      start := start + 1;
    }
    var end := |str| - 1;
    assert str[start..end + 1] == str[start..];
    while end - start > 0 && Blank(Cpp, str[end])
      invariant start - 1 <= end < |str|
      invariant TrimRight(Cpp, str[start..]) == TrimRight(Cpp, str[start..end + 1])
    {
      assert str[start..end + 1][..end - start] == str[start..end];
      end := end - 1;
    }
    r := str[start..end + 1];
  }

  ghost function Values(events: seq<Event>): (r: seq<E.Event>)
    reads events
    ensures |r| == |events| && forall i :: 0 <= i < |r| ==> r[i] == events[i].Value()
  {
    seq(|events|, i requires 0 <= i < |events| reads events => events[i].Value())
  }

  // The counting loops of the summary command.
  method CountReports(events: seq<Event>, user: string) returns (reports: nat, active: nat, arrive: nat)
    ensures S.Totals(reports, active, arrive) == S.Count(Values(events), user)
  {
    reports, active, arrive := 0, 0, 0;
    for i := 0 to |events|
      invariant S.Totals(reports, active, arrive) == S.Count(Values(events)[..i], user)
    {
      var e := events[i];
      assert Values(events)[..i + 1][..i] == Values(events)[..i];
      var owner := TrimText(e.eventOwnerUser);
      var wanted := TrimText(user);
      if owner == wanted {
        var a, f := CountMarks(e.generalInformation);
        reports, active, arrive := reports + 1, active + a, arrive + f;
      }
    }
    assert Values(events)[..|events|] == Values(events);
  }

  method CountMarks(info: map<string, string>) returns (active: nat, arrive: nat)
    ensures active == |S.Marked(info, S.ACTIVE)| && arrive == |S.Marked(info, S.ARRIVE)|
  {
    active, arrive := 0, 0;
    var todo := info.Keys;
    while todo != {}
      invariant todo <= info.Keys
      invariant active == |S.Marked(info, S.ACTIVE) - todo| && arrive == |S.Marked(info, S.ARRIVE) - todo|
      decreases todo
    {
      var key :| key in todo;
      var k := TrimText(key);
      var v := TrimText(info[key]);
      if k == S.ACTIVE && v == "true" {
        active := active + 1;
      }
      if k == S.ARRIVE && v == "true" {
        arrive := arrive + 1;
      }
      OneLess(S.Marked(info, S.ACTIVE), todo, key);
      OneLess(S.Marked(info, S.ARRIVE), todo, key);
      todo := todo - {key};
    }
    NoneLeft(S.Marked(info, S.ACTIVE), todo);
    NoneLeft(S.Marked(info, S.ARRIVE), todo);
  }

  lemma OneLess(s: set<string>, todo: set<string>, key: string)
    requires key in todo
    ensures |s - (todo - {key})| == |s - todo| + (if key in s then 1 else 0)
  {
    assert s - (todo - {key}) == if key in s then (s - todo) + {key} else s - todo;
  }

  lemma NoneLeft(s: set<string>, todo: set<string>)
    requires todo == {}
    ensures |s - todo| == |s|
  {
    assert s - todo == s;
  }
}
