// The client's event text: how a report is printed, how a received frame is
// read back, and what the reading makes of the printing.
module Events {
  import opened Text
  import opened Codec

  datatype Event = Event(channelName: string, city: string, name: string, dateTime: int, description: string,
                         info: map<string, string>, owner: string)

  // The exceptions of the parsing constructor: `stoi` found no int, and
  // `substr(1)` of an empty key.
  datatype EventError = BadDate(text: string) | NoKey

  const BLANK_EVENT: Event := Event("", "", "", 0, "", map[], "")

  // --------------------------------------------------------------- printing

  function InfoLines(info: map<string, string>, order: seq<string>): (r: seq<string>)
    requires forall k :: k in order ==> k in info
    ensures |r| == |order|
    ensures forall i :: 0 <= i < |r| ==> r[i] == "  " + order[i] + ": " + info[order[i]]
  {
    if order == [] then [] else ["  " + order[0] + ": " + info[order[0]]] + InfoLines(info, order[1..])
  }

  // The lines of an event up to its description, for one iteration order of
  // the general information.
  function TopLines(e: Event, order: seq<string>): seq<string>
    requires forall k :: k in order ==> k in e.info
  {
    ["city: " + e.city, "event name: " + e.name, "date time: " + Decimal(e.dateTime), "general information:"]
    + InfoLines(e.info, order)
  }

  ghost function EventText(e: Event, order: seq<string>): string
    requires Enumerates(order, e.info.Keys)
  {
    Unlines(TopLines(e, order), '\n') + ("description: \n" + e.description + NL)
    + (if e.owner != "" then "Event Owner: " + e.owner + NL else "")
  }

  // The text of the SEND frame in which a report goes out.
  ghost function SendText(channel: string, user: string, e: Event, order: seq<string>): string
    requires Enumerates(order, e.info.Keys)
  {
    "SEND\n" + ("destination:/" + channel + NL) + ("\nuser: " + user + NL) + EventText(e, order) + NL
  }

  // ---------------------------------------------------------------- reading

  function Tokens(line: string): seq<string>
  {
    GetLines(line, ':')
  }

  lemma TokensNonEmpty(line: string)
    requires ':' in line
    ensures |Tokens(line)| >= 1
  {
    OnePiece(line, ':');
  }

  function KeyOf(line: string): string
    requires ':' in line
  {
    TokensNonEmpty(line);
    Tokens(line)[0]
  }

  // The value counts only when the line has exactly two tokens.
  function ValueOf(line: string): string
  {
    if |Tokens(line)| == 2 then Tokens(line)[1] else ""
  }

  // The fields that a line sets by itself.
  function SetField(e: Event, key: string, value: string): Event
    requires key == "date time" ==> Stoi(value).Some?
  {
    match key
    case "user" => e.(owner := value)
    case "channel name" => e.(channelName := value)
    case "city" => e.(city := value)
    case "event name" => e.(name := value)
    case "date time" => e.(dateTime := Stoi(value).value)
    case _ => e
  }

  // Line by line; after "general information" every line with a colon is also
  // an entry, and "description" swallows the rest of the text.
  function ScanLines(ls: seq<string>, e: Event, inInfo: bool): Result<Event, EventError>
    decreases |ls|
  {
    if ls == [] then Ok(e)
    else if ':' !in ls[0] then ScanLines(ls[1..], e, inInfo)
    else
      var key, value := KeyOf(ls[0]), ValueOf(ls[0]);
      if key == "general information" then ScanLines(ls[1..], e, true)
      else if key == "date time" && Stoi(value).None? then Err(BadDate(value))
      else
        var e1 := SetField(e, key, value);
        if key == "description" then
          var e2 := e1.(description := Unlines(ls[1..], '\n'));
          Ok(if inInfo then e2.(info := e2.info[key[1..] := value]) else e2)
        else if inInfo && key == "" then Err(NoKey)
        else ScanLines(ls[1..], if inInfo then e1.(info := e1.info[key[1..] := value]) else e1, inInfo)
  }

  function ReadEvent(text: string): Result<Event, EventError>
  {
    ScanLines(GetLines(text, '\n'), BLANK_EVENT, false)
  }

  // ------------------------------------------------ what a receiver makes of it

  // What the rest of a line after "key:" becomes.
  function Carried(value: string): string
  {
    var ts := GetLines(" " + value, ':');
    if |ts| == 1 then ts[0] else ""
  }

  // The description loses its trailing blanks with the body it ends.
  function CarriedDescription(description: string): string
  {
    var d := TrimRight(Java, description);
    if d == "" then "" else d + NL
  }

  function CarriedInfo(info: map<string, string>): (r: map<string, string>)
    ensures forall k :: k in info ==> " " + k in r && r[" " + k] == Carried(info[k])
    ensures forall s :: s in r ==> s != "" && s[0] == ' ' && s[1..] in info && s == " " + s[1..]
  {
    map s | s in set k | k in info.Keys :: " " + k :: Carried(info[s[1..]])
  }

  // The event that every receiver of the report builds.
  function Received(user: string, e: Event): Event
  {
    var blank := TrimRight(Java, e.description) == "";
    Event("", Carried(e.city), Carried(e.name), e.dateTime, CarriedDescription(e.description),
          CarriedInfo(e.info)["escription" := if blank then "" else " "], Carried(user))
  }

  // What a report must satisfy to stay in one piece: one line per field, and
  // no colon in a key.
  predicate Sendable(channel: string, user: string, e: Event)
  {
    && '\n' !in channel && '\n' !in user && '\n' !in e.city && '\n' !in e.name
    && e.owner == "" && MIN_INT <= e.dateTime <= MAX_INT
    && forall k :: k in e.info ==> '\n' !in k && ':' !in k && '\n' !in e.info[k]
  }

  // ------------------------------------------------------ reading single lines

  lemma LineParts(key: string, rest: string)
    requires ':' !in key
    ensures var line := key + [':'] + rest; ':' in line && KeyOf(line) == key
    ensures ValueOf(key + [':'] + rest) == if |GetLines(rest, ':')| == 1 then GetLines(rest, ':')[0] else ""
  {
    assert (key + [':'] + rest)[|key|] == ':';
    GetLinesAfter(key, rest, ':');
  }

  // A "key: value" line.
  lemma FieldLine(key: string, value: string, line: string)
    requires ':' !in key && line == key + ": " + value
    ensures ':' in line && KeyOf(line) == key && ValueOf(line) == Carried(value)
  {
    LineParts(key, " " + value);
    assert line == key + [':'] + (" " + value);
  }

  // Exactly the values without a colon are carried whole.
  lemma CarriedIff(value: string)
    ensures Carried(value) == " " + value <==> ':' !in value
  {
    var w := " " + value;
    if ':' !in value {
      PiecesOfPiece(w, ':');
    } else {
      assert w[1..] == value;
      assert forall i :: 0 <= i < |Pieces(w, ':')| ==> ':' !in Pieces(w, ':')[i];
    }
  }

  // One line that is not an entry, and one that is.
  lemma ScanUnkeyed(line: string, ls: seq<string>, e: Event, inInfo: bool)
    ensures ':' !in line ==> ScanLines([line] + ls, e, inInfo) == ScanLines(ls, e, inInfo)
    ensures ':' in line && KeyOf(line) == "general information" ==> ScanLines([line] + ls, e, inInfo) == ScanLines(ls, e, true)
    ensures ':' in line && KeyOf(line) == "date time" && Stoi(ValueOf(line)).None? ==>
      ScanLines([line] + ls, e, inInfo) == Err(BadDate(ValueOf(line)))
  {
    assert ([line] + ls)[1..] == ls;
  }

  lemma ScanKeyed(line: string, ls: seq<string>, e: Event, inInfo: bool)
    requires ':' in line && KeyOf(line) != "general information"
    requires KeyOf(line) == "date time" ==> Stoi(ValueOf(line)).Some?
    ensures var key, value := KeyOf(line), ValueOf(line);
      var e1 := SetField(e, key, value);
      var e2 := if key == "description" then e1.(description := Unlines(ls, '\n')) else e1;
      ScanLines([line] + ls, e, inInfo)
        == if inInfo && key == "" then Err(NoKey)
           else ScanLines(if key == "description" then [] else ls,
                          if inInfo then e2.(info := e2.info[key[1..] := value]) else e2, inInfo)
  {
    assert ([line] + ls)[1..] == ls;
  }

  lemma SetFieldKeepsInfo(e: Event, info: map<string, string>, key: string, value: string)
    requires key == "date time" ==> Stoi(value).Some?
    ensures SetField(e.(info := info), key, value) == SetField(e, key, value).(info := info)
  {
  }

  predicate KnownKey(key: string)
  {
    key in {"user", "channel name", "city", "event name", "date time", "general information", "description"}
  }

  // Lines before the event that set nothing.
  predicate Ignored(line: string)
  {
    ':' in line ==> !KnownKey(KeyOf(line))
  }

  lemma {:induction false} SkipIgnored(head: seq<string>, ls: seq<string>, e: Event)
    requires forall i :: 0 <= i < |head| ==> Ignored(head[i])
    ensures ScanLines(head + ls, e, false) == ScanLines(ls, e, false)
    decreases |head|
  {
    if head == [] {
      assert head + ls == ls;
    } else {
      assert (head + ls)[0] == head[0] && (head + ls)[1..] == head[1..] + ls;
      SkipIgnored(head[1..], ls, e);
    }
  }

  lemma ScanOwner(line: string, user: string, ls: seq<string>, e: Event)
    requires line == "user: " + user
    ensures ScanLines([line] + ls, e, false) == ScanLines(ls, e.(owner := Carried(user)), false)
  {
    FieldLine("user", user, line);
    assert ([line] + ls)[1..] == ls;
  }

  lemma ScanCity(line: string, city: string, ls: seq<string>, e: Event)
    requires line == "city: " + city
    ensures ScanLines([line] + ls, e, false) == ScanLines(ls, e.(city := Carried(city)), false)
  {
    FieldLine("city", city, line);
    assert ([line] + ls)[1..] == ls;
  }

  lemma ScanName(line: string, name: string, ls: seq<string>, e: Event)
    requires line == "event name: " + name
    ensures ScanLines([line] + ls, e, false) == ScanLines(ls, e.(name := Carried(name)), false)
  {
    FieldLine("event name", name, line);
    assert ([line] + ls)[1..] == ls;
  }

  lemma ScanDate(line: string, n: int, ls: seq<string>, e: Event)
    requires line == "date time: " + Decimal(n) && MIN_INT <= n <= MAX_INT
    ensures ScanLines([line] + ls, e, false) == ScanLines(ls, e.(dateTime := n), false)
  {
    DateLine(line, n);
    assert ([line] + ls)[1..] == ls;
  }

  lemma DateLine(line: string, n: int)
    requires line == "date time: " + Decimal(n) && MIN_INT <= n <= MAX_INT
    ensures ':' in line && KeyOf(line) == "date time" && Stoi(ValueOf(line)) == Some(n)
  {
    DecimalHasNo(n, ':');
    CarriedIff(Decimal(n));
    StoiOfDecimal(" ", n);
    FieldLine("date time", Decimal(n), line);
  }

  lemma DecimalHasNo(n: int, c: char)
    requires c != '-' && !('0' <= c <= '9')
    ensures c !in Decimal(n)
  {
  }

  lemma ScanInfoHeading(line: string, ls: seq<string>, e: Event)
    requires line == "general information:"
    ensures ScanLines([line] + ls, e, false) == ScanLines(ls, e, true)
  {
    LineParts("general information", "");
    assert line == "general information" + [':'] + "";
    assert ([line] + ls)[1..] == ls;
  }

  // The entries read so far, on top of `acc`.
  function Entries(acc: map<string, string>, info: map<string, string>, order: seq<string>): (r: map<string, string>)
    requires forall k :: k in order ==> k in info
    ensures forall s :: s in r <==> s in acc || (s != "" && s[0] == ' ' && s[1..] in order)
    ensures forall s :: s in r ==> r[s] == if s != "" && s[0] == ' ' && s[1..] in order then Carried(info[s[1..]]) else acc[s]
    decreases |order|
  {
    if order == [] then acc
    else
      assert forall s: string :: s != "" && s[0] == ' ' && s[1..] == order[0] ==> s == " " + order[0];
      Entries(acc[" " + order[0] := Carried(info[order[0]])], info, order[1..])
  }

  lemma {:induction false} ScanInfo(info: map<string, string>, order: seq<string>, ls: seq<string>, e: Event)
    requires forall k :: k in order ==> k in info && ':' !in k
    ensures ScanLines(InfoLines(info, order) + ls, e, true)
         == ScanLines(ls, e.(info := Entries(e.info, info, order)), true)
    decreases |order|
  {
    var all := InfoLines(info, order) + ls;
    if order == [] {
      assert all == ls;
    } else {
      var k := order[0];
      assert all == [all[0]] + (InfoLines(info, order[1..]) + ls);
      ScanEntry(k, info[k], all[0], InfoLines(info, order[1..]) + ls, e);
      ScanInfo(info, order[1..], ls, e.(info := e.info[" " + k := Carried(info[k])]));
    }
  }

  lemma ScanEntry(k: string, v: string, line: string, ls: seq<string>, e: Event)
    requires ':' !in k && line == "  " + k + ": " + v
    ensures ScanLines([line] + ls, e, true) == ScanLines(ls, e.(info := e.info[" " + k := Carried(v)]), true)
  {
    InfoLine(k, v, line);
    UnknownField(e, KeyOf(line), ValueOf(line));
    assert ([line] + ls)[1..] == ls;
  }

  lemma UnknownField(e: Event, key: string, value: string)
    requires !KnownKey(key)
    ensures key != "date time" && key != "general information" && key != "description" && SetField(e, key, value) == e
  {
  }

  lemma InfoLine(k: string, v: string, line: string)
    requires ':' !in k && line == "  " + k + ": " + v
    ensures ':' in line && !KnownKey(KeyOf(line)) && KeyOf(line) != "" && KeyOf(line)[1..] == " " + k
    ensures ValueOf(line) == Carried(v)
  {
    FieldLine("  " + k, v, line);
    assert ("  " + k)[0] == ' ' && ("  " + k)[1..] == " " + k;
    BlankIsUnknown("  " + k);
  }

  lemma BlankIsUnknown(key: string)
    requires key != "" && key[0] == ' '
    ensures !KnownKey(key)
  {
  }

  lemma ScanDescription(line: string, ls: seq<string>, e: Event)
    requires line == "description:" || line == "description: "
    ensures ScanLines([line] + ls, e, true)
      == Ok(e.(description := Unlines(ls, '\n'),
               info := e.info["escription" := if line == "description:" then "" else " "]))
  {
    DescriptionLine(line);
    DescriptionField(e, ValueOf(line));
    ScanKeyed(line, ls, e, true);
  }

  lemma DescriptionField(e: Event, value: string)
    ensures var key := "description";
      key[1..] == "escription" && key != "general information" && key != "date time" && key != "" && SetField(e, key, value) == e
  {
  }

  lemma DescriptionLine(line: string)
    requires line == "description:" || line == "description: "
    ensures ':' in line && KeyOf(line) == "description"
    ensures ValueOf(line) == if line == "description:" then "" else " "
  {
    var rest := if line == "description:" then "" else " ";
    assert line == "description" + [':'] + rest;
    LineParts("description", rest);
    PiecesOfPiece(rest, ':');
  }
}
