// The event text line by line, as it is shown and sent, and what single lines
// and numbers of a received text are read as.
module Shown {
  import opened Text
  import opened Codec
  import opened Events
  import Parsing

  // ------------------------------------------------------------- lines printed

  // `line` is "key: value", cut at its first colon.
  predicate Labelled(line: string, key: string, value: string)
  {
    |key| < |line| && Find(line, ':') == |key| && line[..|key|] == key && line[|key| + 1..] == " " + value
  }

  lemma LabelledLine(line: string, key: string, value: string)
    requires ':' !in key && line == key + ": " + value
    ensures Labelled(line, key, value)
  {
    assert line == key + [':'] + (" " + value);
    FindAfter(key, ':', " " + value);
  }

  // And is read so.
  lemma LabelledReads(line: string, key: string, value: string)
    requires Labelled(line, key, value)
    ensures ':' in line && KeyOf(line) == key && ValueOf(line) == Carried(value)
  {
    assert line == key + ": " + value;
    FieldLine(key, value, line);
  }

  predicate OneLineEach(e: Event)
  {
    && '\n' !in e.city && '\n' !in e.name && '\n' !in e.owner
    && forall k :: k in e.info ==> '\n' !in k && ':' !in k && '\n' !in e.info[k]
  }

  // The lines after the heading of the description: its own, and one for a
  // known owner.
  function Bottom(e: Event): seq<string>
  {
    Pieces(e.description, '\n') + (if e.owner == "" then [] else ["Event Owner: " + e.owner])
  }

  lemma BottomText(e: Event)
    ensures Unlines(Bottom(e), '\n') == e.description + NL + (if e.owner != "" then "Event Owner: " + e.owner + NL else "")
  {
    var ds, owner := Pieces(e.description, '\n'), if e.owner == "" then [] else ["Event Owner: " + e.owner];
    UnlinesIsJoin(ds, '\n');
    UnlinesAppend(ds, owner, '\n');
    OwnerText(e.owner, owner);
  }

  lemma OwnerText(owner: string, ls: seq<string>)
    requires ls == if owner == "" then [] else ["Event Owner: " + owner]
    ensures Unlines(ls, '\n') == if owner != "" then "Event Owner: " + owner + NL else ""
  {
    if owner != "" {
      assert ls[1..] == [];
    }
  }

  // A text of whole lines is cut into them again.
  lemma LinesOfUnlines(ls: seq<string>)
    requires ls != [] && forall i :: 0 <= i < |ls| ==> '\n' !in ls[i]
    ensures GetLines(Unlines(ls, '\n'), '\n') == ls
  {
    var all := ls + [""];
    UnlinesIsJoin(ls, '\n');
    JoinAppend(ls, [""], '\n');
    PiecesOfJoin(all, '\n');
    assert Unlines(ls, '\n') == Join(all, '\n');
    assert all[..|all| - 1] == ls;
  }

  lemma TextOfLines(e: Event, order: seq<string>, ls: seq<string>)
    requires Enumerates(order, e.info.Keys) && ls == TopLines(e, order) + (["description: "] + Bottom(e))
    ensures EventText(e, order) == Unlines(ls, '\n')
  {
    var top, rest := Unlines(TopLines(e, order), '\n'), Unlines(Bottom(e), '\n');
    UnlinesAppend(TopLines(e, order), ["description: "] + Bottom(e), '\n');
    assert (["description: "] + Bottom(e))[1..] == Bottom(e);
    BottomText(e);
    Ends(top, e.description, if e.owner != "" then "Event Owner: " + e.owner + NL else "");
  }

  lemma Ends(top: string, description: string, owner: string)
    ensures top + ("description: \n" + description + NL) + owner == top + ("description: " + ['\n'] + (description + NL + owner))
  {
  }

  lemma TopOnOneLine(e: Event, order: seq<string>)
    requires OneLineEach(e) && Enumerates(order, e.info.Keys)
    ensures forall i :: 0 <= i < |TopLines(e, order)| ==> '\n' !in TopLines(e, order)[i]
  {
    DecimalHasNo(e.dateTime, '\n');
    EntriesOnOneLine(e.info, order);
    FirstFour(e, order);
  }

  lemma EntriesOnOneLine(info: map<string, string>, order: seq<string>)
    requires forall k :: k in order ==> k in info && '\n' !in k && '\n' !in info[k]
    ensures forall i :: 0 <= i < |order| ==> '\n' !in InfoLines(info, order)[i]
    ensures forall i :: 0 <= i < |order| ==> InfoLines(info, order)[i] == "  " + order[i] + ": " + info[order[i]]
  {
  }

  // The lines up to the general information, and those of its entries.
  predicate FieldsShown(ls: seq<string>, e: Event)
  {
    && |ls| >= 4 && Labelled(ls[0], "city", e.city) && Labelled(ls[1], "event name", e.name)
    && Labelled(ls[2], "date time", Decimal(e.dateTime)) && ls[3] == "general information:"
  }

  predicate EntriesShown(ls: seq<string>, e: Event, order: seq<string>)
    requires forall k :: k in order ==> k in e.info
  {
    |ls| >= 4 + |order| && forall i :: 0 <= i < |order| ==> Labelled(ls[4 + i], "  " + order[i], e.info[order[i]])
  }

  // The heading of the description after `n` lines, the description's own
  // lines, and at the end the owner exactly if there is one.
  predicate BottomShown(ls: seq<string>, e: Event, n: nat)
  {
    var ds := Pieces(e.description, '\n');
    && |ls| == n + 1 + |ds| + (if e.owner == "" then 0 else 1)
    && ls[n] == "description: " && ls[n + 1..n + 1 + |ds|] == ds
    && (e.owner != "" ==> Labelled(ls[|ls| - 1], "Event Owner", e.owner))
  }

  // Every line of the printed event, and no other.
  lemma EventLines(e: Event, order: seq<string>) returns (ls: seq<string>)
    requires OneLineEach(e) && Enumerates(order, e.info.Keys)
    ensures ls == GetLines(EventText(e, order), '\n')
    ensures FieldsShown(ls, e) && EntriesShown(ls, e, order) && BottomShown(ls, e, 4 + |order|)
  {
    ls := TopLines(e, order) + (["description: "] + Bottom(e));
    CutAgain(e, order, ls);
    ShownFields(e, order, ls);
    ShownEntries(e, order, ls);
    ShownBottom(e, TopLines(e, order), ls);
  }

  // The last line of an event with an owner, as a reader cuts it.
  lemma OwnerShown(e: Event, order: seq<string>) returns (last: string)
    requires OneLineEach(e) && Enumerates(order, e.info.Keys) && e.owner != ""
    ensures IsLast(last, GetLines(EventText(e, order), '\n'))
    ensures ':' in last && KeyOf(last) == "Event Owner" && ValueOf(last) == Carried(e.owner)
  {
    last := OwnerLine(e, order);
    LabelledReads(last, "Event Owner", e.owner);
  }

  predicate IsLast(line: string, ls: seq<string>)
  {
    ls != [] && ls[|ls| - 1] == line
  }

  lemma OwnerLine(e: Event, order: seq<string>) returns (last: string)
    requires OneLineEach(e) && Enumerates(order, e.info.Keys) && e.owner != ""
    ensures IsLast(last, GetLines(EventText(e, order), '\n')) && Labelled(last, "Event Owner", e.owner)
  {
    var ls := EventLines(e, order);
    last := ls[|ls| - 1];
  }

  lemma CutAgain(e: Event, order: seq<string>, ls: seq<string>)
    requires OneLineEach(e) && Enumerates(order, e.info.Keys) && ls == TopLines(e, order) + (["description: "] + Bottom(e))
    ensures GetLines(EventText(e, order), '\n') == ls
  {
    TopOnOneLine(e, order);
    BottomOnOneLine(e);
    TextOfLines(e, order, ls);
    LinesOfUnlines(ls);
  }

  lemma BottomOnOneLine(e: Event)
    requires '\n' !in e.owner
    ensures forall i :: 0 <= i < |Bottom(e)| ==> '\n' !in Bottom(e)[i]
  {
  }

  lemma ShownFields(e: Event, order: seq<string>, ls: seq<string>)
    requires (forall k :: k in order ==> k in e.info) && TopLines(e, order) <= ls
    ensures FieldsShown(ls, e)
  {
    FirstFour(e, order);
    LabelledLine(ls[0], "city", e.city);
    LabelledLine(ls[1], "event name", e.name);
    LabelledLine(ls[2], "date time", Decimal(e.dateTime));
  }

  lemma FirstFour(e: Event, order: seq<string>)
    requires forall k :: k in order ==> k in e.info
    ensures var ls := TopLines(e, order);
      && |ls| == 4 + |order| && ls[0] == "city: " + e.city && ls[1] == "event name: " + e.name
      && ls[2] == "date time: " + Decimal(e.dateTime) && ls[3] == "general information:"
    ensures forall i :: 0 <= i < |order| ==> TopLines(e, order)[4 + i] == "  " + order[i] + ": " + e.info[order[i]]
  {
    assert forall i :: 0 <= i < |order| ==> TopLines(e, order)[4 + i] == InfoLines(e.info, order)[i];
  }

  lemma ShownEntries(e: Event, order: seq<string>, ls: seq<string>)
    requires (forall k :: k in order ==> k in e.info && ':' !in k) && TopLines(e, order) <= ls
    ensures EntriesShown(ls, e, order)
  {
    FirstFour(e, order);
    forall i | 0 <= i < |order| ensures Labelled(ls[4 + i], "  " + order[i], e.info[order[i]]) {
      EntryLabelled(order[i], e.info[order[i]]);
    }
  }

  lemma EntryLabelled(k: string, v: string)
    requires ':' !in k
    ensures Labelled("  " + k + ": " + v, "  " + k, v)
  {
    LabelledLine("  " + k + ": " + v, "  " + k, v);
  }

  lemma ShownBottom(e: Event, top: seq<string>, ls: seq<string>)
    requires ls == top + (["description: "] + Bottom(e))
    ensures BottomShown(ls, e, |top|)
  {
    LabelledLine("Event Owner: " + e.owner, "Event Owner", e.owner);
  }

  // The report's frame, read character by character: one header, and the body
  // with the user's line before the event and a newline after it.
  lemma ReportExactly(channel: string, user: string, e: Event, order: seq<string>)
    requires '\n' !in channel && Enumerates(order, e.info.Keys)
    ensures Parsing.ReadExactly(SendText(channel, user, e, order))
         == Some(Frame("SEND", map["destination" := "/" + channel], "user: " + user + NL + EventText(e, order) + NL))
  {
    var f := Frame("SEND", map["destination" := "/" + channel], "user: " + user + NL + EventText(e, order) + NL);
    OneKey(f.headers);
    Parsing.PrintedExactly(f, ["destination"]);
    ReportPrinted(channel, user, EventText(e, order), f);
  }

  lemma OneKey(h: map<string, string>)
    requires h.Keys == {"destination"}
    ensures Enumerates(["destination"], h.Keys)
  {
  }

  lemma ReportPrinted(channel: string, user: string, text: string, f: Frame)
    requires f == Frame("SEND", map["destination" := "/" + channel], "user: " + user + NL + text + NL)
    requires Enumerates(["destination"], f.headers.Keys)
    ensures PrintText(f, ["destination"]) == "SEND\n" + ("destination:/" + channel + NL) + ("\nuser: " + user + NL) + text + NL
  {
    var line := "destination" + ":" + ("/" + channel);
    assert HeaderLines(f.headers, ["destination"]) == [line];
    assert [line][1..] == [];
    assert line == "destination:/" + channel;
    assert Unlines([line], '\n') == line + NL;
    Chain("SEND", line, "user: " + user, text);
  }

  lemma Chain(command: string, line: string, user: string, text: string)
    ensures command + NL + (line + NL) + NL + (user + NL + text + NL)
         == command + NL + (line + NL) + (NL + user + NL) + text + NL
  {
  }

  // ---------------------------------------------------------------- values read

  // What a value arrives as: whole with its blank, without a colon at its very
  // end, and not at all with any other.
  lemma CarriedExactly(value: string)
    ensures ':' !in value ==> Carried(value) == " " + value
    ensures forall w :: value == w + ":" && ':' !in w ==> Carried(value) == " " + w
    ensures ':' in value && !(value[|value| - 1] == ':' && ':' !in value[..|value| - 1]) ==> Carried(value) == ""
  {
    if ':' !in value {
      CarriedIff(value);
    } else {
      var k := Find(value, ':');
      CarriedUpTo(value[..k], value[k + 1..]);
      assert value == value[..k] + [':'] + value[k + 1..];
      forall w | value == w + ":" && ':' !in w ensures Carried(value) == " " + w {
        CarriedUpTo(w, "");
        assert value == w + [':'] + "";
      }
    }
  }

  lemma CarriedUpTo(w: string, rest: string)
    requires ':' !in w
    ensures Carried(w + [':'] + rest) == if rest == "" then " " + w else ""
  {
    assert " " + (w + [':'] + rest) == (" " + w) + [':'] + rest;
    GetLinesAfter(" " + w, rest, ':');
    RestLines(rest);
  }

  lemma RestLines(rest: string)
    ensures GetLines(rest, ':') == [] <==> rest == ""
  {
    if rest != "" {
      OnePiece(rest, ':');
      var ps := Pieces(rest, ':');
      assert |ps| == 1 ==> ps[0] == rest;
    }
  }

  // A text of one line "key:value" sets the field of that name, and only it.
  lemma OneField(line: string, key: string, value: string)
    requires line == key + ":" + value && ':' !in key && ':' !in value && '\n' !in line && value != ""
    ensures key == "user" ==> ReadEvent(line) == Ok(BLANK_EVENT.(owner := value))
    ensures key == "channel name" ==> ReadEvent(line) == Ok(BLANK_EVENT.(channelName := value))
    ensures key == "city" ==> ReadEvent(line) == Ok(BLANK_EVENT.(city := value))
    ensures key == "event name" ==> ReadEvent(line) == Ok(BLANK_EVENT.(name := value))
    ensures key == "date time" ==>
      ReadEvent(line) == match Stoi(value) case Some(n) => Ok(BLANK_EVENT.(dateTime := n)) case None => Err(BadDate(value))
    ensures !KnownKey(key) ==> ReadEvent(line) == Ok(BLANK_EVENT)
  {
    OneLine(line, key, value);
    if key != "general information" && key != "description" {
      OneKnown(line, key, value);
    }
  }

  lemma OneLine(line: string, key: string, value: string)
    requires line == key + ":" + value && ':' !in key && ':' !in value && '\n' !in line && value != ""
    ensures ':' in line && KeyOf(line) == key && ValueOf(line) == value && GetLines(line, '\n') == [line]
  {
    assert line == key + [':'] + value;
    LineParts(key, value);
    GetLinesOne(value, ':');
    GetLinesOne(line, '\n');
  }

  lemma OneKnown(line: string, key: string, value: string)
    requires ':' in line && KeyOf(line) == key && ValueOf(line) == value
    requires key != "general information" && key != "description"
    ensures key == "date time" && Stoi(value).None? ==> ScanLines([line], BLANK_EVENT, false) == Err(BadDate(value))
    ensures (key == "date time" ==> Stoi(value).Some?) ==>
      ScanLines([line], BLANK_EVENT, false) == Ok(SetField(BLANK_EVENT, key, value))
  {
    assert [line] + [] == [line];
    ScanUnkeyed(line, [], BLANK_EVENT, false);
    if key == "date time" ==> Stoi(value).Some? {
      ScanKeyed(line, [], BLANK_EVENT, false);
    }
  }

  // An entry of the general information without a key has no first character
  // to leave out.
  lemma KeylessEntry(value: string)
    requires '\n' !in value
    ensures ReadEvent(Unlines(["general information:", ":" + value], '\n')) == Err(NoKey)
  {
    var heading, line := "general information:", ":" + value;
    LinesOfUnlines([heading, line]);
    assert [heading] + [line] == [heading, line] && [line] + [] == [line];
    ScanInfoHeading(heading, [line], BLANK_EVENT);
    LineParts("", value);
    assert "" + [':'] + value == line;
    ScanKeyed(line, [], BLANK_EVENT, true);
  }
}
