// The client's summary: counting a user's reports among the received events
// gives the counts over the original reports.
module Summary {
  import opened Text
  import opened Codec
  import opened Events
  import opened Pipeline

  datatype Totals = Totals(reports: nat, active: nat, arrive: nat)

  // A report as its author sent it.
  datatype Report = Report(user: string, event: Event)

  const ACTIVE := "active"
  const ARRIVE := "forces_arrival_at_scene"

  predicate Mine(e: Event, user: string)
  {
    Trim(Cpp, e.owner) == Trim(Cpp, user)
  }

  // The entries that count as `key` set to true.
  function Marked(info: map<string, string>, key: string): set<string>
  {
    set k | k in info && Trim(Cpp, k) == key && Trim(Cpp, info[k]) == "true"
  }

  function Plus(t: Totals, e: Event, user: string): Totals
  {
    if Mine(e, user) then
      Totals(t.reports + 1, t.active + |Marked(e.info, ACTIVE)|, t.arrive + |Marked(e.info, ARRIVE)|)
    else t
  }

  // The three totals over a list of events.
  function Count(es: seq<Event>, user: string): Totals
  {
    if es == [] then Totals(0, 0, 0) else Plus(Count(es[..|es| - 1], user), es[|es| - 1], user)
  }

  // The received events, and the sent ones under their author's name.
  function ReceivedAll(rs: seq<Report>): (r: seq<Event>)
    ensures |r| == |rs| && forall i :: 0 <= i < |r| ==> r[i] == Received(rs[i].user, rs[i].event)
  {
    seq(|rs|, i requires 0 <= i < |rs| => Received(rs[i].user, rs[i].event))
  }

  function SentAll(rs: seq<Report>): (r: seq<Event>)
    ensures |r| == |rs| && forall i :: 0 <= i < |r| ==> r[i] == rs[i].event.(owner := rs[i].user)
  {
    seq(|rs|, i requires 0 <= i < |rs| => rs[i].event.(owner := rs[i].user))
  }

  function Blanked(s: set<string>): set<string>
  {
    set k | k in s :: " " + k
  }

  lemma {:induction false} BlankedSize(s: set<string>, t: set<string>)
    requires t == Blanked(s)
    ensures |t| == |s|
  {
    if s != {} {
      var x :| x in s;
      var s', t' := s - {x}, t - {" " + x};
      forall w ensures w in t' <==> w in Blanked(s') {
        if w in t' {
          var k :| k in s && w == " " + k;
        }
        if k :| k in s' && w == " " + k {
          assert w[1..] == k && (" " + x)[1..] == x;
        }
      }
      BlankedSize(s', t');
      assert " " + x in t;
    } else {
      assert t == {};
    }
  }

  // Receiving keeps the marked entries, each under its key with a blank.
  lemma MarkedReceived(user: string, e: Event, key: string)
    requires ColonFree(user, e) && (key == ACTIVE || key == ARRIVE)
    ensures |Marked(Received(user, e).info, key)| == |Marked(e.info, key)|
  {
    var sent, got := Marked(e.info, key), Marked(Received(user, e).info, key);
    forall w ensures w in got <==> w in Blanked(sent) {
      MarkedEntry(user, e, key, w);
    }
    SameSize(sent, got);
  }

  lemma SameSize(sent: set<string>, got: set<string>)
    requires forall w :: w in got <==> w in Blanked(sent)
    ensures |got| == |sent|
  {
    BlankedSize(sent, got);
  }

  lemma MarkedEntry(user: string, e: Event, key: string, w: string)
    requires ColonFree(user, e) && (key == ACTIVE || key == ARRIVE)
    ensures w in Marked(Received(user, e).info, key) <==> w in Blanked(Marked(e.info, key))
  {
    WholeIffColonFree(user, e);
    if w in Received(user, e).info && w != "escription" {
      assert w in CarriedInfo(e.info);
      TrimAfterBlank(Cpp, w[1..]);
      TrimAfterBlank(Cpp, e.info[w[1..]]);
    }
    if k :| k in Marked(e.info, key) && w == " " + k {
      NotDescription(k);
      TrimAfterBlank(Cpp, k);
      TrimAfterBlank(Cpp, e.info[k]);
    }
    DescriptionIsNoMark();
  }

  lemma DescriptionIsNoMark()
    ensures Trim(Cpp, "escription") != ACTIVE && Trim(Cpp, "escription") != ARRIVE
  {
    TrimOfTrimmed(Cpp, "escription");
  }

  lemma ReportCounts(t: Totals, user: string, e: Event, who: string)
    requires ColonFree(user, e)
    ensures Plus(t, Received(user, e), who) == Plus(t, e.(owner := user), who)
  {
    CarriedIff(user);
    TrimAfterBlank(Cpp, user);
    MarkedReceived(user, e, ACTIVE);
    MarkedReceived(user, e, ARRIVE);
    SamePlus(t, Received(user, e), e.(owner := user), who);
  }

  lemma SamePlus(t: Totals, d: Event, e: Event, who: string)
    requires Trim(Cpp, d.owner) == Trim(Cpp, e.owner)
    requires |Marked(d.info, ACTIVE)| == |Marked(e.info, ACTIVE)| && |Marked(d.info, ARRIVE)| == |Marked(e.info, ARRIVE)|
    ensures Plus(t, d, who) == Plus(t, e, who)
  {
  }

  // Summaries count received events as they would count the original ones.
  lemma {:induction false} SummaryOfReceived(rs: seq<Report>, who: string)
    requires forall i :: 0 <= i < |rs| ==> ColonFree(rs[i].user, rs[i].event)
    ensures Count(ReceivedAll(rs), who) == Count(SentAll(rs), who)
  {
    if rs != [] {
      var n := |rs| - 1;
      SummaryOfReceived(rs[..n], who);
      assert ReceivedAll(rs)[..n] == ReceivedAll(rs[..n]) && SentAll(rs)[..n] == SentAll(rs[..n]);
      ReportCounts(Count(SentAll(rs[..n]), who), rs[n].user, rs[n].event, who);
    }
  }

  // ------------------------------------------- reports without stray blanks

  predicate Tidy(r: Report)
  {
    Trimmed(Cpp, r.user) && forall k :: k in r.event.info ==> Trimmed(Cpp, k) && Trimmed(Cpp, r.event.info[k])
  }

  predicate Says(e: Event, key: string)
  {
    key in e.info && e.info[key] == "true"
  }

  function One(b: bool): nat
  {
    if b then 1 else 0
  }

  // How many of the reports are by `who`, and say so and so.
  function Original(rs: seq<Report>, who: string): Totals
  {
    if rs == [] then Totals(0, 0, 0) else Add(Original(rs[..|rs| - 1], who), rs[|rs| - 1], who)
  }

  function Add(t: Totals, r: Report, who: string): Totals
  {
    if r.user != who then t
    else Totals(t.reports + 1, t.active + One(Says(r.event, "active")), t.arrive + One(Says(r.event, "forces_arrival_at_scene")))
  }

  lemma TidyMarks(r: Report, key: string)
    requires Tidy(r)
    ensures |Marked(r.event.info, key)| == One(Says(r.event, key))
  {
    forall k | k in r.event.info ensures Trim(Cpp, k) == k && Trim(Cpp, r.event.info[k]) == r.event.info[k] {
      TrimOfTrimmed(Cpp, k);
      TrimOfTrimmed(Cpp, r.event.info[k]);
    }
    assert Marked(r.event.info, key) == if Says(r.event, key) then {key} else {};
  }

  // The totals a summary writes for a user are the number of the user's
  // reports, of those with active = true, and of those with
  // forces_arrival_at_scene = true.
  lemma {:induction false} SummaryTotals(rs: seq<Report>, who: string)
    requires forall i :: 0 <= i < |rs| ==> ColonFree(rs[i].user, rs[i].event) && Tidy(rs[i])
    requires Trimmed(Cpp, who)
    ensures Count(ReceivedAll(rs), who) == Original(rs, who)
  {
    if rs != [] {
      var n := |rs| - 1;
      SummaryTotals(rs[..n], who);
      assert ReceivedAll(rs)[..n] == ReceivedAll(rs[..n]);
      var t := Original(rs[..n], who);
      ReportCounts(t, rs[n].user, rs[n].event, who);
      TidyAdd(t, rs[n], who);
      assert Original(rs, who) == Add(t, rs[n], who);
    }
  }

  lemma TidyAdd(t: Totals, r: Report, who: string)
    requires Tidy(r) && Trimmed(Cpp, who)
    ensures Plus(t, r.event.(owner := r.user), who) == Add(t, r, who)
  {
    TidyMarks(r, ACTIVE);
    TidyMarks(r, ARRIVE);
    TrimOfTrimmed(Cpp, who);
    TrimOfTrimmed(Cpp, r.user);
  }

  // ------------------------------------------------ blanks make no difference

  predicate Padded(s: string, t: string, pre: string, post: string)
  {
    t == pre + s + post && AllBlank(Cpp, pre) && AllBlank(Cpp, post)
  }

  lemma PaddedTrims(s: string, t: string, pre: string, post: string)
    requires Padded(s, t, pre, post)
    ensures Trim(Cpp, t) == Trim(Cpp, s)
  {
    TrimPadded(Cpp, pre, s, post);
  }

  // Around the name of the author or of the user asked for.
  lemma NamePadded(t: Totals, e: Event, owner: string, who: string, who': string, pre: string, post: string, pre': string, post': string)
    requires Padded(e.owner, owner, pre, post) && Padded(who, who', pre', post')
    ensures Plus(t, e.(owner := owner), who') == Plus(t, e, who)
  {
    PaddedTrims(e.owner, owner, pre, post);
    PaddedTrims(who, who', pre', post');
  }

  // Around the key or the value of an entry.
  lemma EntryPadded(info: map<string, string>, k: string, k': string, v': string, pre: string, post: string, pre': string, post': string,
                    key: string)
    requires k in info && (k' in info ==> k' == k)
    requires Padded(k, k', pre, post) && Padded(info[k], v', pre', post')
    ensures |Marked((info - {k})[k' := v'], key)| == |Marked(info, key)|
  {
    PaddedTrims(k, k', pre, post);
    PaddedTrims(info[k], v', pre', post');
    OneExchanged(info, k, k', v', key, (info - {k})[k' := v']);
  }

  lemma OneExchanged(info: map<string, string>, k: string, k': string, v': string, key: string, after: map<string, string>)
    requires k in info && (k' in info ==> k' == k) && after == (info - {k})[k' := v']
    requires Trim(Cpp, k') == Trim(Cpp, k) && Trim(Cpp, v') == Trim(Cpp, info[k])
    ensures |Marked(after, key)| == |Marked(info, key)|
  {
    var s, t := Marked(info, key), Marked(after, key);
    forall x ensures x in t <==> x in (if k in s then s - {k} + {k'} else s) {
    }
    Exchanged(s, t, k, k');
  }

  lemma Exchanged(s: set<string>, t: set<string>, k: string, k': string)
    requires (k' in s ==> k' == k) && forall x :: x in t <==> x in (if k in s then s - {k} + {k'} else s)
    ensures |t| == |s|
  {
    assert t == if k in s then s - {k} + {k'} else s;
  }
}
