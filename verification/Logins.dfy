// Runs from the start in which a user comes back.
module Logins {
  import opened Text
  import opened Codec
  import opened Broker
  import opened Limits
  import Replies

  // The whole effect of the three frames.
  lemma FirstLogin(b: Broker, login: string, passcode: string, ch: Choice)
    requires b == Init().(handlers := {0, 1}) && Enumerates(ch.headerOrder, Connecting(login, passcode).headers.Keys)
    ensures Process(b, 0, Connecting(login, passcode), ch).broker == b.(users := map[login := User(passcode, true, 0)])
  {
    ConnectStep(b, 0, login, passcode, ch);
  }

  lemma LogoutStep(b: Broker, login: string, passcode: string, ch: Choice)
    requires b == Init().(handlers := {0, 1}, users := map[login := User(passcode, true, 0)])
    requires Enumerates(ch.headerOrder, Frame("DISCONNECT", map[], "").headers.Keys) && ch.found == login
    ensures Process(b, 0, Frame("DISCONNECT", map[], ""), ch).broker
         == Init().(handlers := {1}, users := map[login := User(passcode, false, 0)])
  {
    DropEffect(b, 0, Frame("DISCONNECT", map[], ""), ch);
    assert b.handlers - {0} == {1};
  }

  lemma SecondLogin(b: Broker, login: string, passcode: string, ch: Choice)
    requires b == Init().(handlers := {1}, users := map[login := User(passcode, false, 0)])
    requires Enumerates(ch.headerOrder, Connecting(login, passcode).headers.Keys)
    ensures Replies.Welcomed(Process(b, 1, Connecting(login, passcode), ch).out, 1)
    ensures Process(b, 1, Connecting(login, passcode), ch).broker.users == map[login := User(passcode, true, 1)]
  {
    Replies.ConnectAnswered(b, 1, Connecting(login, passcode), ch);
  }

  // A user logs in, logs out, and logs in again over another connection.
  lemma ReturningUser(login: string, passcode: string) returns (es: seq<Event>, out: seq<Delivery>)
    ensures LegalRun(es) && |es| > 0 && LegalRun(es[..|es| - 1]) && Legal(Run(es[..|es| - 1]), es[|es| - 1])
    ensures es[|es| - 1].Inbound? && es[|es| - 1].c == 1 && es[|es| - 1].frame == Connecting(login, passcode)
    ensures Run(es[..|es| - 1]).broker.users == map[login := User(passcode, false, 0)]
    ensures out == StepOut(Run(es[..|es| - 1]), es[|es| - 1]) && Replies.Welcomed(out, 1)
    ensures Run(es).broker.users == map[login := User(passcode, true, 1)]
  {
    var before := LoggedOutAgain(login, passcode);
    var b, ch := Run(before).broker, Choice([], [], "");
    es, ch := SendFinding(before, 1, Connecting(login, passcode), login);
    assert es[..|es| - 1] == before;
    SecondLogin(b, login, passcode, ch);
    out := StepOut(Run(before), es[|es| - 1]);
  }

  lemma LoggedOutAgain(login: string, passcode: string) returns (es: seq<Event>)
    ensures LegalRun(es) && Run(es).seen == {0, 1}
    ensures Run(es).broker == Init().(handlers := {1}, users := map[login := User(passcode, false, 0)])
  {
    var ch;
    es := TwoAccepted();
    var b := Run(es).broker;
    es, ch := SendFinding(es, 0, Connecting(login, passcode), "");
    FirstLogin(b, login, passcode, ch);
    b := Run(es).broker;
    es, ch := SendFinding(es, 0, Frame("DISCONNECT", map[], ""), login);
    LogoutStep(b, login, passcode, ch);
  }
}
