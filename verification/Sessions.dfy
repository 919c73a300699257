// Login sessions over whole runs.
module Sessions {
  import opened Text
  import opened Codec
  import opened Broker
  import Replies

  // Event `e`, met in state `b`, logs `login` in.
  predicate LogsIn(b: Broker, e: Event, login: string)
  {
    e.Inbound? && e.frame.command == "CONNECT" && MayLogIn(b.users, e.frame)
      && e.frame.headers["login"] == login
  }

  // Event `e`, met in state `b`, ends connection `c`.
  predicate Ends(b: Broker, e: Event, c: int)
  {
    e.Inbound? && e.c == c && Drops(b, c, e.frame)
  }

  ghost predicate LogsInAt(es: seq<Event>, i: nat, login: string)
    requires LegalRun(es) && i < |es|
  {
    LogsIn(At(es, i).broker, es[i], login)
  }

  ghost predicate EndsAt(es: seq<Event>, i: nat, c: int)
    requires LegalRun(es) && i < |es|
  {
    Ends(At(es, i).broker, es[i], c)
  }

  lemma UsersStep(b: Broker, e: Event, login: string)
    requires e.Inbound? && LegalChoice(b, e.c, e.frame, e.choice)
    ensures var users := Process(b, e.c, e.frame, e.choice).broker.users;
      && (login in b.users ==> login in users && users[login].password == b.users[login].password)
      && (login in users && login !in b.users ==> LogsIn(b, e, login))
      && (LogsIn(b, e, login) ==>
            login in users && users[login].connected && users[login].connectionId == e.c
            && (login in b.users ==> !b.users[login].connected)
            && users[login].password == e.frame.headers["passcode"])
      && (login in b.users && !LogsIn(b, e, login) ==>
            users[login] == if Drops(b, e.c, e.frame) && login == e.choice.found && b.users[login].connectionId == e.c
                            then b.users[login].(connected := false) else b.users[login])
  {
    ProcessEffect(b, e.c, e.frame, e.choice);
  }

  // After `n` events: `login` is held by `c`, or `c` was ended after event i.
  ghost predicate HeldSince(es: seq<Event>, i: nat, n: nat, login: string)
    requires LegalRun(es) && i < n <= |es| && es[i].Inbound? && "passcode" in es[i].frame.headers
  {
    var users := At(es, n).broker.users;
    && login in users && users[login].password == es[i].frame.headers["passcode"]
    && ((users[login].connected && users[login].connectionId == es[i].c)
        || exists k :: i < k < n && EndsAt(es, k, es[i].c))
  }

  // From a login on, the passcode stays, and the session stays with its
  // connection until that connection ends.
  lemma {:induction false} SessionHolds(es: seq<Event>, i: nat, n: nat, login: string)
    requires LegalRun(es) && i < n <= |es| && LogsInAt(es, i, login)
    ensures HeldSince(es, i, n, login)
  {
    var m := n - 1;
    AtStep(es, m);
    if i < m {
      SessionHolds(es, i, m, login);
    }
    if es[m].Inbound? {
      UsersStep(At(es, m).broker, es[m], login);
      if i < m && !(exists k :: i < k < m && EndsAt(es, k, es[i].c)) {
        assert At(es, n).broker.users[login] == At(es, m).broker.users[login] || EndsAt(es, m, es[i].c);
      }
    }
  }

  // Between two logins under one name the connection that held the first was
  // ended, and every login after the first gives the same passcode.
  lemma SessionsExclusive(es: seq<Event>, i: nat, j: nat, login: string)
    requires LegalRun(es) && i < j < |es| && LogsInAt(es, i, login) && LogsInAt(es, j, login)
    ensures es[j].frame.headers["passcode"] == es[i].frame.headers["passcode"]
    ensures exists k :: i < k < j && EndsAt(es, k, es[i].c)
  {
    AtStep(es, j);
    SessionHolds(es, i, j, login);
  }

  // ------------------------------------- connections that log in only once

  // Before event `n` no connection got through a second CONNECT.
  ghost predicate LoginsOnce(es: seq<Event>, n: nat)
    requires LegalRun(es) && n <= |es|
  {
    forall i, j, u, v :: 0 <= i < j < n && LogsInAt(es, i, u) && LogsInAt(es, j, v) ==> es[i].c != es[j].c
  }

  // Event `i` is the latest login under the name `u` before event `n`.
  ghost predicate LatestLogin(es: seq<Event>, i: nat, n: nat, u: string)
    requires LegalRun(es) && i < n <= |es|
  {
    LogsInAt(es, i, u) && forall j :: i < j < n ==> !LogsInAt(es, j, u)
  }

  // The user table names the connection of the latest login.
  lemma {:induction false} TableShowsLatest(es: seq<Event>, n: nat, u: string) returns (i: nat)
    requires LegalRun(es) && n <= |es| && u in At(es, n).broker.users
    ensures i < n && LatestLogin(es, i, n, u) && At(es, n).broker.users[u].connectionId == es[i].c
  {
    if n == 0 {
      assert false;
    } else {
      var m := n - 1;
      AtStep(es, m);
      if es[m].Inbound? {
        UsersStep(At(es, m).broker, es[m], u);
      }
      if LogsInAt(es, m, u) {
        i := m;
      } else {
        i := TableShowsLatest(es, m, u);
      }
    }
  }

  // If no connection logs in twice, different users always show different
  // connections.
  lemma ConnectionsDistinct(es: seq<Event>, n: nat, u: string, v: string)
    requires LegalRun(es) && n <= |es| && LoginsOnce(es, n)
    requires u in At(es, n).broker.users && v in At(es, n).broker.users && u != v
    ensures At(es, n).broker.users[u].connectionId != At(es, n).broker.users[v].connectionId
  {
    var i := TableShowsLatest(es, n, u);
    var j := TableShowsLatest(es, n, v);
    if i < j {
      assert LogsInAt(es, i, u) && LogsInAt(es, j, v);
    } else if j < i {
      assert LogsInAt(es, j, v) && LogsInAt(es, i, u);
    }
  }

  // Then ending `c` logs out exactly the user whose latest login was made by
  // `c`, and so never a later session; everyone else stays as they were.
  lemma LogoutExact(es: seq<Event>, n: nat, c: int, u: string)
    requires LegalRun(es) && n < |es| && LoginsOnce(es, n) && EndsAt(es, n, c)
    requires u in At(es, n).broker.users
    ensures var before, after := At(es, n).broker.users[u], At(es, n + 1).broker.users;
      u in after && after[u] == if before.connectionId == c then before.(connected := false) else before
    ensures At(es, n).broker.users[u].connectionId == c <==>
      exists i :: 0 <= i < n && LatestLogin(es, i, n, u) && es[i].c == c
  {
    var b := At(es, n).broker;
    var i := TableShowsLatest(es, n, u);
    AtStep(es, n);
    UsersStep(b, es[n], u);
    if b.users[u].connectionId == c {
      OnlyOne(es, n, c, u, es[n].choice.found);
    }
  }

  // The user that a logout finds.
  lemma OnlyOne(es: seq<Event>, n: nat, c: int, u: string, found: string)
    requires LegalRun(es) && n <= |es| && LoginsOnce(es, n)
    requires LegalFound(At(es, n).broker.users, c, found)
    requires u in At(es, n).broker.users && At(es, n).broker.users[u].connectionId == c
    ensures found == u
  {
    if found != u {
      ConnectionsDistinct(es, n, u, found);
    }
  }

  // ---------------------------------------------------- who gets in, over runs

  // Event `n` is a CONNECT with both headers.
  predicate AsksAt(es: seq<Event>, n: nat)
    requires n < |es|
  {
    && es[n].Inbound? && es[n].frame.command == "CONNECT"
    && "login" in es[n].frame.headers && "passcode" in es[n].frame.headers
  }

  // The user is logged out after event `k` and stays so until the next login.
  lemma {:induction false} StaysOut(es: seq<Event>, k: nat, n: nat, u: string)
    requires LegalRun(es) && k < n <= |es| && forall j :: k < j < n ==> !LogsInAt(es, j, u)
    requires u in At(es, k + 1).broker.users && !At(es, k + 1).broker.users[u].connected
    ensures u in At(es, n).broker.users && !At(es, n).broker.users[u].connected
  {
    if k + 1 < n {
      var m := n - 1;
      StaysOut(es, k, m, u);
      AtStep(es, m);
      assert !LogsInAt(es, m, u);
      if es[m].Inbound? {
        UsersStep(At(es, m).broker, es[m], u);
      }
    }
  }

  // The end of the connection that made the latest login logs the user out.
  lemma EndedIsOut(es: seq<Event>, i: nat, k: nat, n: nat, u: string)
    requires LegalRun(es) && i < k < n <= |es| && LoginsOnce(es, n)
    requires LatestLogin(es, i, n, u) && EndsAt(es, k, es[i].c)
    ensures u in At(es, n).broker.users && !At(es, n).broker.users[u].connected
  {
    SessionHolds(es, i, k, u);
    var i' := TableShowsLatest(es, k, u);
    assert i' == i by {
      assert LogsInAt(es, i, u) && LogsInAt(es, i', u);
    }
    OnceBefore(es, k, n);
    NotItself(es, k, es[i].c, u);
    LogoutExact(es, k, es[i].c, u);
    StaysOut(es, k, n, u);
  }

  lemma OnceBefore(es: seq<Event>, k: nat, n: nat)
    requires LegalRun(es) && k <= n <= |es| && LoginsOnce(es, n)
    ensures LoginsOnce(es, k)
  {
  }

  // What ends a connection is no login.
  lemma NotItself(es: seq<Event>, k: nat, c: int, u: string)
    requires LegalRun(es) && k < |es| && EndsAt(es, k, c)
    ensures !LogsInAt(es, k, u)
  {
  }

  // Who gets in: while connections have logged in only once each, a CONNECT
  // with both headers logs its user in if and only if nobody has logged in
  // under that name, or the connection of the latest login has ended since and
  // the passcode is the one given then. A sender that can be reached is told so
  // by CONNECTED, and otherwise not.
  lemma LoginDecided(es: seq<Event>, n: nat)
    requires LegalRun(es) && n < |es| && LoginsOnce(es, n) && AsksAt(es, n)
    ensures LogsInAt(es, n, es[n].frame.headers["login"]) <==> LetIn(es, n)
    ensures es[n].c in At(es, n).broker.handlers ==> (Replies.Welcomed(OutAt(es, n), es[n].c) <==> LetIn(es, n))
  {
    var u, b := es[n].frame.headers["login"], At(es, n).broker;
    if u in b.users {
      KnownDecided(es, n, u);
    } else {
      NeverIn(es, n, u);
    }
    AtStep(es, n);
    ToldSo(b, es[n].c, es[n].frame, es[n].choice);
  }

  lemma ToldSo(b: Broker, c: int, f: Frame, ch: Choice)
    requires f.command == "CONNECT" && Enumerates(ch.headerOrder, f.headers.Keys)
    ensures c in b.handlers ==> (Replies.Welcomed(Process(b, c, f, ch).out, c) <==> MayLogIn(b.users, f))
  {
    if c in b.handlers {
      Replies.ConnectAnswered(b, c, f, ch);
    }
  }

  // What event `n` hands to connection handlers.
  ghost function OutAt(es: seq<Event>, n: nat): seq<Delivery>
    requires LegalRun(es) && n < |es|
  {
    AtStep(es, n);
    StepOut(At(es, n), es[n])
  }

  lemma KnownDecided(es: seq<Event>, n: nat, u: string)
    requires LegalRun(es) && n < |es| && LoginsOnce(es, n) && AsksAt(es, n) && es[n].frame.headers["login"] == u
    requires u in At(es, n).broker.users
    ensures LogsInAt(es, n, u) <==> LetIn(es, n)
  {
    var i := TableShowsLatest(es, n, u);
    SessionHolds(es, i, n, u);
    if k :| i < k < n && EndsAt(es, k, es[i].c) {
      EndedIsOut(es, i, k, n, u);
    }
    OneLatest(es, i, n, u);
    LetInIs(es, i, n, u);
  }

  // With a latest login, that is the one to look at.
  lemma LetInIs(es: seq<Event>, i: nat, n: nat, u: string)
    requires LegalRun(es) && i < n < |es| && AsksAt(es, n) && es[n].frame.headers["login"] == u && LatestLogin(es, i, n, u)
    requires forall j :: 0 <= j < n && LatestLogin(es, j, n, u) ==> j == i
    ensures LetIn(es, n) <==> EndedSince(es, i, n) && Passcode(es, i) == es[n].frame.headers["passcode"]
  {
  }

  ghost predicate LetIn(es: seq<Event>, n: nat)
    requires LegalRun(es) && n < |es| && AsksAt(es, n)
  {
    var login, passcode := es[n].frame.headers["login"], es[n].frame.headers["passcode"];
    || (forall i :: 0 <= i < n ==> !LogsInAt(es, i, login))
    || (exists i :: 0 <= i < n && LatestLogin(es, i, n, login) && EndedSince(es, i, n) && Passcode(es, i) == passcode)
  }

  ghost predicate EndedSince(es: seq<Event>, i: nat, n: nat)
    requires LegalRun(es) && i < n <= |es| && es[i].Inbound?
  {
    exists k :: i < k < n && EndsAt(es, k, es[i].c)
  }

  function Passcode(es: seq<Event>, i: nat): string
    requires i < |es|
  {
    if AsksAt(es, i) then es[i].frame.headers["passcode"] else ""
  }

  lemma OneLatest(es: seq<Event>, i: nat, n: nat, u: string)
    requires LegalRun(es) && i < n <= |es| && LatestLogin(es, i, n, u)
    ensures forall j :: 0 <= j < n && LatestLogin(es, j, n, u) ==> j == i
  {
  }

  lemma NeverIn(es: seq<Event>, n: nat, u: string)
    requires LegalRun(es) && n <= |es| && u !in At(es, n).broker.users
    ensures forall i :: 0 <= i < n ==> !LogsInAt(es, i, u)
  {
    forall i | 0 <= i < n ensures !LogsInAt(es, i, u) {
      if LogsInAt(es, i, u) {
        SessionHolds(es, i, n, u);
      }
    }
  }
}
