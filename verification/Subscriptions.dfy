/** The session manager's fan-out index and direct-session index. */
module Subscriptions {

  datatype MaybeUser = Anonymous | User(id: nat)

  /** The sessions fan-out copies for a key; a missing key reads as an empty set. */
  function Targets<S>(index: map<nat, set<S>>, c: nat): set<S>
  {
    if c in index then index[c] else {}
  }

  function Add<S>(index: map<nat, set<S>>, c: nat, s: S): map<nat, set<S>>
  {
    index[c := Targets(index, c) + {s}]
  }

  /** Deletes the member, and the key with it when nobody is left. */
  function Remove<S>(index: map<nat, set<S>>, c: nat, s: S): map<nat, set<S>>
  {
    if Targets(index, c) - {s} == {} then index - {c} else index[c := index[c] - {s}]
  }

  ghost predicate NoEmptyKey<S>(index: map<nat, set<S>>)
  {
    forall c :: c in index ==> index[c] != {}
  }

  lemma AddTargets<S>(index: map<nat, set<S>>, c: nat, s: S, d: nat)
    requires NoEmptyKey(index)
    ensures NoEmptyKey(Add(index, c, s))
    ensures Targets(Add(index, c, s), d) == Targets(index, d) + (if d == c then {s} else {})
  {
    assert s in Targets(index, c) + {s};
  }

  lemma RemoveTargets<S>(index: map<nat, set<S>>, c: nat, s: S, d: nat)
    requires NoEmptyKey(index)
    ensures NoEmptyKey(Remove(index, c, s))
    ensures Targets(Remove(index, c, s), d) == Targets(index, d) - (if d == c then {s} else {})
  {
  }

  class ConnSession {
    var subscribed: set<nat>
    var challenged: bool            // some challenge was issued to it
    var authUser: MaybeUser
    var outbox: seq<nat>            // ids of pushed messages
    ghost var registered: set<nat>  // users it was entered under in the direct-session index

    constructor ()
      ensures subscribed == {} && !challenged && authUser == Anonymous && outbox == [] && registered == {}
    {
      subscribed, challenged, authUser, outbox, registered := {}, false, Anonymous, [], {};
    }
  }

  class Manager {
    var subscriptions: map<nat, set<ConnSession>>
    var directSessions: map<nat, set<ConnSession>>
    ghost var live: set<ConnSession>

    /** Both directions of the agreement between the index and each live session. */
    ghost predicate Valid()
      reads this, live
    {
      && NoEmptyKey(subscriptions) && NoEmptyKey(directSessions)
      && (forall c :: Targets(subscriptions, c) <= live)
      && (forall s, c: nat :: s in live ==> (c in s.subscribed <==> s in Targets(subscriptions, c)))
      && (forall s, u: nat :: s in live ==> (u in s.registered <==> s in Targets(directSessions, u)))
    }

    constructor ()
      ensures Valid() && live == {} && subscriptions == map[] && directSessions == map[]
    {
      subscriptions, directSessions, live := map[], map[], {};
    }

    /** A stream handler starts. */
    method Connect() returns (s: ConnSession)
      requires Valid()
      modifies this`live
      ensures Valid() && fresh(s) && live == old(live) + {s}
      ensures s.subscribed == {} && s.registered == {} && !s.challenged && s.authUser == Anonymous && s.outbox == []
    {
      s := new ConnSession();
      live := live + {s};
    }

    method SubscribeChannel(s: ConnSession, c: nat)
      requires Valid() && s in live
      modifies this`subscriptions, s`subscribed
      ensures Valid()
      ensures subscriptions == Add(old(subscriptions), c, s) && s.subscribed == old(s.subscribed) + {c}
    {
      if c !in subscriptions {
        subscriptions := subscriptions[c := {}];
      }
      subscriptions := subscriptions[c := subscriptions[c] + {s}];
      s.subscribed := s.subscribed + {c};
      assert subscriptions == Add(old(subscriptions), c, s);
      forall d ensures Targets(subscriptions, d) == Targets(old(subscriptions), d) + (if d == c then {s} else {}) {
        AddTargets(old(subscriptions), c, s, d);
      }
    }

    method Unsubscribe(s: ConnSession, c: nat)
      requires Valid() && s in live
      modifies this`subscriptions, s`subscribed
      ensures Valid()
      ensures subscriptions == Remove(old(subscriptions), c, s) && s.subscribed == old(s.subscribed) - {c}
    {
      s.subscribed := s.subscribed - {c};
      if c in subscriptions {
        subscriptions := subscriptions[c := subscriptions[c] - {s}];
      }
      if c !in subscriptions || subscriptions[c] == {} {
        subscriptions := subscriptions - {c};
      }
      assert subscriptions == Remove(old(subscriptions), c, s);
      forall d ensures Targets(subscriptions, d) == Targets(old(subscriptions), d) - (if d == c then {s} else {}) {
        RemoveTargets(old(subscriptions), c, s, d);
      }
    }

    /** The answer to a hello is a challenge, if one can be issued, and the session remembers it. */
    method Hello(s: ConnSession, issued: bool)
      requires Valid() && s in live
      modifies s`challenged
      ensures Valid() && s.challenged == (old(s.challenged) || issued)
    {
      if issued { s.challenged := true; }
    }

    /** `proved` is the user a verification yields, if it succeeds. It replaces the session's user at once; without any
        challenge before, or without a proof, the session stays as it was. */
    method Authenticate(s: ConnSession, proved: MaybeUser) returns (ok: bool)
      requires Valid() && s in live
      modifies s`authUser
      ensures Valid() && (ok <==> s.challenged && proved.User?)
      ensures s.authUser == if ok then proved else old(s.authUser)
    {
      if !s.challenged { return false; }
      if proved == Anonymous { return false; }
      s.authUser := proved;
      ok := true;
    }

    method RegisterDirectUserSession(s: ConnSession)
      requires Valid() && s in live
      modifies this`directSessions, s`registered
      ensures Valid()
      ensures s.authUser == Anonymous ==> directSessions == old(directSessions)
      ensures s.authUser.User? ==>
                && directSessions == Add(old(directSessions), s.authUser.id, s)
                && s.registered == old(s.registered) + {s.authUser.id}
    {
      if s.authUser == Anonymous { return; }
      var u := s.authUser.id;
      if u !in directSessions {
        directSessions := directSessions[u := {}];
      }
      directSessions := directSessions[u := directSessions[u] + {s}];
      s.registered := s.registered + {u};
      assert directSessions == Add(old(directSessions), u, s);
      forall v ensures Targets(directSessions, v) == Targets(old(directSessions), v) + (if v == u then {s} else {}) {
        AddTargets(old(directSessions), u, s, v);
      }
    }

    /** The direct-index half of unregistering: only the last user's entry goes. */
    method ForgetDirect(s: ConnSession)
      requires Valid() && s in live
      modifies this`directSessions
      ensures NoEmptyKey(directSessions)
      ensures forall u :: Targets(directSessions, u) ==
                Targets(old(directSessions), u) - (if s.authUser == User(u) then {s} else {})
    {
      if s.authUser.User? {
        var u := s.authUser.id;
        if u in directSessions {
          directSessions := directSessions[u := directSessions[u] - {s}];
          if directSessions[u] == {} {
            directSessions := directSessions - {u};
          }
        }
        forall v { RemoveTargets(old(directSessions), u, s, v); }
      }
    }

    /** After the stream ends the session is in no channel set. In the direct index it stays under every user it was
        entered under other than its last one. */
    method UnregisterSession(s: ConnSession)
      requires Valid() && s in live
      modifies this
      ensures Valid() && live == old(live) - {s}
      ensures forall c :: Targets(subscriptions, c) == Targets(old(subscriptions), c) - {s}
      ensures forall u: nat :: s in Targets(directSessions, u) <==> u in s.registered && s.authUser != User(u)
      ensures forall u: nat :: Targets(directSessions, u) - {s} == Targets(old(directSessions), u) - {s}
    {
      ForgetDirect(s);
      label direct:
      var todo := s.subscribed;
      while todo != {}
        invariant todo <= s.subscribed
        invariant live == old(live) && directSessions == old@direct(directSessions)
        invariant NoEmptyKey(subscriptions)
        invariant forall c :: Targets(subscriptions, c) ==
                    Targets(old(subscriptions), c) - (if c in s.subscribed - todo then {s} else {})
        decreases todo
      {
        var c :| c in todo;
        ghost var before := subscriptions;
        if c in subscriptions {
          subscriptions := subscriptions[c := subscriptions[c] - {s}];
        }
        if c !in subscriptions || subscriptions[c] == {} {
          subscriptions := subscriptions - {c};
        }
        todo := todo - {c};
        forall d ensures Targets(subscriptions, d) == Targets(before, d) - (if d == c then {s} else {}) {
          RemoveTargets(before, c, s, d);
        }
      }
      live := live - {s};
    }

    /** Copies the targets under the read lock, then writes to each copy: exactly the sessions holding the channel are
        written to, once, and a write that fails costs nobody else the event. */
    method DeliverMessage(c: nat, msg: nat, broken: set<ConnSession>)
      requires Valid()
      modifies Targets(subscriptions, c)`outbox
      ensures Valid()
      ensures forall s :: s in live && c in s.subscribed && s !in broken ==> s.outbox == old(s.outbox) + [msg]
      ensures forall s :: s in live && (c !in s.subscribed || s in broken) ==> s.outbox == old(s.outbox)
    {
      var targets: seq<ConnSession> := [];
      var rest := Targets(subscriptions, c);
      while rest != {}
        invariant rest <= Targets(subscriptions, c)
        invariant forall s :: s in targets <==> s in Targets(subscriptions, c) - rest
        invariant forall i, j :: 0 <= i < j < |targets| ==> targets[i] != targets[j]
        decreases rest
      {
        var s :| s in rest;
        assert s !in targets;
        targets := targets + [s];
        rest := rest - {s};
      }
      for i := 0 to |targets|
        invariant forall j :: 0 <= j < i && targets[j] !in broken ==> targets[j].outbox == old(targets[j].outbox) + [msg]
        invariant forall s :: s in live && (s in broken || s !in targets[..i]) ==> s.outbox == old(s.outbox)
      {
        assert targets[i] in targets;
        if targets[i] !in broken {
          targets[i].outbox := targets[i].outbox + [msg];
        }
      }
      assert targets[..|targets|] == targets;
      forall s | s in live && c in s.subscribed && s !in broken ensures s.outbox == old(s.outbox) + [msg] {
        assert s in targets;
      }
    }
  }

  /** A stream that proves two users one after the other and then ends: it is gone, and still listed under the first. */
  method StaleEntryRemains() returns (m: Manager, s: ConnSession)
    ensures fresh(m) && fresh(s) && m.Valid()
    ensures s !in m.live && s in Targets(m.directSessions, 1)
  {
    m := new Manager();
    s := m.Connect();
    m.Hello(s, true);
    var first := m.Authenticate(s, User(1));
    m.RegisterDirectUserSession(s);
    var second := m.Authenticate(s, User(2));
    m.RegisterDirectUserSession(s);
    m.UnregisterSession(s);
  }
}
