/** Runs of store transactions, the session layer's role checks, and the start-up admin bootstrap. */
module SpaceRuns {
  import opened Spaces

  ghost predicate IsRun(run: seq<Tables>, txs: seq<Tx>)
  {
    && |run| == |txs| + 1
    && forall i :: 0 <= i < |txs| ==> FreshIds(run[i], txs[i]) && run[i + 1] == Run(run[i], txs[i]).0
  }

  /** After any transactions with any arguments, however stale the checks that preceded them, each space has exactly one
      owner row, that of owner_user_id, and every cached count is right. */
  lemma {:induction false} RunsKeepSpaces(run: seq<Tables>, txs: seq<Tx>, n: nat)
    requires IsRun(run, txs) && OneOwner(run[0]) && CountsRight(run[0]) && n < |run|
    ensures OneOwner(run[n]) && CountsRight(run[n])
    decreases n
  {
    if n == 0 {
    } else {
      RunsKeepSpaces(run, txs, n - 1);
      TxKeepsOneOwner(run[n - 1], txs[n - 1]);
      TxKeepsCounts(run[n - 1], txs[n - 1]);
    }
  }

  /** What the cached counts of a space and of a channel stand for: unbanned rows, open channels and seats. */
  lemma CountsMean(s: Tables)
    requires CountsRight(s)
    ensures forall sp :: sp in s.spaces ==>
              && s.spaces[sp].memberCount == |set k | k in s.members && k.space == sp && !s.members[k].banned|
              && s.spaces[sp].channelCount == |set c | c in s.channels && s.channels[c].space == sp && s.channels[c].isOpen|
    ensures forall c :: c in s.channels ==>
              s.channels[c].memberCount == s.channels[c].subscriberCount == |set k | k in s.seats && k.channel == c|
  {
    forall sp | sp in s.spaces
      ensures Unbanned(s.members, sp) == set k | k in s.members && k.space == sp && !s.members[k].banned
      ensures OpenChannels(s.channels, sp) == set c | c in s.channels && s.channels[c].space == sp && s.channels[c].isOpen
    {
    }
    forall c | c in s.channels ensures SeatsOf(s.seats, c) == set k | k in s.seats && k.channel == c {
    }
  }

  lemma OwnerUnique(s: Tables, sp: nat, user: nat)
    requires OneOwner(s) && sp in s.spaces
    ensures (MemberKey(sp, user) in s.members && s.members[MemberKey(sp, user)].role == Owner)
            <==> user == s.spaces[sp].owner
  {
    assert HasOwner(s, sp);
  }

  /** A banned user stays banned through every join, invite, kick, role change and repeated ban, until an unban of that
      user in that space succeeds. */
  lemma {:induction false} BanLasts(run: seq<Tables>, txs: seq<Tx>, sp: nat, user: nat, n: nat)
    requires IsRun(run, txs) && OneOwner(run[0]) && CountsRight(run[0]) && n < |run|
    requires Banned(run[0], sp, user)
    requires forall i :: 0 <= i < n ==> !Unbans(run[i], txs[i], sp, user)
    ensures Banned(run[n], sp, user)
    decreases n
  {
    if n == 0 {
    } else {
      BanLasts(run, txs, sp, user, n - 1);
      RunsKeepSpaces(run, txs, n - 1);
      BanLiftedOnlyByUnban(run[n - 1], txs[n - 1], sp, user);
    }
  }

  lemma {:induction false} SpaceStays(run: seq<Tables>, txs: seq<Tx>, sp: nat, n: nat)
    requires IsRun(run, txs) && sp in run[0].spaces && n < |run|
    ensures sp in run[n].spaces
    decreases n
  {
    if n == 0 {
    } else {
      SpaceStays(run, txs, sp, n - 1);
    }
  }

  lemma {:induction false} SafeTransfersStep(run: seq<Tables>, txs: seq<Tx>, sp: nat, n: nat)
    requires IsRun(run, txs) && OneOwner(run[0]) && CountsRight(run[0]) && n < |run|
    requires sp in run[0].spaces && !OwnerBanned(run[0], sp)
    requires forall i :: 0 <= i < n ==> !TransfersToBanned(run[i], txs[i], sp)
    ensures sp in run[n].spaces && !OwnerBanned(run[n], sp)
    decreases n
  {
    if n == 0 {
    } else {
      SafeTransfersStep(run, txs, sp, n - 1);
      RunsKeepSpaces(run, txs, n - 1);
      OwnerBecomesBanned(run[n - 1], txs[n - 1], sp);
    }
  }

  /** The owner of a space is never banned in a run exactly when no transaction of the run hands the space to a banned
      row. */
  lemma OwnerNeverBannedIff(run: seq<Tables>, txs: seq<Tx>, sp: nat)
    requires IsRun(run, txs) && OneOwner(run[0]) && CountsRight(run[0])
    requires sp in run[0].spaces && !OwnerBanned(run[0], sp)
    ensures forall i :: 0 <= i < |run| ==> sp in run[i].spaces
    ensures (forall i :: 0 <= i < |run| ==> !OwnerBanned(run[i], sp))
            <==> (forall j :: 0 <= j < |txs| ==> !TransfersToBanned(run[j], txs[j], sp))
  {
    forall i | 0 <= i < |run| ensures sp in run[i].spaces {
      SpaceStays(run, txs, sp, i);
    }
    if forall j :: 0 <= j < |txs| ==> !TransfersToBanned(run[j], txs[j], sp) {
      forall i | 0 <= i < |run| ensures !OwnerBanned(run[i], sp) {
        SafeTransfersStep(run, txs, sp, i);
      }
    } else {
      var j :| 0 <= j < |txs| && TransfersToBanned(run[j], txs[j], sp);
      RunsKeepSpaces(run, txs, j);
      if !OwnerBanned(run[j], sp) {
        OwnerBecomesBanned(run[j], txs[j], sp);
        assert OwnerBanned(run[j + 1], sp);
      }
    }
  }

  // ---------- the session layer ----------

  datatype MaybeRole = NoRole | Has(role: Role)

  /** A banned row reads as no membership at all. */
  function GetMemberRole(s: Tables, sp: nat, user: nat): MaybeRole
  {
    var k := MemberKey(sp, user);
    if sp in s.spaces && k in s.members && !s.members[k].banned then Has(s.members[k].role) else NoRole
  }

  /** What a client may ask for; fresh ids come from the database. */
  datatype Ask =
    | NewSpace(sp: nat, name: string, isPublic: bool)
    | NewChannel(sp: nat, c: nat, name: string)
    | Join(sp: nat)
    | Invite(sp: nat, target: nat)
    | KickOut(sp: nat, target: nat)
    | BanUser(sp: nat, target: nat)
    | UnbanUser(sp: nat, target: nat)
    | ChangeRole(sp: nat, target: nat, role: Role)
    | AllowChannels(sp: nat, allow: bool)

  /** The transaction the handler runs for the authenticated `actor`; `globalAdmin` is whether the actor's peer id is the
      configured site admin. */
  function TxOf(actor: nat, globalAdmin: bool, ask: Ask): Tx
  {
    match ask
    case NewSpace(sp, name, isPublic) => CreateSpace(sp, actor, name, if isPublic then Public else Private, true)
    case NewChannel(sp, c, name) => CreateChannel(sp, actor, c, name, globalAdmin)
    case Join(sp) => AddMember(sp, actor, true)
    case Invite(sp, target) => AddMember(sp, target, false)
    case KickOut(sp, target) => Kick(sp, target)
    case BanUser(sp, target) => Ban(sp, target)
    case UnbanUser(sp, target) => Unban(sp, target)
    case ChangeRole(sp, target, role) => SetRole(sp, target, role)
    case AllowChannels(sp, allow) => SetAllow(sp, allow)
  }

  /** The role check in front of the transaction; `Done` lets it through. */
  function Check(s: Tables, actor: nat, globalAdmin: bool, ask: Ask): Outcome
  {
    match ask
    case NewSpace(_, _, _) => if globalAdmin then Done else NotGlobalAdmin
    case NewChannel(_, _, _) => Done
    case Join(_) => Done
    case _ =>
      match GetMemberRole(s, ask.sp, actor)
      case NoRole => NotFound
      case Has(role) =>
        if ask.ChangeRole? && ask.role == Owner then (if role == Owner then Done else OwnerRequired)
        else if role == Owner || role == Admin then Done
        else AdminRequired
  }

  function Handle(s: Tables, actor: nat, globalAdmin: bool, ask: Ask): (Tables, Outcome)
  {
    var verdict := Check(s, actor, globalAdmin, ask);
    if verdict == Done then Run(s, TxOf(actor, globalAdmin, ask)) else (s, verdict)
  }

  datatype Event =
    | Request(actor: nat, globalAdmin: bool, ask: Ask)
    | Bootstrap(sp: nat, user: nat)

  /** Invites and promotes the configured admin when its role is missing or too low; stops at the first refusal. */
  function EnsureAdmin(s: Tables, sp: nat, user: nat): (Tables, Outcome)
  {
    match GetMemberRole(s, sp, user)
    case NoRole =>
      var (s1, invited) := AddMemberTx(s, sp, user, false);
      if invited != Done then (s1, invited) else SetRoleTx(s1, sp, user, Admin)
    case Has(role) => if role == Owner || role == Admin then (s, Done) else SetRoleTx(s, sp, user, Admin)
  }

  function After(s: Tables, e: Event): Tables
  {
    match e
    case Request(actor, globalAdmin, ask) => Handle(s, actor, globalAdmin, ask).0
    case Bootstrap(sp, user) => EnsureAdmin(s, sp, user).0
  }

  predicate Servable(s: Tables, e: Event)
  {
    e.Request? ==> FreshIds(s, TxOf(e.actor, e.globalAdmin, e.ask))
  }

  ghost predicate IsServed(run: seq<Tables>, events: seq<Event>)
  {
    && |run| == |events| + 1
    && (forall i :: 0 <= i < |events| ==> Servable(run[i], events[i]))
    && (forall i :: 0 <= i < |events| ==> run[i + 1] == After(run[i], events[i]))
  }

  lemma EventKeepsOneOwner(s: Tables, e: Event)
    requires OneOwner(s) && Servable(s, e)
    ensures OneOwner(After(s, e))
  {
    match e {
      case Request(actor, globalAdmin, ask) => TxKeepsOneOwner(s, TxOf(actor, globalAdmin, ask));
      case Bootstrap(sp, user) =>
        TxKeepsOneOwner(s, AddMember(sp, user, false));
        TxKeepsOneOwner(s, SetRole(sp, user, Admin));
        TxKeepsOneOwner(AddMemberTx(s, sp, user, false).0, SetRole(sp, user, Admin));
    }
  }

  ghost predicate StuckOn(s: Tables, sp: nat, owner: nat)
  {
    sp in s.spaces && s.spaces[sp].owner == owner && Banned(s, sp, owner)
  }

  /** Only a transfer out of the space moves it off a banned owner. */
  lemma TxKeepsStuck(s: Tables, tx: Tx, sp: nat, owner: nat)
    requires FreshIds(s, tx) && StuckOn(s, sp, owner)
    requires !(tx.SetRole? && tx.sp == sp && tx.role == Owner && tx.user != owner)
    ensures StuckOn(Run(s, tx).0, sp, owner)
  {
  }

  /** And no actor passes the check for one: the only row with the owner role is banned. */
  lemma NobodyMayTransfer(s: Tables, actor: nat, globalAdmin: bool, ask: Ask, sp: nat, owner: nat)
    requires OneOwner(s) && StuckOn(s, sp, owner) && ask.ChangeRole? && ask.sp == sp && ask.role == Owner
    ensures Check(s, actor, globalAdmin, ask) != Done
  {
    OwnerUnique(s, sp, actor);
  }

  lemma RequestKeepsStuck(s: Tables, actor: nat, globalAdmin: bool, ask: Ask, sp: nat, owner: nat)
    requires OneOwner(s) && Servable(s, Request(actor, globalAdmin, ask)) && StuckOn(s, sp, owner)
    ensures StuckOn(Handle(s, actor, globalAdmin, ask).0, sp, owner)
  {
    if ask.ChangeRole? && ask.sp == sp && ask.role == Owner {
      NobodyMayTransfer(s, actor, globalAdmin, ask, sp, owner);
    } else {
      TxKeepsStuck(s, TxOf(actor, globalAdmin, ask), sp, owner);
    }
  }

  lemma BootstrapKeepsStuck(s: Tables, at: nat, user: nat, sp: nat, owner: nat)
    requires OneOwner(s) && StuckOn(s, sp, owner)
    ensures StuckOn(EnsureAdmin(s, at, user).0, sp, owner)
  {
    assert HasOwner(s, sp);
  }

  /** A banned owner is absorbing: no later handler and no bootstrap changes the owner or lifts the ban. */
  lemma {:induction false} BannedOwnerAbsorbs(run: seq<Tables>, events: seq<Event>, sp: nat, n: nat)
    requires IsServed(run, events) && OneOwner(run[0]) && n < |run|
    requires sp in run[0].spaces && OwnerBanned(run[0], sp)
    ensures OneOwner(run[n])
    ensures sp in run[n].spaces && run[n].spaces[sp].owner == run[0].spaces[sp].owner && OwnerBanned(run[n], sp)
    decreases n
  {
    if n == 0 {
    } else {
      BannedOwnerAbsorbs(run, events, sp, n - 1);
      var s, e, owner := run[n - 1], events[n - 1], run[0].spaces[sp].owner;
      EventKeepsOneOwner(s, e);
      assert StuckOn(s, sp, owner);
      match e {
        case Request(actor, globalAdmin, ask) => RequestKeepsStuck(s, actor, globalAdmin, ask, sp, owner);
        case Bootstrap(at, user) => BootstrapKeepsStuck(s, at, user, sp, owner);
      }
    }
  }

  /** Three requests of one owner, each allowed, end with a banned owner: create a space, ban a user, hand it over. */
  lemma BannedOwnerReachable()
    ensures var s0 := Tables(map[], map[], map[], map[]);
            var s1 := Handle(s0, 1, true, NewSpace(9, "s", true)).0;
            var (s2, banned) := Handle(s1, 1, true, BanUser(9, 2));
            var (s3, moved) := Handle(s2, 1, true, ChangeRole(9, 2, Owner));
            && banned == Done && moved == Done
            && 9 in s3.spaces && s3.spaces[9].owner == 2 && OwnerBanned(s3, 9)
  {
    var s0 := Tables(map[], map[], map[], map[]);
    var s1 := Handle(s0, 1, true, NewSpace(9, "s", true)).0;
    assert s1.members == map[MemberKey(9, 1) := MemberRow(Owner, false)];
    assert s1.spaces[9].owner == 1;
    var s2 := Handle(s1, 1, true, BanUser(9, 2)).0;
    assert s2.members[MemberKey(9, 2)] == MemberRow(Member, true);
    assert s2.members[MemberKey(9, 1)] == MemberRow(Owner, false);
  }
}
