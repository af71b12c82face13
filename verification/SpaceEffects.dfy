/** What transactions do for the people they name, when they refuse, and what role a ban and its unban leave behind. */
module SpaceEffects {
  import opened Spaces
  import opened SpaceRuns

  // ---------- the role of a banned row ----------

  /** `user` hands the space to somebody else. */
  predicate Loses(s: Tables, tx: Tx, sp: nat, user: nat)
  {
    && tx.SetRole? && tx.sp == sp && tx.role == Owner && tx.user != user
    && sp in s.spaces && s.spaces[sp].owner == user && Run(s, tx).1 == Done
  }

  /** The role a transaction gives to the row of `user`, if it gives one: by a role change of that row, or by demoting it
      when the space is handed on. */
  function RoleMove(s: Tables, tx: Tx, sp: nat, user: nat): MaybeRole
  {
    if tx.SetRole? && tx.sp == sp && tx.user == user && Run(s, tx).1 == Done then Has(tx.role)
    else if Loses(s, tx, sp, user) then Has(Admin)
    else NoRole
  }

  /** A banned row that is not unbanned keeps its role unless it is moved. */
  lemma MoveLaw(s: Tables, tx: Tx, sp: nat, user: nat)
    requires sp in s.spaces && FreshIds(s, tx) && Banned(s, sp, user) && !Unbans(s, tx, sp, user)
    ensures Banned(Run(s, tx).0, sp, user)
    ensures Run(s, tx).0.members[MemberKey(sp, user)].role
         == match RoleMove(s, tx, sp, user) case Has(role) => role case NoRole => s.members[MemberKey(sp, user)].role
  {
    BanLiftedOnlyByUnban(s, tx, sp, user);
  }

  /** The moves of a run, one entry per transaction. */
  function Moves(run: seq<Tables>, txs: seq<Tx>, sp: nat, user: nat): seq<MaybeRole>
    requires |run| == |txs| + 1
  {
    seq(|txs|, i requires 0 <= i < |txs| => RoleMove(run[i], txs[i], sp, user))
  }

  ghost predicate NoMoves(moves: seq<MaybeRole>, lo: nat, hi: nat)
    requires hi <= |moves|
  {
    forall i :: lo <= i < hi ==> moves[i] == NoRole
  }

  /** The moves from `lo` up to `hi` leave `role` to a row that began as a plain member: the last one gave it, or there was
      none and it is the plain one. */
  ghost predicate Leaves(moves: seq<MaybeRole>, lo: nat, hi: nat, role: Role)
    requires hi <= |moves|
  {
    || (role == Member && NoMoves(moves, lo, hi))
    || (exists i: nat :: lo <= i < hi && moves[i] == Has(role) && NoMoves(moves, i + 1, hi))
  }

  lemma LeavesStep(moves: seq<MaybeRole>, lo: nat, hi: nat, role: Role)
    requires lo <= hi < |moves|
    ensures Leaves(moves, lo, hi + 1, role) <==>
              if moves[hi].Has? then role == moves[hi].role else Leaves(moves, lo, hi, role)
  {
    if moves[hi].Has? {
      assert NoMoves(moves, hi + 1, hi + 1);
    } else {
      forall i: nat | i <= hi ensures NoMoves(moves, i, hi + 1) <==> NoMoves(moves, i, hi) {
      }
      if Leaves(moves, lo, hi, role) && !(role == Member && NoMoves(moves, lo, hi)) {
        var i: nat :| lo <= i < hi && moves[i] == Has(role) && NoMoves(moves, i + 1, hi);
        assert NoMoves(moves, i + 1, hi + 1);
      }
    }
  }

  /** The row's role, banned or not. */
  function RoleOf(s: Tables, sp: nat, user: nat): MaybeRole
  {
    if MemberKey(sp, user) in s.members then Has(s.members[MemberKey(sp, user)].role) else NoRole
  }

  /** `tx` bans a user who was not banned. */
  predicate Bans(s: Tables, tx: Tx, sp: nat, user: nat)
  {
    tx == Ban(sp, user) && Run(s, tx).1 == Done && !Banned(s, sp, user)
  }

  lemma BanGivesMember(s: Tables, tx: Tx, sp: nat, user: nat)
    requires Bans(s, tx, sp, user)
    ensures Banned(Run(s, tx).0, sp, user) && RoleOf(Run(s, tx).0, sp, user) == Has(Member)
  {
  }

  lemma MoveAt(run: seq<Tables>, txs: seq<Tx>, sp: nat, user: nat, i: nat)
    requires IsRun(run, txs) && OneOwner(run[0]) && CountsRight(run[0]) && i < |txs|
    requires Banned(run[i], sp, user) && !Unbans(run[i], txs[i], sp, user)
    ensures Banned(run[i + 1], sp, user)
    ensures RoleOf(run[i + 1], sp, user)
         == if Moves(run, txs, sp, user)[i].Has? then Moves(run, txs, sp, user)[i] else RoleOf(run[i], sp, user)
  {
    RunsKeepSpaces(run, txs, i);
    MoveLaw(run[i], txs[i], sp, user);
  }

  lemma {:induction false} StaysBanned(run: seq<Tables>, txs: seq<Tx>, sp: nat, user: nat, m: nat, n: nat)
    requires IsRun(run, txs) && OneOwner(run[0]) && CountsRight(run[0]) && m <= n < |run|
    requires Banned(run[m], sp, user) && forall i :: m <= i < n ==> !Unbans(run[i], txs[i], sp, user)
    ensures Banned(run[n], sp, user)
    decreases n
  {
    if m == n {
    } else {
      StaysBanned(run, txs, sp, user, m, n - 1);
      MoveAt(run, txs, sp, user, n - 1);
    }
  }

  /** Each entry of `roles` follows from the one before it by the move between them. */
  ghost predicate Follows(roles: seq<MaybeRole>, moves: seq<MaybeRole>, lo: nat, hi: nat)
    requires |roles| == |moves| + 1 && hi <= |moves|
  {
    forall i :: lo <= i < hi ==> roles[i + 1] == if moves[i].Has? then moves[i] else roles[i]
  }

  lemma {:induction false} LastMoveDecides(roles: seq<MaybeRole>, moves: seq<MaybeRole>, lo: nat, hi: nat, role: Role)
    requires |roles| == |moves| + 1 && lo <= hi <= |moves| && roles[lo] == Has(Member) && Follows(roles, moves, lo, hi)
    ensures roles[hi] == Has(role) <==> Leaves(moves, lo, hi, role)
    decreases hi
  {
    if lo == hi {
      assert NoMoves(moves, lo, lo);
    } else {
      LastMoveDecides(roles, moves, lo, hi - 1, role);
      LeavesStep(moves, lo, hi - 1, role);
    }
  }

  lemma RoleSinceBan(run: seq<Tables>, txs: seq<Tx>, sp: nat, user: nat, b: nat, n: nat, role: Role)
    requires IsRun(run, txs) && OneOwner(run[0]) && CountsRight(run[0]) && b < n < |run|
    requires Bans(run[b], txs[b], sp, user)
    requires forall i :: b < i < n ==> !Unbans(run[i], txs[i], sp, user)
    ensures Banned(run[n], sp, user)
    ensures RoleOf(run[n], sp, user) == Has(role) <==> Leaves(Moves(run, txs, sp, user), b + 1, n, role)
  {
    var moves, roles := Moves(run, txs, sp, user), seq(|run|, i requires 0 <= i < |run| => RoleOf(run[i], sp, user));
    BanGivesMember(run[b], txs[b], sp, user);
    forall i | b < i <= n ensures Banned(run[i], sp, user) {
      StaysBanned(run, txs, sp, user, b + 1, i);
    }
    forall i | b < i < n ensures roles[i + 1] == if moves[i].Has? then moves[i] else roles[i] {
      MoveAt(run, txs, sp, user, i);
    }
    LastMoveDecides(roles, moves, b + 1, n, role);
  }

  /** Along any run, the user whose ban at `b` is lifted at `u` is a member at once, with exactly the role the last role
      change or demotion in between left; a plain member exactly when there was none or the last one left that role. */
  lemma RoleAfterUnban(run: seq<Tables>, txs: seq<Tx>, sp: nat, user: nat, b: nat, u: nat, role: Role)
    requires IsRun(run, txs) && OneOwner(run[0]) && CountsRight(run[0]) && b < u < |txs|
    requires Bans(run[b], txs[b], sp, user) && Unbans(run[u], txs[u], sp, user)
    requires forall i :: b < i < u ==> !Unbans(run[i], txs[i], sp, user)
    ensures GetMemberRole(run[u + 1], sp, user) == Has(role) <==> Leaves(Moves(run, txs, sp, user), b + 1, u, role)
  {
    RoleSinceBan(run, txs, sp, user, b, u, role);
    MembershipEffect(run[u], txs[u]);
  }

  /** Three requests the owner of any space may make of anybody else, a stranger included: ban, change the role, unban.
      They leave a member with that role. */
  lemma PromotedWhileBanned(s: Tables, sp: nat, owner: nat, user: nat, role: Role)
    requires GetMemberRole(s, sp, owner) == Has(Owner) && s.spaces[sp].owner == owner && user != owner && role != Owner
    ensures var (s1, banned) := Handle(s, owner, false, BanUser(sp, user));
            var (s2, moved) := Handle(s1, owner, false, ChangeRole(sp, user, role));
            var (s3, lifted) := Handle(s2, owner, false, UnbanUser(sp, user));
            && banned == Done && moved == Done && lifted == Done
            && GetMemberRole(s3, sp, user) == Has(role)
  {
    var s1 := Handle(s, owner, false, BanUser(sp, user)).0;
    assert GetMemberRole(s1, sp, owner) == Has(Owner) && s1.spaces[sp].owner == owner && Banned(s1, sp, user);
    var s2 := Handle(s1, owner, false, ChangeRole(sp, user, role)).0;
    assert GetMemberRole(s2, sp, owner) == Has(Owner) && s2.spaces[sp].owner == owner;
    assert s2.members[MemberKey(sp, user)] == MemberRow(role, true);
  }

  /** So a space of one owner can turn a stranger into an admin by banning and unbanning. */
  lemma StrangerBecomesAdmin()
    ensures var s := Handle(Tables(map[], map[], map[], map[]), 1, true, NewSpace(9, "s", true)).0;
            var s1 := Handle(s, 1, false, BanUser(9, 2)).0;
            var s2 := Handle(s1, 1, false, ChangeRole(9, 2, Admin)).0;
            var s3 := Handle(s2, 1, false, UnbanUser(9, 2)).0;
            GetMemberRole(s, 9, 2) == NoRole && GetMemberRole(s3, 9, 2) == Has(Admin)
  {
    var s := Handle(Tables(map[], map[], map[], map[]), 1, true, NewSpace(9, "s", true)).0;
    assert s.members == map[MemberKey(9, 1) := MemberRow(Owner, false)] && s.spaces[9].owner == 1;
    PromotedWhileBanned(s, 9, 1, 2, Admin);
  }

  // ---------- when transactions succeed, and for whom ----------

  predicate IsMember(s: Tables, sp: nat, user: nat)
  {
    GetMemberRole(s, sp, user).Has?
  }

  /** Every membership row but those of `users` in `sp` is as it was. */
  ghost predicate OnlyRowsOf(s: Tables, s': Tables, sp: nat, users: set<nat>)
  {
    forall k: MemberKey :: !(k.space == sp && k.user in users) ==>
      (k in s'.members <==> k in s.members) && (k in s.members ==> s'.members[k] == s.members[k])
  }

  /** Owners, settings, channels and seats are as they were; only cached counts may differ. */
  ghost predicate OnlyCounts(s: Tables, s': Tables)
  {
    && s'.spaces.Keys == s.spaces.Keys && s'.channels.Keys == s.channels.Keys && s'.seats == s.seats
    && (forall x :: x in s.spaces ==>
          s'.spaces[x] == s.spaces[x].(memberCount := s'.spaces[x].memberCount, channelCount := s'.spaces[x].channelCount))
    && (forall c :: c in s.channels ==>
          s'.channels[c] == s.channels[c].(memberCount := s'.channels[c].memberCount,
                                           subscriberCount := s'.channels[c].subscriberCount))
  }

  /** What the rows must say for a transaction on one membership to go through. */
  predicate Permits(s: Tables, tx: Tx)
    requires (tx.AddMember? || tx.Kick? || tx.Ban? || tx.Unban?) && tx.sp in s.spaces
  {
    match tx
    case AddMember(sp, user, publicOnly) =>
      !Banned(s, sp, user) && (IsMember(s, sp, user) || !publicOnly || s.spaces[sp].isPublic)
    case Kick(sp, user) => IsMember(s, sp, user) && user != s.spaces[sp].owner
    case Ban(sp, user) => user != s.spaces[sp].owner
    case Unban(sp, user) => MemberKey(sp, user) in s.members && user != s.spaces[sp].owner
  }

  /** When adding, kicking, banning and unbanning succeed, how the user then reads, and that nobody else is touched; a
      refusal touches nothing. */
  lemma MembershipEffect(s: Tables, tx: Tx)
    requires tx.AddMember? || tx.Kick? || tx.Ban? || tx.Unban?
    ensures var (s', r) := Run(s, tx);
            var sp, user := tx.sp, tx.user;
            && (r != Done ==> s' == s) && OnlyRowsOf(s, s', sp, {user})
            && (r == Done <==> sp in s.spaces && Permits(s, tx))
            && (r == Done ==>
                  match tx
                  case AddMember(_, _, _) =>
                    GetMemberRole(s', sp, user) == if IsMember(s, sp, user) then GetMemberRole(s, sp, user) else Has(Member)
                  case Kick(_, _) => MemberKey(sp, user) !in s'.members
                  case Ban(_, _) => Banned(s', sp, user)
                  case Unban(_, _) => GetMemberRole(s', sp, user) == Has(s.members[MemberKey(sp, user)].role))
  {
  }

  /** Neither does such a transaction touch anything but memberships and cached counts. */
  lemma MembershipFrame(s: Tables, tx: Tx)
    requires tx.AddMember? || tx.Kick? || tx.Ban? || tx.Unban?
    ensures OnlyCounts(s, Run(s, tx).0)
  {
    if Run(s, tx).0 != s {
      RefreshOnlyCounts(s, BeforeRefresh(s, tx), tx.sp);
    }
  }

  lemma RefreshOnlyCounts(s: Tables, mid: Tables, sp: nat)
    requires mid == s.(members := mid.members)
    ensures OnlyCounts(s, Refresh(mid, sp)) && Refresh(mid, sp).members == mid.members
  {
  }

  /** Roles other than owner go to any row but the owner's; the owner role moves, and leaves an admin behind. */
  lemma RoleEffect(s: Tables, sp: nat, user: nat, role: Role)
    requires OneOwner(s)
    ensures var (s', r) := SetRoleTx(s, sp, user, role);
            && (r == Done <==> sp in s.spaces && MemberKey(sp, user) in s.members
                               && (user == s.spaces[sp].owner ==> role == Owner))
            && (r != Done ==> s' == s)
            && (r == Done ==>
                  var was := s.spaces[sp].owner;
                  && s'.members[MemberKey(sp, user)] == s.members[MemberKey(sp, user)].(role := role)
                  && s'.spaces[sp].owner == (if role == Owner then user else was)
                  && (role == Owner && user != was ==>
                        && MemberKey(sp, was) in s'.members
                        && s'.members[MemberKey(sp, was)] == s.members[MemberKey(sp, was)].(role := Admin))
                  && OnlyRowsOf(s, s', sp, if role == Owner then {user, was} else {user})
                  && s'.channels == s.channels && s'.seats == s.seats
                  && s'.spaces == s.spaces[sp := s.spaces[sp].(owner := s'.spaces[sp].owner)])
  {
    assert sp in s.spaces ==> HasOwner(s, sp);
  }

  /** Who may create spaces' channels, and that the creator owns what was created and is alone in it. */
  lemma CreationEffect(s: Tables, tx: Tx)
    requires FreshIds(s, tx) && SeatsCounted(s) && (tx.CreateSpace? || tx.CreateChannel?)
    ensures var (s', r) := Run(s, tx);
            && (r != Done ==> s' == s)
            && (tx.CreateSpace? ==> (r == Done <==> tx.name != "" && tx.visibility != Unsupported))
            && (tx.CreateSpace? && r == Done ==>
                  && GetMemberRole(s', tx.sp, tx.user) == Has(Owner) && s'.spaces[tx.sp].owner == tx.user
                  && s'.spaces[tx.sp].isPublic == (tx.visibility == Public) && s'.spaces[tx.sp].allowChannels == tx.allow
                  && OnlyRowsOf(s, s', tx.sp, {tx.user}))
            && (tx.CreateChannel? ==>
                  (r == Done <==> tx.name != "" && (tx.bypass || (tx.sp in s.spaces && s.spaces[tx.sp].allowChannels))
                                  && GetMemberRole(s, tx.sp, tx.user) in {Has(Owner), Has(Admin)}))
            && (tx.CreateChannel? && r == Done ==>
                  && tx.c in s'.channels && s'.channels[tx.c] == ChannelRow(tx.sp, true, 1, 1) && s'.members == s.members
                  && SeatsOf(s'.seats, tx.c) == {Seat(tx.c, tx.user)} && s'.seats[Seat(tx.c, tx.user)] == Owner)
  {
    var s' := Run(s, tx).0;
    if tx.CreateChannel? && s' != s { assert SeatsOf(s'.seats, tx.c) == {Seat(tx.c, tx.user)}; }
  }

  /** Creating touches no other space, no other membership and no other seat, and of other channels at most the counts. */
  lemma CreationFrame(s: Tables, tx: Tx)
    requires FreshIds(s, tx) && (tx.CreateSpace? || tx.CreateChannel?)
    ensures var (s', r) := Run(s, tx);
            && (forall x :: x in s.spaces && x != tx.sp ==> x in s'.spaces && s'.spaces[x] == s.spaces[x])
            && s'.spaces.Keys == s.spaces.Keys + (if r == Done then {tx.sp} else {})
            && (forall c :: c in s.channels ==>
                  c in s'.channels && s'.channels[c].space == s.channels[c].space && s'.channels[c].isOpen == s.channels[c].isOpen)
            && (tx.CreateSpace? ==> s'.seats == s.seats && s'.channels.Keys == s.channels.Keys)
            && (tx.CreateChannel? && r == Done ==>
                  && s'.seats == s.seats[Seat(tx.c, tx.user) := Owner] && s'.channels.Keys == s.channels.Keys + {tx.c}
                  && s'.spaces[tx.sp] == s.spaces[tx.sp].(memberCount := s'.spaces[tx.sp].memberCount,
                                                          channelCount := s'.spaces[tx.sp].channelCount))
  {
  }

  /** Why a creation is refused. */
  lemma CreationRefusals(s: Tables, tx: Tx)
    requires tx.CreateSpace? || tx.CreateChannel?
    ensures var r := Run(s, tx).1;
            && (r == NameRequired <==> tx.name == "")
            && (tx.CreateSpace? ==> (r == BadVisibility <==> tx.name != "" && tx.visibility == Unsupported))
            && (tx.CreateChannel? ==>
                  var open := tx.name != "" && tx.sp in s.spaces;
                  var allowed := open && (s.spaces[tx.sp].allowChannels || tx.bypass);
                  && (r == CreationDisabled <==> open && !allowed)
                  && (r == NotFound <==> (tx.name != "" && !open) || (allowed && !IsMember(s, tx.sp, tx.user)))
                  && (r == AdminRequired <==> allowed && IsMember(s, tx.sp, tx.user) && !Administers(s, tx.sp, tx.user)))
  {
  }

  lemma SettingEffect(s: Tables, sp: nat, allow: bool)
    ensures var (s', r) := SetAllowTx(s, sp, allow);
            && (r == Done <==> sp in s.spaces) && (r != Done ==> r == NotFound && s' == s)
            && (r == Done ==> sp in s'.spaces && s'.spaces[sp].allowChannels == allow
                              && s'.(spaces := s'.spaces[sp := s.spaces[sp]]) == s
                              && s'.spaces[sp].(allowChannels := s.spaces[sp].allowChannels) == s.spaces[sp])
  {
    if sp in s.spaces {
      assert SetAllowTx(s, sp, allow).0.spaces[sp := s.spaces[sp]] == s.spaces;
    }
  }

  /** Why a transaction on a membership or a role is refused. */
  lemma Refusals(s: Tables, tx: Tx)
    requires tx.AddMember? || tx.Kick? || tx.Ban? || tx.Unban? || tx.SetRole?
    ensures var r := Run(s, tx).1;
            var known := tx.sp in s.spaces;
            var row := MemberKey(tx.sp, tx.user) in s.members;
            var owner := known && tx.user == s.spaces[tx.sp].owner;
            match tx
            case AddMember(sp, user, publicOnly) =>
              && (r == NotFound <==> !known)
              && (r == IsBanned <==> known && Banned(s, sp, user))
              && (r == IsPrivate <==> known && !row && publicOnly && !s.spaces[sp].isPublic)
              && r in {Done, NotFound, IsBanned, IsPrivate}
            case Kick(sp, user) =>
              && (r == OwnerProtected <==> owner)
              && (r == NotFound <==> !known || (!owner && !row))
              && (r == IsBanned <==> known && !owner && Banned(s, sp, user))
              && r in {Done, NotFound, IsBanned, OwnerProtected}
            case Ban(_, _) =>
              (r == NotFound <==> !known) && (r == OwnerProtected <==> owner) && r in {Done, NotFound, OwnerProtected}
            case Unban(_, _) =>
              && (r == OwnerProtected <==> owner)
              && (r == NotFound <==> !known || (!owner && !row))
              && r in {Done, NotFound, OwnerProtected}
            case SetRole(_, _, role) =>
              && (r == NotFound <==> !known || !row)
              && (r == OwnerProtected <==> owner && row && role != Owner)
              && r in {Done, NotFound, OwnerProtected}
  {
  }

  // ---------- who may ask for what ----------

  /** The actor's row in the space, if it has one and it is not banned, has that role. */
  predicate ActsAs(s: Tables, sp: nat, actor: nat, role: Role)
  {
    && sp in s.spaces && MemberKey(sp, actor) in s.members
    && !s.members[MemberKey(sp, actor)].banned && s.members[MemberKey(sp, actor)].role == role
  }

  predicate Administers(s: Tables, sp: nat, actor: nat)
  {
    ActsAs(s, sp, actor, Owner) || ActsAs(s, sp, actor, Admin)
  }

  /** A request that concerns a space's people or settings. */
  predicate Administrative(ask: Ask)
  {
    !ask.NewSpace? && !ask.NewChannel? && !ask.Join?
  }

  /** Whom the role check lets through: an unbanned owner or admin, for a transfer the owner alone. */
  predicate MayAsk(s: Tables, actor: nat, ask: Ask)
    requires Administrative(ask)
  {
    if ask.ChangeRole? && ask.role == Owner then ActsAs(s, ask.sp, actor, Owner) else Administers(s, ask.sp, actor)
  }

  /** An administrative request is refused, and changes nothing, exactly as the actor's row says; let through, it is the
      transaction on the user it names. */
  lemma HandleAdministers(s: Tables, actor: nat, globalAdmin: bool, ask: Ask)
    requires Administrative(ask)
    ensures var (s', r) := Handle(s, actor, globalAdmin, ask);
            && (s' != s ==> MayAsk(s, actor, ask))
            && (!MayAsk(s, actor, ask) ==>
                  && s' == s
                  && r == (if !IsMember(s, ask.sp, actor) then NotFound
                           else if ask.ChangeRole? && ask.role == Owner then OwnerRequired
                           else AdminRequired))
            && (MayAsk(s, actor, ask) ==>
                  match ask
                  case Invite(sp, target) => (s', r) == AddMemberTx(s, sp, target, false)
                  case KickOut(sp, target) => (s', r) == KickTx(s, sp, target)
                  case BanUser(sp, target) => (s', r) == BanTx(s, sp, target)
                  case UnbanUser(sp, target) => (s', r) == UnbanTx(s, sp, target)
                  case ChangeRole(sp, target, role) => (s', r) == SetRoleTx(s, sp, target, role)
                  case AllowChannels(sp, allow) => (s', r) == SetAllowTx(s, sp, allow)
                  case _ => true)
  {
  }

  /** Anybody may join, and then only a public space; only the site admin creates spaces, always open to channels; whoever
      asks for a channel needs to administer the space, and the site admin alone bypasses the setting. */
  lemma HandleOthers(s: Tables, actor: nat, globalAdmin: bool, ask: Ask)
    requires !Administrative(ask)
    ensures var (s', r) := Handle(s, actor, globalAdmin, ask);
            match ask
            case Join(sp) =>
              && (r == Done <==> sp in s.spaces && !Banned(s, sp, actor) && (s.spaces[sp].isPublic || IsMember(s, sp, actor)))
              && (r == Done ==> IsMember(s', sp, actor))
              && OnlyRowsOf(s, s', sp, {actor})
            case NewSpace(sp, name, isPublic) =>
              && (r == Done <==> globalAdmin && name != "") && (r == NotGlobalAdmin <==> !globalAdmin)
              && (r == Done ==> sp in s'.spaces && s'.spaces[sp].owner == actor && s'.spaces[sp].isPublic == isPublic
                                && s'.spaces[sp].allowChannels)
              && (r != Done ==> s' == s)
            case NewChannel(sp, c, name) =>
              && (r == Done <==> name != "" && Administers(s, sp, actor) && (globalAdmin || s.spaces[sp].allowChannels))
              && (r == Done ==> c in s'.channels && s'.channels[c].space == sp && Seat(c, actor) in s'.seats)
              && (r != Done ==> s' == s)
            case _ => true
  {
  }

  /** Start-up makes the configured user an admin unless that user is banned or the space is missing; an owner stays one. */
  lemma BootstrapEffect(s: Tables, sp: nat, user: nat)
    requires OneOwner(s)
    ensures var (s', r) := EnsureAdmin(s, sp, user);
            && (r == Done <==> sp in s.spaces && !Banned(s, sp, user))
            && (r == Done ==> GetMemberRole(s', sp, user) == if s.spaces[sp].owner == user then Has(Owner) else Has(Admin))
            && (r != Done ==> s' == s)
  {
    assert sp in s.spaces ==> HasOwner(s, sp);
    if GetMemberRole(s, sp, user) == NoRole {
      MembershipEffect(s, AddMember(sp, user, false));
    }
  }

  lemma BootstrapFrame(s: Tables, sp: nat, user: nat)
    ensures var s' := EnsureAdmin(s, sp, user).0;
            OnlyRowsOf(s, s', sp, {user}) && OnlyCounts(s, s')
  {
    var s1 := AddMemberTx(s, sp, user, false).0;
    MembershipFrame(s, AddMember(sp, user, false));
    MembershipEffect(s, AddMember(sp, user, false));
    PromotionFrame(s, sp, user);
    PromotionFrame(s1, sp, user);
  }

  lemma PromotionFrame(s: Tables, sp: nat, user: nat)
    ensures var s' := SetRoleTx(s, sp, user, Admin).0;
            OnlyRowsOf(s, s', sp, {user}) && s' == s.(members := s'.members)
  {
  }
}
