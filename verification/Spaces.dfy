/** Spaces, memberships and channels: the store transactions and the role checks in front of them. */
module Spaces {

  datatype Role = Owner | Admin | Member | Subscriber

  datatype SpaceRow = SpaceRow(owner: nat, isPublic: bool, allowChannels: bool, memberCount: nat, channelCount: nat)

  datatype MemberKey = MemberKey(space: nat, user: nat)

  datatype MemberRow = MemberRow(role: Role, banned: bool)

  /** What a request to create a space may carry; only the first two are accepted. */
  datatype Visibility = Public | Private | Unsupported

  datatype ChannelRow = ChannelRow(space: nat, isOpen: bool, memberCount: nat, subscriberCount: nat)

  datatype Seat = Seat(channel: nat, user: nat)

  datatype Tables = Tables(
    spaces: map<nat, SpaceRow>,
    members: map<MemberKey, MemberRow>,
    channels: map<nat, ChannelRow>,
    seats: map<Seat, Role>)

  datatype Outcome = Done | NotFound | IsBanned | IsPrivate | OwnerProtected | AdminRequired | OwnerRequired
                   | CreationDisabled | NameRequired | BadVisibility | NotGlobalAdmin

  // ---------- cached counts ----------

  function Unbanned(members: map<MemberKey, MemberRow>, sp: nat): set<MemberKey>
  {
    set k | k in members && k.space == sp && !members[k].banned
  }

  function OpenChannels(channels: map<nat, ChannelRow>, sp: nat): set<nat>
  {
    set c | c in channels && channels[c].space == sp && channels[c].isOpen
  }

  function SeatsOf(seats: map<Seat, Role>, c: nat): set<Seat>
  {
    set k | k in seats && k.channel == c
  }

  /** Overwrites the cached counts of one space and of its channels. */
  function Refresh(s: Tables, sp: nat): Tables
  {
    if sp !in s.spaces then s else
    s.(spaces := s.spaces[sp := s.spaces[sp].(memberCount := |Unbanned(s.members, sp)|,
                                              channelCount := |OpenChannels(s.channels, sp)|)],
       channels := map c | c in s.channels ::
                     if s.channels[c].space == sp
                     then s.channels[c].(memberCount := |SeatsOf(s.seats, c)|, subscriberCount := |SeatsOf(s.seats, c)|)
                     else s.channels[c])
  }

  // ---------- store transactions ----------

  datatype Tx =
    | CreateSpace(sp: nat, user: nat, name: string, visibility: Visibility, allow: bool)
    | AddMember(sp: nat, user: nat, publicOnly: bool)
    | Kick(sp: nat, user: nat)
    | Ban(sp: nat, user: nat)
    | Unban(sp: nat, user: nat)
    | SetRole(sp: nat, user: nat, role: Role)
    | SetAllow(sp: nat, allow: bool)
    | CreateChannel(sp: nat, user: nat, c: nat, name: string, bypass: bool)

  /** The database hands out ids it has never used. */
  predicate FreshIds(s: Tables, tx: Tx)
  {
    match tx
    case CreateSpace(sp, _, _, _, _) => sp !in s.spaces
    case CreateChannel(_, _, c, _, _) => c !in s.channels
    case _ => true
  }

  function CreateSpaceTx(s: Tables, sp: nat, user: nat, name: string, visibility: Visibility, allow: bool): (Tables, Outcome)
  {
    if name == "" then (s, NameRequired)
    else if visibility == Unsupported then (s, BadVisibility)
    else
      (Refresh(s.(spaces := s.spaces[sp := SpaceRow(user, visibility == Public, allow, 1, 0)],
                  members := s.members[MemberKey(sp, user) := MemberRow(Owner, false)]), sp), Done)
  }

  function AddMemberTx(s: Tables, sp: nat, user: nat, publicOnly: bool): (Tables, Outcome)
  {
    var k := MemberKey(sp, user);
    if sp !in s.spaces then (s, NotFound)
    else if k in s.members then (s, if s.members[k].banned then IsBanned else Done)
    else if publicOnly && !s.spaces[sp].isPublic then (s, IsPrivate)
    else (Refresh(s.(members := s.members[k := MemberRow(Member, false)]), sp), Done)
  }

  function KickTx(s: Tables, sp: nat, user: nat): (Tables, Outcome)
  {
    var k := MemberKey(sp, user);
    if sp !in s.spaces then (s, NotFound)
    else if user == s.spaces[sp].owner then (s, OwnerProtected)
    else if k !in s.members then (s, NotFound)
    else if s.members[k].banned then (s, IsBanned)
    else (Refresh(s.(members := s.members - {k}), sp), Done)
  }

  function BanTx(s: Tables, sp: nat, user: nat): (Tables, Outcome)
  {
    var k := MemberKey(sp, user);
    if sp !in s.spaces then (s, NotFound)
    else if user == s.spaces[sp].owner then (s, OwnerProtected)
    else if k in s.members && s.members[k].banned then (s, Done)
    else (Refresh(s.(members := s.members[k := MemberRow(Member, true)]), sp), Done)
  }

  function UnbanTx(s: Tables, sp: nat, user: nat): (Tables, Outcome)
  {
    var k := MemberKey(sp, user);
    if sp !in s.spaces then (s, NotFound)
    else if user == s.spaces[sp].owner then (s, OwnerProtected)
    else if k !in s.members then (s, NotFound)
    else if !s.members[k].banned then (s, Done)
    else (Refresh(s.(members := s.members[k := s.members[k].(banned := false)]), sp), Done)
  }

  /** Changing the owner demotes the old one; nothing looks at the ban flag of the target. */
  function SetRoleTx(s: Tables, sp: nat, user: nat, role: Role): (Tables, Outcome)
  {
    var k := MemberKey(sp, user);
    if sp !in s.spaces || k !in s.members then (s, NotFound)
    else
      var owner := s.spaces[sp].owner;
      if user == owner && role != Owner then (s, OwnerProtected)
      else if role == Owner && user != owner then
        var demoted := if MemberKey(sp, owner) in s.members
                       then s.members[MemberKey(sp, owner) := s.members[MemberKey(sp, owner)].(role := Admin)]
                       else s.members;
        (s.(members := demoted[k := demoted[k].(role := Owner)],
            spaces := s.spaces[sp := s.spaces[sp].(owner := user)]), Done)
      else (s.(members := s.members[k := s.members[k].(role := role)]), Done)
  }

  function SetAllowTx(s: Tables, sp: nat, allow: bool): (Tables, Outcome)
  {
    if sp !in s.spaces then (s, NotFound)
    else (s.(spaces := s.spaces[sp := s.spaces[sp].(allowChannels := allow)]), Done)
  }

  function CreateChannelTx(s: Tables, sp: nat, user: nat, c: nat, name: string, bypass: bool): (Tables, Outcome)
  {
    var k := MemberKey(sp, user);
    if name == "" then (s, NameRequired)
    else if sp !in s.spaces then (s, NotFound)
    else if !s.spaces[sp].allowChannels && !bypass then (s, CreationDisabled)
    else if k !in s.members || s.members[k].banned then (s, NotFound)
    else if s.members[k].role != Owner && s.members[k].role != Admin then (s, AdminRequired)
    else
      (Refresh(s.(channels := s.channels[c := ChannelRow(sp, true, 0, 0)],
                  seats := s.seats[Seat(c, user) := Owner]), sp), Done)
  }

  function Run(s: Tables, tx: Tx): (Tables, Outcome)
  {
    match tx
    case CreateSpace(sp, user, name, visibility, allow) => CreateSpaceTx(s, sp, user, name, visibility, allow)
    case AddMember(sp, user, publicOnly) => AddMemberTx(s, sp, user, publicOnly)
    case Kick(sp, user) => KickTx(s, sp, user)
    case Ban(sp, user) => BanTx(s, sp, user)
    case Unban(sp, user) => UnbanTx(s, sp, user)
    case SetRole(sp, user, role) => SetRoleTx(s, sp, user, role)
    case SetAllow(sp, allow) => SetAllowTx(s, sp, allow)
    case CreateChannel(sp, user, c, name, bypass) => CreateChannelTx(s, sp, user, c, name, bypass)
  }

  // ---------- what every transaction keeps ----------

  ghost predicate HasOwner(s: Tables, sp: nat)
    requires sp in s.spaces
  {
    var k := MemberKey(sp, s.spaces[sp].owner);
    k in s.members && s.members[k].role == Owner
  }

  /** Exactly one row of each space has the role owner, and it is the row of owner_user_id. */
  ghost predicate OneOwner(s: Tables)
  {
    && (forall sp :: sp in s.spaces ==> HasOwner(s, sp))
    && (forall k :: k in s.members && s.members[k].role == Owner ==>
          k.space in s.spaces && k.user == s.spaces[k.space].owner)
    && (forall k :: k in s.members ==> k.space in s.spaces)
  }

  ghost predicate MembersCounted(s: Tables)
  {
    forall sp :: sp in s.spaces ==> s.spaces[sp].memberCount == |Unbanned(s.members, sp)|
  }

  ghost predicate ChannelsCounted(s: Tables)
  {
    && (forall sp :: sp in s.spaces ==> s.spaces[sp].channelCount == |OpenChannels(s.channels, sp)|)
    && (forall c :: c in s.channels ==> s.channels[c].space in s.spaces)
  }

  ghost predicate SeatsCounted(s: Tables)
  {
    && (forall c :: c in s.channels ==>
          s.channels[c].memberCount == |SeatsOf(s.seats, c)| && s.channels[c].subscriberCount == |SeatsOf(s.seats, c)|)
    && (forall k :: k in s.seats ==> k.channel in s.channels)
  }

  /** Every cached count equals the rows it stands for. */
  ghost predicate CountsRight(s: Tables)
  {
    MembersCounted(s) && ChannelsCounted(s) && SeatsCounted(s)
  }

  /** Refreshing counts touches no membership row and no owner. */
  lemma RefreshKeepsOwner(s: Tables, sp: nat)
    requires OneOwner(s)
    ensures OneOwner(Refresh(s, sp))
  {
    var s' := Refresh(s, sp);
    assert forall x :: x in s.spaces ==> x in s'.spaces && s'.spaces[x].owner == s.spaces[x].owner;
    forall x | x in s'.spaces ensures HasOwner(s', x) {
      assert HasOwner(s, x);
    }
  }

  /** A row that is not the owner's may come, change or go, as long as it does not claim the owner role. */
  lemma PutKeepsOwner(s: Tables, k: MemberKey, row: MemberRow)
    requires OneOwner(s) && k.space in s.spaces && k.user != s.spaces[k.space].owner && row.role != Owner
    ensures OneOwner(s.(members := s.members[k := row]))
  {
    var s' := s.(members := s.members[k := row]);
    forall x | x in s'.spaces ensures HasOwner(s', x) {
      assert HasOwner(s, x);
    }
  }

  lemma DropKeepsOwner(s: Tables, k: MemberKey)
    requires OneOwner(s) && k.space in s.spaces && k.user != s.spaces[k.space].owner
    ensures OneOwner(s.(members := s.members - {k}))
  {
    var s' := s.(members := s.members - {k});
    forall x | x in s'.spaces ensures HasOwner(s', x) {
      assert HasOwner(s, x);
    }
  }

  lemma CreateSpaceKeepsOwner(s: Tables, sp: nat, user: nat, name: string, visibility: Visibility, allow: bool)
    requires OneOwner(s) && sp !in s.spaces
    ensures OneOwner(CreateSpaceTx(s, sp, user, name, visibility, allow).0)
  {
    var mid := s.(spaces := s.spaces[sp := SpaceRow(user, visibility == Public, allow, 1, 0)],
                  members := s.members[MemberKey(sp, user) := MemberRow(Owner, false)]);
    forall x | x in mid.spaces ensures HasOwner(mid, x) {
      if x != sp { assert HasOwner(s, x); }
    }
    RefreshKeepsOwner(mid, sp);
  }

  lemma TransferKeepsOwner(s: Tables, sp: nat, user: nat)
    requires OneOwner(s) && sp in s.spaces && MemberKey(sp, user) in s.members
    ensures OneOwner(SetRoleTx(s, sp, user, Owner).0)
  {
    var s' := SetRoleTx(s, sp, user, Owner).0;
    forall x | x in s'.spaces ensures HasOwner(s', x) {
      assert HasOwner(s, x);
    }
    forall k | k in s'.members && s'.members[k].role == Owner
      ensures k.space in s'.spaces && k.user == s'.spaces[k.space].owner
    {
      assert k in s.members;
    }
  }

  lemma SetAllowKeepsOwner(s: Tables, sp: nat, allow: bool)
    requires OneOwner(s)
    ensures OneOwner(SetAllowTx(s, sp, allow).0)
  {
    var s' := SetAllowTx(s, sp, allow).0;
    forall x | x in s'.spaces ensures HasOwner(s', x) {
      assert HasOwner(s, x);
    }
  }

  lemma CreateChannelKeepsOwner(s: Tables, sp: nat, user: nat, c: nat, name: string, bypass: bool)
    requires OneOwner(s)
    ensures OneOwner(CreateChannelTx(s, sp, user, c, name, bypass).0)
  {
    var mid := s.(channels := s.channels[c := ChannelRow(sp, true, 0, 0)], seats := s.seats[Seat(c, user) := Owner]);
    forall x | x in mid.spaces ensures HasOwner(mid, x) {
      assert HasOwner(s, x);
    }
    RefreshKeepsOwner(mid, sp);
  }

  lemma MembershipKeepsOwner(s: Tables, tx: Tx)
    requires OneOwner(s) && (tx.AddMember? || tx.Kick? || tx.Ban? || tx.Unban?)
    ensures OneOwner(Run(s, tx).0)
  {
    var k := MemberKey(tx.sp, tx.user);
    if Run(s, tx).0 != s {
      assert HasOwner(s, tx.sp);
      match tx {
        case AddMember(sp, user, _) =>
          PutKeepsOwner(s, k, MemberRow(Member, false));
          RefreshKeepsOwner(s.(members := s.members[k := MemberRow(Member, false)]), sp);
        case Kick(sp, user) =>
          DropKeepsOwner(s, k);
          RefreshKeepsOwner(s.(members := s.members - {k}), sp);
        case Ban(sp, user) =>
          PutKeepsOwner(s, k, MemberRow(Member, true));
          RefreshKeepsOwner(s.(members := s.members[k := MemberRow(Member, true)]), sp);
        case Unban(sp, user) =>
          PutKeepsOwner(s, k, s.members[k].(banned := false));
          RefreshKeepsOwner(s.(members := s.members[k := s.members[k].(banned := false)]), sp);
      }
    }
  }

  lemma SetRoleKeepsOwner(s: Tables, sp: nat, user: nat, role: Role)
    requires OneOwner(s)
    ensures OneOwner(SetRoleTx(s, sp, user, role).0)
  {
    if SetRoleTx(s, sp, user, role).0 != s {
      if role == Owner {
        TransferKeepsOwner(s, sp, user);
      } else {
        PutKeepsOwner(s, MemberKey(sp, user), s.members[MemberKey(sp, user)].(role := role));
      }
    }
  }

  lemma TxKeepsOneOwner(s: Tables, tx: Tx)
    requires OneOwner(s) && FreshIds(s, tx)
    ensures OneOwner(Run(s, tx).0)
  {
    match tx {
      case CreateSpace(sp, user, name, visibility, allow) => CreateSpaceKeepsOwner(s, sp, user, name, visibility, allow);
      case SetRole(sp, user, role) => SetRoleKeepsOwner(s, sp, user, role);
      case SetAllow(sp, allow) => SetAllowKeepsOwner(s, sp, allow);
      case CreateChannel(sp, user, c, name, bypass) => CreateChannelKeepsOwner(s, sp, user, c, name, bypass);
      case _ => MembershipKeepsOwner(s, tx);
    }
  }

  // ---------- cached counts ----------

  /** `s` differs from `s0` only in rows of space `sp`. */
  ghost predicate OnlyIn(s0: Tables, s: Tables, sp: nat)
  {
    && s0.spaces.Keys <= s.spaces.Keys <= s0.spaces.Keys + {sp}
    && (forall x :: x in s0.spaces && x != sp ==> s.spaces[x] == s0.spaces[x])
    && (forall k: MemberKey :: k.space != sp ==> (k in s.members <==> k in s0.members))
    && (forall k: MemberKey :: k.space != sp && k in s.members ==> s.members[k] == s0.members[k])
    && s0.channels.Keys <= s.channels.Keys
    && (forall c :: c in s.channels ==> if c in s0.channels then s.channels[c] == s0.channels[c] else s.channels[c].space == sp)
    && (forall k :: k in s0.seats ==> k in s.seats)
    && (forall k :: k in s.seats && k !in s0.seats ==> k.channel in s.channels && s.channels[k.channel].space == sp)
  }

  lemma RefreshMembers(s0: Tables, s: Tables, sp: nat)
    requires MembersCounted(s0) && OnlyIn(s0, s, sp) && sp in s.spaces
    ensures MembersCounted(Refresh(s, sp))
  {
    var s' := Refresh(s, sp);
    forall x | x in s'.spaces ensures s'.spaces[x].memberCount == |Unbanned(s'.members, x)| {
      if x != sp { assert Unbanned(s'.members, x) == Unbanned(s0.members, x); }
    }
  }

  lemma SameOpen(a: map<nat, ChannelRow>, b: map<nat, ChannelRow>, sp: nat)
    requires forall c :: c in a && a[c].space == sp ==> c in b && b[c].space == sp && b[c].isOpen == a[c].isOpen
    requires forall c :: c in b && b[c].space == sp ==> c in a && a[c].space == sp
    ensures OpenChannels(a, sp) == OpenChannels(b, sp)
  {
  }

  lemma RefreshChannels(s0: Tables, s: Tables, sp: nat)
    requires ChannelsCounted(s0) && OnlyIn(s0, s, sp) && sp in s.spaces
    ensures ChannelsCounted(Refresh(s, sp))
  {
    var s' := Refresh(s, sp);
    forall x | x in s'.spaces ensures s'.spaces[x].channelCount == |OpenChannels(s'.channels, x)| {
      SameOpen(s.channels, s'.channels, x);
      if x != sp { SameOpen(s0.channels, s.channels, x); }
    }
  }

  lemma RefreshSeats(s0: Tables, s: Tables, sp: nat)
    requires SeatsCounted(s0) && OnlyIn(s0, s, sp) && sp in s.spaces
    ensures SeatsCounted(Refresh(s, sp))
  {
    var s' := Refresh(s, sp);
    forall c | c in s'.channels
      ensures s'.channels[c].memberCount == |SeatsOf(s'.seats, c)| && s'.channels[c].subscriberCount == |SeatsOf(s'.seats, c)|
    {
      if s.channels[c].space != sp { assert SeatsOf(s.seats, c) == SeatsOf(s0.seats, c); }
    }
  }

  lemma RefreshCorrects(s0: Tables, s: Tables, sp: nat)
    requires CountsRight(s0) && OnlyIn(s0, s, sp) && sp in s.spaces
    ensures CountsRight(Refresh(s, sp))
  {
    RefreshMembers(s0, s, sp);
    RefreshChannels(s0, s, sp);
    RefreshSeats(s0, s, sp);
  }

  /** A change that keeps the cached columns, the ban flags and the channels. */
  ghost predicate CountsUntouched(s: Tables, s': Tables)
  {
    && s'.channels == s.channels && s'.seats == s.seats
    && s'.spaces.Keys == s.spaces.Keys
    && (forall x :: x in s.spaces ==>
          s'.spaces[x].memberCount == s.spaces[x].memberCount && s'.spaces[x].channelCount == s.spaces[x].channelCount)
    && s'.members.Keys == s.members.Keys
    && (forall k :: k in s.members ==> s'.members[k].banned == s.members[k].banned)
  }

  lemma FrameCounts(s: Tables, s': Tables)
    requires CountsRight(s) && CountsUntouched(s, s')
    ensures CountsRight(s')
  {
    forall x | x in s'.spaces ensures s'.spaces[x].memberCount == |Unbanned(s'.members, x)| {
      assert Unbanned(s'.members, x) == Unbanned(s.members, x);
    }
  }

  lemma UnrefreshedTouchesNoCount(s: Tables, tx: Tx)
    requires tx.SetRole? || tx.SetAllow?
    ensures CountsUntouched(s, Run(s, tx).0)
  {
  }

  lemma TxKeepsCounts(s: Tables, tx: Tx)
    requires CountsRight(s) && FreshIds(s, tx)
    ensures CountsRight(Run(s, tx).0)
  {
    if tx.SetRole? || tx.SetAllow? {
      UnrefreshedTouchesNoCount(s, tx);
      FrameCounts(s, Run(s, tx).0);
    } else if Run(s, tx).0 != s {
      RefreshCorrects(s, BeforeRefresh(s, tx), tx.sp);
    }
  }

  /** The rows as a refreshing transaction leaves them just before it refreshes. */
  ghost function BeforeRefresh(s: Tables, tx: Tx): (mid: Tables)
    requires !tx.SetRole? && !tx.SetAllow? && Run(s, tx).0 != s && FreshIds(s, tx)
    ensures tx.sp in mid.spaces && Run(s, tx).0 == Refresh(mid, tx.sp) && OnlyIn(s, mid, tx.sp)
  {
    match tx
    case CreateSpace(sp, user, name, visibility, allow) =>
      s.(spaces := s.spaces[sp := SpaceRow(user, visibility == Public, allow, 1, 0)],
         members := s.members[MemberKey(sp, user) := MemberRow(Owner, false)])
    case AddMember(sp, user, _) => s.(members := s.members[MemberKey(sp, user) := MemberRow(Member, false)])
    case Kick(sp, user) => s.(members := s.members - {MemberKey(sp, user)})
    case Ban(sp, user) => s.(members := s.members[MemberKey(sp, user) := MemberRow(Member, true)])
    case Unban(sp, user) =>
      s.(members := s.members[MemberKey(sp, user) := s.members[MemberKey(sp, user)].(banned := false)])
    case CreateChannel(sp, user, c, _, _) =>
      s.(channels := s.channels[c := ChannelRow(sp, true, 0, 0)], seats := s.seats[Seat(c, user) := Owner])
  }

  // ---------- bans ----------

  predicate Banned(s: Tables, sp: nat, user: nat)
  {
    MemberKey(sp, user) in s.members && s.members[MemberKey(sp, user)].banned
  }

  predicate Unbans(s: Tables, tx: Tx, sp: nat, user: nat)
  {
    tx == Unban(sp, user) && Run(s, tx).1 == Done
  }

  /** Only a successful unban of that very user in that very space lifts a ban. */
  lemma BanLiftedOnlyByUnban(s: Tables, tx: Tx, sp: nat, user: nat)
    requires sp in s.spaces && FreshIds(s, tx) && Banned(s, sp, user)
    ensures Banned(Run(s, tx).0, sp, user) <==> !Unbans(s, tx, sp, user)
  {
  }

  predicate OwnerBanned(s: Tables, sp: nat)
    requires sp in s.spaces
  {
    Banned(s, sp, s.spaces[sp].owner)
  }

  /** Handing the space to a banned row. */
  predicate TransfersToBanned(s: Tables, tx: Tx, sp: nat)
  {
    tx.SetRole? && tx.sp == sp && tx.role == Owner && Banned(s, sp, tx.user)
  }

  /** From an unbanned owner, a transaction leaves a banned one exactly when it transfers to a banned row. */
  lemma OwnerBecomesBanned(s: Tables, tx: Tx, sp: nat)
    requires FreshIds(s, tx) && sp in s.spaces && HasOwner(s, sp) && !OwnerBanned(s, sp)
    ensures sp in Run(s, tx).0.spaces
    ensures OwnerBanned(Run(s, tx).0, sp) <==> TransfersToBanned(s, tx, sp)
  {
  }
}
