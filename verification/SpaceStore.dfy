/** The space repository as code. A refused transaction leaves every row as it was. */
module SpaceStore {
  import opened Spaces
  import opened SpaceRuns

  /** One owner row per space, and every cached count right. */
  ghost predicate Good(s: Tables)
  {
    OneOwner(s) && CountsRight(s)
  }

  lemma TxKeepsValid(s: Tables, tx: Tx)
    requires Good(s) && FreshIds(s, tx)
    ensures Good(Run(s, tx).0)
  {
    TxKeepsOneOwner(s, tx);
    TxKeepsCounts(s, tx);
  }

  class Store {
    var spaces: map<nat, SpaceRow>
    var members: map<MemberKey, MemberRow>
    var channels: map<nat, ChannelRow>
    var seats: map<Seat, Role>

    function T(): Tables
      reads this
    {
      Tables(spaces, members, channels, seats)
    }

    ghost predicate Valid()
      reads this
    {
      Good(T())
    }

    constructor ()
      ensures Valid() && T() == Tables(map[], map[], map[], map[])
    {
      spaces, members, channels, seats := map[], map[], map[], map[];
    }

    method RefreshAggregateCounts(sp: nat)
      modifies this`spaces, this`channels
      ensures T() == Refresh(old(T()), sp)
    {
      if sp in spaces {
        spaces := spaces[sp := spaces[sp].(memberCount := |Unbanned(members, sp)|,
                                           channelCount := |OpenChannels(channels, sp)|)];
        channels := map c | c in channels ::
                      if channels[c].space == sp
                      then channels[c].(memberCount := |SeatsOf(seats, c)|, subscriberCount := |SeatsOf(seats, c)|)
                      else channels[c];
      }
    }

    method CreateSpace(sp: nat, user: nat, name: string, visibility: Visibility, allow: bool) returns (r: Outcome)
      requires Valid() && sp !in spaces
      modifies this
      ensures Valid() && (T(), r) == CreateSpaceTx(old(T()), sp, user, name, visibility, allow)
    {
      if name == "" { return NameRequired; }
      if visibility == Unsupported { return BadVisibility; }
      spaces := spaces[sp := SpaceRow(user, visibility == Public, allow, 1, 0)];
      members := members[MemberKey(sp, user) := MemberRow(Owner, false)];
      RefreshAggregateCounts(sp);
      TxKeepsValid(old(T()), Spaces.CreateSpace(sp, user, name, visibility, allow));
      r := Done;
    }

    method AddSpaceMember(sp: nat, user: nat, publicOnly: bool) returns (r: Outcome)
      requires Valid()
      modifies this
      ensures Valid() && (T(), r) == AddMemberTx(old(T()), sp, user, publicOnly)
    {
      if sp !in spaces { return NotFound; }
      var k := MemberKey(sp, user);
      if k in members {
        if members[k].banned { return IsBanned; }
        return Done;
      }
      if publicOnly && !spaces[sp].isPublic { return IsPrivate; }
      members := members[k := MemberRow(Member, false)];
      RefreshAggregateCounts(sp);
      TxKeepsValid(old(T()), AddMember(sp, user, publicOnly));
      r := Done;
    }

    method KickSpaceMember(sp: nat, user: nat) returns (r: Outcome)
      requires Valid()
      modifies this
      ensures Valid() && (T(), r) == KickTx(old(T()), sp, user)
    {
      if sp !in spaces { return NotFound; }
      if user == spaces[sp].owner { return OwnerProtected; }
      var k := MemberKey(sp, user);
      if k !in members { return NotFound; }
      if members[k].banned { return IsBanned; }
      members := members - {k};
      RefreshAggregateCounts(sp);
      TxKeepsValid(old(T()), Kick(sp, user));
      r := Done;
    }

    method BanSpaceMember(sp: nat, user: nat) returns (r: Outcome)
      requires Valid()
      modifies this
      ensures Valid() && (T(), r) == BanTx(old(T()), sp, user)
    {
      if sp !in spaces { return NotFound; }
      if user == spaces[sp].owner { return OwnerProtected; }
      var k := MemberKey(sp, user);
      if k in members && members[k].banned { return Done; }
      if k in members {
        members := members[k := members[k].(banned := true, role := Member)];
      } else {
        members := members[k := MemberRow(Member, true)];
      }
      RefreshAggregateCounts(sp);
      TxKeepsValid(old(T()), Ban(sp, user));
      r := Done;
    }

    method UnbanSpaceMember(sp: nat, user: nat) returns (r: Outcome)
      requires Valid()
      modifies this
      ensures Valid() && (T(), r) == UnbanTx(old(T()), sp, user)
    {
      if sp !in spaces { return NotFound; }
      if user == spaces[sp].owner { return OwnerProtected; }
      var k := MemberKey(sp, user);
      if k !in members { return NotFound; }
      if !members[k].banned { return Done; }
      members := members[k := members[k].(banned := false)];
      RefreshAggregateCounts(sp);
      TxKeepsValid(old(T()), Unban(sp, user));
      r := Done;
    }

    method SetSpaceMemberRole(sp: nat, user: nat, role: Role) returns (r: Outcome)
      requires Valid()
      modifies this
      ensures Valid() && (T(), r) == SetRoleTx(old(T()), sp, user, role)
    {
      if sp !in spaces { return NotFound; }
      var k, owner := MemberKey(sp, user), spaces[sp].owner;
      if k !in members { return NotFound; }
      if user == owner && role != Owner { return OwnerProtected; }
      if role == Owner && user != owner {
        var previous := MemberKey(sp, owner);
        if previous in members {
          members := members[previous := members[previous].(role := Admin)];
        }
        members := members[k := members[k].(role := Owner)];
        spaces := spaces[sp := spaces[sp].(owner := user)];
      } else {
        members := members[k := members[k].(role := role)];
      }
      TxKeepsValid(old(T()), SetRole(sp, user, role));
      r := Done;
    }

    method SetSpaceAllowChannelCreation(sp: nat, allow: bool) returns (r: Outcome)
      requires Valid()
      modifies this`spaces
      ensures Valid() && (T(), r) == SetAllowTx(old(T()), sp, allow)
    {
      if sp !in spaces { return NotFound; }
      spaces := spaces[sp := spaces[sp].(allowChannels := allow)];
      TxKeepsValid(old(T()), SetAllow(sp, allow));
      r := Done;
    }

    method CreateChannel(sp: nat, user: nat, c: nat, name: string, bypass: bool) returns (r: Outcome)
      requires Valid() && c !in channels
      modifies this
      ensures Valid() && (T(), r) == CreateChannelTx(old(T()), sp, user, c, name, bypass)
    {
      if name == "" { return NameRequired; }
      if sp !in spaces { return NotFound; }
      if !spaces[sp].allowChannels && !bypass { return CreationDisabled; }
      var k := MemberKey(sp, user);
      if k !in members || members[k].banned { return NotFound; }
      if members[k].role != Owner && members[k].role != Admin { return AdminRequired; }
      channels := channels[c := ChannelRow(sp, true, 0, 0)];
      seats := seats[Seat(c, user) := Owner];
      RefreshAggregateCounts(sp);
      TxKeepsValid(old(T()), Spaces.CreateChannel(sp, user, c, name, bypass));
      r := Done;
    }

    method EnsureAdminMembership(sp: nat, user: nat) returns (r: Outcome)
      requires Valid()
      modifies this
      ensures Valid() && (T(), r) == EnsureAdmin(old(T()), sp, user)
    {
      var role := GetMemberRole(T(), sp, user);
      if role == NoRole {
        var invited := AddSpaceMember(sp, user, false);
        if invited != Done { return invited; }
        r := SetSpaceMemberRole(sp, user, Admin);
      } else if role.role == Owner || role.role == Admin {
        r := Done;
      } else {
        r := SetSpaceMemberRole(sp, user, Admin);
      }
    }
  }
}
