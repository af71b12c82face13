/** The message repository as code: transactions that update the tables row by row. */
module MessageStore {
  import opened Basics
  import opened Ordering
  import opened ChannelLog
  import opened Cleanup
  import opened Sync

  /** The rows hit whose recorded channel is among `cs`. */
  function HitsAmong(messages: map<nat, MessageRow>, rows: seq<ExpiredRow>, cs: set<nat>): set<nat>
  {
    set r | r in rows && r.channel in cs && r.id in messages && messages[r.id].status.Normal? :: r.id
  }

  function AllNormal(messages: map<nat, MessageRow>): set<nat>
  {
    set id | id in messages && messages[id].status.Normal?
  }

  /** `deleted` counts, for every channel with a hit and no other, the rows hit in it. */
  ghost predicate CountsHits(messages: map<nat, MessageRow>, rows: seq<ExpiredRow>, deleted: map<nat, nat>)
  {
    && (forall c :: c in deleted <==> HitsIn(messages, rows, c) != {})
    && (forall c :: c in deleted ==> deleted[c] == |HitsIn(messages, rows, c)|)
  }

  lemma HitsExtend(messages: map<nat, MessageRow>, rows: seq<ExpiredRow>, i: nat, c: nat)
    requires i < |rows|
    ensures var hit := rows[i].id in messages && messages[rows[i].id].status.Normal?;
            && Hits(messages, rows[..i + 1]) == Hits(messages, rows[..i]) + (if hit then {rows[i].id} else {})
            && HitsIn(messages, rows[..i + 1], c)
               == HitsIn(messages, rows[..i], c) + (if hit && rows[i].channel == c then {rows[i].id} else {})
  {
    assert rows[..i + 1] == rows[..i] + [rows[i]];
  }

  function AddOne(deleted: map<nat, nat>, c: nat): map<nat, nat>
  {
    deleted[c := (if c in deleted then deleted[c] else 0) + 1]
  }

  lemma CountFirstIn(messages: map<nat, MessageRow>, rows: seq<ExpiredRow>, i: nat, deleted: map<nat, nat>, c: nat)
    requires i < |rows| && CountsHits(messages, rows[..i], deleted)
    requires rows[i].id in messages && messages[rows[i].id].status.Normal? && rows[i].id !in Hits(messages, rows[..i])
    ensures c in AddOne(deleted, rows[i].channel) <==> HitsIn(messages, rows[..i + 1], c) != {}
    ensures c in AddOne(deleted, rows[i].channel) ==>
              AddOne(deleted, rows[i].channel)[c] == |HitsIn(messages, rows[..i + 1], c)|
  {
    HitsExtend(messages, rows, i, c);
    if c == rows[i].channel {
      assert rows[i].id !in HitsIn(messages, rows[..i], c);
    } else {
      assert HitsIn(messages, rows[..i + 1], c) == HitsIn(messages, rows[..i], c);
    }
  }

  /** The first time a row is hit it adds one to its channel's count. */
  lemma CountFirst(messages: map<nat, MessageRow>, rows: seq<ExpiredRow>, i: nat, deleted: map<nat, nat>)
    requires i < |rows| && CountsHits(messages, rows[..i], deleted)
    requires rows[i].id in messages && messages[rows[i].id].status.Normal? && rows[i].id !in Hits(messages, rows[..i])
    ensures CountsHits(messages, rows[..i + 1], AddOne(deleted, rows[i].channel))
  {
    forall c
      ensures c in AddOne(deleted, rows[i].channel) <==> HitsIn(messages, rows[..i + 1], c) != {}
      ensures c in AddOne(deleted, rows[i].channel) ==>
                AddOne(deleted, rows[i].channel)[c] == |HitsIn(messages, rows[..i + 1], c)|
    {
      CountFirstIn(messages, rows, i, deleted, c);
    }
  }

  lemma HitInItsChannel(messages: map<nat, MessageRow>, rows: seq<ExpiredRow>, i: nat)
    requires i < |rows| && NamesChannels(messages, rows) && rows[i].id in Hits(messages, rows[..i])
    ensures rows[i].id in HitsIn(messages, rows[..i], rows[i].channel)
  {
    var r :| r in rows[..i] && r.id == rows[i].id;
    assert r in rows && rows[i] in rows;
  }

  lemma SameHits(messages: map<nat, MessageRow>, rows: seq<ExpiredRow>, i: nat, c: nat)
    requires i < |rows| && NamesChannels(messages, rows) && rows[i].id in messages
    requires messages[rows[i].id].status.Normal? ==> rows[i].id in Hits(messages, rows[..i])
    ensures HitsIn(messages, rows[..i + 1], c) == HitsIn(messages, rows[..i], c)
    ensures Hits(messages, rows[..i + 1]) == Hits(messages, rows[..i])
  {
    HitsExtend(messages, rows, i, c);
    if messages[rows[i].id].status.Normal? {
      HitInItsChannel(messages, rows, i);
    }
  }

  /** A row that is not normal, or was hit before, changes no count. */
  lemma CountAgain(messages: map<nat, MessageRow>, rows: seq<ExpiredRow>, i: nat, deleted: map<nat, nat>)
    requires i < |rows| && CountsHits(messages, rows[..i], deleted) && NamesChannels(messages, rows)
    requires rows[i].id in messages
    requires messages[rows[i].id].status.Normal? ==> rows[i].id in Hits(messages, rows[..i])
    ensures CountsHits(messages, rows[..i + 1], deleted)
    ensures Hits(messages, rows[..i + 1]) == Hits(messages, rows[..i])
  {
    SameHits(messages, rows, i, 0);
    var before, after := rows[..i], rows[..i + 1];
    forall c ensures HitsIn(messages, after, c) == HitsIn(messages, before, c) {
      SameHits(messages, rows, i, c);
    }
  }

  lemma MarkOne(messages: map<nat, MessageRow>, ids: set<nat>, id: nat, now: Millis)
    requires id in messages && id !in ids
    ensures Mark(messages, ids + {id}, now) == Mark(messages, ids, now)[id := messages[id].(status := Deleted(now))]
  {
  }

  lemma AmongStep(messages: map<nat, MessageRow>, rows: seq<ExpiredRow>, cs: set<nat>, c: nat)
    requires NamesChannels(messages, rows) && c !in cs
    ensures |HitsAmong(messages, rows, cs + {c})| == |HitsAmong(messages, rows, cs)| + |HitsIn(messages, rows, c)|
  {
    assert HitsAmong(messages, rows, cs + {c}) == HitsAmong(messages, rows, cs) + HitsIn(messages, rows, c);
    assert HitsAmong(messages, rows, cs) !! HitsIn(messages, rows, c);
  }

  lemma AmongAll(messages: map<nat, MessageRow>, rows: seq<ExpiredRow>, deleted: map<nat, nat>)
    requires CountsHits(messages, rows, deleted)
    ensures HitsAmong(messages, rows, deleted.Keys) == Hits(messages, rows)
  {
    forall r | r in rows && r.id in messages && messages[r.id].status.Normal? ensures r.channel in deleted {
      assert r.id in HitsIn(messages, rows, r.channel);
    }
  }

  lemma {:induction false} HitsBound(messages: map<nat, MessageRow>, rows: seq<ExpiredRow>)
    ensures |Hits(messages, rows)| <= |rows|
  {
    if rows == [] {
      assert Hits(messages, rows) == {};
    } else {
      var n := |rows| - 1;
      HitsBound(messages, rows[..n]);
      HitsExtend(messages, rows, n, 0);
      assert rows[..n + 1] == rows;
    }
  }

  /** The subtraction of the recorded counts is the one `Apply` states. */
  lemma SubtractIsUncount(channels: map<nat, ChannelRow>, messages: map<nat, MessageRow>, rows: seq<ExpiredRow>,
                          deleted: map<nat, nat>)
    requires CountsHits(messages, rows, deleted)
    ensures (map c | c in channels ::
               if c in deleted then channels[c].(messageCount := Subtract(channels[c].messageCount, deleted[c]))
               else channels[c]) == Uncount(channels, messages, rows)
  {
  }

  // ---------- draining ----------

  /** A row is as it was, or its age exceeded its channel's window at the moment that is its deletion time, and that moment
      is one the drain read from the clock. */
  ghost predicate KeptOrExpired(t: Tables, row: MessageRow, row': MessageRow, times: set<Millis>)
  {
    || row' == row
    || (row'.status.Deleted? && row' == row.(status := row'.status) && row'.status.at in times
        && ExpiredAt(t, row, row'.status.at))
  }

  ghost predicate OnlyExpired(t: Tables, t': Tables, times: set<Millis>)
  {
    && t'.messages.Keys == t.messages.Keys
    && (forall id :: id in t.messages ==> KeptOrExpired(t, t.messages[id], t'.messages[id], times))
    && t'.channels.Keys == t.channels.Keys
    && (forall c :: c in t.channels ==> t'.channels[c] == t.channels[c].(messageCount := t'.channels[c].messageCount))
    && (forall c :: c in t.channels && t.channels[c].autoDeleteSeconds == 0 ==> t'.channels[c] == t.channels[c])
    && t' == t.(messages := t'.messages, channels := t'.channels)
  }

  lemma NoneHitWithoutWindow(t: Tables, rows: seq<ExpiredRow>, now: Millis, c: nat)
    requires RowsMatch(t, rows) && Hits(t.messages, rows) <= ExpiredIds(t, now)
    requires c in t.channels && t.channels[c].autoDeleteSeconds == 0
    ensures HitsIn(t.messages, rows, c) == {}
  {
    forall r | r in rows && r.id in t.messages && t.messages[r.id].status.Normal? ensures r.channel != c {
      assert r.id in Hits(t.messages, rows) && r.id in ExpiredIds(t, now);
    }
  }

  lemma ApplyOnlyExpired(t: Tables, rows: seq<ExpiredRow>, now: Millis)
    requires RowsMatch(t, rows) && Hits(t.messages, rows) <= ExpiredIds(t, now)
    ensures OnlyExpired(t, Apply(t, rows, now).0, {now})
  {
    var t' := Apply(t, rows, now).0;
    forall id | id in t.messages ensures KeptOrExpired(t, t.messages[id], t'.messages[id], {now}) {
      if id in Hits(t.messages, rows) { assert Expired(t, id, now); }
    }
    forall c | c in t.channels && t.channels[c].autoDeleteSeconds == 0 ensures t'.channels[c] == t.channels[c] {
      NoneHitWithoutWindow(t, rows, now, c);
    }
  }

  lemma PassOnlyExpired(t: Tables, now: Millis, limit: nat)
    ensures OnlyExpired(t, Pass(t, now, limit).0, {now})
  {
    PassHits(t, now, limit);
    SelectMatches(t, now, limit);
    ApplyOnlyExpired(t, SelectExpired(t, now, limit), now);
  }

  lemma OnlyExpiredTransitive(t: Tables, t': Tables, t'': Tables, times: set<Millis>, now: Millis)
    requires OnlyExpired(t, t', times) && OnlyExpired(t', t'', {now})
    ensures OnlyExpired(t, t'', times + {now})
  {
    forall id | id in t.messages ensures KeptOrExpired(t, t.messages[id], t''.messages[id], times + {now}) {
      assert KeptOrExpired(t, t.messages[id], t'.messages[id], times);
      assert KeptOrExpired(t', t'.messages[id], t''.messages[id], {now});
    }
  }

  lemma MarkShrinks(messages: map<nat, MessageRow>, ids: set<nat>, now: Millis)
    requires ids <= AllNormal(messages)
    ensures |AllNormal(Mark(messages, ids, now))| == |AllNormal(messages)| - |ids|
  {
    assert AllNormal(Mark(messages, ids, now)) == AllNormal(messages) - ids;
  }

  lemma HitsNormal(messages: map<nat, MessageRow>, rows: seq<ExpiredRow>)
    ensures Hits(messages, rows) <= AllNormal(messages)
  {
  }

  lemma PassShrinks(t: Tables, now: Millis, limit: nat)
    ensures var (t', n) := Pass(t, now, limit);
            |AllNormal(t'.messages)| == |AllNormal(t.messages)| - n
  {
    var rows := SelectExpired(t, now, limit);
    HitsNormal(t.messages, rows);
    MarkShrinks(t.messages, Hits(t.messages, rows), now);
  }

  /** A pass that reports 0 leaves nothing overdue at its time. */
  lemma NothingHit(t: Tables, now: Millis, limit: nat)
    requires Pass(t, now, limit).1 == 0
    ensures Overdue(Pass(t, now, limit).0, now) == {}
  {
    PassCorrect(t, now, limit);
  }

  lemma PassKeepsLog(t: Tables, now: Millis, limit: nat)
    requires LogInv(t)
    ensures LogInv(Pass(t, now, limit).0)
  {
    SelectMatches(t, now, limit);
    ApplyKeepsLog(t, SelectExpired(t, now, limit), now);
  }

  /** The times of the first `n` passes. */
  function Times(clock: nat -> Millis, n: nat): set<Millis>
  {
    set k: nat | k < n :: clock(k)
  }

  lemma DrainStepExpired(t0: Tables, t: Tables, clock: nat -> Millis, n: nat, limit: nat)
    requires OnlyExpired(t0, t, Times(clock, n))
    ensures OnlyExpired(t0, Pass(t, clock(n), limit).0, Times(clock, n + 1))
  {
    assert Times(clock, n + 1) == Times(clock, n) + {clock(n)};
    PassOnlyExpired(t, clock(n), limit);
    OnlyExpiredTransitive(t0, t, Pass(t, clock(n), limit).0, Times(clock, n), clock(n));
  }

  lemma PassReports(t: Tables, now: Millis, limit: nat)
    ensures var (t', deleted) := Pass(t, now, limit);
            && |AllNormal(t'.messages)| == |AllNormal(t.messages)| - deleted
            && deleted == Min(if limit == 0 then 100 else limit, |Overdue(t, now)|)
            && (deleted == 0 ==> Overdue(t', now) == {})
  {
    PassCorrect(t, now, limit);
    PassShrinks(t, now, limit);
    if Pass(t, now, limit).1 == 0 { NothingHit(t, now, limit); }
  }

  class Store {
    var channels: map<nat, ChannelRow>
    var messages: map<nat, MessageRow>
    var byClient: map<ClientKey, nat>
    var bySeq: map<SeqKey, nat>
    var messageIds: set<string>
    var attachments: map<AttachKey, nat>
    var media: map<nat, MediaRow>
    var refCount: map<nat, nat>

    function T(): Tables
      reads this
    {
      Tables(channels, messages, byClient, bySeq, messageIds, attachments, media, refCount)
    }

    ghost predicate Valid()
      reads this
    {
      LogInv(T())
    }

    constructor ()
      ensures Valid() && T() == Tables(map[], map[], map[], map[], {}, map[], map[], map[])
    {
      channels, messages, byClient, bySeq, messageIds := map[], map[], map[], map[], {};
      attachments, media, refCount := map[], map[], map[];
    }

    /** One insert and one count per attachment, in the order given; a repeated media stops it. */
    method InsertAttachments(id: nat, ms: seq<nat>)
      returns (all: bool, attached: map<AttachKey, nat>, counts: map<nat, nat>)
      ensures Attach(Attached(attachments, refCount), media, id, ms, 0)
           == if all then Some(Attached(attached, counts)) else None
    {
      attached, counts := attachments, refCount;
      for index := 0 to |ms|
        invariant Attach(Attached(attachments, refCount), media, id, ms, 0)
               == Attach(Attached(attached, counts), media, id, ms[index..], index)
      {
        var m := ms[index];
        assert ms[index..][1..] == ms[index + 1..];
        if AttachKey(id, m) in attached { return false, attached, counts; }
        attached := attached[AttachKey(id, m) := index];
        if m in media && media[m].blob in counts {
          counts := counts[media[m].blob := counts[media[m].blob] + 1];
        }
      }
      all := true;
    }

    /** Nothing is written to the tables before every insert and update has succeeded. */
    method InsertMessage(input: CreateInput, id: nat, messageId: string, now: Millis) returns (r: CreateResult)
      modifies this
      ensures (T(), r) == ChannelLog.Create(old(T()), input, id, messageId, now)
    {
      var c := input.channel;
      if c !in channels { return ChannelNotFound; }
      var nextSeq := channels[c].messageSeq + 1;
      var key := ClientKey(c, input.sender, input.clientMsgId);
      if key in byClient { return Stored(byClient[key]); }
      if messageId in messageIds || SeqKey(c, nextSeq) in bySeq { return UniqueViolation; }
      var all, attached, counts := InsertAttachments(id, input.attachments);
      if !all { return UniqueViolation; }
      messages := messages[id := MessageRow(messageId, c, nextSeq, input.sender, input.clientMsgId, input.messageType,
                                            input.text, now, Normal)];
      byClient := byClient[key := id];
      bySeq := bySeq[SeqKey(c, nextSeq) := id];
      messageIds := messageIds + {messageId};
      attachments, refCount := attached, counts;
      channels := channels[c := channels[c].(messageSeq := nextSeq, messageCount := channels[c].messageCount + 1)];
      r := Stored(id);
    }

    /** A transaction on a sound log, with an id the database never handed out, leaves a sound log. */
    method Create(input: CreateInput, id: nat, messageId: string, now: Millis) returns (r: CreateResult)
      requires Valid() && id !in messages
      modifies this
      ensures Valid() && (T(), r) == ChannelLog.Create(old(T()), input, id, messageId, now)
    {
      CreateKeepsLog(T(), input, id, messageId, now);
      r := InsertMessage(input, id, messageId, now);
    }

    method SetGroupAutoDeleteAfterSeconds(c: nat, seconds: nat) returns (r: WindowResult)
      requires Valid()
      modifies this`channels
      ensures Valid() && (T(), r) == SetAutoDelete(old(T()), c, seconds)
    {
      SetAutoDeleteKeepsLog(T(), c, seconds);
      if c !in channels { return WindowChannelNotFound; }
      if !channels[c].isGroup { return NotAGroup; }
      channels := channels[c := channels[c].(autoDeleteSeconds := seconds)];
      r := WindowSet;
    }

    method SyncChannel(cfg: Config, member: bool, c: nat, after: nat, wanted: uint32) returns (r: SyncResult)
      ensures r == Sync.SyncChannel(T(), cfg, member, c, after, wanted)
      ensures r == Sync.SyncResult.Forbidden <==> !member
    {
      if !member { return Forbidden; }
      var limit := wanted;
      if limit == 0 { limit := cfg.defaultSyncLimit; }
      if limit > cfg.maxSyncLimit { limit := cfg.maxSyncLimit; }
      assert limit == ClampLimit(cfg, wanted);
      var fetched := ListAfterSeq(T(), c, after, ToUint32(limit + 1));
      var items := fetched;
      var hasMore := ToUint32(|items|) > limit;
      if hasMore { items := items[..limit]; }
      var next := after;
      if items != [] { next := items[|items| - 1].major; }
      assert PageOf(T(), c, after, limit) == SyncPage(items, next, hasMore);
      r := Synced(SyncPage(items, next, hasMore));
    }

    /** The conditional updates of the cleaner, one row at a time. */
    method MarkDeleted(rows: seq<ExpiredRow>, now: Millis) returns (deleted: map<nat, nat>)
      requires RowsMatch(T(), rows)
      modifies this`messages
      ensures messages == Mark(old(messages), Hits(old(messages), rows), now)
      ensures CountsHits(old(messages), rows, deleted)
    {
      deleted := map[];
      ghost var before := messages;
      for i := 0 to |rows|
        invariant messages == Mark(before, Hits(before, rows[..i]), now)
        invariant CountsHits(before, rows[..i], deleted)
      {
        var row := rows[i];
        assert row in rows;
        if row.id in messages && messages[row.id].status.Normal? {
          CountFirst(before, rows, i, deleted);
          HitsExtend(before, rows, i, row.channel);
          MarkOne(before, Hits(before, rows[..i]), row.id, now);
          messages := messages[row.id := messages[row.id].(status := Deleted(now))];
          deleted := AddOne(deleted, row.channel);
        } else {
          CountAgain(before, rows, i, deleted);
        }
      }
      assert rows[..|rows|] == rows;
    }

    method SubtractCounts(deleted: map<nat, nat>)
      modifies this`channels
      ensures channels == map c | c in old(channels) ::
                if c in deleted then old(channels)[c].(messageCount := Subtract(old(channels)[c].messageCount, deleted[c]))
                else old(channels)[c]
    {
      ghost var before := channels;
      var todo := deleted.Keys;
      while todo != {}
        invariant todo <= deleted.Keys
        invariant channels == map c | c in before ::
                    if c in deleted.Keys - todo then before[c].(messageCount := Subtract(before[c].messageCount, deleted[c]))
                    else before[c]
        decreases todo
      {
        var c :| c in todo;
        if c in channels {
          var n := channels[c].messageCount;
          channels := channels[c := channels[c].(messageCount := if n > deleted[c] then n - deleted[c] else 0)];
        }
        todo := todo - {c};
      }
    }

    method SumCounts(deleted: map<nat, nat>, ghost messages: map<nat, MessageRow>, ghost rows: seq<ExpiredRow>)
      returns (total: uint32)
      requires NamesChannels(messages, rows) && CountsHits(messages, rows, deleted)
      requires |rows| < WORD
      ensures total == |Hits(messages, rows)|
    {
      total := 0;
      var todo := deleted.Keys;
      HitsBound(messages, rows);
      AmongAll(messages, rows, deleted);
      assert HitsAmong(messages, rows, deleted.Keys - todo) == {};
      while todo != {}
        invariant todo <= deleted.Keys
        invariant total == |HitsAmong(messages, rows, deleted.Keys - todo)|
        decreases todo
      {
        var c :| c in todo;
        AmongStep(messages, rows, deleted.Keys - todo, c);
        assert deleted.Keys - (todo - {c}) == deleted.Keys - todo + {c};
        SubsetSize(HitsAmong(messages, rows, deleted.Keys - todo + {c}), Hits(messages, rows));
        total := ToUint32(total + ToUint32(deleted[c]));
        todo := todo - {c};
      }
      assert deleted.Keys - {} == deleted.Keys;
    }

    /** Select, mark, subtract and report. */
    method Sweep(now: Millis, limit: uint32) returns (total: uint32)
      modifies this`messages, this`channels
      ensures (T(), total) == Pass(old(T()), now, limit)
    {
      var rows := SelectExpired(T(), now, limit);
      SelectMatches(T(), now, limit);
      PassHits(T(), now, limit);
      var deleted := MarkDeleted(rows, now);
      SubtractCounts(deleted);
      SubtractIsUncount(old(channels), old(messages), rows, deleted);
      total := SumCounts(deleted, old(messages), rows);
    }

    /** On a sound log: a pass as specified, which leaves a sound log. */
    method CleanupExpiredMessages(now: Millis, limit: uint32) returns (total: uint32)
      requires Valid()
      modifies this`messages, this`channels
      ensures Valid() && (T(), total) == Pass(old(T()), now, limit)
    {
      PassKeepsLog(T(), now, limit);
      total := Sweep(now, limit);
    }

    /** One turn of the ticker's inner loop, in a drain that began with the tables `t0`. */
    method DrainPass(ghost t0: Tables, clock: nat -> Millis, passes: nat) returns (deleted: nat)
      requires Valid() && OnlyExpired(t0, T(), Times(clock, passes))
      modifies this`messages, this`channels
      ensures Valid() && OnlyExpired(t0, T(), Times(clock, passes + 1))
      ensures |AllNormal(messages)| == |AllNormal(old(messages))| - deleted
      ensures deleted == Min(200, |Overdue(old(T()), clock(passes))|)
      ensures deleted == 0 ==> Overdue(T(), clock(passes)) == {}
    {
      DrainStepExpired(t0, T(), clock, passes, 200);
      PassReports(T(), clock(passes), 200);
      deleted := CleanupExpiredMessages(clock(passes), 200);
    }

    /** The ticker's inner loop: clean until a pass reports nothing or fails; a failed pass is rolled back. It ends, deletes
        only what had expired when it was deleted, and its reports add up to the rows deleted. Unless it failed, nothing
        is left that was expired at the time of the last pass. */
    method DrainExpired(clock: nat -> Millis, fails: nat -> bool) returns (passes: nat, reported: nat, failed: bool)
      requires Valid()
      modifies this`messages, this`channels
      ensures Valid()
      ensures failed ==> fails(passes)
      ensures !failed ==> passes >= 1 && Overdue(T(), clock(passes - 1)) == {}
      ensures OnlyExpired(old(T()), T(), Times(clock, passes))
      ensures reported == |AllNormal(old(messages))| - |AllNormal(messages)|
    {
      passes, reported, failed := 0, 0, false;
      while true
        invariant Valid()
        invariant OnlyExpired(old(T()), T(), Times(clock, passes))
        invariant reported == |AllNormal(old(messages))| - |AllNormal(messages)|
        decreases |AllNormal(messages)|
      {
        if fails(passes) {
          failed := true;
          break;
        }
        var deleted := DrainPass(old(T()), clock, passes);
        passes, reported := passes + 1, reported + deleted;
        if deleted == 0 { break; }
      }
    }
  }
}
