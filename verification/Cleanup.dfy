/** The background cleaner: a select of expired rows and, later, one transaction that marks them deleted. */
module Cleanup {
  import opened Ordering
  import opened ChannelLog

  datatype ExpiredRow = ExpiredRow(id: nat, channel: nat)

  /** A normal message strictly older than the window of its channel; a window of 0 never expires anything. */
  predicate Expired(t: Tables, id: nat, now: Millis)
  {
    && id in t.messages
    && t.messages[id].status.Normal?
    && t.messages[id].channel in t.channels
    && t.channels[t.messages[id].channel].autoDeleteSeconds > 0
    && t.messages[id].createdAt < now - t.channels[t.messages[id].channel].autoDeleteSeconds * 1000
  }

  function ExpiredIds(t: Tables, now: Millis): set<nat>
  {
    set id | id in t.messages && Expired(t, id, now)
  }

  function KeyOf(t: Tables, id: nat): Key
    requires id in t.messages
  {
    Key(t.messages[id].createdAt, id)
  }

  function ExpiredKeys(t: Tables, now: Millis): set<Key>
  {
    set id | id in t.messages && Expired(t, id, now) :: KeyOf(t, id)
  }

  function RowsOf(t: Tables, keys: seq<Key>): (rows: seq<ExpiredRow>)
    requires forall k :: k in keys ==> k.minor in t.messages
    ensures |rows| == |keys|
    ensures forall i :: 0 <= i < |rows| ==> rows[i] == ExpiredRow(keys[i].minor, t.messages[keys[i].minor].channel)
  {
    if keys == [] then []
    else [ExpiredRow(keys[0].minor, t.messages[keys[0].minor].channel)] + RowsOf(t, keys[1..])
  }

  function EffectiveLimit(limit: nat): nat
  {
    if limit == 0 then 100 else limit
  }

  function SelectExpired(t: Tables, now: Millis, limit: nat): seq<ExpiredRow>
  {
    PageWithin(ExpiredKeys(t, now), EffectiveLimit(limit));
    RowsOf(t, Page(ExpiredKeys(t, now), EffectiveLimit(limit)))
  }

  /** The rows the conditional update still finds normal. */
  function Hits(messages: map<nat, MessageRow>, rows: seq<ExpiredRow>): set<nat>
  {
    set r | r in rows && r.id in messages && messages[r.id].status.Normal? :: r.id
  }

  function HitsIn(messages: map<nat, MessageRow>, rows: seq<ExpiredRow>, c: nat): set<nat>
  {
    set r | r in rows && r.channel == c && r.id in messages && messages[r.id].status.Normal? :: r.id
  }

  function Mark(messages: map<nat, MessageRow>, ids: set<nat>, now: Millis): map<nat, MessageRow>
  {
    map id | id in messages :: if id in ids then messages[id].(status := Deleted(now)) else messages[id]
  }

  /** `CASE WHEN message_count > n THEN message_count - n ELSE 0 END` */
  function Subtract(count: nat, n: nat): nat
  {
    if count > n then count - n else 0
  }

  function Uncount(channels: map<nat, ChannelRow>, messages: map<nat, MessageRow>, rows: seq<ExpiredRow>)
    : map<nat, ChannelRow>
  {
    map c | c in channels ::
      channels[c].(messageCount := Subtract(channels[c].messageCount, |HitsIn(messages, rows, c)|))
  }

  /** The update phase, on rows selected at any earlier time, and the number it reports. */
  function Apply(t: Tables, rows: seq<ExpiredRow>, now: Millis): (Tables, nat)
  {
    (t.(messages := Mark(t.messages, Hits(t.messages, rows), now),
        channels := Uncount(t.channels, t.messages, rows)),
     |Hits(t.messages, rows)|)
  }

  function Pass(t: Tables, now: Millis, limit: nat): (Tables, nat)
  {
    Apply(t, SelectExpired(t, now, limit), now)
  }

  // ---------- selected rows, however stale, are rows of the channel they name ----------

  ghost predicate NamesChannels(messages: map<nat, MessageRow>, rows: seq<ExpiredRow>)
  {
    forall r :: r in rows ==> r.id in messages && messages[r.id].channel == r.channel
  }

  ghost predicate RowsMatch(t: Tables, rows: seq<ExpiredRow>)
  {
    NamesChannels(t.messages, rows)
  }

  lemma RowsMatchLater(t: Tables, t': Tables, rows: seq<ExpiredRow>)
    requires RowsMatch(t, rows) && RowsGrow(t, t')
    ensures RowsMatch(t', rows)
  {
    forall r | r in rows ensures r.id in t'.messages && t'.messages[r.id].channel == r.channel {
      assert t.messages[r.id].channel == r.channel;
      assert t'.messages[r.id].(status := t.messages[r.id].status) == t.messages[r.id];
    }
  }

  lemma SelectMatches(t: Tables, now: Millis, limit: nat)
    ensures RowsMatch(t, SelectExpired(t, now, limit))
  {
    var keys := Page(ExpiredKeys(t, now), EffectiveLimit(limit));
    PageIsPage(ExpiredKeys(t, now), EffectiveLimit(limit));
    assert forall k :: k in keys ==> k in Elements(keys);
  }

  // ---------- what the update phase keeps ----------

  lemma HitsInChannel(t: Tables, rows: seq<ExpiredRow>, c: nat)
    requires RowsMatch(t, rows)
    ensures HitsIn(t.messages, rows, c) <= NormalIds(t.messages, c)
    ensures |HitsIn(t.messages, rows, c)| <= |NormalIds(t.messages, c)|
  {
    SubsetSize(HitsIn(t.messages, rows, c), NormalIds(t.messages, c));
  }

  lemma MarkCounts(t: Tables, rows: seq<ExpiredRow>, now: Millis, c: nat)
    requires RowsMatch(t, rows)
    ensures |NormalIds(Mark(t.messages, Hits(t.messages, rows), now), c)|
         == |NormalIds(t.messages, c)| - |HitsIn(t.messages, rows, c)|
  {
    HitsInChannel(t, rows, c);
    var after := Mark(t.messages, Hits(t.messages, rows), now);
    forall id | id in NormalIds(t.messages, c)
      ensures id in Hits(t.messages, rows) <==> id in HitsIn(t.messages, rows, c)
    {
    }
    assert NormalIds(after, c) == NormalIds(t.messages, c) - HitsIn(t.messages, rows, c);
  }

  /** However many cleaners selected the same rows, the saturating subtraction never clips. */
  lemma NeverClips(t: Tables, rows: seq<ExpiredRow>, now: Millis, c: nat)
    requires Counted(t.channels, t.messages) && RowsMatch(t, rows) && c in t.channels
    ensures Apply(t, rows, now).0.channels[c].messageCount
         == t.channels[c].messageCount - |HitsIn(t.messages, rows, c)|
  {
    HitsInChannel(t, rows, c);
  }

  lemma ApplyKeepsLog(t: Tables, rows: seq<ExpiredRow>, now: Millis)
    requires LogInv(t) && RowsMatch(t, rows)
    ensures LogInv(Apply(t, rows, now).0)
  {
    var t' := Apply(t, rows, now).0;
    forall c | c in t.channels ensures t'.channels[c].messageCount == |NormalIds(t'.messages, c)| {
      NeverClips(t, rows, now, c);
      MarkCounts(t, rows, now, c);
    }
    MarkKeepsIndexes(t.messages, t.byClient, t.bySeq, Hits(t.messages, rows), now);
    MarkKeepsIds(t.messages, t.messageIds, Hits(t.messages, rows), now);
    assert Dense(t'.channels, t'.bySeq);
    assert Counted(t'.channels, t'.messages);
    assert Referenced(t');
  }

  lemma MarkKeepsIds(messages: map<nat, MessageRow>, messageIds: set<string>, ids: set<nat>, now: Millis)
    requires IdsUnique(messages, messageIds)
    ensures IdsUnique(Mark(messages, ids, now), messageIds)
  {
    var after := Mark(messages, ids, now);
    forall m | m in messages ensures after[m].messageId == messages[m].messageId {
    }
    assert (set m | m in after :: after[m].messageId) == (set m | m in messages :: messages[m].messageId);
  }

  lemma MarkKeepsIndexes(messages: map<nat, MessageRow>, byClient: map<ClientKey, nat>, bySeq: map<SeqKey, nat>,
                         ids: set<nat>, now: Millis)
    requires ClientIndex(messages, byClient) && SeqIndex(messages, bySeq)
    ensures ClientIndex(Mark(messages, ids, now), byClient) && SeqIndex(Mark(messages, ids, now), bySeq)
  {
    var after := Mark(messages, ids, now);
    forall id | id in messages
      ensures ClientKeyOf(after[id]) == ClientKeyOf(messages[id]) && SeqKeyOf(after[id]) == SeqKeyOf(messages[id])
    {
    }
  }

  /** Nothing but the status of normal rows and the cached counts changes: every key, seq, attachment and reference count
      stays. */
  lemma ApplyGrows(t: Tables, rows: seq<ExpiredRow>, now: Millis)
    ensures Grows(t, Apply(t, rows, now).0)
    ensures var t' := Apply(t, rows, now).0;
            && t' == t.(messages := t'.messages, channels := t'.channels)
            && t'.messages.Keys == t.messages.Keys && t'.channels.Keys == t.channels.Keys
            && (forall id :: id in t.messages ==>
                  t'.messages[id] == if id in Hits(t.messages, rows) then t.messages[id].(status := Deleted(now))
                                     else t.messages[id])
            && (forall c :: c in t.channels ==>
                  t'.channels[c] == t.channels[c].(messageCount := t'.channels[c].messageCount))
  {
  }

  // ---------- what one whole pass does ----------

  lemma KeyCount(t: Tables, now: Millis)
    ensures |ExpiredKeys(t, now)| == |ExpiredIds(t, now)|
  {
    KeyImage(t, ExpiredIds(t, now));
    assert ExpiredKeys(t, now) == set id | id in ExpiredIds(t, now) :: KeyOf(t, id);
  }

  lemma {:induction false} KeyImage(t: Tables, ids: set<nat>)
    requires ids <= t.messages.Keys
    ensures |set id | id in ids :: KeyOf(t, id)| == |ids|
  {
    if ids == {} {
    } else {
      var x :| x in ids;
      KeyImage(t, ids - {x});
      var rest := set id | id in ids - {x} :: KeyOf(t, id);
      assert (set id | id in ids :: KeyOf(t, id)) == rest + {KeyOf(t, x)};
      assert KeyOf(t, x) !in rest;
    }
  }

  lemma PassHits(t: Tables, now: Millis, limit: nat)
    ensures var rows := SelectExpired(t, now, limit);
            && Hits(t.messages, rows) <= ExpiredIds(t, now)
            && Pass(t, now, limit).1 == Min(EffectiveLimit(limit), |ExpiredIds(t, now)|)
            && (Pass(t, now, limit).1 == 0 <==> ExpiredIds(t, now) == {})
            && |rows| <= EffectiveLimit(limit)
  {
    var keys := Page(ExpiredKeys(t, now), EffectiveLimit(limit));
    PageIsPage(ExpiredKeys(t, now), EffectiveLimit(limit));
    var rows := SelectExpired(t, now, limit);
    KeyCount(t, now);
    AscendingDistinct(keys);
    assert Elements(keys) <= ExpiredKeys(t, now);
    var ids := set k | k in Elements(keys) :: k.minor;
    forall k | k in keys ensures k == KeyOf(t, k.minor) && Expired(t, k.minor, now) {
      assert k in Elements(keys);
    }
    forall i | 0 <= i < |rows| ensures rows[i].id in ids && rows[i].id in ExpiredIds(t, now) {
      assert keys[i] in keys && keys[i] in Elements(keys);
    }
    forall id | id in ids ensures id in Hits(t.messages, rows) {
      var k :| k in keys && k.minor == id;
      var i :| 0 <= i < |keys| && keys[i] == k;
      assert rows[i].id == id && rows[i] in rows;
    }
    assert Hits(t.messages, rows) == ids;
    KeyImage(t, ids);
    assert Elements(keys) == set id | id in ids :: KeyOf(t, id);
  }

  // ---------- against an independent reading of the rule ----------

  /** A normal message whose age exceeds its channel's window, in seconds; a window of 0 means none. */
  ghost predicate ExpiredAt(t: Tables, row: MessageRow, at: Millis)
  {
    && row.status == Normal && row.channel in t.channels
    && t.channels[row.channel].autoDeleteSeconds != 0
    && at - row.createdAt > 1000 * t.channels[row.channel].autoDeleteSeconds
  }

  /** All rows whose age exceeds their channel's window. */
  ghost function Overdue(t: Tables, now: Millis): set<nat>
  {
    set id | id in t.messages && ExpiredAt(t, t.messages[id], now)
  }

  lemma ExpiredIsOverdue(t: Tables, now: Millis)
    ensures ExpiredIds(t, now) == Overdue(t, now)
  {
  }

  /** `i` comes before `j` in the cleaner's order. */
  predicate Older(messages: map<nat, MessageRow>, i: nat, j: nat)
    requires i in messages && j in messages
  {
    messages[i].createdAt < messages[j].createdAt || (messages[i].createdAt == messages[j].createdAt && i < j)
  }

  lemma KeysHit(t: Tables, now: Millis, limit: nat, id: nat)
    requires id in ExpiredIds(t, now)
    ensures KeyOf(t, id) in Page(ExpiredKeys(t, now), EffectiveLimit(limit)) <==>
              id in Hits(t.messages, SelectExpired(t, now, limit))
  {
    var keys := Page(ExpiredKeys(t, now), EffectiveLimit(limit));
    var rows := SelectExpired(t, now, limit);
    PageWithin(ExpiredKeys(t, now), EffectiveLimit(limit));
    if KeyOf(t, id) in keys {
      var i :| 0 <= i < |keys| && keys[i] == KeyOf(t, id);
      assert rows[i].id == id && rows[i] in rows;
    }
    if id in Hits(t.messages, rows) {
      var r :| r in rows && r.id == id;
      var i :| 0 <= i < |rows| && rows[i] == r;
      assert keys[i] in ExpiredKeys(t, now) && keys[i] == KeyOf(t, id);
    }
  }

  lemma OldestSelected(t: Tables, now: Millis, limit: nat, i: nat, j: nat)
    requires i in ExpiredIds(t, now) && i in Hits(t.messages, SelectExpired(t, now, limit))
    requires j in ExpiredIds(t, now) && j !in Hits(t.messages, SelectExpired(t, now, limit))
    ensures Older(t.messages, i, j)
  {
    var all := ExpiredKeys(t, now);
    PageIsPage(all, EffectiveLimit(limit));
    KeysHit(t, now, limit, i);
    KeysHit(t, now, limit, j);
    assert KeyOf(t, j) in all - Elements(Page(all, EffectiveLimit(limit)));
    assert Less(KeyOf(t, i), KeyOf(t, j));
  }

  /** A pass deletes min(limit, overdue) messages, a limit of 0 standing for 100: only overdue ones, the oldest first, and
      it reports how many. */
  lemma PassCorrect(t: Tables, now: Millis, limit: nat)
    ensures var (t', n) := Pass(t, now, limit);
            var hits := Hits(t.messages, SelectExpired(t, now, limit));
            && n == |hits| == Min(if limit == 0 then 100 else limit, |Overdue(t, now)|)
            && hits <= Overdue(t, now)
            && (forall i, j :: i in hits && j in Overdue(t, now) - hits ==> Older(t.messages, i, j))
            && Overdue(t', now) == Overdue(t, now) - hits
  {
    var (t', n) := Pass(t, now, limit);
    var hits := Hits(t.messages, SelectExpired(t, now, limit));
    PassHits(t, now, limit);
    ExpiredIsOverdue(t, now);
    forall i, j | i in hits && j in Overdue(t, now) - hits ensures Older(t.messages, i, j) {
      OldestSelected(t, now, limit, i, j);
    }
    PassLeaves(t, now, limit);
  }

  lemma PassLeaves(t: Tables, now: Millis, limit: nat)
    ensures Overdue(Pass(t, now, limit).0, now) == Overdue(t, now) - Hits(t.messages, SelectExpired(t, now, limit))
  {
    var rows := SelectExpired(t, now, limit);
    var t' := Pass(t, now, limit).0;
    forall id | id in t.messages
      ensures ExpiredAt(t', t'.messages[id], now) <==>
                ExpiredAt(t, t.messages[id], now) && id !in Hits(t.messages, rows)
    {
      assert t'.messages[id].channel in t.channels ==>
          t'.channels[t'.messages[id].channel].autoDeleteSeconds == t.channels[t.messages[id].channel].autoDeleteSeconds;
    }
  }
}
