/** The message, channel, attachment and blob rows, and the transactions of the message repository on them.

    A unique key is held as the map the database keeps for it: `byClient` is
    (channel_id, sender_user_id, client_msg_id), `bySeq` is (channel_id, seq) and
    `messageIds` is message_id; `attachments` is keyed by (message_id, media_id). */
module ChannelLog {
  import opened Basics

  type Millis = int

  datatype Status = Normal | Deleted(at: Millis)

  datatype MessageType = Text | Image | File | System

  datatype MessageRow = MessageRow(
    messageId: string, channel: nat, seqNo: nat, sender: nat, clientMsgId: string,
    messageType: MessageType, text: string, createdAt: Millis, status: Status)

  datatype ChannelRow = ChannelRow(messageSeq: nat, messageCount: nat, isGroup: bool, autoDeleteSeconds: nat)

  datatype MediaRow = MediaRow(blob: nat, isImage: bool)

  datatype ClientKey = ClientKey(channel: nat, sender: nat, clientMsgId: string)

  datatype SeqKey = SeqKey(channel: nat, seqNo: nat)

  datatype AttachKey = AttachKey(message: nat, media: nat)

  datatype Tables = Tables(
    channels: map<nat, ChannelRow>,
    messages: map<nat, MessageRow>,
    byClient: map<ClientKey, nat>,
    bySeq: map<SeqKey, nat>,
    messageIds: set<string>,
    attachments: map<AttachKey, nat>,  // to sort_order
    media: map<nat, MediaRow>,
    refCount: map<nat, nat>)

  datatype CreateInput = CreateInput(
    channel: nat, sender: nat, clientMsgId: string, messageType: MessageType, text: string, attachments: seq<nat>)

  datatype CreateResult = Stored(id: nat) | ChannelNotFound | UniqueViolation

  function ClientKeyOf(r: MessageRow): ClientKey
  {
    ClientKey(r.channel, r.sender, r.clientMsgId)
  }

  function SeqKeyOf(r: MessageRow): SeqKey
  {
    SeqKey(r.channel, r.seqNo)
  }

  function NormalIds(messages: map<nat, MessageRow>, c: nat): set<nat>
  {
    set id | id in messages && messages[id].channel == c && messages[id].status.Normal?
  }

  // ---------- attachments and blob reference counts ----------

  datatype Attached = Attached(attachments: map<AttachKey, nat>, refCount: map<nat, nat>)

  /** `UPDATE blobs INNER JOIN media_objects`: no row matches an unknown media or blob. */
  function Bump(refCount: map<nat, nat>, media: map<nat, MediaRow>, m: nat): map<nat, nat>
  {
    if m in media && media[m].blob in refCount
    then refCount[media[m].blob := refCount[media[m].blob] + 1]
    else refCount
  }

  /** The attachment loop of a create, from position `index` on; `None` is a unique-key violation. */
  function Attach(a: Attached, media: map<nat, MediaRow>, id: nat, ms: seq<nat>, index: nat): Option<Attached>
    decreases |ms|
  {
    if ms == [] then Some(a)
    else if AttachKey(id, ms[0]) in a.attachments then None
    else
      Attach(Attached(a.attachments[AttachKey(id, ms[0]) := index], Bump(a.refCount, media, ms[0])),
             media, id, ms[1..], index + 1)
  }

  /** The attachment rows whose media points at blob `b`. */
  function References(attachments: map<AttachKey, nat>, media: map<nat, MediaRow>, b: nat): set<AttachKey>
  {
    set k | k in attachments && k.media in media && media[k.media].blob == b
  }

  ghost predicate RefsCounted(a: Attached, media: map<nat, MediaRow>)
  {
    forall b :: b in a.refCount ==> a.refCount[b] == |References(a.attachments, media, b)|
  }

  /** The rows a create adds: the i-th media of the message at sort order `index + i`, and nothing else. */
  ghost predicate ExtendsBy(before: map<AttachKey, nat>, after: map<AttachKey, nat>, id: nat, ms: seq<nat>, index: nat)
  {
    && (forall k :: k in before ==> k in after && after[k] == before[k])
    && (forall i :: 0 <= i < |ms| ==> AttachKey(id, ms[i]) in after && after[AttachKey(id, ms[i])] == index + i)
    && (forall k :: k in after && k !in before ==> k.message == id && k.media in ms)
  }

  lemma ReferencesAfterInsert(a: map<AttachKey, nat>, media: map<nat, MediaRow>, k: AttachKey, order: nat, b: nat)
    requires k !in a
    ensures |References(a[k := order], media, b)|
         == |References(a, media, b)| + (if k.media in media && media[k.media].blob == b then 1 else 0)
  {
    var after := References(a[k := order], media, b);
    if k.media in media && media[k.media].blob == b {
      assert after == References(a, media, b) + {k};
    } else {
      assert after == References(a, media, b);
    }
  }

  function AttachFirst(a: Attached, media: map<nat, MediaRow>, id: nat, m: nat, index: nat): Attached
  {
    Attached(a.attachments[AttachKey(id, m) := index], Bump(a.refCount, media, m))
  }

  /** Attaching to a message that has none of these media succeeds exactly when no media is repeated. */
  lemma {:induction false} AttachSucceeds(a: Attached, media: map<nat, MediaRow>, id: nat, ms: seq<nat>, index: nat)
    requires forall m :: m in ms ==> AttachKey(id, m) !in a.attachments
    ensures Attach(a, media, id, ms, index).Some? <==> Distinct(ms)
    decreases |ms|
  {
    if ms == [] {
    } else {
      assert forall i :: 0 <= i < |ms[1..]| ==> ms[1..][i] == ms[i + 1];
      if ms[0] in ms[1..] {
        RepeatFails(AttachFirst(a, media, id, ms[0], index), media, id, ms[1..], index + 1, ms[0]);
      } else {
        AttachSucceeds(AttachFirst(a, media, id, ms[0], index), media, id, ms[1..], index + 1);
        assert Distinct(ms) <==> Distinct(ms[1..]);
      }
    }
  }

  /** Every attachment row adds one to the count of the blob its media points at, and to no other. */
  lemma {:induction false} AttachCountsRefs(a: Attached, media: map<nat, MediaRow>, id: nat, ms: seq<nat>, index: nat)
    requires RefsCounted(a, media)
    requires Attach(a, media, id, ms, index).Some?
    ensures var b := Attach(a, media, id, ms, index).value;
            RefsCounted(b, media) && b.refCount.Keys == a.refCount.Keys
    decreases |ms|
  {
    if ms == [] {
    } else {
      var next := AttachFirst(a, media, id, ms[0], index);
      forall b | b in next.refCount
        ensures next.refCount[b] == |References(next.attachments, media, b)|
      {
        ReferencesAfterInsert(a.attachments, media, AttachKey(id, ms[0]), index, b);
      }
      AttachCountsRefs(next, media, id, ms[1..], index + 1);
    }
  }

  lemma {:induction false} AttachExtends(a: Attached, media: map<nat, MediaRow>, id: nat, ms: seq<nat>, index: nat)
    requires Attach(a, media, id, ms, index).Some?
    ensures ExtendsBy(a.attachments, Attach(a, media, id, ms, index).value.attachments, id, ms, index)
    decreases |ms|
  {
    if ms == [] {
    } else {
      var next := AttachFirst(a, media, id, ms[0], index);
      AttachExtends(next, media, id, ms[1..], index + 1);
      var after := Attach(a, media, id, ms, index).value.attachments;
      assert AttachKey(id, ms[0]) in next.attachments;
      forall i | 0 <= i < |ms|
        ensures AttachKey(id, ms[i]) in after && after[AttachKey(id, ms[i])] == index + i
      {
        if i > 0 { assert ms[i] == ms[1..][i - 1]; }
      }
    }
  }

  lemma {:induction false} RepeatFails(a: Attached, media: map<nat, MediaRow>, id: nat, ms: seq<nat>, index: nat, m: nat)
    requires AttachKey(id, m) in a.attachments && m in ms
    ensures Attach(a, media, id, ms, index).None?
    decreases |ms|
  {
    if AttachKey(id, ms[0]) !in a.attachments {
      var next := Attached(a.attachments[AttachKey(id, ms[0]) := index], Bump(a.refCount, media, ms[0]));
      RepeatFails(next, media, id, ms[1..], index + 1, m);
    }
  }

  // ---------- creating a message ----------

  /** What a create does once it holds the channel row lock and has read `readSeq` from that row. */
  function CommitCreate(t: Tables, input: CreateInput, readSeq: nat, id: nat, messageId: string, now: Millis)
    : (Tables, CreateResult)
    requires input.channel in t.channels
  {
    var c, key := input.channel, ClientKey(input.channel, input.sender, input.clientMsgId);
    if key in t.byClient then
      (t, Stored(t.byClient[key]))
    else if messageId in t.messageIds || SeqKey(c, readSeq + 1) in t.bySeq then
      (t, UniqueViolation)
    else
      match Attach(Attached(t.attachments, t.refCount), t.media, id, input.attachments, 0)
      case None => (t, UniqueViolation)
      case Some(a) =>
        var row := MessageRow(messageId, c, readSeq + 1, input.sender, input.clientMsgId,
                              input.messageType, input.text, now, Normal);
        (t.(messages := t.messages[id := row],
            byClient := t.byClient[key := id],
            bySeq := t.bySeq[SeqKey(c, readSeq + 1) := id],
            messageIds := t.messageIds + {messageId},
            attachments := a.attachments,
            refCount := a.refCount,
            channels := t.channels[c := t.channels[c].(messageSeq := readSeq + 1,
                                                       messageCount := t.channels[c].messageCount + 1)]),
         Stored(id))
  }

  /** The whole transaction: lock and read the channel row, then commit. */
  function Create(t: Tables, input: CreateInput, id: nat, messageId: string, now: Millis): (Tables, CreateResult)
  {
    if input.channel !in t.channels then (t, ChannelNotFound)
    else CommitCreate(t, input, t.channels[input.channel].messageSeq, id, messageId, now)
  }

  // ---------- the invariant of the log ----------

  ghost predicate ClientIndex(messages: map<nat, MessageRow>, byClient: map<ClientKey, nat>)
  {
    && (forall id {:trigger messages[id]} :: id in messages ==>
          ClientKeyOf(messages[id]) in byClient && byClient[ClientKeyOf(messages[id])] == id)
    && (forall k {:trigger byClient[k]} :: k in byClient ==>
          byClient[k] in messages && ClientKeyOf(messages[byClient[k]]) == k)
  }

  ghost predicate SeqIndex(messages: map<nat, MessageRow>, bySeq: map<SeqKey, nat>)
  {
    && (forall id {:trigger messages[id]} :: id in messages ==>
          SeqKeyOf(messages[id]) in bySeq && bySeq[SeqKeyOf(messages[id])] == id)
    && (forall k {:trigger bySeq[k]} :: k in bySeq ==>
          bySeq[k] in messages && SeqKeyOf(messages[bySeq[k]]) == k)
  }

  /** The seqs of a channel are exactly 1..message_seq, and a seq belongs to a channel. */
  ghost predicate Dense(channels: map<nat, ChannelRow>, bySeq: map<SeqKey, nat>)
  {
    && (forall k :: k in bySeq ==> k.channel in channels && 1 <= k.seqNo <= channels[k.channel].messageSeq)
    && (forall c, n: nat {:trigger SeqKey(c, n)} ::
          c in channels && 1 <= n <= channels[c].messageSeq ==> SeqKey(c, n) in bySeq)
  }

  /** The cached message_count of a channel is the number of its normal messages. */
  ghost predicate Counted(channels: map<nat, ChannelRow>, messages: map<nat, MessageRow>)
  {
    forall c :: c in channels ==> channels[c].messageCount == |NormalIds(messages, c)|
  }

  ghost predicate Sorted(attachments: map<AttachKey, nat>)
  {
    forall j, k :: j in attachments && k in attachments && j.message == k.message && attachments[j] == attachments[k]
      ==> j == k
  }

  ghost predicate Referenced(t: Tables)
  {
    && RefsCounted(Attached(t.attachments, t.refCount), t.media)
    && (forall k :: k in t.attachments ==> k.message in t.messages)
    && Sorted(t.attachments)
  }

  /** The third unique key: `messageIds` holds the message_id of every row, and no two rows share one. */
  ghost predicate IdsUnique(messages: map<nat, MessageRow>, messageIds: set<string>)
  {
    && messageIds == (set id | id in messages :: messages[id].messageId)
    && (forall i, j :: i in messages && j in messages && messages[i].messageId == messages[j].messageId ==> i == j)
  }

  ghost predicate LogInv(t: Tables)
  {
    && ClientIndex(t.messages, t.byClient)
    && IdsUnique(t.messages, t.messageIds)
    && SeqIndex(t.messages, t.bySeq)
    && Dense(t.channels, t.bySeq)
    && Counted(t.channels, t.messages)
    && Referenced(t)
  }

  /** Of a row only its status changes, from normal to deleted. */
  predicate RowKept(r: MessageRow, r': MessageRow)
  {
    r'.(status := r.status) == r && (r.status.Deleted? ==> r'.status == r.status)
  }

  ghost predicate RowsKept(messages: map<nat, MessageRow>, messages': map<nat, MessageRow>)
  {
    forall id {:trigger messages[id]} {:trigger messages'[id]} :: id in messages ==>
      id in messages' && RowKept(messages[id], messages'[id])
  }

  ghost predicate NewAbove(t: Tables, t': Tables)
  {
    forall id {:trigger t'.messages[id]} ::
      id in t'.messages && id !in t.messages && t'.messages[id].channel in t.channels ==>
      t'.messages[id].seqNo > t.channels[t'.messages[id].channel].messageSeq
  }

  /** Rows are never removed; of a row only its status changes, from normal to deleted; a new row of an old channel
      has a seq above all that were there, so seq order is commit order. */
  ghost predicate RowsGrow(t: Tables, t': Tables)
  {
    RowsKept(t.messages, t'.messages) && NewAbove(t, t')
  }

  ghost predicate SeqsRise(channels: map<nat, ChannelRow>, channels': map<nat, ChannelRow>)
  {
    forall c :: c in channels ==> c in channels' && channels[c].messageSeq <= channels'[c].messageSeq
  }

  ghost predicate Grows(t: Tables, t': Tables)
  {
    RowsGrow(t, t') && SeqsRise(t.channels, t'.channels)
  }

  lemma GrowsSelf(t: Tables)
    ensures Grows(t, t)
  {
  }

  lemma KeptTransitive(a: map<nat, MessageRow>, b: map<nat, MessageRow>, c: map<nat, MessageRow>)
    requires RowsKept(a, b) && RowsKept(b, c)
    ensures RowsKept(a, c)
  {
    forall id | id in a ensures id in c && RowKept(a[id], c[id]) {
      assert RowKept(a[id], b[id]) && RowKept(b[id], c[id]);
    }
  }

  lemma NewAboveTransitive(t: Tables, t': Tables, t'': Tables)
    requires NewAbove(t, t') && NewAbove(t', t'') && RowsKept(t'.messages, t''.messages)
    requires SeqsRise(t.channels, t'.channels)
    ensures NewAbove(t, t'')
  {
    forall id | id in t''.messages && id !in t.messages && t''.messages[id].channel in t.channels
      ensures t''.messages[id].seqNo > t.channels[t''.messages[id].channel].messageSeq
    {
      if id in t'.messages {
        assert RowKept(t'.messages[id], t''.messages[id]);
      }
    }
  }

  lemma GrowsTransitive(t: Tables, t': Tables, t'': Tables)
    requires Grows(t, t') && Grows(t', t'')
    ensures Grows(t, t'')
  {
    KeptTransitive(t.messages, t'.messages, t''.messages);
    NewAboveTransitive(t, t', t'');
  }

  lemma SeqBounded(t: Tables, id: nat)
    requires SeqIndex(t.messages, t.bySeq) && Dense(t.channels, t.bySeq) && id in t.messages
    ensures t.messages[id].channel in t.channels
    ensures 1 <= t.messages[id].seqNo <= t.channels[t.messages[id].channel].messageSeq
  {
    assert SeqKeyOf(t.messages[id]) in t.bySeq;
  }

  ghost predicate AddsRow(t: Tables, t': Tables, input: CreateInput, id: nat)
    requires input.channel in t.channels
  {
    && t'.messages.Keys == t.messages.Keys + {id}
    && t'.messages == t.messages[id := t'.messages[id]]
    && t'.messages[id].status == Normal
    && t'.messages[id].channel == input.channel
    && t'.messages[id].seqNo == t.channels[input.channel].messageSeq + 1
    && t'.channels.Keys == t.channels.Keys
    && t'.channels[input.channel] == t.channels[input.channel].(
         messageSeq := t.channels[input.channel].messageSeq + 1,
         messageCount := t.channels[input.channel].messageCount + 1)
    && t'.media == t.media
    && (forall d :: d in t.channels && d != input.channel ==> t'.channels[d] == t.channels[d])
  }

  /** The client key decides whether a row is added, the new row takes the next seq, and a repeated media or message id
      rolls the whole create back. */
  lemma CreateResultCorrect(t: Tables, input: CreateInput, id: nat, messageId: string, now: Millis)
    requires ClientIndex(t.messages, t.byClient) && Dense(t.channels, t.bySeq) && Referenced(t)
    requires input.channel in t.channels && id !in t.messages
    ensures var (t', r) := Create(t, input, id, messageId, now);
            var key := ClientKey(input.channel, input.sender, input.clientMsgId);
            && (r.Stored? <==> key in t.byClient || (messageId !in t.messageIds && Distinct(input.attachments)))
            && (r.Stored? ==> r.id in t'.messages && ClientKeyOf(t'.messages[r.id]) == key)
            && (key in t.byClient || !r.Stored? ==> t' == t)
            && (key !in t.byClient && r.Stored? ==>
                  && r.id == id && AddsRow(t, t', input, id)
                  && t'.messages[id].messageId == messageId && t'.messages[id].messageType == input.messageType
                  && t'.messages[id].text == input.text && t'.messages[id].createdAt == now)
  {
    AttachSucceeds(Attached(t.attachments, t.refCount), t.media, id, input.attachments, 0);
    assert SeqKey(input.channel, t.channels[input.channel].messageSeq + 1) !in t.bySeq;
  }

  /** The new message gets exactly the given media, at sort orders 0, 1, 2, ..., and no blob appears or disappears; a channel
      that does not exist is refused. */
  lemma CreateAttaches(t: Tables, input: CreateInput, id: nat, messageId: string, now: Millis)
    ensures var (t', r) := Create(t, input, id, messageId, now);
            && (r == ChannelNotFound <==> input.channel !in t.channels)
            && (!r.Stored? ==> t' == t)
            && (t' != t ==> ExtendsBy(t.attachments, t'.attachments, id, input.attachments, 0)
                            && t'.refCount.Keys == t.refCount.Keys)
  {
    var (t', r) := Create(t, input, id, messageId, now);
    if t' != t {
      var a := Attached(t.attachments, t.refCount);
      AttachExtends(a, t.media, id, input.attachments, 0);
      AttachKeepsBlobs(a, t.media, id, input.attachments, 0);
    }
  }

  lemma {:induction false} AttachKeepsBlobs(a: Attached, media: map<nat, MediaRow>, id: nat, ms: seq<nat>, index: nat)
    requires Attach(a, media, id, ms, index).Some?
    ensures Attach(a, media, id, ms, index).value.refCount.Keys == a.refCount.Keys
    decreases |ms|
  {
    if ms == [] {
    } else {
      AttachKeepsBlobs(AttachFirst(a, media, id, ms[0], index), media, id, ms[1..], index + 1);
    }
  }

  lemma CreateKeepsLog(t: Tables, input: CreateInput, id: nat, messageId: string, now: Millis)
    requires LogInv(t) && id !in t.messages
    ensures LogInv(Create(t, input, id, messageId, now).0)
  {
    var (t', r) := Create(t, input, id, messageId, now);
    if t' != t {
      var c, a := input.channel, Attached(t.attachments, t.refCount);
      CreateResultCorrect(t, input, id, messageId, now);
      AttachCountsRefs(a, t.media, id, input.attachments, 0);
      AttachExtends(a, t.media, id, input.attachments, 0);
      InsertKeepsIndexes(t, id, t'.messages[id]);
      InsertKeepsIds(t.messages, t.messageIds, id, t'.messages[id]);
      InsertKeepsDense(t.channels, t.bySeq, c, t'.channels[c], id);
      InsertKeepsCount(t, id, t'.messages[id], t'.channels[c]);
      InsertKeepsReferences(t, t', id, input.attachments);
    }
  }

  lemma CreateGrows(t: Tables, input: CreateInput, id: nat, messageId: string, now: Millis)
    requires LogInv(t) && id !in t.messages
    ensures Grows(t, Create(t, input, id, messageId, now).0)
  {
    var t' := Create(t, input, id, messageId, now).0;
    if t' != t {
      CreateResultCorrect(t, input, id, messageId, now);
      AddedRowGrows(t, t', input, id);
    }
  }

  lemma AddedRowGrows(t: Tables, t': Tables, input: CreateInput, id: nat)
    requires input.channel in t.channels && id !in t.messages && AddsRow(t, t', input, id)
    ensures Grows(t, t')
  {
  }

  lemma InsertKeepsDense(channels: map<nat, ChannelRow>, bySeq: map<SeqKey, nat>, c: nat, ch: ChannelRow, id: nat)
    requires Dense(channels, bySeq) && c in channels && ch.messageSeq == channels[c].messageSeq + 1
    ensures Dense(channels[c := ch], bySeq[SeqKey(c, ch.messageSeq) := id])
  {
  }

  lemma InsertKeepsIndexes(t: Tables, id: nat, row: MessageRow)
    requires ClientIndex(t.messages, t.byClient) && SeqIndex(t.messages, t.bySeq)
    requires id !in t.messages && ClientKeyOf(row) !in t.byClient && SeqKeyOf(row) !in t.bySeq
    ensures ClientIndex(t.messages[id := row], t.byClient[ClientKeyOf(row) := id])
    ensures SeqIndex(t.messages[id := row], t.bySeq[SeqKeyOf(row) := id])
  {
  }

  lemma InsertKeepsIds(messages: map<nat, MessageRow>, messageIds: set<string>, id: nat, row: MessageRow)
    requires IdsUnique(messages, messageIds) && id !in messages && row.messageId !in messageIds
    ensures IdsUnique(messages[id := row], messageIds + {row.messageId})
  {
    var after := messages[id := row];
    forall m | m in messages ensures after[m] == messages[m] && messages[m].messageId in messageIds {
    }
    var names := set m | m in after :: after[m].messageId;
    forall x | x in messageIds + {row.messageId} ensures x in names {
      if x == row.messageId {
        assert after[id].messageId == x;
      } else {
        var m :| m in messages && messages[m].messageId == x;
        assert after[m].messageId == x;
      }
    }
    assert names == messageIds + {row.messageId};
  }

  lemma NormalAfterInsert(messages: map<nat, MessageRow>, id: nat, row: MessageRow, d: nat)
    requires id !in messages && row.status.Normal?
    ensures |NormalIds(messages[id := row], d)| == |NormalIds(messages, d)| + (if d == row.channel then 1 else 0)
  {
    if d == row.channel {
      assert NormalIds(messages[id := row], d) == NormalIds(messages, d) + {id};
    } else {
      assert NormalIds(messages[id := row], d) == NormalIds(messages, d);
    }
  }

  lemma InsertKeepsCount(t: Tables, id: nat, row: MessageRow, ch: ChannelRow)
    requires Counted(t.channels, t.messages) && id !in t.messages && row.channel in t.channels && row.status.Normal?
    requires ch.messageCount == t.channels[row.channel].messageCount + 1
    ensures Counted(t.channels[row.channel := ch], t.messages[id := row])
  {
    forall d | d in t.channels
      ensures t.channels[row.channel := ch][d].messageCount == |NormalIds(t.messages[id := row], d)|
    {
      NormalAfterInsert(t.messages, id, row, d);
    }
  }

  lemma InsertKeepsReferences(t: Tables, t': Tables, id: nat, ms: seq<nat>)
    requires Referenced(t) && id !in t.messages
    requires t'.messages.Keys == t.messages.Keys + {id} && t'.media == t.media
    requires ExtendsBy(t.attachments, t'.attachments, id, ms, 0)
    requires RefsCounted(Attached(t'.attachments, t'.refCount), t'.media)
    ensures Referenced(t')
  {
    forall j, k | j in t'.attachments && k in t'.attachments && j.message == k.message
                  && t'.attachments[j] == t'.attachments[k]
      ensures j == k
    {
      if j in t.attachments {
        assert j.message != id;
        assert k in t.attachments;
      } else {
        assert j.message == id && k !in t.attachments;
        var x :| 0 <= x < |ms| && ms[x] == j.media;
        var y :| 0 <= y < |ms| && ms[y] == k.media;
        assert j == AttachKey(id, ms[x]) && k == AttachKey(id, ms[y]);
      }
    }
  }

  // ---------- blobs and media ----------

  /** The id is one the database never handed out: no row names it. */
  predicate FreshBlob(t: Tables, b: nat)
  {
    b !in t.refCount && forall m :: m in t.media ==> t.media[m].blob != b
  }

  predicate FreshMedia(t: Tables, m: nat)
  {
    m !in t.media && forall k :: k in t.attachments ==> k.media != m
  }

  function AddBlob(t: Tables, b: nat): Tables
  {
    t.(refCount := t.refCount[b := 0])
  }

  function AddMedia(t: Tables, m: nat, row: MediaRow): Tables
  {
    t.(media := t.media[m := row])
  }

  lemma AddBlobKeepsLog(t: Tables, b: nat)
    requires LogInv(t) && FreshBlob(t, b)
    ensures LogInv(AddBlob(t, b))
  {
    assert References(t.attachments, t.media, b) == {};
    assert RefsCounted(Attached(t.attachments, t.refCount[b := 0]), t.media);
  }

  lemma AddMediaKeepsLog(t: Tables, m: nat, row: MediaRow)
    requires LogInv(t) && FreshMedia(t, m)
    ensures LogInv(AddMedia(t, m, row))
    ensures AddMedia(t, m, row).media == t.media[m := row]
  {
    forall b | b in t.refCount ensures t.refCount[b] == |References(t.attachments, t.media[m := row], b)| {
      assert References(t.attachments, t.media[m := row], b) == References(t.attachments, t.media, b);
    }
  }

  // ---------- channels ----------

  /** `CreateChannel` as seen by the log: a new row with no messages and no window. */
  function AddChannel(t: Tables, c: nat, isGroup: bool): Tables
    requires c !in t.channels
  {
    t.(channels := t.channels[c := ChannelRow(0, 0, isGroup, 0)])
  }

  datatype WindowResult = WindowSet | WindowChannelNotFound | NotAGroup

  function SetAutoDelete(t: Tables, c: nat, seconds: nat): (Tables, WindowResult)
  {
    if c !in t.channels then (t, WindowChannelNotFound)
    else if !t.channels[c].isGroup then (t, NotAGroup)
    else (t.(channels := t.channels[c := t.channels[c].(autoDeleteSeconds := seconds)]), WindowSet)
  }

  lemma NewChannelCounted(t: Tables, c: nat, isGroup: bool)
    requires SeqIndex(t.messages, t.bySeq) && Dense(t.channels, t.bySeq) && Counted(t.channels, t.messages)
    requires c !in t.channels
    ensures Counted(AddChannel(t, c, isGroup).channels, t.messages)
  {
    forall id | id in t.messages ensures t.messages[id].channel != c {
      SeqBounded(t, id);
    }
    assert NormalIds(t.messages, c) == {};
  }

  lemma NewChannelDense(channels: map<nat, ChannelRow>, bySeq: map<SeqKey, nat>, c: nat, ch: ChannelRow)
    requires Dense(channels, bySeq) && c !in channels && ch.messageSeq == 0
    ensures Dense(channels[c := ch], bySeq)
  {
  }

  lemma AddChannelKeepsLog(t: Tables, c: nat, isGroup: bool)
    requires LogInv(t) && c !in t.channels
    ensures LogInv(AddChannel(t, c, isGroup))
  {
    NewChannelCounted(t, c, isGroup);
    NewChannelDense(t.channels, t.bySeq, c, ChannelRow(0, 0, isGroup, 0));
  }

  lemma AddChannelGrows(t: Tables, c: nat, isGroup: bool)
    requires c !in t.channels
    ensures Grows(t, AddChannel(t, c, isGroup))
  {
  }

  /** A change of channel rows that keeps every seq and count is invisible to the log. */
  lemma FrameChannels(t: Tables, channels: map<nat, ChannelRow>)
    requires LogInv(t) && channels.Keys == t.channels.Keys
    requires forall c :: c in channels ==>
               channels[c].messageSeq == t.channels[c].messageSeq && channels[c].messageCount == t.channels[c].messageCount
    ensures LogInv(t.(channels := channels))
  {
    assert Dense(channels, t.bySeq);
    assert Counted(channels, t.messages);
  }

  lemma SetAutoDeleteKeepsLog(t: Tables, c: nat, seconds: nat)
    requires LogInv(t)
    ensures LogInv(SetAutoDelete(t, c, seconds).0)
  {
    if c in t.channels && t.channels[c].isGroup {
      FrameChannels(t, t.channels[c := t.channels[c].(autoDeleteSeconds := seconds)]);
    }
  }

  /** Only a group's window can be set; it becomes what was asked, and nothing else in the tables changes. A channel starts
      without a window, as the kind it was created as. */
  lemma SetAutoDeleteEffect(t: Tables, c: nat, seconds: nat)
    ensures var (t', r) := SetAutoDelete(t, c, seconds);
            && (r == WindowChannelNotFound <==> c !in t.channels)
            && (r == NotAGroup <==> c in t.channels && !t.channels[c].isGroup)
            && (r != WindowSet ==> t' == t)
            && (r == WindowSet ==> c in t'.channels && t'.channels[c].autoDeleteSeconds == seconds
                                   && t == t'.(channels := t'.channels[c := t.channels[c]])
                                   && t'.channels[c].(autoDeleteSeconds := t.channels[c].autoDeleteSeconds) == t.channels[c])
  {
  }

  lemma AddChannelEffect(t: Tables, c: nat, isGroup: bool, seconds: nat)
    requires c !in t.channels
    ensures var t' := AddChannel(t, c, isGroup);
            && t'.(channels := t'.channels - {c}) == t
            && t'.channels[c].autoDeleteSeconds == 0
            && SetAutoDelete(t', c, seconds).1 == if isGroup then WindowSet else NotAGroup
  {
    assert AddChannel(t, c, isGroup).channels - {c} == t.channels;
  }

  lemma SetAutoDeleteGrows(t: Tables, c: nat, seconds: nat)
    ensures Grows(t, SetAutoDelete(t, c, seconds).0)
  {
  }
}
