/** Expanding message rows with their attachments: one batched query, distributed over the messages through an index. */
module Hydration {
  import opened Ordering
  import opened ChannelLog

  datatype Attachment = Attachment(media: nat, blob: nat, isImage: bool)

  datatype JoinedRow = JoinedRow(message: nat, attachment: Attachment)

  datatype IdRow = IdRow(id: nat, row: MessageRow)

  /** The inner joins drop an attachment whose media or blob row is missing. */
  predicate Joins(t: Tables, k: AttachKey)
  {
    k in t.attachments && k.media in t.media && t.media[k.media].blob in t.refCount
  }

  function OrderKeys(t: Tables, ids: set<nat>): set<Key>
  {
    set k | k in t.attachments && k.message in ids && Joins(t, k) :: Key(k.message, t.attachments[k])
  }

  ghost predicate Has(t: Tables, key: Key)
  {
    exists k :: Joins(t, k) && Key(k.message, t.attachments[k]) == key
  }

  /** The row behind a (message_id, sort_order) pair. */
  function RowAt(t: Tables, key: Key): JoinedRow
    requires Sorted(t.attachments) && Has(t, key)
  {
    var k :| Joins(t, k) && Key(k.message, t.attachments[k]) == key;
    JoinedRow(k.message, Attachment(k.media, t.media[k.media].blob, t.media[k.media].isImage))
  }

  ghost predicate Present(t: Tables, keys: seq<Key>)
  {
    forall i :: 0 <= i < |keys| ==> Has(t, keys[i])
  }

  function RowsAt(t: Tables, keys: seq<Key>): (rows: seq<JoinedRow>)
    requires Sorted(t.attachments) && Present(t, keys)
    ensures |rows| == |keys|
  {
    seq(|keys|, i requires 0 <= i < |keys| => RowAt(t, keys[i]))
  }

  lemma PagePresent(t: Tables, ids: set<nat>, n: nat)
    ensures Present(t, Page(OrderKeys(t, ids), n))
  {
    PageWithin(OrderKeys(t, ids), n);
  }

  /** All attachments of the given messages, by message and sort order. */
  function LoadAttachments(t: Tables, ids: set<nat>): seq<JoinedRow>
    requires Sorted(t.attachments)
  {
    PagePresent(t, ids, |OrderKeys(t, ids)|);
    RowsAt(t, Page(OrderKeys(t, ids), |OrderKeys(t, ids)|))
  }

  function Select(rows: seq<JoinedRow>, id: nat): seq<JoinedRow>
  {
    if rows == [] then []
    else
      var n := |rows| - 1;
      Select(rows[..n], id) + (if rows[n].message == id then [rows[n]] else [])
  }

  function Kind(rows: seq<JoinedRow>, isImage: bool): seq<Attachment>
  {
    if rows == [] then []
    else
      var n := |rows| - 1;
      Kind(rows[..n], isImage) + (if rows[n].attachment.isImage == isImage then [rows[n].attachment] else [])
  }

  // ---------- the batch, restricted to one message, is the query for that message ----------

  function SelectKeys(keys: seq<Key>, id: nat): seq<Key>
  {
    if keys == [] then []
    else
      var n := |keys| - 1;
      SelectKeys(keys[..n], id) + (if keys[n].major == id then [keys[n]] else [])
  }

  lemma {:induction false} SelectKeysOrdered(keys: seq<Key>, id: nat)
    requires Ascending(keys)
    ensures Ascending(SelectKeys(keys, id))
    ensures forall k :: k in SelectKeys(keys, id) <==> k in keys && k.major == id
  {
    if keys == [] {
    } else {
      var n := |keys| - 1;
      SelectKeysOrdered(keys[..n], id);
      assert keys == keys[..n] + [keys[n]];
      forall i | 0 <= i < |SelectKeys(keys[..n], id)| ensures Less(SelectKeys(keys[..n], id)[i], keys[n]) {
        assert SelectKeys(keys[..n], id)[i] in keys[..n];
      }
    }
  }

  lemma {:induction false} SelectPresent(t: Tables, keys: seq<Key>, id: nat)
    requires Present(t, keys)
    ensures Present(t, SelectKeys(keys, id))
  {
    if keys == [] {
    } else {
      SelectPresent(t, keys[..|keys| - 1], id);
    }
  }

  lemma {:induction false} SelectRows(t: Tables, keys: seq<Key>, id: nat)
    requires Sorted(t.attachments) && Present(t, keys) && Present(t, SelectKeys(keys, id))
    ensures Select(RowsAt(t, keys), id) == RowsAt(t, SelectKeys(keys, id))
  {
    if keys == [] {
    } else {
      var n := |keys| - 1;
      var rows := RowsAt(t, keys);
      SelectPresent(t, keys[..n], id);
      SelectRows(t, keys[..n], id);
      assert rows[..n] == RowsAt(t, keys[..n]);
      assert rows[n].message == keys[n].major;
      assert Select(rows, id) == Select(rows[..n], id) + (if rows[n].message == id then [rows[n]] else []);
    }
  }

  /** None lost, none duplicated, none crossed: what the batch holds for a message is what that message's own query
      returns, in the same order. */
  lemma BatchRefinesSingle(t: Tables, ids: set<nat>, id: nat)
    requires Sorted(t.attachments) && id in ids
    ensures Select(LoadAttachments(t, ids), id) == LoadAttachments(t, {id})
  {
    var all, one := OrderKeys(t, ids), OrderKeys(t, {id});
    var keys, own := Page(all, |all|), Page(one, |one|);
    PagePresent(t, ids, |all|);
    PagePresent(t, {id}, |one|);
    PageIsPage(all, |all|);
    PageIsPage(one, |one|);
    ShortPageIsAll(all, |all|, keys);
    ShortPageIsAll(one, |one|, own);
    SelectKeysOrdered(keys, id);
    var picked := SelectKeys(keys, id);
    forall k | k in Elements(picked) ensures k in one { assert k in all; }
    forall k | k in one ensures k in Elements(picked) { assert k in all && k in Elements(keys); }
    assert Elements(picked) == one;
    AscendingUnique(picked, own);
    SelectPresent(t, keys, id);
    SelectRows(t, keys, id);
  }

  // ---------- what the lists hold, in terms of the tables ----------

  function SortOrder(t: Tables, id: nat, m: nat): nat
  {
    if AttachKey(id, m) in t.attachments then t.attachments[AttachKey(id, m)] else 0
  }

  /** Media `m` is attached to message `id`, with a media row of the given kind and a blob row. */
  ghost predicate Carries(t: Tables, id: nat, isImage: bool, m: nat)
  {
    && AttachKey(id, m) in t.attachments && m in t.media
    && t.media[m].isImage == isImage && t.media[m].blob in t.refCount
  }

  ghost predicate InOrder(t: Tables, id: nat, list: seq<Attachment>)
  {
    forall i, j :: 0 <= i < j < |list| ==> SortOrder(t, id, list[i].media) < SortOrder(t, id, list[j].media)
  }

  lemma AppendInOrder(t: Tables, id: nat, list: seq<Attachment>, last: Attachment)
    requires InOrder(t, id, list)
    requires forall i :: 0 <= i < |list| ==> SortOrder(t, id, list[i].media) < SortOrder(t, id, last.media)
    ensures InOrder(t, id, list + [last])
  {
    var all := list + [last];
    forall i, j | 0 <= i < j < |all| ensures SortOrder(t, id, all[i].media) < SortOrder(t, id, all[j].media) {
      assert all[i] == list[i];
      assert j < |list| ==> all[j] == list[j];
    }
  }

  /** `list` holds exactly the message's media of that kind, each with its blob, in sort order. */
  ghost predicate Lists(t: Tables, id: nat, isImage: bool, list: seq<Attachment>)
  {
    && (forall i :: 0 <= i < |list| ==>
          Carries(t, id, isImage, list[i].media)
          && list[i] == Attachment(list[i].media, t.media[list[i].media].blob, isImage))
    && InOrder(t, id, list)
    && (forall m :: Carries(t, id, isImage, m) ==> exists i :: 0 <= i < |list| && list[i].media == m)
  }

  /** A loaded row says of its media what the media row says. */
  lemma RowCarries(t: Tables, key: Key)
    requires Sorted(t.attachments) && Has(t, key)
    ensures var r := RowAt(t, key);
            var m := r.attachment.media;
            && r.message == key.major && SortOrder(t, r.message, m) == key.minor
            && m in t.media && Carries(t, r.message, t.media[m].isImage, m)
            && r.attachment == Attachment(m, t.media[m].blob, t.media[m].isImage)
  {
  }

  /** `rows` are loaded rows of message `id`, in sort order. */
  ghost predicate RowsOf(t: Tables, id: nat, rows: seq<JoinedRow>)
  {
    && (forall i :: 0 <= i < |rows| ==>
          var m := rows[i].attachment.media;
          m in t.media && Carries(t, id, t.media[m].isImage, m)
          && rows[i].attachment == Attachment(m, t.media[m].blob, t.media[m].isImage))
    && (forall i, j :: 0 <= i < j < |rows| ==>
          SortOrder(t, id, rows[i].attachment.media) < SortOrder(t, id, rows[j].attachment.media))
  }

  lemma {:induction false} KindFilters(rows: seq<JoinedRow>, isImage: bool)
    ensures forall a :: a in Kind(rows, isImage) <==>
              a.isImage == isImage && exists i :: 0 <= i < |rows| && rows[i].attachment == a
  {
    if rows == [] {
    } else {
      var n := |rows| - 1;
      KindFilters(rows[..n], isImage);
      assert forall i :: 0 <= i < n ==> rows[..n][i] == rows[i];
      forall a | a in Kind(rows, isImage)
        ensures a.isImage == isImage && exists i :: 0 <= i < |rows| && rows[i].attachment == a
      {
        if a in Kind(rows[..n], isImage) {
          var i :| 0 <= i < n && rows[..n][i].attachment == a;
          assert rows[i].attachment == a;
        } else {
          assert rows[n].attachment == a;
        }
      }
    }
  }

  lemma {:induction false} KindOrdered(t: Tables, id: nat, rows: seq<JoinedRow>, isImage: bool)
    requires RowsOf(t, id, rows)
    ensures InOrder(t, id, Kind(rows, isImage))
  {
    if rows == [] {
    } else {
      var n := |rows| - 1;
      var front := Kind(rows[..n], isImage);
      KindOrdered(t, id, rows[..n], isImage);
      KindFilters(rows[..n], isImage);
      forall i | 0 <= i < |front| ensures SortOrder(t, id, front[i].media) < SortOrder(t, id, rows[n].attachment.media) {
        assert front[i] in front;
        var j :| 0 <= j < n && rows[..n][j].attachment == front[i];
        assert rows[j].attachment == front[i];
      }
      AppendInOrder(t, id, front, rows[n].attachment);
      assert front + [] == front;
    }
  }

  lemma LoadedRows(t: Tables, id: nat)
    requires Sorted(t.attachments)
    ensures RowsOf(t, id, LoadAttachments(t, {id}))
    ensures forall m, b :: Carries(t, id, b, m) ==>
              exists i :: 0 <= i < |LoadAttachments(t, {id})| && LoadAttachments(t, {id})[i].attachment.media == m
  {
    var all := OrderKeys(t, {id});
    var keys, rows := Page(all, |all|), LoadAttachments(t, {id});
    PagePresent(t, {id}, |all|);
    PageWithin(all, |all|);
    PageIsPage(all, |all|);
    ShortPageIsAll(all, |all|, keys);
    forall i | 0 <= i < |rows|
      ensures rows[i].message == id && SortOrder(t, id, rows[i].attachment.media) == keys[i].minor
      ensures rows[i].attachment.media in t.media && Carries(t, id, t.media[rows[i].attachment.media].isImage, rows[i].attachment.media)
      ensures rows[i].attachment == Attachment(rows[i].attachment.media, t.media[rows[i].attachment.media].blob,
                                               t.media[rows[i].attachment.media].isImage)
    {
      RowCarries(t, keys[i]);
      assert keys[i] in all;
    }
    forall i, j | 0 <= i < j < |rows|
      ensures SortOrder(t, id, rows[i].attachment.media) < SortOrder(t, id, rows[j].attachment.media)
    {
      assert Less(keys[i], keys[j]) && keys[i] in all && keys[j] in all;
    }
    forall m, b | Carries(t, id, b, m) ensures exists i :: 0 <= i < |rows| && rows[i].attachment.media == m {
      var k := AttachKey(id, m);
      assert Joins(t, k) && Key(id, t.attachments[k]) in all;
      assert Key(id, t.attachments[k]) in Elements(keys);
      var i :| 0 <= i < |keys| && keys[i] == Key(id, t.attachments[k]);
      LoadedMedia(t, id, rows[i].attachment.media, m);
    }
  }

  lemma LoadedMedia(t: Tables, id: nat, m: nat, n: nat)
    requires Sorted(t.attachments) && AttachKey(id, m) in t.attachments && AttachKey(id, n) in t.attachments
    requires SortOrder(t, id, m) == SortOrder(t, id, n)
    ensures m == n
  {
    assert AttachKey(id, m) == AttachKey(id, n);
  }

  /** The images of a message are exactly its attached media that are images, and the files the rest, each in sort order. */
  lemma KindLists(t: Tables, id: nat, isImage: bool)
    requires Sorted(t.attachments)
    ensures Lists(t, id, isImage, Kind(LoadAttachments(t, {id}), isImage))
  {
    var rows := LoadAttachments(t, {id});
    var list := Kind(rows, isImage);
    LoadedRows(t, id);
    KindFilters(rows, isImage);
    KindOrdered(t, id, rows, isImage);
    forall i | 0 <= i < |list|
      ensures Carries(t, id, isImage, list[i].media)
      ensures list[i] == Attachment(list[i].media, t.media[list[i].media].blob, isImage)
    {
      assert list[i] in list;
      var j :| 0 <= j < |rows| && rows[j].attachment == list[i];
    }
    forall m | Carries(t, id, isImage, m) ensures exists i :: 0 <= i < |list| && list[i].media == m {
      var j :| 0 <= j < |rows| && rows[j].attachment.media == m;
      assert rows[j].attachment.isImage == isImage && rows[j].attachment in list;
    }
  }

  // ---------- what was attached is what is loaded ----------

  ghost predicate AllJoin(t: Tables, ms: seq<nat>)
  {
    forall i :: 0 <= i < |ms| ==> ms[i] in t.media && t.media[ms[i]].blob in t.refCount
  }

  lemma OwnKeys(t: Tables, before: map<AttachKey, nat>, id: nat, ms: seq<nat>)
    requires ExtendsBy(before, t.attachments, id, ms, 0) && AllJoin(t, ms)
    requires forall k :: k in before ==> k.message != id
    ensures OrderKeys(t, {id}) == Elements(seq(|ms|, i requires 0 <= i < |ms| => Key(id, i)))
  {
    var keys := seq(|ms|, i requires 0 <= i < |ms| => Key(id, i));
    forall x | x in OrderKeys(t, {id}) ensures x in Elements(keys) {
      var k :| k in t.attachments && k.message == id && x == Key(k.message, t.attachments[k]);
      var i :| 0 <= i < |ms| && ms[i] == k.media;
      assert k == AttachKey(id, ms[i]) && keys[i] == x;
    }
    forall x | x in Elements(keys) ensures x in OrderKeys(t, {id}) {
      var i :| 0 <= i < |ms| && keys[i] == x;
      assert Joins(t, AttachKey(id, ms[i]));
    }
  }

  /** Loading the message a create added returns its media in the order they were given. */
  lemma CreateThenLoad(t: Tables, input: CreateInput, id: nat, messageId: string, now: Millis)
    requires LogInv(t) && id !in t.messages && input.channel in t.channels && AllJoin(t, input.attachments)
    requires ClientKey(input.channel, input.sender, input.clientMsgId) !in t.byClient
    requires Create(t, input, id, messageId, now).1 == Stored(id)
    ensures var t' := Create(t, input, id, messageId, now).0;
            && Sorted(t'.attachments)
            && |LoadAttachments(t', {id})| == |input.attachments|
            && forall i :: 0 <= i < |input.attachments| ==>
                 LoadAttachments(t', {id})[i].attachment.media == input.attachments[i]
  {
    var t', ms := Create(t, input, id, messageId, now).0, input.attachments;
    CreateKeepsLog(t, input, id, messageId, now);
    var a := Attached(t.attachments, t.refCount);
    AttachExtends(a, t.media, id, ms, 0);
    AttachCountsRefs(a, t.media, id, ms, 0);
    LoadExtended(t', t.attachments, id, ms);
  }

  lemma LoadExtended(t: Tables, before: map<AttachKey, nat>, id: nat, ms: seq<nat>)
    requires ExtendsBy(before, t.attachments, id, ms, 0) && AllJoin(t, ms) && Sorted(t.attachments)
    requires forall k :: k in before ==> k.message != id
    ensures |LoadAttachments(t, {id})| == |ms|
    ensures forall i :: 0 <= i < |ms| ==> LoadAttachments(t, {id})[i].attachment.media == ms[i]
  {
    var keys := seq(|ms|, i requires 0 <= i < |ms| => Key(id, i));
    var all := OrderKeys(t, {id});
    OwnKeys(t, before, id, ms);
    PagePresent(t, {id}, |all|);
    PageIsPage(all, |all|);
    ShortPageIsAll(all, |all|, Page(all, |all|));
    AscendingUnique(Page(all, |all|), keys);
    forall i | 0 <= i < |ms| ensures RowAt(t, keys[i]).attachment.media == ms[i] {
      assert Joins(t, AttachKey(id, ms[i]));
    }
  }

  // ---------- the code ----------

  class Message {
    const id: nat
    const row: MessageRow
    var images: seq<Attachment>
    var files: seq<Attachment>

    constructor (id: nat, row: MessageRow)
      ensures this.id == id && this.row == row && images == [] && files == []
    {
      this.id, this.row, images, files := id, row, [], [];
    }
  }

  /** Where the index points: the last position holding each id. */
  function Positions(rows: seq<IdRow>): (at: map<nat, nat>)
    ensures forall id :: id in at ==> at[id] < |rows| && rows[at[id]].id == id
  {
    if rows == [] then map[]
    else
      var n := |rows| - 1;
      Positions(rows[..n])[rows[n].id := n]
  }

  /** A position is the indexed one exactly when no later row repeats its id. */
  lemma {:induction false} PositionIsLast(rows: seq<IdRow>, i: nat)
    requires i < |rows|
    ensures rows[i].id in Positions(rows)
    ensures Positions(rows)[rows[i].id] == i <==> forall j :: i < j < |rows| ==> rows[j].id != rows[i].id
  {
    var n := |rows| - 1;
    if i < n {
      PositionIsLast(rows[..n], i);
      if rows[n].id != rows[i].id {
        assert Positions(rows)[rows[i].id] == Positions(rows[..n])[rows[i].id];
        assert forall j :: i < j < n ==> rows[..n][j] == rows[j];
      }
    }
  }

  predicate DistinctFrom(items: seq<Message>)
  {
    forall i, j :: 0 <= i < j < |items| ==> items[i] != items[j]
  }

  /** One fresh object per row, and the index over them. */
  method MakeItems(rows: seq<IdRow>) returns (items: seq<Message>, index: map<nat, Message>)
    ensures |items| == |rows| && DistinctFrom(items)
    ensures forall i :: 0 <= i < |items| ==> fresh(items[i]) && items[i].id == rows[i].id && items[i].row == rows[i].row
    ensures forall i :: 0 <= i < |items| ==> items[i].images == [] && items[i].files == []
    ensures index.Keys == Positions(rows).Keys
    ensures forall id :: id in index ==> index[id] == items[Positions(rows)[id]]
  {
    items, index := [], map[];
    for n := 0 to |rows|
      invariant |items| == n && DistinctFrom(items)
      invariant forall i :: 0 <= i < n ==> fresh(items[i]) && items[i].id == rows[i].id && items[i].row == rows[i].row
      invariant forall i :: 0 <= i < n ==> items[i].images == [] && items[i].files == []
      invariant index.Keys == Positions(rows[..n]).Keys
      invariant forall id :: id in index ==> index[id] == items[Positions(rows[..n])[id]]
    {
      var item := new Message(rows[n].id, rows[n].row);
      items := items + [item];
      index := index[rows[n].id := item];
      assert rows[..n + 1][..n] == rows[..n];
    }
    assert rows[..|rows|] == rows;
  }

  /** What position `i` has received from the attachment rows seen so far. */
  ghost predicate FilledWith(images: seq<Attachment>, files: seq<Attachment>, rows: seq<IdRow>, i: nat, seen: seq<JoinedRow>)
    requires i < |rows|
  {
    if rows[i].id in Positions(rows) && Positions(rows)[rows[i].id] == i
    then images == Kind(Select(seen, rows[i].id), true) && files == Kind(Select(seen, rows[i].id), false)
    else images == [] && files == []
  }

  ghost predicate Filled(item: Message, rows: seq<IdRow>, i: nat, seen: seq<JoinedRow>)
    requires i < |rows|
    reads item
  {
    FilledWith(item.images, item.files, rows, i, seen)
  }

  /** What position `i` of a batch ends with: of rows that repeat an id only the last is filled, with what hydrating that
      row alone gives, which are its images and its files, each in sort order. */
  ghost predicate Hydrated(t: Tables, rows: seq<IdRow>, i: nat, images: seq<Attachment>, files: seq<Attachment>)
    requires Sorted(t.attachments) && i < |rows|
  {
    if forall j :: i < j < |rows| ==> rows[j].id != rows[i].id
    then && images == Kind(LoadAttachments(t, {rows[i].id}), true) && files == Kind(LoadAttachments(t, {rows[i].id}), false)
         && Lists(t, rows[i].id, true, images) && Lists(t, rows[i].id, false, files)
    else images == [] && files == []
  }

  lemma FilledIsHydrated(t: Tables, rows: seq<IdRow>, ids: set<nat>, i: nat, images: seq<Attachment>, files: seq<Attachment>)
    requires Sorted(t.attachments) && i < |rows| && rows[i].id in ids
    requires FilledWith(images, files, rows, i, LoadAttachments(t, ids))
    ensures Hydrated(t, rows, i, images, files)
  {
    PositionIsLast(rows, i);
    BatchRefinesSingle(t, ids, rows[i].id);
    KindLists(t, rows[i].id, true);
    KindLists(t, rows[i].id, false);
  }

  lemma SelectStep(seen: seq<JoinedRow>, row: JoinedRow, id: nat)
    ensures Select(seen + [row], id) == Select(seen, id) + (if row.message == id then [row] else [])
  {
    assert (seen + [row])[..|seen|] == seen;
  }

  lemma KindStep(rows: seq<JoinedRow>, row: JoinedRow, isImage: bool)
    ensures Kind(rows + [row], isImage)
         == Kind(rows, isImage) + (if row.attachment.isImage == isImage then [row.attachment] else [])
  {
    assert (rows + [row])[..|rows|] == rows;
  }

  lemma FillStep(seen: seq<JoinedRow>, row: JoinedRow, id: nat, isImage: bool)
    ensures Kind(Select(seen + [row], id), isImage)
         == Kind(Select(seen, id), isImage)
            + (if row.message == id && row.attachment.isImage == isImage then [row.attachment] else [])
  {
    SelectStep(seen, row, id);
    KindStep(Select(seen, id), row, isImage);
    assert Select(seen, id) + [] == Select(seen, id);
  }

  /** Distributes the batch over the objects. */
  method Distribute(items: seq<Message>, index: map<nat, Message>, rows: seq<IdRow>, joined: seq<JoinedRow>)
    requires |items| == |rows| && DistinctFrom(items)
    requires index.Keys == Positions(rows).Keys
    requires forall id :: id in index ==> index[id] == items[Positions(rows)[id]]
    requires forall i :: 0 <= i < |items| ==> items[i].images == [] && items[i].files == []
    modifies items
    ensures forall i :: 0 <= i < |items| ==> Filled(items[i], rows, i, joined)
  {
    for n := 0 to |joined|
      invariant forall i :: 0 <= i < |items| ==> Filled(items[i], rows, i, joined[..n])
    {
      var row := joined[n];
      assert joined[..n + 1] == joined[..n] + [row];
      label before:
      if row.message in index {
        var target := index[row.message];
        assert target == items[Positions(rows)[row.message]] && target in items;
        if row.attachment.isImage {
          target.images := target.images + [row.attachment];
        } else {
          target.files := target.files + [row.attachment];
        }
      }
      forall i | 0 <= i < |items| ensures Filled(items[i], rows, i, joined[..n + 1]) {
        assert old@before(Filled(items[i], rows, i, joined[..n]));
        FillStep(joined[..n], row, rows[i].id, true);
        FillStep(joined[..n], row, rows[i].id, false);
        if row.message in index && i != Positions(rows)[row.message] {
          assert items[i] != index[row.message];
        }
      }
    }
    assert joined[..|joined|] == joined;
  }

  /** Hydrating a batch gives at each position what hydrating that row alone gives. */
  method HydrateMessages(t: Tables, rows: seq<IdRow>) returns (items: seq<Message>)
    requires Sorted(t.attachments)
    ensures |items| == |rows| && DistinctFrom(items)
    ensures forall i :: 0 <= i < |items| ==> items[i].id == rows[i].id && items[i].row == rows[i].row
    ensures forall i :: 0 <= i < |items| ==> Hydrated(t, rows, i, items[i].images, items[i].files)
  {
    if rows == [] { return []; }
    var index;
    items, index := MakeItems(rows);
    var ids := set r | r in rows :: r.id;
    var joined := LoadAttachments(t, ids);
    Distribute(items, index, rows, joined);
    forall i | 0 <= i < |items| ensures Hydrated(t, rows, i, items[i].images, items[i].files) {
      assert rows[i] in rows && Filled(items[i], rows, i, joined);
      FilledIsHydrated(t, rows, ids, i, items[i].images, items[i].files);
    }
  }
}
