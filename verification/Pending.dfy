/** Paging over the messages a recipient has not acknowledged. */
module Pending {
  import opened Ordering
  import opened Direct

  predicate IsPending(t: Tables, c: nat, user: nat, after: nat, id: nat)
  {
    && id in t.messages
    && t.messages[id].conversation == c
    && t.messages[id].recipient == user
    && t.messages[id].seqNo > after
    && t.messages[id].acked == Never
  }

  function PendingKeys(t: Tables, c: nat, user: nat, after: nat): set<Key>
  {
    set id | id in t.messages && IsPending(t, c, user, after, id) :: Key(t.messages[id].seqNo, id)
  }

  /** The store turns 0 and anything above 500 into 100. */
  function StoreLimit(asked: nat): nat
  {
    if asked == 0 || asked > 500 then 100 else asked
  }

  /** The service turns 0 into 50 before it asks the store. */
  function EffectiveLimit(requested: nat): nat
  {
    StoreLimit(if requested == 0 then 50 else requested)
  }

  datatype PendingPage = PendingPage(items: seq<Key>, next: nat, hasMore: bool)

  /** The query: pending messages above the cursor by seq, at most `limit`. */
  function PendingRows(t: Tables, c: nat, user: nat, after: nat, limit: nat): (keys: seq<Key>)
    ensures forall i :: 0 <= i < |keys| ==>
              keys[i].minor in t.messages && keys[i].major == t.messages[keys[i].minor].seqNo && keys[i].major > after
  {
    PageWithin(PendingKeys(t, c, user, after), limit);
    Page(PendingKeys(t, c, user, after), limit)
  }

  /** `limit` is the effective one. A full page is taken to mean that more may follow. */
  function ListPending(t: Tables, c: nat, user: nat, after: nat, limit: nat): PendingPage
  {
    var items := PendingRows(t, c, user, after, limit);
    PendingPage(items, if items == [] then after else items[|items| - 1].major, |items| == limit)
  }

  /** No limit asked for means 50, one up to 500 is honoured, and anything above means 100. */
  lemma EffectiveLimitRange(requested: nat)
    ensures 1 <= EffectiveLimit(requested) <= 500
    ensures requested == 0 ==> EffectiveLimit(requested) == 50
    ensures 1 <= requested <= 500 ==> EffectiveLimit(requested) == requested
    ensures requested > 500 ==> EffectiveLimit(requested) == 100
  {
  }

  /** A message of the conversation to the user, above the cursor and without an acknowledgement time. */
  ghost predicate Unacknowledged(t: Tables, c: nat, user: nat, after: nat, id: nat)
  {
    && id in t.messages && t.messages[id].conversation == c && t.messages[id].recipient == user
    && t.messages[id].acked == Never && after < t.messages[id].seqNo
  }

  /** The page lists unacknowledged messages with their seqs, and up to its cursor all of them. */
  lemma PendingAnswers(t: Tables, c: nat, user: nat, after: nat, limit: nat)
    requires SeqsGood(t)
    ensures var p := ListPending(t, c, user, after, limit);
            && (forall k :: k in p.items ==> Unacknowledged(t, c, user, after, k.minor) && t.messages[k.minor].seqNo == k.major)
            && (forall id :: Unacknowledged(t, c, user, after, id) && t.messages[id].seqNo <= p.next ==>
                  Key(t.messages[id].seqNo, id) in p.items)
            && |p.items| <= limit
            && p.next == (if p.items == [] then after else p.items[|p.items| - 1].major)
            && (p.hasMore <==> |p.items| == limit)
  {
    var p := ListPending(t, c, user, after, limit);
    PendingCorrect(t, c, user, after, limit);
    PendingShape(t, c, user, after, limit);
    forall k | k in p.items ensures k in PendingKeys(t, c, user, after) { assert k in Elements(p.items); }
    forall id | Unacknowledged(t, c, user, after, id) && t.messages[id].seqNo <= p.next
      ensures Key(t.messages[id].seqNo, id) in p.items
    {
      var k := Key(t.messages[id].seqNo, id);
      assert IsPending(t, c, user, after, id) && k in PendingKeys(t, c, user, after);
      assert k !in PendingKeys(t, c, user, p.next);
      assert k in Elements(p.items);
    }
  }

  lemma PendingSeqUnique(t: Tables, c: nat, user: nat, after: nat, j: Key, k: Key)
    requires SeqsGood(t)
    requires j in PendingKeys(t, c, user, after) && k in PendingKeys(t, c, user, after) && j.major == k.major
    ensures j == k
  {
    assert t.bySeq[SeqKeyOf(t.messages[j.minor])] == j.minor;
    assert t.bySeq[SeqKeyOf(t.messages[k.minor])] == k.minor;
  }

  /** The page and its cursor, against the messages pending when it is read. */
  ghost predicate PendingGood(t: Tables, c: nat, user: nat, after: nat, p: PendingPage)
  {
    && Ascending(p.items)
    && p.next >= after
    && (forall k :: k in p.items ==> after < k.major <= p.next)
    && Elements(p.items) <= PendingKeys(t, c, user, after)
    && PendingKeys(t, c, user, p.next) == PendingKeys(t, c, user, after) - Elements(p.items)
  }

  lemma PendingShape(t: Tables, c: nat, user: nat, after: nat, limit: nat)
    ensures var p := ListPending(t, c, user, after, limit);
            && IsPage(PendingKeys(t, c, user, after), limit, p.items)
            && (p.hasMore <==> |PendingKeys(t, c, user, after)| >= limit)
  {
    PageIsPage(PendingKeys(t, c, user, after), limit);
  }

  lemma PendingCut(t: Tables, c: nat, user: nat, after: nat, items: seq<Key>, k: Key)
    requires SeqsGood(t) && IsPage(PendingKeys(t, c, user, after), |items|, items) && items != []
    requires k in PendingKeys(t, c, user, after)
    ensures k.major > items[|items| - 1].major <==> k !in Elements(items)
  {
    var last := items[|items| - 1];
    assert last in items && last in Elements(items);
    if k !in Elements(items) {
      assert Less(last, k);
      if last.major == k.major { PendingSeqUnique(t, c, user, after, last, k); }
    }
  }

  /** The page is the next pending messages and the new cursor leaves exactly those not returned. */
  lemma PendingCorrect(t: Tables, c: nat, user: nat, after: nat, limit: nat)
    requires SeqsGood(t)
    ensures PendingGood(t, c, user, after, ListPending(t, c, user, after, limit))
  {
    var all := PendingKeys(t, c, user, after);
    var p := ListPending(t, c, user, after, limit);
    PendingShape(t, c, user, after, limit);
    if p.items == [] {
      assert p.next == after;
    } else {
      forall k | k in all ensures k.major > p.next <==> k !in Elements(p.items) {
        PendingCut(t, c, user, after, p.items, k);
      }
      forall k | k in p.items ensures after < k.major <= p.next {
        assert k in Elements(p.items);
      }
      assert p.items[0] in p.items;
      assert PendingKeys(t, c, user, p.next) == all - Elements(p.items);
    }
  }

  /** `hasMore` is false only when nothing is pending above the new cursor; it is true once too often exactly when the
      last page is full. */
  lemma HasMoreSafe(t: Tables, c: nat, user: nat, after: nat, limit: nat)
    requires SeqsGood(t)
    ensures var p := ListPending(t, c, user, after, limit);
            && (!p.hasMore ==> PendingKeys(t, c, user, p.next) == {})
            && (p.hasMore && PendingKeys(t, c, user, p.next) == {} <==> |PendingKeys(t, c, user, after)| == limit)
  {
    var p := ListPending(t, c, user, after, limit);
    PendingShape(t, c, user, after, limit);
    PendingCorrect(t, c, user, after, limit);
    RemainingAfterPage(t, c, user, after, limit);
  }

  const ONE_ROW := Row(1, 1, 2, 3, "m", "hello", 0, Never)

  const ONE_PENDING := Tables(map[1 := Conversation(Pair(2, 3), 1, 0)], map[Pair(2, 3) := 1], map[7 := ONE_ROW],
                              map[SendKey(1, 2, "m") := 7], map[SeqKey(1, 1) := 7])

  lemma OnePendingSound()
    ensures TablesInv(ONE_PENDING)
  {
    assert SendKeyOf(ONE_ROW) == SendKey(1, 2, "m") && SeqKeyOf(ONE_ROW) == SeqKey(1, 1);
    assert SendsGood(ONE_PENDING);
    assert SeqsGood(ONE_PENDING);
    assert Dense(ONE_PENDING);
  }

  lemma OnePendingKeys(after: nat)
    ensures PendingKeys(ONE_PENDING, 1, 3, after) == if after == 0 then {Key(1, 7)} else {}
  {
    assert IsPending(ONE_PENDING, 1, 3, after, 7) <==> after == 0;
    assert after == 0 ==> Key(ONE_PENDING.messages[7].seqNo, 7) in PendingKeys(ONE_PENDING, 1, 3, after);
  }

  /** One pending message and a limit of one: the page holds it, promises more, and nothing is left. */
  lemma HasMoreOverReports()
    ensures TablesInv(ONE_PENDING)
    ensures ListPending(ONE_PENDING, 1, 3, 0, 1) == PendingPage([Key(1, 7)], 1, true)
    ensures PendingKeys(ONE_PENDING, 1, 3, 1) == {}
  {
    OnePendingSound();
    OnePendingKeys(0);
    OnePendingKeys(1);
    PendingShape(ONE_PENDING, 1, 3, 0, 1);
    var p := ListPending(ONE_PENDING, 1, 3, 0, 1);
    assert |p.items| == 1 && p.items[0] in Elements(p.items);
  }

  // ---------- a whole drain with nobody else writing ----------

  lemma RemainingAfterPage(t: Tables, c: nat, user: nat, after: nat, limit: nat)
    requires SeqsGood(t)
    ensures var p := ListPending(t, c, user, after, limit);
            && |p.items| <= |PendingKeys(t, c, user, after)|
            && |PendingKeys(t, c, user, p.next)| == |PendingKeys(t, c, user, after)| - |p.items|
  {
    PendingCorrect(t, c, user, after, limit);
    AscendingDistinct(ListPending(t, c, user, after, limit).items);
    PendingShape(t, c, user, after, limit);
  }

  /** Repeats the request from the returned cursor until `hasMore` is false; the second part counts requests. */
  function Drain(t: Tables, c: nat, user: nat, after: nat, limit: nat): (seq<Key>, nat)
    requires SeqsGood(t) && limit >= 1
    decreases |PendingKeys(t, c, user, after)|
  {
    var p := ListPending(t, c, user, after, limit);
    RemainingAfterPage(t, c, user, after, limit);
    if !p.hasMore then (p.items, 1)
    else
      var (rest, n) := Drain(t, c, user, p.next, limit);
      (p.items + rest, n + 1)
  }

  /** `n` is floor(total / limit) + 1. */
  ghost predicate LeastExcess(n: nat, total: nat, limit: nat)
  {
    n >= 1 && (n - 1) * limit <= total < n * limit
  }

  lemma ExcessStep(n: nat, total: nat, limit: nat)
    requires total >= limit && LeastExcess(n, total - limit, limit)
    ensures LeastExcess(n + 1, total, limit)
  {
    assert (n + 1) * limit == n * limit + limit;
    assert (n - 1) * limit == n * limit - limit;
  }

  /** P pending messages take exactly floor(P / limit) + 1 requests. */
  lemma {:induction false} DrainRequests(t: Tables, c: nat, user: nat, after: nat, limit: nat)
    requires SeqsGood(t) && limit >= 1
    ensures LeastExcess(Drain(t, c, user, after, limit).1, |PendingKeys(t, c, user, after)|, limit)
    decreases |PendingKeys(t, c, user, after)|
  {
    var p := ListPending(t, c, user, after, limit);
    PendingShape(t, c, user, after, limit);
    RemainingAfterPage(t, c, user, after, limit);
    if p.hasMore {
      DrainRequests(t, c, user, p.next, limit);
      ExcessStep(Drain(t, c, user, p.next, limit).1, |PendingKeys(t, c, user, after)|, limit);
    }
  }

  /** Pending messages come back once each, in seq order. */
  lemma {:induction false} DrainItems(t: Tables, c: nat, user: nat, after: nat, limit: nat)
    requires SeqsGood(t) && limit >= 1
    ensures Ascending(Drain(t, c, user, after, limit).0)
    ensures Elements(Drain(t, c, user, after, limit).0) == PendingKeys(t, c, user, after)
    decreases |PendingKeys(t, c, user, after)|
  {
    var p := ListPending(t, c, user, after, limit);
    PendingCorrect(t, c, user, after, limit);
    if p.hasMore {
      PendingShape(t, c, user, after, limit);
      RemainingAfterPage(t, c, user, after, limit);
      DrainItems(t, c, user, p.next, limit);
      var rest := Drain(t, c, user, p.next, limit).0;
      forall k | k in Elements(rest) ensures k.major > p.next {
        assert k in PendingKeys(t, c, user, p.next);
      }
      JoinPages(p.items, rest, p.next);
    } else {
      PendingShape(t, c, user, after, limit);
      ShortPageIsAll(PendingKeys(t, c, user, after), limit, p.items);
    }
  }
}
