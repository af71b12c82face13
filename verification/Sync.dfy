/** Cursor paging over a channel: `ListAfterSeq` and `SyncChannel`. */
module Sync {
  import opened Ordering
  import opened ChannelLog

  const WORD: nat := 0x1_0000_0000

  type uint32 = x: int | 0 <= x < 0x1_0000_0000

  /** Conversion and addition in 32 bits. */
  function ToUint32(x: nat): uint32
  {
    x % 0x1_0000_0000
  }

  datatype Config = Config(defaultSyncLimit: uint32, maxSyncLimit: uint32)

  /** What start-up validation demands of the two limits. */
  predicate Validated(cfg: Config)
  {
    cfg.defaultSyncLimit != 0 && cfg.maxSyncLimit != 0 && cfg.defaultSyncLimit <= cfg.maxSyncLimit
  }

  predicate Matches(t: Tables, c: nat, after: nat, id: nat)
  {
    && id in t.messages
    && t.messages[id].channel == c
    && t.messages[id].seqNo > after
    && t.messages[id].status.Normal?
  }

  /** The rows of the query as (seq, id) pairs. */
  function MatchKeys(t: Tables, c: nat, after: nat): set<Key>
  {
    set id | id in t.messages && Matches(t, c, after, id) :: Key(t.messages[id].seqNo, id)
  }

  function ListAfterSeq(t: Tables, c: nat, after: nat, limit: nat): (items: seq<Key>)
    ensures forall i :: 0 <= i < |items| ==> items[i].major > after
  {
    PageWithin(MatchKeys(t, c, after), limit);
    Page(MatchKeys(t, c, after), limit)
  }

  function ClampLimit(cfg: Config, limit: uint32): uint32
  {
    var wanted := if limit == 0 then cfg.defaultSyncLimit else limit;
    if wanted > cfg.maxSyncLimit then cfg.maxSyncLimit else wanted
  }

  datatype SyncPage = SyncPage(items: seq<Key>, next: nat, hasMore: bool)

  /** One more row than the limit is fetched, in 32-bit arithmetic, to learn whether more remain. */
  function PageOf(t: Tables, c: nat, after: nat, limit: uint32): SyncPage
  {
    var fetched := ListAfterSeq(t, c, after, ToUint32(limit + 1));
    var hasMore := ToUint32(|fetched|) > limit;
    var items := if hasMore then fetched[..limit] else fetched;
    SyncPage(items, if items == [] then after else items[|items| - 1].major, hasMore)
  }

  datatype SyncResult = Synced(page: SyncPage) | Forbidden

  function SyncChannel(t: Tables, cfg: Config, member: bool, c: nat, after: nat, limit: uint32): SyncResult
  {
    if !member then Forbidden else Synced(PageOf(t, c, after, ClampLimit(cfg, limit)))
  }

  // ---------- one page ----------

  lemma ClampInRange(cfg: Config, limit: uint32)
    requires Validated(cfg)
    ensures 1 <= ClampLimit(cfg, limit) <= cfg.maxSyncLimit
  {
  }

  ghost predicate PageGood(t: Tables, c: nat, after: nat, limit: nat, p: SyncPage)
  {
    var all := MatchKeys(t, c, after);
    && Ascending(p.items)
    && Elements(p.items) <= all
    && |p.items| == Min(limit, |all|)
    && (p.hasMore <==> |all| > limit)
    && p.next >= after
    && (forall k :: k in p.items ==> after < k.major <= p.next)
    && MatchKeys(t, c, p.next) == all - Elements(p.items)
  }

  lemma MatchSeqUnique(t: Tables, c: nat, after: nat, j: Key, k: Key)
    requires SeqIndex(t.messages, t.bySeq)
    requires j in MatchKeys(t, c, after) && k in MatchKeys(t, c, after) && j.major == k.major
    ensures j == k
  {
    assert t.bySeq[SeqKeyOf(t.messages[j.minor])] == j.minor;
    assert t.bySeq[SeqKeyOf(t.messages[k.minor])] == k.minor;
  }

  /** Fetching one row beyond the limit tells exactly whether the limit cut the result. */
  lemma ProbePage(all: set<Key>, limit: nat, fetched: seq<Key>)
    requires IsPage(all, limit + 1, fetched)
    ensures |fetched| <= limit + 1
    ensures |fetched| > limit <==> |all| > limit
    ensures IsPage(all, limit, if |fetched| > limit then fetched[..limit] else fetched)
  {
    PrefixIsPage(all, limit + 1, limit, fetched);
    assert fetched[..|fetched|] == fetched;
  }

  lemma NoWrap(x: nat)
    requires x < WORD
    ensures ToUint32(x) == x
  {
  }

  lemma PageShape(t: Tables, c: nat, after: nat, limit: uint32)
    requires 1 <= limit < WORD - 1
    ensures var p := PageOf(t, c, after, limit);
            && IsPage(MatchKeys(t, c, after), limit, p.items)
            && (p.hasMore <==> |MatchKeys(t, c, after)| > limit)
  {
    var fetched := Page(MatchKeys(t, c, after), limit + 1);
    PageIsPage(MatchKeys(t, c, after), limit + 1);
    ProbePage(MatchKeys(t, c, after), limit, fetched);
    NoWrap(limit + 1);
    NoWrap(|fetched|);
    assert ListAfterSeq(t, c, after, ToUint32(limit + 1)) == fetched;
  }

  /** For one limit the increment wraps to 0, and the page is empty, final and does not move the cursor. */
  lemma WrappedPage(t: Tables, c: nat, after: nat)
    ensures PageOf(t, c, after, WORD - 1) == SyncPage([], after, false)
  {
    assert ToUint32(WORD) == 0;
    assert ListAfterSeq(t, c, after, 0) == [];
  }

  lemma ProperPage(t: Tables, c: nat, after: nat, limit: uint32)
    requires SeqIndex(t.messages, t.bySeq)
    requires 1 <= limit < WORD - 1
    ensures PageGood(t, c, after, limit, PageOf(t, c, after, limit))
  {
    var all := MatchKeys(t, c, after);
    var p := PageOf(t, c, after, limit);
    PageShape(t, c, after, limit);
    forall k | k in p.items ensures after < k.major <= p.next {
      assert k in Elements(p.items);
    }
    forall k | k in all ensures k.major > p.next <==> k !in Elements(p.items) {
      if k !in Elements(p.items) && p.items != [] {
        var last := p.items[|p.items| - 1];
        assert last in p.items && last in Elements(p.items);
        assert Less(last, k);
        if last.major == k.major { MatchSeqUnique(t, c, after, last, k); }
      }
    }
    assert MatchKeys(t, c, p.next) == all - Elements(p.items);
  }

  lemma ProperLastPage(t: Tables, c: nat, after: nat, limit: uint32)
    requires SeqIndex(t.messages, t.bySeq) && 1 <= limit < WORD - 1
    ensures var p := PageOf(t, c, after, limit);
            !p.hasMore ==> MatchKeys(t, c, p.next) == {} && Elements(p.items) == MatchKeys(t, c, after)
  {
    var p := PageOf(t, c, after, limit);
    PageShape(t, c, after, limit);
    if !p.hasMore {
      ShortPageIsAll(MatchKeys(t, c, after), limit, p.items);
      ProperPage(t, c, after, limit);
    }
  }

  lemma WrappedGoodIff(t: Tables, c: nat, after: nat)
    ensures PageGood(t, c, after, WORD - 1, SyncPage([], after, false)) <==> MatchKeys(t, c, after) == {}
  {
    if MatchKeys(t, c, after) != {} {
      assert |MatchKeys(t, c, after)| >= 1;
    }
  }

  /** The page is the next `limit` normal messages after the cursor, `hasMore` is exact, and the new cursor leaves exactly
      the messages not returned: for every limit a configuration admits but 2^32 - 1, and for that one exactly when no
      message waits. */
  lemma PageCorrect(t: Tables, c: nat, after: nat, limit: uint32)
    requires SeqIndex(t.messages, t.bySeq) && limit >= 1
    ensures PageGood(t, c, after, limit, PageOf(t, c, after, limit)) <==>
              limit < WORD - 1 || MatchKeys(t, c, after) == {}
  {
    if limit < WORD - 1 {
      ProperPage(t, c, after, limit);
    } else {
      WrappedPage(t, c, after);
      WrappedGoodIff(t, c, after);
    }
  }

  /** A page that reports nothing more leaves nothing above its cursor, except when the limit wrapped with messages
      waiting. */
  lemma LastPage(t: Tables, c: nat, after: nat, limit: uint32)
    requires SeqIndex(t.messages, t.bySeq) && limit >= 1
    ensures var p := PageOf(t, c, after, limit);
            (!p.hasMore ==> MatchKeys(t, c, p.next) == {} && Elements(p.items) == MatchKeys(t, c, after))
            <==> limit < WORD - 1 || MatchKeys(t, c, after) == {}
  {
    if limit < WORD - 1 {
      ProperLastPage(t, c, after, limit);
    } else {
      WrappedPage(t, c, after);
    }
  }

  /** With messages waiting, a page is empty exactly when the 32-bit increment wrapped. It then claims to be the last one
      and leaves the cursor where it was, so the client takes the channel for read without having seen a message. */
  lemma EmptyPageIffWrapped(t: Tables, c: nat, after: nat, limit: uint32)
    requires limit >= 1 && MatchKeys(t, c, after) != {}
    ensures PageOf(t, c, after, limit).items == [] <==> limit == WORD - 1
    ensures PageOf(t, c, after, limit) == SyncPage([], after, false) <==> limit == WORD - 1
  {
    if limit < WORD - 1 {
      PageShape(t, c, after, limit);
    } else {
      WrappedPage(t, c, after);
    }
  }

  /** A validated configuration lets some request wrap exactly when its maximum is 2^32 - 1. */
  lemma WrapReachable(cfg: Config)
    requires Validated(cfg)
    ensures (exists limit: uint32 :: ClampLimit(cfg, limit) == WORD - 1) <==> cfg.maxSyncLimit == WORD - 1
  {
    if cfg.maxSyncLimit == WORD - 1 {
      assert ClampLimit(cfg, WORD - 1) == WORD - 1;
    }
  }

  // ---------- a request ----------

  /** A normal message of the channel above the cursor. */
  ghost predicate Unread(t: Tables, c: nat, after: nat, id: nat)
  {
    id in t.messages && t.messages[id].channel == c && t.messages[id].status == Normal && after < t.messages[id].seqNo
  }

  /** The reply lists unread messages in strictly rising seqs, up to its cursor all of them, at most `limit`; it says there
      is more exactly when an unread one is left above the cursor. */
  ghost predicate Answers(t: Tables, c: nat, after: nat, limit: nat, p: SyncPage)
  {
    && Rising(p.items)
    && (forall k :: k in p.items ==> Unread(t, c, after, k.minor) && t.messages[k.minor].seqNo == k.major)
    && (forall id :: Unread(t, c, after, id) && t.messages[id].seqNo <= p.next ==> Key(t.messages[id].seqNo, id) in p.items)
    && |p.items| <= limit
    && p.next == (if p.items == [] then after else p.items[|p.items| - 1].major)
    && (p.hasMore <==> exists id :: Unread(t, c, p.next, id))
    && (p.hasMore ==> |p.items| == limit)
  }

  lemma UnreadMatches(t: Tables, c: nat, after: nat, id: nat)
    ensures Unread(t, c, after, id) <==> Matches(t, c, after, id)
    ensures Unread(t, c, after, id) ==> Key(t.messages[id].seqNo, id) in MatchKeys(t, c, after)
  {
  }

  lemma ItemsUnread(t: Tables, c: nat, after: nat, limit: uint32)
    requires SeqIndex(t.messages, t.bySeq) && 1 <= limit < WORD - 1
    ensures var p := PageOf(t, c, after, limit);
            && Rising(p.items)
            && (forall k :: k in p.items ==> Unread(t, c, after, k.minor) && t.messages[k.minor].seqNo == k.major)
  {
    var p := PageOf(t, c, after, limit);
    ProperPage(t, c, after, limit);
    forall k | k in p.items ensures k in MatchKeys(t, c, after) { assert k in Elements(p.items); }
    forall i, j | 0 <= i < j < |p.items| ensures p.items[i].major < p.items[j].major {
      var a, b := p.items[i], p.items[j];
      assert a in p.items && b in p.items && Less(a, b);
      assert t.bySeq[SeqKeyOf(t.messages[a.minor])] == a.minor && t.bySeq[SeqKeyOf(t.messages[b.minor])] == b.minor;
    }
  }

  lemma MoreUnread(t: Tables, c: nat, after: nat, limit: uint32)
    requires SeqIndex(t.messages, t.bySeq) && 1 <= limit < WORD - 1
    ensures var p := PageOf(t, c, after, limit);
            p.hasMore <==> exists id :: Unread(t, c, p.next, id)
  {
    var p := PageOf(t, c, after, limit);
    ProperLastPage(t, c, after, limit);
    if p.hasMore {
      PageCounts(t, c, after, limit);
      var k :| k in MatchKeys(t, c, p.next);
      assert Unread(t, c, p.next, k.minor);
    } else {
      forall id ensures !Unread(t, c, p.next, id) {
        UnreadMatches(t, c, p.next, id);
      }
    }
  }

  lemma UnreadReturned(t: Tables, c: nat, after: nat, p: SyncPage, limit: nat, id: nat)
    requires PageGood(t, c, after, limit, p) && Unread(t, c, after, id) && t.messages[id].seqNo <= p.next
    ensures Key(t.messages[id].seqNo, id) in p.items
  {
    UnreadMatches(t, c, after, id);
    var k := Key(t.messages[id].seqNo, id);
    assert k !in MatchKeys(t, c, p.next);
    assert k in Elements(p.items);
  }

  lemma PageAnswers(t: Tables, c: nat, after: nat, limit: uint32)
    requires SeqIndex(t.messages, t.bySeq) && 1 <= limit < WORD - 1
    ensures Answers(t, c, after, limit, PageOf(t, c, after, limit))
  {
    var p := PageOf(t, c, after, limit);
    ProperPage(t, c, after, limit);
    PageShape(t, c, after, limit);
    ItemsUnread(t, c, after, limit);
    MoreUnread(t, c, after, limit);
    forall id | Unread(t, c, after, id) && t.messages[id].seqNo <= p.next
      ensures Key(t.messages[id].seqNo, id) in p.items
    {
      UnreadReturned(t, c, after, p, limit, id);
    }
  }

  /** Exactly members are served, from the cursor they sent: at the default limit when they asked for none, else at the
      limit they asked for or the maximum, whichever is less. */
  lemma SyncChannelCorrect(t: Tables, cfg: Config, member: bool, c: nat, after: nat, wanted: uint32)
    requires SeqIndex(t.messages, t.bySeq) && Validated(cfg) && cfg.maxSyncLimit < WORD - 1
    ensures var r := SyncChannel(t, cfg, member, c, after, wanted);
            var limit := if wanted == 0 then cfg.defaultSyncLimit else Min(wanted, cfg.maxSyncLimit);
            && (r.Synced? <==> member)
            && (r.Synced? ==> Answers(t, c, after, limit, r.page) && PageGood(t, c, after, limit, r.page))
  {
    var limit := ClampLimit(cfg, wanted);
    PageAnswers(t, c, after, limit);
    ProperPage(t, c, after, limit);
  }

  // ---------- a whole drain with nobody else writing ----------

  lemma RemainingAfterPage(t: Tables, c: nat, after: nat, limit: uint32)
    requires SeqIndex(t.messages, t.bySeq) && 1 <= limit < WORD - 1
    ensures var p := PageOf(t, c, after, limit);
            |MatchKeys(t, c, p.next)| == |MatchKeys(t, c, after)| - |p.items|
  {
    ProperPage(t, c, after, limit);
    AscendingDistinct(PageOf(t, c, after, limit).items);
  }

  lemma PageShrinks(t: Tables, c: nat, after: nat, limit: uint32)
    requires SeqIndex(t.messages, t.bySeq) && limit >= 1 && PageOf(t, c, after, limit).hasMore
    ensures limit < WORD - 1
    ensures |MatchKeys(t, c, PageOf(t, c, after, limit).next)| < |MatchKeys(t, c, after)|
  {
    if limit < WORD - 1 {
      RemainingAfterPage(t, c, after, limit);
      PageShape(t, c, after, limit);
    } else {
      WrappedPage(t, c, after);
    }
  }

  /** Repeats the request from the returned cursor until `hasMore` is false; the second part counts requests. */
  function Drain(t: Tables, c: nat, after: nat, limit: uint32): (seq<Key>, nat)
    requires SeqIndex(t.messages, t.bySeq) && limit >= 1
    decreases |MatchKeys(t, c, after)|
  {
    var p := PageOf(t, c, after, limit);
    if !p.hasMore then (p.items, 1)
    else
      PageShrinks(t, c, after, limit);
      var (rest, n) := Drain(t, c, p.next, limit);
      (p.items + rest, n + 1)
  }

  /** `n` is max(1, ceil(total / limit)). */
  ghost predicate LeastCover(n: nat, total: nat, limit: nat)
  {
    && 1 <= n
    && total <= n * limit
    && (n == 1 || (n - 1) * limit < total)
  }

  lemma CoverStep(n: nat, total: nat, limit: nat)
    requires total > limit && LeastCover(n, total - limit, limit)
    ensures LeastCover(n + 1, total, limit)
  {
    assert (n + 1) * limit == n * limit + limit;
    assert (n - 1) * limit == n * limit - limit;
  }

  lemma {:induction false} ProperDrain(t: Tables, c: nat, after: nat, limit: uint32)
    requires SeqIndex(t.messages, t.bySeq) && 1 <= limit < WORD - 1
    ensures Ascending(Drain(t, c, after, limit).0)
    ensures Elements(Drain(t, c, after, limit).0) == MatchKeys(t, c, after)
    decreases |MatchKeys(t, c, after)|
  {
    var p := PageOf(t, c, after, limit);
    ProperPage(t, c, after, limit);
    if p.hasMore {
      PageShrinks(t, c, after, limit);
      ProperDrain(t, c, p.next, limit);
      var rest := Drain(t, c, p.next, limit).0;
      forall k | k in Elements(rest) ensures k.major > p.next {
        assert k in MatchKeys(t, c, p.next);
      }
      JoinPages(p.items, rest, p.next);
    } else {
      ProperLastPage(t, c, after, limit);
    }
  }

  lemma WrappedDrain(t: Tables, c: nat, after: nat)
    requires SeqIndex(t.messages, t.bySeq)
    ensures Drain(t, c, after, WORD - 1) == ([], 1)
  {
    WrappedPage(t, c, after);
  }

  /** Matching messages come back once each, in seq order, exactly when the limit does not wrap or there are none. */
  lemma DrainItems(t: Tables, c: nat, after: nat, limit: uint32)
    requires SeqIndex(t.messages, t.bySeq) && limit >= 1
    ensures Ascending(Drain(t, c, after, limit).0)
    ensures Elements(Drain(t, c, after, limit).0) == MatchKeys(t, c, after) <==>
              limit < WORD - 1 || MatchKeys(t, c, after) == {}
  {
    if limit < WORD - 1 {
      ProperDrain(t, c, after, limit);
    } else {
      WrappedDrain(t, c, after);
    }
  }

  lemma PageCounts(t: Tables, c: nat, after: nat, limit: uint32)
    requires SeqIndex(t.messages, t.bySeq) && 1 <= limit < WORD - 1
    ensures var p := PageOf(t, c, after, limit);
            && (p.hasMore <==> |MatchKeys(t, c, after)| > limit)
            && (p.hasMore ==> |MatchKeys(t, c, p.next)| == |MatchKeys(t, c, after)| - limit)
  {
    PageShape(t, c, after, limit);
    RemainingAfterPage(t, c, after, limit);
  }

  lemma {:induction false} ProperRequests(t: Tables, c: nat, after: nat, limit: uint32)
    requires SeqIndex(t.messages, t.bySeq) && 1 <= limit < WORD - 1
    ensures LeastCover(Drain(t, c, after, limit).1, |MatchKeys(t, c, after)|, limit)
    decreases |MatchKeys(t, c, after)|
  {
    var p := PageOf(t, c, after, limit);
    PageCounts(t, c, after, limit);
    if !p.hasMore {
    } else {
      ProperRequests(t, c, p.next, limit);
      CoverStep(Drain(t, c, p.next, limit).1, |MatchKeys(t, c, after)|, limit);
    }
  }

  /** N matching messages take exactly max(1, ceil(N / limit)) requests, and one request when the limit wraps. */
  lemma DrainRequests(t: Tables, c: nat, after: nat, limit: uint32)
    requires SeqIndex(t.messages, t.bySeq) && limit >= 1
    ensures limit < WORD - 1 ==> LeastCover(Drain(t, c, after, limit).1, |MatchKeys(t, c, after)|, limit)
    ensures limit == WORD - 1 ==> Drain(t, c, after, limit).1 == 1
  {
    if limit < WORD - 1 {
      ProperRequests(t, c, after, limit);
    } else {
      WrappedDrain(t, c, after);
    }
  }
}
