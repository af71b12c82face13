/** The pending drain of one recipient, interleaved with any sends and acknowledgements. */
module PendingRuns {
  import opened Ordering
  import opened Direct
  import opened Pending
  import opened DirectRuns

  ghost predicate FreshDrain(d: Progress)
  {
    d.cursor == d.start && d.returned == [] && d.pages == 0 && d.full == 0 && !d.done
  }

  /** Everything returned is a message to the recipient between the start and the cursor. */
  ghost predicate ReturnedGood(t: Tables, d: Progress)
  {
    forall k :: k in d.returned ==>
      && d.start < k.major <= d.cursor
      && k.minor in t.messages && t.messages[k.minor].seqNo == k.major
      && t.messages[k.minor].conversation == d.conversation && t.messages[k.minor].recipient == d.user
  }

  /** Every message up to the cursor that is still pending has been returned. */
  ghost predicate CaughtUp(t: Tables, d: Progress)
  {
    forall id :: IsPending(t, d.conversation, d.user, d.start, id) && t.messages[id].seqNo <= d.cursor ==>
      Key(t.messages[id].seqNo, id) in d.returned
  }

  ghost predicate CursorGood(t: Tables, d: Progress)
  {
    && d.start + |d.returned| <= d.cursor
    && (d.cursor == d.start || (d.conversation in t.conversations && d.cursor <= t.conversations[d.conversation].lastSeq))
  }

  ghost predicate PagesGood(d: Progress)
  {
    && d.full <= |d.returned|
    && d.pages <= d.full + (if d.done then 1 else 0)
  }

  ghost predicate DrainGood(t: Tables, d: Progress)
  {
    Ascending(d.returned) && ReturnedGood(t, d) && CaughtUp(t, d) && CursorGood(t, d) && PagesGood(d)
  }

  lemma GrowthKeepsCaughtUp(t: Tables, t': Tables, d: Progress)
    requires Grows(t, t') && CaughtUp(t, d) && CursorGood(t, d)
    ensures CaughtUp(t', d)
  {
    forall id | IsPending(t', d.conversation, d.user, d.start, id) && t'.messages[id].seqNo <= d.cursor
      ensures Key(t'.messages[id].seqNo, id) in d.returned
    {
      if id in t.messages {
        assert RowKept(t.messages[id], t'.messages[id]);
        assert IsPending(t, d.conversation, d.user, d.start, id);
      }
    }
  }

  lemma GrowthKeepsReturned(t: Tables, t': Tables, d: Progress)
    requires Grows(t, t') && ReturnedGood(t, d)
    ensures ReturnedGood(t', d)
  {
    forall k | k in d.returned ensures k.minor in t'.messages && RowKept(t.messages[k.minor], t'.messages[k.minor]) {
      assert t.messages[k.minor].seqNo == k.major;
    }
  }

  lemma PageSpan(t: Tables, c: nat, user: nat, after: nat, limit: nat)
    requires SeqsGood(t)
    ensures var p := ListPending(t, c, user, after, limit); after + |p.items| <= p.next
  {
    var p := ListPending(t, c, user, after, limit);
    PendingCorrect(t, c, user, after, limit);
    forall i | 0 <= i < |p.items| ensures p.items[i] in PendingKeys(t, c, user, after) && p.items[i].major > after {
      assert p.items[i] in Elements(p.items);
    }
    forall i, j | 0 <= i < j < |p.items| ensures p.items[i].major < p.items[j].major {
      assert Less(p.items[i], p.items[j]);
      assert t.bySeq[SeqKeyOf(t.messages[p.items[i].minor])] == p.items[i].minor;
    }
    RisingSpan(p.items, after);
  }

  lemma PageKeepsReturned(t: Tables, d: Progress, p: PendingPage, d': Progress)
    requires DrainGood(t, d) && PendingGood(t, d.conversation, d.user, d.cursor, p)
    requires d' == d.(cursor := p.next, returned := d.returned + p.items, pages := d'.pages, full := d'.full, done := d'.done)
    ensures Ascending(d'.returned) && ReturnedGood(t, d')
  {
    forall k | k in Elements(p.items)
      ensures k.major > d.cursor && IsPending(t, d.conversation, d.user, d.cursor, k.minor)
      ensures t.messages[k.minor].seqNo == k.major
    {
      assert k in PendingKeys(t, d.conversation, d.user, d.cursor);
    }
    JoinPages(d.returned, p.items, d.cursor);
    forall k | k in d'.returned
      ensures d.start < k.major <= d'.cursor && k.minor in t.messages && t.messages[k.minor].seqNo == k.major
      ensures t.messages[k.minor].conversation == d.conversation && t.messages[k.minor].recipient == d.user
    {
      if k !in d.returned { assert k in Elements(p.items); }
    }
  }

  lemma PageKeepsCaughtUp(t: Tables, d: Progress, p: PendingPage, d': Progress)
    requires CaughtUp(t, d) && PendingGood(t, d.conversation, d.user, d.cursor, p) && d.start <= d.cursor
    requires d' == d.(cursor := p.next, returned := d.returned + p.items, pages := d'.pages, full := d'.full, done := d'.done)
    ensures CaughtUp(t, d')
  {
    forall id | IsPending(t, d.conversation, d.user, d.start, id) && t.messages[id].seqNo <= d'.cursor
      ensures Key(t.messages[id].seqNo, id) in d'.returned
    {
      var k := Key(t.messages[id].seqNo, id);
      if t.messages[id].seqNo > d.cursor {
        assert IsPending(t, d.conversation, d.user, d.cursor, id) && k in PendingKeys(t, d.conversation, d.user, d.cursor);
        assert k !in PendingKeys(t, d.conversation, d.user, d'.cursor);
        assert k in Elements(p.items);
      }
    }
  }

  lemma PageKeepsCursor(t: Tables, d: Progress, limit: nat)
    requires TablesInv(t) && CursorGood(t, d) && PagesGood(d) && !d.done && limit >= 1
    ensures CursorGood(t, AfterPage(t, d, limit)) && PagesGood(AfterPage(t, d, limit))
  {
    var p := ListPending(t, d.conversation, d.user, d.cursor, limit);
    PageSpan(t, d.conversation, d.user, d.cursor, limit);
    PendingShape(t, d.conversation, d.user, d.cursor, limit);
    if p.items != [] {
      var last := p.items[|p.items| - 1];
      assert last in Elements(p.items) && last in PendingKeys(t, d.conversation, d.user, d.cursor);
      SeqBounded(t, last.minor);
    }
  }

  lemma PageKeepsDrain(t: Tables, d: Progress, limit: nat)
    requires TablesInv(t) && DrainGood(t, d) && !d.done && limit >= 1
    ensures DrainGood(t, AfterPage(t, d, limit))
    ensures AfterPage(t, d, limit).done ==>
              PendingKeys(t, d.conversation, d.user, AfterPage(t, d, limit).cursor) == {}
  {
    var p := ListPending(t, d.conversation, d.user, d.cursor, limit);
    PendingCorrect(t, d.conversation, d.user, d.cursor, limit);
    PageKeepsReturned(t, d, p, AfterPage(t, d, limit));
    PageKeepsCaughtUp(t, d, p, AfterPage(t, d, limit));
    PageKeepsCursor(t, d, limit);
    HasMoreSafe(t, d.conversation, d.user, d.cursor, limit);
  }

  lemma OthersLeaveDrain(s: System, step: Step)
    requires Enabled(s, step) && !step.FetchPending?
    ensures Do(s, step).drain == s.drain
  {
  }

  lemma StepKeepsDrain(s: System, step: Step)
    requires TablesInv(s.t) && Enabled(s, step) && DrainGood(s.t, s.drain)
    ensures DrainGood(Do(s, step).t, Do(s, step).drain)
  {
    if step.FetchPending? {
      EffectiveLimitRange(step.requested);
      PageKeepsDrain(s.t, s.drain, EffectiveLimit(step.requested));
    } else {
      StepGrows(s, step);
      OthersLeaveDrain(s, step);
      GrowthKeepsCaughtUp(s.t, Do(s, step).t, s.drain);
      GrowthKeepsReturned(s.t, Do(s, step).t, s.drain);
    }
  }

  lemma {:induction false} RunKeepsDrain(run: seq<System>, steps: seq<Step>, n: nat)
    requires IsRun(run, steps) && TablesInv(run[0].t) && FreshDrain(run[0].drain) && n < |run|
    ensures TablesInv(run[n].t) && DrainGood(run[n].t, run[n].drain)
    decreases n
  {
    if n == 0 {
    } else {
      assert Takes(run, steps, n - 1);
      RunKeepsDrain(run, steps, n - 1);
      StepKeepsTables(run[n - 1], steps[n - 1]);
      StepKeepsDrain(run[n - 1], steps[n - 1]);
    }
  }

  lemma ReturnedRises(t: Tables, d: Progress)
    requires SeqsGood(t) && Ascending(d.returned) && ReturnedGood(t, d)
    ensures Rising(d.returned)
  {
    forall i, j | 0 <= i < j < |d.returned| ensures d.returned[i].major < d.returned[j].major {
      var a, b := d.returned[i], d.returned[j];
      assert a in d.returned && b in d.returned && Less(a, b);
      assert t.bySeq[SeqKeyOf(t.messages[a.minor])] == a.minor && t.bySeq[SeqKeyOf(t.messages[b.minor])] == b.minor;
    }
  }

  /** At every moment: seqs rise strictly, so nothing was returned twice; what was returned are messages of the conversation
      to the recipient, with their seqs; and every message up to the cursor that is still pending was returned.
      The number of requests, and the limits of all full pages added up, are bounded by how far the seqs reach, so the
      drain ends unless messages keep arriving. */
  lemma DrainBounded(run: seq<System>, steps: seq<Step>, n: nat)
    requires IsRun(run, steps) && TablesInv(run[0].t) && FreshDrain(run[0].drain) && n < |run|
    ensures var t, d := run[n].t, run[n].drain;
            && Rising(d.returned) && ReturnedGood(t, d)
            && (forall id :: IsPending(t, d.conversation, d.user, d.start, id) && t.messages[id].seqNo <= d.cursor ==>
                  Key(t.messages[id].seqNo, id) in d.returned)
            && d.pages <= d.full + 1
            && d.start + d.full <= d.cursor
            && (d.cursor == d.start
                || (d.conversation in t.conversations && d.cursor <= t.conversations[d.conversation].lastSeq))
  {
    RunKeepsDrain(run, steps, n);
    ReturnedRises(run[n].t, run[n].drain);
  }

  lemma BelowOrWaiting(t: Tables, c: nat, user: nat, start: nat, cursor: nat, id: nat)
    requires IsPending(t, c, user, start, id)
    ensures t.messages[id].seqNo <= cursor || Key(t.messages[id].seqNo, id) in PendingKeys(t, c, user, cursor)
  {
  }

  /** Nothing is pending above the cursor, and everything above the start that is still pending was returned, once, in
      rising seqs. */
  ghost predicate Complete(t: Tables, d: Progress)
  {
    && PendingKeys(t, d.conversation, d.user, d.cursor) == {}
    && Rising(d.returned) && ReturnedGood(t, d)
    && (forall id :: IsPending(t, d.conversation, d.user, d.start, id) ==> Key(t.messages[id].seqNo, id) in d.returned)
  }

  lemma LastPageCompletes(t: Tables, d: Progress, limit: nat)
    requires TablesInv(t) && DrainGood(t, d) && !d.done && limit >= 1 && AfterPage(t, d, limit).done
    ensures Complete(t, AfterPage(t, d, limit))
  {
    var d' := AfterPage(t, d, limit);
    PageKeepsDrain(t, d, limit);
    ReturnedRises(t, d');
    forall id | IsPending(t, d.conversation, d.user, d.start, id)
      ensures Key(t.messages[id].seqNo, id) in d'.returned
    {
      BelowOrWaiting(t, d.conversation, d.user, d.start, d'.cursor, id);
    }
  }

  lemma LastFetchCompletes(s: System, step: Step)
    requires TablesInv(s.t) && DrainGood(s.t, s.drain) && Enabled(s, step) && step.FetchPending? && Do(s, step).drain.done
    ensures Complete(Do(s, step).t, Do(s, step).drain)
  {
    EffectiveLimitRange(step.requested);
    LastPageCompletes(s.t, s.drain, EffectiveLimit(step.requested));
  }

  /** A page with `hasMore` false ends the drain with nothing pending above the cursor, and by then every message above
      the start that is still pending has been returned exactly once. */
  lemma DrainComplete(run: seq<System>, steps: seq<Step>, n: nat)
    requires IsRun(run, steps) && TablesInv(run[0].t) && FreshDrain(run[0].drain) && n < |steps|
    requires steps[n].FetchPending? && run[n + 1].drain.done
    ensures Complete(run[n + 1].t, run[n + 1].drain)
  {
    assert Takes(run, steps, n);
    RunKeepsDrain(run, steps, n);
    LastFetchCompletes(run[n], steps[n]);
  }
}
