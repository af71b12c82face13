/** The sync drain of one observer, interleaved with any sends, cleanups and admin changes. */
module SyncRuns {
  import opened Ordering
  import opened ChannelLog
  import opened Sync
  import opened Protocol
  import opened Delivery

  ghost predicate FreshDrain(d: Progress)
  {
    d.cursor == d.start && d.returned == [] && d.pages == 0 && d.full == 0 && !d.done && d.missed == {}
  }

  /** Everything returned is a message of the channel between the start and the cursor. */
  ghost predicate ReturnedGood(t: Tables, d: Progress)
  {
    forall k :: k in d.returned ==>
      && d.start < k.major <= d.cursor
      && k.minor in t.messages && t.messages[k.minor].channel == d.channel && t.messages[k.minor].seqNo == k.major
  }

  /** Every message up to the cursor that is still normal has been returned. */
  ghost predicate CaughtUp(t: Tables, d: Progress)
  {
    forall id :: Matches(t, d.channel, d.start, id) && t.messages[id].seqNo <= d.cursor ==>
      Key(t.messages[id].seqNo, id) in d.returned
  }

  ghost predicate CursorGood(t: Tables, d: Progress)
  {
    && d.start + |d.returned| <= d.cursor
    && (d.cursor == d.start || (d.channel in t.channels && d.cursor <= t.channels[d.channel].messageSeq))
  }

  ghost predicate PagesGood(d: Progress)
  {
    && d.full <= |d.returned|
    && d.pages <= d.full + (if d.done then 1 else 0)
    && (!d.done ==> d.missed == {})
  }

  ghost predicate DrainGood(t: Tables, d: Progress)
  {
    Ascending(d.returned) && ReturnedGood(t, d) && CaughtUp(t, d) && CursorGood(t, d) && PagesGood(d)
  }

  /** The page size does not wrap, or nothing waits: exactly then is the page what `Sync.PageCorrect` says. */
  ghost predicate Honest(s: System, step: Step)
  {
    step.FetchPage? ==> step.size < WORD - 1 || MatchKeys(s.t, s.drain.channel, s.drain.cursor) == {}
  }

  // ---------- growth of the log ----------

  lemma GrowthKeepsCaughtUp(t: Tables, t': Tables, d: Progress)
    requires Grows(t, t') && CaughtUp(t, d) && CursorGood(t, d)
    ensures CaughtUp(t', d)
  {
    forall id | Matches(t', d.channel, d.start, id) && t'.messages[id].seqNo <= d.cursor
      ensures Key(t'.messages[id].seqNo, id) in d.returned
    {
      if id in t.messages {
        assert RowKept(t.messages[id], t'.messages[id]);
        assert Matches(t, d.channel, d.start, id);
      }
    }
  }

  lemma GrowthKeepsDrain(t: Tables, t': Tables, d: Progress)
    requires Grows(t, t') && DrainGood(t, d)
    ensures DrainGood(t', d)
  {
    GrowthKeepsCaughtUp(t, t', d);
    forall k | k in d.returned ensures k.minor in t'.messages && RowKept(t.messages[k.minor], t'.messages[k.minor]) {
      assert t.messages[k.minor].seqNo == k.major;
    }
  }

  // ---------- a page ----------

  /** A page that starts at the cursor and leaves exactly the messages it does not hold. */
  ghost predicate Extends(t: Tables, d: Progress, d': Progress, items: seq<Key>)
  {
    && d' == d.(cursor := d'.cursor, returned := d.returned + items, pages := d'.pages, full := d'.full, done := d'.done,
                missed := d'.missed)
    && d.cursor <= d'.cursor
    && (forall k :: k in items ==> k in MatchKeys(t, d.channel, d.cursor) && k.major <= d'.cursor)
    && MatchKeys(t, d.channel, d'.cursor) == MatchKeys(t, d.channel, d.cursor) - Elements(items)
    && d'.cursor == (if items == [] then d.cursor else items[|items| - 1].major)
  }

  lemma ExtendsCaughtUp(t: Tables, d: Progress, d': Progress, items: seq<Key>)
    requires CaughtUp(t, d) && Extends(t, d, d', items)
    ensures CaughtUp(t, d')
  {
    forall id | Matches(t, d.channel, d.start, id) && t.messages[id].seqNo <= d'.cursor
      ensures Key(t.messages[id].seqNo, id) in d'.returned
    {
      var k := Key(t.messages[id].seqNo, id);
      if t.messages[id].seqNo > d.cursor {
        assert Matches(t, d.channel, d.cursor, id) && k in MatchKeys(t, d.channel, d.cursor);
        assert k !in MatchKeys(t, d.channel, d'.cursor);
        assert k in Elements(items);
      }
    }
  }

  lemma ExtendsReturned(t: Tables, d: Progress, d': Progress, items: seq<Key>)
    requires Ascending(d.returned) && ReturnedGood(t, d) && d.start <= d.cursor
    requires Ascending(items) && Extends(t, d, d', items)
    ensures Ascending(d'.returned) && ReturnedGood(t, d')
  {
    forall k | k in Elements(items) ensures k.major > d.cursor { assert k in items; }
    JoinPages(d.returned, items, d.cursor);
    forall k | k in d'.returned
      ensures d.start < k.major <= d'.cursor && k.minor in t.messages
      ensures t.messages[k.minor].channel == d.channel && t.messages[k.minor].seqNo == k.major
    {
      assert k in d.returned || k in items;
    }
  }

  lemma ExtendsCursor(t: Tables, d: Progress, d': Progress, items: seq<Key>)
    requires SeqIndex(t.messages, t.bySeq) && Dense(t.channels, t.bySeq) && CursorGood(t, d)
    requires Ascending(items) && Extends(t, d, d', items)
    ensures CursorGood(t, d')
  {
    if items == [] {
    } else {
      forall i | 0 <= i < |items| ensures items[i] in MatchKeys(t, d.channel, d.cursor) && items[i].major > d.cursor {
        assert items[i] in items;
      }
      ItemsRise(t, d.channel, d.cursor, items);
      RisingSpan(items, d.cursor);
      SeqBounded(t, items[|items| - 1].minor);
    }
  }

  /** A seq belongs to one row, so keys in (seq, id) order rise in the seq alone. */
  lemma ItemsRise(t: Tables, c: nat, after: nat, items: seq<Key>)
    requires SeqIndex(t.messages, t.bySeq) && Ascending(items)
    requires forall i :: 0 <= i < |items| ==> items[i] in MatchKeys(t, c, after)
    ensures Rising(items)
  {
    forall i, j | 0 <= i < j < |items| ensures items[i].major < items[j].major {
      assert Less(items[i], items[j]);
      assert t.bySeq[SeqKeyOf(t.messages[items[i].minor])] == items[i].minor;
      assert t.bySeq[SeqKeyOf(t.messages[items[j].minor])] == items[j].minor;
    }
  }

  lemma PageExtends(s: System, size: uint32)
    requires SeqIndex(s.t.messages, s.t.bySeq) && 1 <= size < WORD - 1
    ensures var p := PageOf(s.t, s.drain.channel, s.drain.cursor, size);
            Ascending(p.items) && Extends(s.t, s.drain, AfterPage(s, size).drain, p.items)
  {
    var d := s.drain;
    var p := PageOf(s.t, d.channel, d.cursor, size);
    ProperPage(s.t, d.channel, d.cursor, size);
    forall k | k in p.items ensures k in MatchKeys(s.t, d.channel, d.cursor) {
      assert k in Elements(p.items);
    }
  }

  lemma PageKeepsCount(s: System, size: uint32)
    requires PagesGood(s.drain) && !s.drain.done && 1 <= size < WORD - 1
    ensures PagesGood(AfterPage(s, size).drain)
  {
    PageShape(s.t, s.drain.channel, s.drain.cursor, size);
  }

  lemma ProperKeepsDrain(s: System, size: uint32)
    requires LogInv(s.t) && DrainGood(s.t, s.drain) && !s.drain.done && 1 <= size < WORD - 1
    ensures DrainGood(s.t, AfterPage(s, size).drain)
  {
    var d, d' := s.drain, AfterPage(s, size).drain;
    var items := PageOf(s.t, d.channel, d.cursor, size).items;
    PageExtends(s, size);
    ExtendsCaughtUp(s.t, d, d', items);
    ExtendsReturned(s.t, d, d', items);
    ExtendsCursor(s.t, d, d', items);
    PageKeepsCount(s, size);
  }

  lemma WrappedKeepsDrain(s: System, size: uint32)
    requires DrainGood(s.t, s.drain) && !s.drain.done && size == WORD - 1
    ensures DrainGood(s.t, AfterPage(s, size).drain)
  {
    WrappedPage(s.t, s.drain.channel, s.drain.cursor);
    var d' := AfterPage(s, size).drain;
    assert d'.returned == s.drain.returned && d'.cursor == s.drain.cursor;
    assert CaughtUp(s.t, d');
  }

  lemma PageKeepsDrain(s: System, size: uint32)
    requires LogInv(s.t) && DrainGood(s.t, s.drain) && !s.drain.done && size >= 1
    ensures DrainGood(s.t, AfterPage(s, size).drain)
  {
    if size < WORD - 1 {
      ProperKeepsDrain(s, size);
    } else {
      WrappedKeepsDrain(s, size);
    }
  }

  /** What waits is what matches. */
  lemma NoneWaits(t: Tables, c: nat, after: nat)
    ensures Waiting(t, c, after) == {} <==> MatchKeys(t, c, after) == {}
  {
    if Waiting(t, c, after) != {} {
      var id :| id in Waiting(t, c, after);
      assert Key(t.messages[id].seqNo, id) in MatchKeys(t, c, after);
    }
    if MatchKeys(t, c, after) != {} {
      var k :| k in MatchKeys(t, c, after);
      assert k.minor in Waiting(t, c, after);
    }
  }

  /** A page leaves messages behind, and says it does not, exactly when it is not honest. */
  lemma MissedByPage(s: System, size: uint32)
    requires SeqIndex(s.t.messages, s.t.bySeq) && size >= 1
    ensures AfterPage(s, size).drain.missed == {} <==> Honest(s, FetchPage(size))
  {
    var d := s.drain;
    var p := PageOf(s.t, d.channel, d.cursor, size);
    NoneWaits(s.t, d.channel, p.next);
    if size < WORD - 1 {
      ProperLastPage(s.t, d.channel, d.cursor, size);
    } else {
      WrappedPage(s.t, d.channel, d.cursor);
    }
  }

  // ---------- runs ----------

  lemma OthersLeaveDrain(s: System, step: Step)
    requires Enabled(s, step) && !step.FetchPage?
    ensures Do(s, step).drain == s.drain
  {
  }

  lemma StepKeepsDrain(s: System, step: Step)
    requires Inv(s) && Enabled(s, step) && DrainGood(s.t, s.drain)
    ensures DrainGood(Do(s, step).t, Do(s, step).drain)
  {
    if step.FetchPage? {
      PageKeepsDrain(s, step.size);
    } else {
      StepKeepsInv(s, step);
      OthersLeaveDrain(s, step);
      GrowthKeepsDrain(s.t, Do(s, step).t, s.drain);
    }
  }

  lemma DrainAt(run: seq<System>, steps: seq<Step>, i: nat)
    requires IsRun(run, steps) && Inv(run[0]) && i < |steps| && DrainGood(run[i].t, run[i].drain)
    ensures DrainGood(run[i + 1].t, run[i + 1].drain)
  {
    assert Takes(run, steps, i);
    RunKeepsInv(run, steps, i);
    StepKeepsDrain(run[i], steps[i]);
  }

  lemma {:induction false} RunKeepsDrain(run: seq<System>, steps: seq<Step>, n: nat)
    requires IsRun(run, steps) && Inv(run[0]) && FreshDrain(run[0].drain) && n < |run|
    ensures DrainGood(run[n].t, run[n].drain)
    decreases n
  {
    if n == 0 {
    } else {
      RunKeepsDrain(run, steps, n - 1);
      DrainAt(run, steps, n - 1);
    }
  }

  lemma StepMisses(s: System, step: Step)
    requires Inv(s) && Enabled(s, step) && DrainGood(s.t, s.drain)
    ensures Do(s, step).drain.missed == {} <==> s.drain.missed == {} && Honest(s, step)
  {
    if step.FetchPage? {
      MissedByPage(s, step.size);
    } else {
      OthersLeaveDrain(s, step);
    }
  }

  lemma MissesAt(run: seq<System>, steps: seq<Step>, i: nat)
    requires IsRun(run, steps) && Inv(run[0]) && FreshDrain(run[0].drain) && i < |steps|
    ensures run[i + 1].drain.missed == {} <==> run[i].drain.missed == {} && Honest(run[i], steps[i])
  {
    assert Takes(run, steps, i);
    RunKeepsInv(run, steps, i);
    RunKeepsDrain(run, steps, i);
    StepMisses(run[i], steps[i]);
  }

  /** A drain has missed nothing exactly when all its pages were honest. */
  lemma {:induction false} MissedIff(run: seq<System>, steps: seq<Step>, n: nat)
    requires IsRun(run, steps) && Inv(run[0]) && FreshDrain(run[0].drain) && n < |run|
    ensures run[n].drain.missed == {} <==> forall i :: 0 <= i < n ==> Honest(run[i], steps[i])
    decreases n
  {
    if n == 0 {
    } else {
      MissedIff(run, steps, n - 1);
      MissesAt(run, steps, n - 1);
    }
  }

  lemma ReturnedRises(t: Tables, d: Progress)
    requires SeqIndex(t.messages, t.bySeq) && DrainGood(t, d)
    ensures Rising(d.returned)
  {
    forall i, j | 0 <= i < j < |d.returned| ensures d.returned[i].major < d.returned[j].major {
      var a, b := d.returned[i], d.returned[j];
      assert a in d.returned && b in d.returned && Less(a, b);
      assert t.bySeq[SeqKeyOf(t.messages[a.minor])] == a.minor && t.bySeq[SeqKeyOf(t.messages[b.minor])] == b.minor;
    }
  }

  /** At every moment of a drain interleaved with any creates, cleanups and admin changes: the returned seqs rise strictly, so
      nothing came twice; each is the seq of a message of the channel above the start; every message up to the cursor that
      is still normal was returned; and the number of requests, with the sizes of all full pages added up, is bounded by
      how far the seqs reach. */
  lemma DrainBounded(run: seq<System>, steps: seq<Step>, n: nat)
    requires IsRun(run, steps) && Inv(run[0]) && FreshDrain(run[0].drain) && n < |run|
    ensures var t, d := run[n].t, run[n].drain;
            && Rising(d.returned) && ReturnedGood(t, d) && CaughtUp(t, d)
            && d.pages <= d.full + 1
            && d.start + d.full <= d.cursor
            && (d.cursor == d.start || (d.channel in t.channels && d.cursor <= t.channels[d.channel].messageSeq))
  {
    RunKeepsDrain(run, steps, n);
    RunKeepsInv(run, steps, n);
    ReturnedRises(run[n].t, run[n].drain);
  }

  /** Every message above the start that is still normal was returned. */
  ghost predicate AllReturned(t: Tables, d: Progress)
  {
    forall id :: Matches(t, d.channel, d.start, id) ==> Key(t.messages[id].seqNo, id) in d.returned
  }

  /** A caught-up drain has everything exactly when nothing matches above its cursor. */
  lemma CompleteIff(t: Tables, d: Progress)
    requires DrainGood(t, d)
    ensures AllReturned(t, d) <==> Waiting(t, d.channel, d.cursor) == {}
  {
    if Waiting(t, d.channel, d.cursor) == {} {
      forall id | Matches(t, d.channel, d.start, id) ensures Key(t.messages[id].seqNo, id) in d.returned {
        assert id !in Waiting(t, d.channel, d.cursor);
      }
    } else {
      var id :| id in Waiting(t, d.channel, d.cursor);
      assert Matches(t, d.channel, d.start, id);
    }
  }

  lemma LastPageLeaves(s: System, step: Step)
    requires Inv(s) && DrainGood(s.t, s.drain) && Enabled(s, step) && step.FetchPage? && Do(s, step).drain.done
    ensures AllReturned(Do(s, step).t, Do(s, step).drain) <==> Honest(s, step)
  {
    StepKeepsDrain(s, step);
    CompleteIff(s.t, Do(s, step).drain);
    MissedByPage(s, step.size);
  }

  lemma LastPageAt(run: seq<System>, steps: seq<Step>, n: nat)
    requires IsRun(run, steps) && Inv(run[0]) && FreshDrain(run[0].drain) && n < |steps|
    requires steps[n].FetchPage? && run[n + 1].drain.done
    ensures AllReturned(run[n + 1].t, run[n + 1].drain) <==> Honest(run[n], steps[n])
  {
    assert Takes(run, steps, n);
    RunKeepsInv(run, steps, n);
    RunKeepsDrain(run, steps, n);
    LastPageLeaves(run[n], steps[n]);
  }

  /** Whatever interleaves, the last page completes the set of messages above the start that are still normal then, exactly
      when its limit did not wrap or nothing was waiting. */
  lemma DrainUnderInterference(run: seq<System>, steps: seq<Step>, n: nat)
    requires IsRun(run, steps) && Inv(run[0]) && FreshDrain(run[0].drain) && n < |steps|
    requires steps[n].FetchPage? && run[n + 1].drain.done
    ensures Rising(run[n + 1].drain.returned) && ReturnedGood(run[n + 1].t, run[n + 1].drain)
    ensures AllReturned(run[n + 1].t, run[n + 1].drain) <==> Honest(run[n], steps[n])
  {
    LastPageAt(run, steps, n);
    DrainBounded(run, steps, n + 1);
  }
}
