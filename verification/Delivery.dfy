/** What every run of the protocol keeps of the log, and what repeated or racing creates report. */
module Delivery {
  import opened Basics
  import opened Ordering
  import opened ChannelLog
  import opened Cleanup
  import opened Protocol

  // ---------- every reachable state of the log ----------

  lemma {:induction false} RunKeepsInv(run: seq<System>, steps: seq<Step>, n: nat)
    requires IsRun(run, steps) && Inv(run[0]) && n < |run|
    ensures Inv(run[n])
    decreases n
  {
    if n == 0 {
    } else {
      assert Takes(run, steps, n - 1);
      RunKeepsInv(run, steps, n - 1);
      StepKeepsInv(run[n - 1], steps[n - 1]);
    }
  }

  lemma LogCounts(t: Tables)
    requires Counted(t.channels, t.messages) && RefsCounted(Attached(t.attachments, t.refCount), t.media)
    ensures forall c :: c in t.channels ==>
              t.channels[c].messageCount
              == |set id | id in t.messages && t.messages[id].channel == c && t.messages[id].status == Normal|
    ensures forall b :: b in t.refCount ==>
              t.refCount[b] == |set k | k in t.attachments && k.media in t.media && t.media[k.media].blob == b|
  {
    forall c | c in t.channels
      ensures NormalIds(t.messages, c)
           == set id | id in t.messages && t.messages[id].channel == c && t.messages[id].status == Normal
    {
    }
  }

  /** Over all interleavings of senders, cleaners and admins: the seqs of a channel are exactly 1..message_seq, each on
      one row; message_count is the number of normal rows; a blob's count is the number of rows referring to it; no lock
      holder's next seq is stale; and what was stored at any earlier moment `m` is still there, below every later seq of
      its channel. */
  lemma LogSafety(run: seq<System>, steps: seq<Step>, m: nat, n: nat)
    requires IsRun(run, steps) && Inv(run[0]) && m <= n < |run|
    ensures Grows(run[m].t, run[n].t)
    ensures var t := run[n].t;
            && (forall c: nat, k: nat :: c in t.channels ==>
                  (SeqKey(c, k) in t.bySeq <==> 1 <= k <= t.channels[c].messageSeq))
            && (forall c :: c in t.channels ==>
                  t.channels[c].messageCount
                  == |set id | id in t.messages && t.messages[id].channel == c && t.messages[id].status == Normal|)
            && (forall b :: b in t.refCount ==>
                  t.refCount[b] == |set k | k in t.attachments && k.media in t.media && t.media[k.media].blob == b|)
            && (forall i, j :: i in t.messages && j in t.messages && SeqKeyOf(t.messages[i]) == SeqKeyOf(t.messages[j])
                  ==> i == j)
            && IdsUnique(t.messages, t.messageIds)
            && ReadsCurrent(t, run[n].handlers)
  {
    RunKeepsInv(run, steps, n);
    RunGrows(run, steps, m, n);
    var t := run[n].t;
    LogCounts(t);
    forall i, j | i in t.messages && j in t.messages && SeqKeyOf(t.messages[i]) == SeqKeyOf(t.messages[j])
      ensures i == j
    {
      assert t.bySeq[SeqKeyOf(t.messages[i])] == i && t.bySeq[SeqKeyOf(t.messages[j])] == j;
    }
  }

  lemma RunStepGrows(run: seq<System>, steps: seq<Step>, n: nat)
    requires IsRun(run, steps) && Inv(run[0]) && n < |steps|
    ensures Grows(run[n].t, run[n + 1].t)
  {
    assert Takes(run, steps, n);
    RunKeepsInv(run, steps, n);
    StepKeepsInv(run[n], steps[n]);
  }

  ghost predicate GrowsAt(ts: seq<Tables>, i: nat)
    requires i + 1 < |ts|
  {
    Grows(ts[i], ts[i + 1])
  }

  lemma {:induction false} GrowsAlong(ts: seq<Tables>, m: nat, n: nat)
    requires m <= n < |ts| && forall i: nat | i + 1 < |ts| :: GrowsAt(ts, i)
    ensures Grows(ts[m], ts[n])
    decreases n
  {
    if m == n {
      GrowsSelf(ts[m]);
    } else {
      GrowsAlong(ts, m, n - 1);
      assert GrowsAt(ts, n - 1);
      GrowsTransitive(ts[m], ts[n - 1], ts[n]);
    }
  }

  /** Whatever lies between two moments of a run, rows only grow, and new ones go above the old. */
  lemma RunGrows(run: seq<System>, steps: seq<Step>, m: nat, n: nat)
    requires IsRun(run, steps) && Inv(run[0]) && m <= n < |run|
    ensures Grows(run[m].t, run[n].t)
  {
    var ts := seq(|run|, i requires 0 <= i < |run| => run[i].t);
    forall i: nat | i + 1 < |ts| ensures GrowsAt(ts, i) {
      RunStepGrows(run, steps, i);
    }
    GrowsAlong(ts, m, n);
  }

  /** Seq order is commit order: of two messages of a channel, the one that was there at some moment when the other was not
      has the lower seq, now and ever after. */
  lemma CommitOrder(run: seq<System>, steps: seq<Step>, m: nat, n: nat, i: nat, j: nat)
    requires IsRun(run, steps) && Inv(run[0]) && m <= n < |run|
    requires i in run[m].t.messages && j in run[n].t.messages && j !in run[m].t.messages
    requires run[m].t.messages[i].channel == run[n].t.messages[j].channel
    ensures i in run[n].t.messages && run[n].t.messages[i].channel == run[n].t.messages[j].channel
    ensures run[m].t.messages[i].seqNo == run[n].t.messages[i].seqNo < run[n].t.messages[j].seqNo
  {
    RunGrows(run, steps, m, n);
    RunKeepsInv(run, steps, m);
    SeqBounded(run[m].t, i);
    assert RowKept(run[m].t.messages[i], run[n].t.messages[i]);
  }

  // ---------- what is deleted ----------

  /** Cleaner `k` made its selection at step `j`. */
  ghost predicate SelectedAt(run: seq<System>, steps: seq<Step>, j: nat, k: nat, selection: Selection)
    requires |run| == |steps| + 1 && j < |steps|
  {
    && steps[j].Select? && steps[j].k == k
    && selection == Selection(SelectExpired(run[j].t, steps[j].now, steps[j].limit), steps[j].now)
  }

  lemma SelectionOfStep(s: System, step: Step, k: nat)
    requires Enabled(s, step) && k in Do(s, step).cleaners
    ensures (k in s.cleaners && Do(s, step).cleaners[k] == s.cleaners[k])
            || (step.Select? && step.k == k
                && Do(s, step).cleaners[k] == Selection(SelectExpired(s.t, step.now, step.limit), step.now))
  {
  }

  lemma {:induction false} SelectionHasOrigin(run: seq<System>, steps: seq<Step>, n: nat, k: nat)
    requires IsRun(run, steps) && run[0].cleaners == map[] && n < |run| && k in run[n].cleaners
    ensures exists j: nat :: j < n && SelectedAt(run, steps, j, k, run[n].cleaners[k])
    decreases n
  {
    if n == 0 {
    } else {
      assert Takes(run, steps, n - 1);
      SelectionOfStep(run[n - 1], steps[n - 1], k);
      if k in run[n - 1].cleaners && run[n].cleaners[k] == run[n - 1].cleaners[k] {
        SelectionHasOrigin(run, steps, n - 1, k);
      } else {
        assert SelectedAt(run, steps, n - 1, k, run[n].cleaners[k]);
      }
    }
  }

  /** Only a cleaner's update deletes, and only what it selected. */
  lemma DeletedByUpdate(s: System, step: Step, id: nat)
    requires Enabled(s, step) && id in s.t.messages && s.t.messages[id].status == Normal
    requires id in Do(s, step).t.messages && Do(s, step).t.messages[id].status.Deleted?
    ensures step.Update? && Do(s, step).t.messages[id].status == Deleted(s.cleaners[step.k].now)
    ensures exists r :: r in s.cleaners[step.k].rows && r.id == id
  {
    if step.Update? {
      ApplyGrows(s.t, s.cleaners[step.k].rows, s.cleaners[step.k].now);
    } else if step.Sender? && step.action.Commit? {
      CommitKeepsNormal(s, step.h, step.action.id, step.action.messageId, step.action.now, id);
    }
  }

  lemma CommitKeepsNormal(s: System, h: nat, id: nat, messageId: string, now: Millis, m: nat)
    requires CanSend(s, h, Commit(id, messageId, now)) && m in s.t.messages
    ensures m in AfterCommit(s, h, id, messageId, now).t.messages
    ensures AfterCommit(s, h, id, messageId, now).t.messages[m] == s.t.messages[m]
  {
  }

  lemma SelectedOverdue(t: Tables, now: Millis, limit: nat, r: ExpiredRow)
    requires r in SelectExpired(t, now, limit)
    ensures r.id in Overdue(t, now)
  {
    PageWithin(ExpiredKeys(t, now), if limit == 0 then 100 else limit);
  }

  /** Whatever interleaves, a message that becomes deleted was overdue at the moment a cleaner selected it, and that moment
      is its deletion time. */
  lemma DeletedWasExpired(run: seq<System>, steps: seq<Step>, n: nat, id: nat)
    requires IsRun(run, steps) && run[0].cleaners == map[] && n < |steps|
    requires id in run[n].t.messages && run[n].t.messages[id].status == Normal
    requires id in run[n + 1].t.messages && run[n + 1].t.messages[id].status.Deleted?
    ensures steps[n].Update?
    ensures exists j: nat :: j < n && steps[j].Select? && steps[j].k == steps[n].k
                             && id in Overdue(run[j].t, steps[j].now)
                             && run[n + 1].t.messages[id].status == Deleted(steps[j].now)
  {
    assert Takes(run, steps, n);
    DeletedByUpdate(run[n], steps[n], id);
    var k := steps[n].k;
    SelectionHasOrigin(run, steps, n, k);
    var j: nat :| j < n && SelectedAt(run, steps, j, k, run[n].cleaners[k]);
    var r :| r in run[n].cleaners[k].rows && r.id == id;
    SelectedOverdue(run[j].t, steps[j].now, steps[j].limit, r);
  }

  // ---------- idempotent creates ----------

  /** However creates with one client key race or repeat, every success names the same row and seq. */
  lemma CreatesAgree(run: seq<System>, steps: seq<Step>, n: nat, a: Receipt, b: Receipt)
    requires IsRun(run, steps) && Inv(run[0]) && n < |run|
    requires a in run[n].receipts && b in run[n].receipts && a.key == b.key
    ensures a == b
  {
    RunKeepsInv(run, steps, n);
    var t := run[n].t;
    assert Holds(t, a) && Holds(t, b);
    assert t.byClient[ClientKeyOf(t.messages[a.id])] == a.id;
    assert t.byClient[ClientKeyOf(t.messages[b.id])] == b.id;
  }

  function KeysIn(receipts: set<Receipt>, c: nat): set<ClientKey>
  {
    set r | r in receipts && r.key.channel == c :: r.key
  }

  ghost predicate AllReceipted(s: System)
  {
    forall id :: id in s.t.messages ==> Receipt(ClientKeyOf(s.t.messages[id]), id, s.t.messages[id].seqNo) in s.receipts
  }

  /** Receipts outlive any change that only touches statuses or adds rows with receipts of their own. */
  lemma GrowthReceipts(s: System, s': System)
    requires RowsGrow(s.t, s'.t) && AllReceipted(s) && s.receipts <= s'.receipts
    requires forall id :: id in s'.t.messages && id !in s.t.messages ==>
               Receipt(ClientKeyOf(s'.t.messages[id]), id, s'.t.messages[id].seqNo) in s'.receipts
    ensures AllReceipted(s')
  {
    forall m | m in s'.t.messages && m in s.t.messages
      ensures Receipt(ClientKeyOf(s'.t.messages[m]), m, s'.t.messages[m].seqNo) in s'.receipts
    {
      assert s'.t.messages[m].(status := s.t.messages[m].status) == s.t.messages[m];
      assert Receipt(ClientKeyOf(s.t.messages[m]), m, s.t.messages[m].seqNo) in s.receipts;
    }
  }

  lemma CommitReceipts(s: System, s': System, input: CreateInput, id: nat, r: CreateResult)
    requires AllReceipted(s) && RowsGrow(s.t, s'.t)
    requires input.channel in s.t.channels && CommitEffect(s.t, s'.t, input, id, r)
    requires s.receipts <= s'.receipts
    requires r.Stored? ==> Receipt(ClientKey(input.channel, input.sender, input.clientMsgId), r.id,
                                   s'.t.messages[r.id].seqNo) in s'.receipts
    ensures AllReceipted(s')
  {
    GrowthReceipts(s, s');
  }

  lemma OnlyCommitAddsRows(s: System, step: Step)
    requires Enabled(s, step) && !(step.Sender? && step.action.Commit?)
    ensures Do(s, step).t.messages.Keys == s.t.messages.Keys
  {
  }

  lemma ReceiptsStay(s: System, step: Step)
    requires Enabled(s, step)
    ensures s.receipts <= Do(s, step).receipts
  {
  }

  lemma StepReceipts(s: System, step: Step)
    requires Inv(s) && Enabled(s, step) && AllReceipted(s)
    ensures AllReceipted(Do(s, step))
  {
    var s' := Do(s, step);
    ReceiptsStay(s, step);
    if step.Sender? && step.action.Commit? {
      var Commit(id, messageId, now) := step.action;
      var input := s.handlers[step.h].input;
      var r := CommitHasEffect(s, step.h, id, messageId, now);
      CommitReceipts(s, s', input, id, r);
    } else {
      StepKeepsInv(s, step);
      OnlyCommitAddsRows(s, step);
      GrowthReceipts(s, s');
    }
  }

  lemma ReceiptsAt(run: seq<System>, steps: seq<Step>, i: nat)
    requires IsRun(run, steps) && Inv(run[0]) && i < |steps| && AllReceipted(run[i])
    ensures AllReceipted(run[i + 1])
  {
    assert Takes(run, steps, i);
    RunKeepsInv(run, steps, i);
    StepReceipts(run[i], steps[i]);
  }

  lemma {:induction false} RunReceipts(run: seq<System>, steps: seq<Step>, n: nat)
    requires IsRun(run, steps) && Inv(run[0]) && AllReceipted(run[0]) && n < |run|
    ensures AllReceipted(run[n])
    decreases n
  {
    if n == 0 {
    } else {
      RunReceipts(run, steps, n - 1);
      ReceiptsAt(run, steps, n - 1);
    }
  }

  ghost predicate Keyed(t: Tables)
  {
    ClientIndex(t.messages, t.byClient) && SeqIndex(t.messages, t.bySeq) && Dense(t.channels, t.bySeq)
  }

  /** The key of the message of `c` with seq `n`. */
  ghost function KeyAt(t: Tables, c: nat, n: nat): ClientKey
    requires Keyed(t) && c in t.channels && 1 <= n <= t.channels[c].messageSeq
  {
    ClientKeyOf(t.messages[t.bySeq[SeqKey(c, n)]])
  }

  ghost function KeysBySeq(t: Tables, c: nat): seq<ClientKey>
    requires Keyed(t) && c in t.channels
  {
    seq(t.channels[c].messageSeq, i requires 0 <= i < t.channels[c].messageSeq => KeyAt(t, c, i + 1))
  }

  lemma KeysDiffer(t: Tables, c: nat, m: nat, n: nat)
    requires Keyed(t) && c in t.channels && 1 <= m < n <= t.channels[c].messageSeq
    ensures KeyAt(t, c, m) != KeyAt(t, c, n)
  {
    var a, b := t.bySeq[SeqKey(c, m)], t.bySeq[SeqKey(c, n)];
    assert SeqKeyOf(t.messages[a]) == SeqKey(c, m) && SeqKeyOf(t.messages[b]) == SeqKey(c, n);
    assert t.byClient[ClientKeyOf(t.messages[a])] == a && t.byClient[ClientKeyOf(t.messages[b])] == b;
  }

  lemma KeysDistinct(t: Tables, c: nat)
    requires Keyed(t) && c in t.channels
    ensures Distinct(KeysBySeq(t, c))
  {
    var keys := KeysBySeq(t, c);
    forall i, j | 0 <= i < j < |keys| ensures keys[i] != keys[j] {
      KeysDiffer(t, c, i + 1, j + 1);
    }
  }

  lemma KeyReceipted(s: System, c: nat, n: nat)
    requires Keyed(s.t) && AllReceipted(s) && c in s.t.channels && 1 <= n <= s.t.channels[c].messageSeq
    ensures KeyAt(s.t, c, n) in KeysIn(s.receipts, c)
  {
    var id := s.t.bySeq[SeqKey(c, n)];
    assert SeqKeyOf(s.t.messages[id]) == SeqKey(c, n);
    assert Receipt(KeyAt(s.t, c, n), id, s.t.messages[id].seqNo) in s.receipts;
  }

  lemma ReceiptKeyed(t: Tables, r: Receipt)
    requires Keyed(t) && Holds(t, r)
    ensures r.key.channel in t.channels && 1 <= r.seqNo <= t.channels[r.key.channel].messageSeq
    ensures KeyAt(t, r.key.channel, r.seqNo) == r.key
  {
    SeqBounded(t, r.id);
    assert t.bySeq[SeqKeyOf(t.messages[r.id])] == r.id;
  }

  lemma ReceiptedBySeq(s: System, c: nat, r: Receipt)
    requires Keyed(s.t) && c in s.t.channels && Holds(s.t, r) && r.key.channel == c
    ensures r.key in KeysBySeq(s.t, c)
  {
    ReceiptKeyed(s.t, r);
    assert KeysBySeq(s.t, c)[r.seqNo - 1] == r.key;
  }

  lemma ReceiptedKeys(s: System, c: nat)
    requires Keyed(s.t) && AllReceipted(s) && c in s.t.channels
    requires forall r :: r in s.receipts ==> Holds(s.t, r)
    ensures (set k | k in KeysBySeq(s.t, c)) == KeysIn(s.receipts, c)
  {
    var keys := KeysBySeq(s.t, c);
    forall i | 0 <= i < |keys| ensures keys[i] in KeysIn(s.receipts, c) {
      KeyReceipted(s, c, i + 1);
    }
    forall r | r in s.receipts && r.key.channel == c ensures r.key in keys {
      ReceiptedBySeq(s, c, r);
    }
  }

  /** Starting from empty tables, message_seq of a channel is the number of distinct client keys ever stored in it: any
      number of repeats of one key advances it by exactly one. */
  lemma SeqCountsKeys(run: seq<System>, steps: seq<Step>, n: nat, c: nat)
    requires IsRun(run, steps) && Inv(run[0]) && run[0].t.messages == map[] && n < |run|
    requires c in run[n].t.channels
    ensures run[n].t.channels[c].messageSeq == |KeysIn(run[n].receipts, c)|
  {
    RunKeepsInv(run, steps, n);
    RunReceipts(run, steps, n);
    KeysDistinct(run[n].t, c);
    DistinctMembers(KeysBySeq(run[n].t, c));
    ReceiptedKeys(run[n], c);
  }
}
