/** What direct sends report and announce when lookups and creates of many calls interleave. */
module SendRuns {
  import opened Basics
  import opened Direct
  import opened DirectRuns

  // ---------- receipts ----------

  predicate Holds(t: Tables, r: Receipt)
  {
    r.id in t.messages && SendKeyOf(t.messages[r.id]) == r.key && t.messages[r.id].seqNo == r.seqNo
  }

  ghost predicate ReceiptsGood(s: System)
  {
    forall r :: r in s.receipts ==> Holds(s.t, r)
  }

  lemma StoreGivesReceipt(s: System, h: nat, id: nat, now: nat)
    requires TablesInv(s.t) && Enabled(s, Store(h, id, now)) && AfterStore(s, h, id, now).sends[h].phase.Replied?
    ensures var s' := AfterStore(s, h, id, now);
            var r := s'.sends[h].phase.id;
            r in s'.t.messages && SendKeyOf(s'.t.messages[r]) == KeyOf(s.sends[h].input)
  {
    CreateResultCorrect(s.t, s.sends[h].input, id, now);
  }

  lemma LookUpGivesReceipt(s: System, h: nat)
    requires TablesInv(s.t) && Enabled(s, LookUp(h)) && AfterLookUp(s, h).sends[h].phase.Replied?
    ensures var r := AfterLookUp(s, h).sends[h].phase.id;
            r in s.t.messages && SendKeyOf(s.t.messages[r]) == KeyOf(s.sends[h].input)
  {
    var key := KeyOf(s.sends[h].input);
    assert SendKeyOf(s.t.messages[s.t.bySend[key]]) == key;
  }

  lemma NewReceipt(s: System, step: Step, r: Receipt)
    requires TablesInv(s.t) && Enabled(s, step) && r in Do(s, step).receipts && r !in s.receipts
    ensures Holds(Do(s, step).t, r)
  {
    match step
    case LookUp(h) => LookUpGivesReceipt(s, h);
    case Store(h, id, now) => StoreGivesReceipt(s, h, id, now);
    case _ =>
  }

  lemma StepKeepsReceipts(s: System, step: Step)
    requires TablesInv(s.t) && Enabled(s, step) && ReceiptsGood(s)
    ensures ReceiptsGood(Do(s, step))
  {
    var s' := Do(s, step);
    StepGrows(s, step);
    forall r | r in s'.receipts ensures Holds(s'.t, r) {
      if r in s.receipts {
        assert RowKept(s.t.messages[r.id], s'.t.messages[r.id]);
      } else {
        NewReceipt(s, step, r);
      }
    }
  }

  ghost predicate AllReceipted(s: System)
  {
    forall id {:trigger s.t.messages[id]} :: id in s.t.messages ==>
      Receipt(SendKeyOf(s.t.messages[id]), id, s.t.messages[id].seqNo) in s.receipts
  }

  lemma StepReceiptsAll(s: System, step: Step)
    requires Enabled(s, step) && AllReceipted(s)
    ensures AllReceipted(Do(s, step))
  {
    var s' := Do(s, step);
    StepGrows(s, step);
    forall id | id in s'.t.messages
      ensures Receipt(SendKeyOf(s'.t.messages[id]), id, s'.t.messages[id].seqNo) in s'.receipts
    {
      if id in s.t.messages {
        assert RowKept(s.t.messages[id], s'.t.messages[id]);
      }
    }
  }

  lemma {:induction false} RunKeepsTables(run: seq<System>, steps: seq<Step>, n: nat)
    requires IsRun(run, steps) && TablesInv(run[0].t) && n < |run|
    ensures TablesInv(run[n].t)
    decreases n
  {
    if n == 0 {
    } else {
      assert Takes(run, steps, n - 1);
      RunKeepsTables(run, steps, n - 1);
      StepKeepsTables(run[n - 1], steps[n - 1]);
    }
  }

  lemma ReceiptsAt(run: seq<System>, steps: seq<Step>, i: nat)
    requires IsRun(run, steps) && TablesInv(run[0].t) && i < |steps|
    ensures ReceiptsGood(run[i]) ==> ReceiptsGood(run[i + 1])
    ensures AllReceipted(run[i]) ==> AllReceipted(run[i + 1])
  {
    assert Takes(run, steps, i);
    RunKeepsTables(run, steps, i);
    if ReceiptsGood(run[i]) { StepKeepsReceipts(run[i], steps[i]); }
    if AllReceipted(run[i]) { StepReceiptsAll(run[i], steps[i]); }
  }

  lemma {:induction false} RunKeepsReceipts(run: seq<System>, steps: seq<Step>, n: nat)
    requires IsRun(run, steps) && Initial(run[0]) && n < |run|
    ensures ReceiptsGood(run[n])
    ensures run[0].t.messages == map[] ==> AllReceipted(run[n])
    decreases n
  {
    if n == 0 {
    } else {
      RunKeepsReceipts(run, steps, n - 1);
      ReceiptsAt(run, steps, n - 1);
    }
  }

  /** However sends with one (conversation, sender, client id) race or repeat, every success names the same row and seq. */
  lemma SendsAgree(run: seq<System>, steps: seq<Step>, n: nat, a: Receipt, b: Receipt)
    requires IsRun(run, steps) && Initial(run[0]) && n < |run|
    requires a in run[n].receipts && b in run[n].receipts && a.key == b.key
    ensures a == b
  {
    RunKeepsReceipts(run, steps, n);
    RunKeepsTables(run, steps, n);
    var t := run[n].t;
    assert Holds(t, a) && Holds(t, b);
    assert t.bySend[SendKeyOf(t.messages[a.id])] == a.id;
    assert t.bySend[SendKeyOf(t.messages[b.id])] == b.id;
  }

  function KeysIn(receipts: set<Receipt>, c: nat): set<SendKey>
  {
    set r | r in receipts && r.key.conversation == c :: r.key
  }

  ghost predicate Keyed(t: Tables)
  {
    SendsGood(t) && SeqsGood(t) && Dense(t)
  }

  /** The key of the message of `c` with seq `n`. */
  ghost function KeyAt(t: Tables, c: nat, n: nat): SendKey
    requires Keyed(t) && c in t.conversations && 1 <= n <= t.conversations[c].lastSeq
  {
    SendKeyOf(t.messages[t.bySeq[SeqKey(c, n)]])
  }

  ghost function KeysBySeq(t: Tables, c: nat): seq<SendKey>
    requires Keyed(t) && c in t.conversations
  {
    seq(t.conversations[c].lastSeq, i requires 0 <= i < t.conversations[c].lastSeq => KeyAt(t, c, i + 1))
  }

  lemma KeysDiffer(t: Tables, c: nat, m: nat, n: nat)
    requires Keyed(t) && c in t.conversations && 1 <= m < n <= t.conversations[c].lastSeq
    ensures KeyAt(t, c, m) != KeyAt(t, c, n)
  {
    var a, b := t.bySeq[SeqKey(c, m)], t.bySeq[SeqKey(c, n)];
    assert SeqKeyOf(t.messages[a]) == SeqKey(c, m) && SeqKeyOf(t.messages[b]) == SeqKey(c, n);
    assert t.bySend[SendKeyOf(t.messages[a])] == a && t.bySend[SendKeyOf(t.messages[b])] == b;
  }

  lemma KeysDistinct(t: Tables, c: nat)
    requires Keyed(t) && c in t.conversations
    ensures Distinct(KeysBySeq(t, c))
  {
    var keys := KeysBySeq(t, c);
    forall i, j | 0 <= i < j < |keys| ensures keys[i] != keys[j] {
      KeysDiffer(t, c, i + 1, j + 1);
    }
  }

  lemma KeyReceipted(s: System, c: nat, n: nat)
    requires Keyed(s.t) && AllReceipted(s) && c in s.t.conversations && 1 <= n <= s.t.conversations[c].lastSeq
    ensures KeyAt(s.t, c, n) in KeysIn(s.receipts, c)
  {
    var id := s.t.bySeq[SeqKey(c, n)];
    assert SeqKeyOf(s.t.messages[id]) == SeqKey(c, n);
    assert Receipt(KeyAt(s.t, c, n), id, s.t.messages[id].seqNo) in s.receipts;
  }

  lemma ReceiptKeyed(t: Tables, r: Receipt)
    requires Keyed(t) && Holds(t, r)
    ensures r.key.conversation in t.conversations && 1 <= r.seqNo <= t.conversations[r.key.conversation].lastSeq
    ensures KeyAt(t, r.key.conversation, r.seqNo) == r.key
  {
    SeqBounded(t, r.id);
    assert t.bySeq[SeqKeyOf(t.messages[r.id])] == r.id;
  }

  lemma ReceiptedBySeq(s: System, c: nat, r: Receipt)
    requires Keyed(s.t) && c in s.t.conversations && Holds(s.t, r) && r.key.conversation == c
    ensures r.key in KeysBySeq(s.t, c)
  {
    ReceiptKeyed(s.t, r);
    assert KeysBySeq(s.t, c)[r.seqNo - 1] == r.key;
  }

  lemma ReceiptedKeys(s: System, c: nat)
    requires Keyed(s.t) && AllReceipted(s) && c in s.t.conversations
    requires forall r :: r in s.receipts ==> Holds(s.t, r)
    ensures (set k | k in KeysBySeq(s.t, c)) == KeysIn(s.receipts, c)
  {
    var keys := KeysBySeq(s.t, c);
    forall i | 0 <= i < |keys| ensures keys[i] in KeysIn(s.receipts, c) {
      KeyReceipted(s, c, i + 1);
    }
    forall r | r in s.receipts && r.key.conversation == c ensures r.key in keys {
      ReceiptedBySeq(s, c, r);
    }
  }

  /** The last seq of a conversation is the number of distinct keys ever sent in it. */
  lemma SeqCountsSends(run: seq<System>, steps: seq<Step>, n: nat, c: nat)
    requires IsRun(run, steps) && Initial(run[0]) && run[0].t.messages == map[] && n < |run|
    requires c in run[n].t.conversations
    ensures run[n].t.conversations[c].lastSeq == |KeysIn(run[n].receipts, c)|
  {
    RunKeepsReceipts(run, steps, n);
    RunKeepsTables(run, steps, n);
    KeysDistinct(run[n].t, c);
    DistinctMembers(KeysBySeq(run[n].t, c));
    ReceiptedKeys(run[n], c);
  }

  // ---------- one storing call per row ----------

  /** A reply names a row with the call's key. */
  ghost predicate RepliesGood(s: System)
  {
    forall h :: h in s.sends && s.sends[h].phase.Replied? ==>
      && s.sends[h].phase.id in s.t.messages
      && SendKeyOf(s.t.messages[s.sends[h].phase.id]) == KeyOf(s.sends[h].input)
      && (s.sends[h].phase.stored ==> s.sends[h].phase.event)
  }

  predicate StoredBy(sends: map<nat, SendCall>, h: nat, id: nat)
  {
    h in sends && sends[h].phase.Replied? && sends[h].phase.id == id && sends[h].phase.stored
  }

  ghost predicate OneStorer(sends: map<nat, SendCall>)
  {
    forall g, h, id :: StoredBy(sends, g, id) && StoredBy(sends, h, id) ==> g == h
  }

  /** Every row is from the start or has a call that stored it. */
  ghost predicate HaveStorers(start: Tables, s: System)
  {
    forall id :: id in s.t.messages ==> id in start.messages || exists h :: StoredBy(s.sends, h, id)
  }

  lemma ReplyOfStep(s: System, step: Step, h: nat)
    requires TablesInv(s.t) && Enabled(s, step) && h in Do(s, step).sends && Do(s, step).sends[h].phase.Replied?
    requires h in s.sends ==> !s.sends[h].phase.Replied?
    ensures var s' := Do(s, step);
            var p := s'.sends[h].phase;
            && p.id in s'.t.messages && SendKeyOf(s'.t.messages[p.id]) == KeyOf(s'.sends[h].input)
            && (p.stored ==> p.event && p.id !in s.t.messages)
  {
    match step
    case LookUp(_) => LookUpGivesReceipt(s, h);
    case Store(_, id, now) =>
      StoreGivesReceipt(s, h, id, now);
      CreateResultCorrect(s.t, s.sends[h].input, id, now);
    case _ =>
  }

  /** A reply, once given, stands. */
  lemma ReplyStands(s: System, step: Step, h: nat)
    requires Enabled(s, step) && h in s.sends && (s.sends[h].phase.Replied? || s.sends[h].phase.Rejected?)
    ensures h in Do(s, step).sends && Do(s, step).sends[h] == s.sends[h]
  {
  }

  lemma StepKeepsReplies(s: System, step: Step)
    requires TablesInv(s.t) && Enabled(s, step) && RepliesGood(s)
    ensures RepliesGood(Do(s, step))
  {
    var s' := Do(s, step);
    StepGrows(s, step);
    forall h | h in s'.sends && s'.sends[h].phase.Replied?
      ensures s'.sends[h].phase.id in s'.t.messages
      ensures SendKeyOf(s'.t.messages[s'.sends[h].phase.id]) == KeyOf(s'.sends[h].input)
      ensures s'.sends[h].phase.stored ==> s'.sends[h].phase.event
    {
      if h in s.sends && s.sends[h].phase.Replied? {
        ReplyStands(s, step, h);
        assert RowKept(s.t.messages[s.sends[h].phase.id], s'.t.messages[s.sends[h].phase.id]);
      } else {
        ReplyOfStep(s, step, h);
      }
    }
  }

  /** A row stored by a call of the new state was stored by that call before, or is new and stored by the step's call. */
  lemma StorerOfStep(s: System, step: Step, h: nat, id: nat)
    requires TablesInv(s.t) && Enabled(s, step) && StoredBy(Do(s, step).sends, h, id)
    ensures StoredBy(s.sends, h, id) || (step.Store? && step.h == h && id !in s.t.messages)
  {
    if h in s.sends && s.sends[h].phase.Replied? {
      ReplyStands(s, step, h);
    } else {
      ReplyOfStep(s, step, h);
    }
  }

  lemma StepKeepsStorer(s: System, step: Step)
    requires TablesInv(s.t) && Enabled(s, step) && RepliesGood(s) && OneStorer(s.sends)
    ensures OneStorer(Do(s, step).sends)
  {
    forall g, h, id | StoredBy(Do(s, step).sends, g, id) && StoredBy(Do(s, step).sends, h, id) ensures g == h {
      StorerOfStep(s, step, g, id);
      StorerOfStep(s, step, h, id);
    }
  }

  lemma NewRowHasStorer(s: System, step: Step, id: nat)
    requires Enabled(s, step) && id in Do(s, step).t.messages && id !in s.t.messages
    ensures step.Store? && StoredBy(Do(s, step).sends, step.h, id)
  {
    if step.Store? {
      StoreAddsItsRow(s, step.h, step.id, step.now, id);
    } else {
      OnlyStoreAdds(s, step);
    }
  }

  lemma OnlyStoreAdds(s: System, step: Step)
    requires Enabled(s, step) && !step.Store?
    ensures Do(s, step).t.messages.Keys == s.t.messages.Keys
  {
  }

  lemma StoreAddsItsRow(s: System, h: nat, id: nat, now: nat, m: nat)
    requires Enabled(s, Store(h, id, now))
    requires m in AfterStore(s, h, id, now).t.messages && m !in s.t.messages
    ensures StoredBy(AfterStore(s, h, id, now).sends, h, m)
  {
  }

  lemma StepKeepsStorers(start: Tables, s: System, step: Step)
    requires TablesInv(s.t) && Enabled(s, step) && HaveStorers(start, s)
    ensures HaveStorers(start, Do(s, step))
  {
    var s' := Do(s, step);
    forall id | id in s'.t.messages && id !in start.messages ensures exists h :: StoredBy(s'.sends, h, id) {
      if id in s.t.messages {
        var h :| StoredBy(s.sends, h, id);
        ReplyStands(s, step, h);
        assert StoredBy(s'.sends, h, id);
      } else {
        NewRowHasStorer(s, step, id);
      }
    }
  }

  lemma {:induction false} RunKeepsReplies(run: seq<System>, steps: seq<Step>, n: nat)
    requires IsRun(run, steps) && Initial(run[0]) && n < |run|
    ensures TablesInv(run[n].t) && RepliesGood(run[n]) && OneStorer(run[n].sends) && HaveStorers(run[0].t, run[n])
    decreases n
  {
    if n == 0 {
    } else {
      assert Takes(run, steps, n - 1);
      RunKeepsReplies(run, steps, n - 1);
      StepKeepsTables(run[n - 1], steps[n - 1]);
      StepKeepsReplies(run[n - 1], steps[n - 1]);
      StepKeepsStorer(run[n - 1], steps[n - 1]);
      StepKeepsStorers(run[0].t, run[n - 1], steps[n - 1]);
    }
  }

  /** Each row of a run was stored by exactly one call, and that call announces it. */
  lemma RowStoredOnce(run: seq<System>, steps: seq<Step>, n: nat, id: nat)
    requires IsRun(run, steps) && Initial(run[0]) && n < |run|
    requires id in run[n].t.messages && id !in run[0].t.messages
    ensures exists h :: StoredBy(run[n].sends, h, id) && run[n].sends[h].phase.event
                        && forall g :: StoredBy(run[n].sends, g, id) ==> g == h
  {
    RunKeepsReplies(run, steps, n);
    var h :| StoredBy(run[n].sends, h, id);
    assert run[n].sends[h].phase.event;
  }

  // ---------- events for rows somebody else stored ----------

  ghost predicate AbsentAt(run: seq<System>, steps: seq<Step>, l: nat, h: nat, key: SendKey)
    requires |run| == |steps| + 1 && l < |steps|
  {
    steps[l] == LookUp(h) && key !in run[l].t.bySend
  }

  ghost predicate StoresAt(steps: seq<Step>, c: nat, h: nat)
    requires c < |steps|
  {
    steps[c].Store? && steps[c].h == h
  }

  /** The call of `h` found no row at its lookup, and one at its create. */
  ghost predicate Overtaken(run: seq<System>, steps: seq<Step>, n: nat, h: nat)
    requires |run| == |steps| + 1 && n < |run| && h in run[n].sends
  {
    exists l: nat, c: nat :: l < c < n && AbsentAt(run, steps, l, h, KeyOf(run[n].sends[h].input)) && StoresAt(steps, c, h)
                             && KeyOf(run[n].sends[h].input) in run[c].t.bySend
  }

  lemma SendersStay(s: System, step: Step, h: nat)
    requires Enabled(s, step) && h in s.sends
    ensures h in Do(s, step).sends && Do(s, step).sends[h].input == s.sends[h].input
  {
  }

  lemma {:induction false} Stands(run: seq<System>, steps: seq<Step>, m: nat, n: nat, h: nat)
    requires IsRun(run, steps) && m <= n < |run| && h in run[m].sends
    requires run[m].sends[h].phase.Replied? || run[m].sends[h].phase.Rejected?
    ensures h in run[n].sends && run[n].sends[h] == run[m].sends[h]
    decreases n
  {
    if m == n {
    } else {
      assert Takes(run, steps, n - 1);
      Stands(run, steps, m, n - 1, h);
      ReplyStands(run[n - 1], steps[n - 1], h);
    }
  }

  /** A call that got as far as creating found nothing at its lookup. */
  lemma {:induction false} CreatingLooked(run: seq<System>, steps: seq<Step>, n: nat, h: nat)
    requires IsRun(run, steps) && TablesInv(run[0].t) && run[0].sends == map[]
    requires n < |run| && h in run[n].sends && run[n].sends[h].phase == Creating
    ensures exists l: nat :: l < n && AbsentAt(run, steps, l, h, KeyOf(run[n].sends[h].input))
    decreases n
  {
    if n == 0 {
    } else {
      var s, step := run[n - 1], steps[n - 1];
      assert Takes(run, steps, n - 1);
      RunKeepsTables(run, steps, n - 1);
      if h in s.sends && s.sends[h].phase == Creating {
        CreatingLooked(run, steps, n - 1, h);
        SendersStay(s, step, h);
      } else {
        BecameCreating(s, step, h);
        assert AbsentAt(run, steps, n - 1, h, KeyOf(run[n].sends[h].input));
      }
    }
  }

  lemma BecameCreating(s: System, step: Step, h: nat)
    requires SendsGood(s.t) && Enabled(s, step) && h in Do(s, step).sends && Do(s, step).sends[h].phase == Creating
    requires h in s.sends ==> s.sends[h].phase != Creating
    ensures step == LookUp(h) && KeyOf(Do(s, step).sends[h].input) !in s.t.bySend
  {
  }

  /** What the create step of a call settles. */
  lemma StoreSettles(s: System, step: Step)
    requires Enabled(s, step) && step.Store?
    ensures var p := Do(s, step).sends[step.h].phase;
            p.Rejected? || (p.Replied? && p.event && (p.stored <==> KeyOf(s.sends[step.h].input) !in s.t.bySend))
  {
  }

  lemma {:induction false} EventHasStore(run: seq<System>, steps: seq<Step>, n: nat, h: nat)
    requires IsRun(run, steps) && Initial(run[0]) && n < |run| && h in run[n].sends
    requires run[n].sends[h].phase.Replied? && run[n].sends[h].phase.event
    ensures exists c: nat :: c < n && StoresAt(steps, c, h)
    decreases n
  {
    if n == 0 {
    } else if h in run[n - 1].sends && run[n - 1].sends[h].phase.Replied? {
      assert Takes(run, steps, n - 1);
      ReplyStands(run[n - 1], steps[n - 1], h);
      EventHasStore(run, steps, n - 1, h);
    } else {
      assert Takes(run, steps, n - 1);
      OnlyStoreAnnounces(run[n - 1], steps[n - 1], h);
      assert StoresAt(steps, n - 1, h);
    }
  }

  lemma OnlyStoreAnnounces(s: System, step: Step, h: nat)
    requires Enabled(s, step) && h in Do(s, step).sends && Do(s, step).sends[h].phase.Replied?
    requires Do(s, step).sends[h].phase.event && (h in s.sends ==> !s.sends[h].phase.Replied?)
    ensures step.Store? && step.h == h
  {
  }

  /** The create step at `c` decides what the call ends with. */
  lemma StoreDecides(run: seq<System>, steps: seq<Step>, c: nat, n: nat, h: nat)
    requires IsRun(run, steps) && c < n < |run| && StoresAt(steps, c, h)
    requires h in run[n].sends && run[n].sends[h].phase.Replied?
    ensures run[n].sends[h].phase.event
    ensures run[n].sends[h].phase.stored <==> KeyOf(run[n].sends[h].input) !in run[c].t.bySend
  {
    assert Takes(run, steps, c);
    StoreSettles(run[c], steps[c]);
    SendersStay(run[c], steps[c], h);
    Stands(run, steps, c + 1, n, h);
  }

  /** A call announces a row it did not store exactly when its key was absent at its lookup and present at its create. */
  lemma EventWithoutStoreIff(run: seq<System>, steps: seq<Step>, n: nat, h: nat)
    requires IsRun(run, steps) && Initial(run[0]) && n < |run| && h in run[n].sends && run[n].sends[h].phase.Replied?
    ensures run[n].sends[h].phase.event && !run[n].sends[h].phase.stored <==> Overtaken(run, steps, n, h)
  {
    if run[n].sends[h].phase.event {
      EventHasStore(run, steps, n, h);
      var c: nat :| c < n && StoresAt(steps, c, h);
      assert Takes(run, steps, c);
      StoreDecides(run, steps, c, n, h);
      CreatingLooked(run, steps, c, h);
      InputFixed(run, steps, c, n, h);
    }
    if Overtaken(run, steps, n, h) {
      var l: nat, c: nat :| l < c < n && AbsentAt(run, steps, l, h, KeyOf(run[n].sends[h].input)) && StoresAt(steps, c, h)
                            && KeyOf(run[n].sends[h].input) in run[c].t.bySend;
      StoreDecides(run, steps, c, n, h);
    }
  }

  lemma {:induction false} InputFixed(run: seq<System>, steps: seq<Step>, m: nat, n: nat, h: nat)
    requires IsRun(run, steps) && m <= n < |run| && h in run[m].sends
    ensures h in run[n].sends && run[n].sends[h].input == run[m].sends[h].input
    decreases n
  {
    if m == n {
    } else {
      assert Takes(run, steps, n - 1);
      InputFixed(run, steps, m, n - 1, h);
      SendersStay(run[n - 1], steps[n - 1], h);
    }
  }

  // ---------- two events for one row ----------

  const RACE_INPUT := SendInput(1, 2, 3, "m", "hello")

  const RACE_BEFORE := Tables(map[1 := Conversation(Pair(2, 3), 0, 0)], map[Pair(2, 3) := 1], map[], map[], map[])

  const RACE_AFTER := Tables(map[1 := Conversation(Pair(2, 3), 1, 0)], map[Pair(2, 3) := 1],
                             map[7 := Row(1, 1, 2, 3, "m", "hello", 0, Never)],
                             map[SendKey(1, 2, "m") := 7], map[SeqKey(1, 1) := 7])

  const RACE_STEPS := [StartSend(0, RACE_INPUT), StartSend(1, RACE_INPUT), LookUp(0), LookUp(1), Store(0, 7, 0), Store(1, 8, 0)]

  function RaceSystem(t: Tables, sends: map<nat, SendCall>, receipts: set<Receipt>): System
  {
    System.System(t, map[], sends, receipts, Progress(1, 3, 0, 0, [], 0, 0, false))
  }

  function RaceCalls(a: SendPhase, b: SendPhase): map<nat, SendCall>
  {
    map[0 := SendCall(RACE_INPUT, a), 1 := SendCall(RACE_INPUT, b)]
  }

  function RaceState(i: nat): System
  {
    if i == 0 then RaceSystem(RACE_BEFORE, map[], {})
    else if i == 1 then RaceSystem(RACE_BEFORE, map[0 := SendCall(RACE_INPUT, Looking)], {})
    else if i == 2 then RaceSystem(RACE_BEFORE, RaceCalls(Looking, Looking), {})
    else if i == 3 then RaceSystem(RACE_BEFORE, RaceCalls(Creating, Looking), {})
    else if i == 4 then RaceSystem(RACE_BEFORE, RaceCalls(Creating, Creating), {})
    else if i == 5 then RaceSystem(RACE_AFTER, RaceCalls(Replied(7, true, true), Creating), {Receipt(KeyOf(RACE_INPUT), 7, 1)})
    else RaceSystem(RACE_AFTER, RaceCalls(Replied(7, true, true), Replied(7, false, true)), {Receipt(KeyOf(RACE_INPUT), 7, 1)})
  }

  lemma RaceStores()
    ensures Create(RACE_BEFORE, RACE_INPUT, 7, 0) == (RACE_AFTER, Stored(7))
    ensures Create(RACE_AFTER, RACE_INPUT, 8, 0) == (RACE_AFTER, Stored(7))
  {
    var t := Create(RACE_BEFORE, RACE_INPUT, 7, 0).0;
    assert t.conversations == RACE_AFTER.conversations && t.messages == RACE_AFTER.messages;
    assert t.bySend == RACE_AFTER.bySend && t.bySeq == RACE_AFTER.bySeq;
  }

  lemma RaceStep(i: nat)
    requires i < 6
    ensures Enabled(RaceState(i), RACE_STEPS[i]) && RaceState(i + 1) == Do(RaceState(i), RACE_STEPS[i])
  {
    RaceStores();
    var s, s' := RaceState(i), RaceState(i + 1);
    assert Do(s, RACE_STEPS[i]).sends == s'.sends;
    assert Do(s, RACE_STEPS[i]).receipts == s'.receipts;
  }

  /** Two sends with one key, both past their lookup before either creates: one row, and both calls announce it. */
  lemma TwoEventsOneRow() returns (run: seq<System>, steps: seq<Step>)
    ensures IsRun(run, steps) && Initial(run[0])
    ensures var s := run[|steps|];
            && s.t.messages.Keys == {7}
            && s.sends.Keys == {0, 1}
            && s.sends[0].phase == Replied(7, true, true) && s.sends[1].phase == Replied(7, false, true)
  {
    steps := RACE_STEPS;
    run := seq(7, i requires 0 <= i < 7 => RaceState(i));
    forall i: nat | i < 6 ensures Takes(run, steps, i) {
      RaceStep(i);
    }
  }
}
