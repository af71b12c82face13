/** Subscribe-then-sync without gaps. */
module NoGap {
  import opened Ordering
  import opened ChannelLog
  import opened Sync
  import opened Protocol
  import opened Delivery
  import opened SyncRuns
  import Subs = Subscriptions

  // ---------- the observer's subscription ----------

  predicate Subscribed(s: System)
  {
    s.observer in Subs.Targets(s.subs, s.drain.channel)
  }

  /** A handler that has still to push message `id` to session `o`, given what it has copied so far. */
  predicate WillPush(h: Handler, id: nat, o: nat)
  {
    || h == Acknowledged(id)
    || (h.Pushing? && h.id == id && o in h.targets)
  }

  ghost predicate OnItsWay(s: System, id: nat)
  {
    exists h :: h in s.handlers && WillPush(s.handlers[h], id, s.observer)
  }

  ghost predicate AwaitingAck(s: System, id: nat)
  {
    exists h :: h in s.handlers && s.handlers[h] == Committed(id)
  }

  /** Once some sender's acknowledgement for `id` was written, the observer has the event, lost it to a failed write, or
      a handler still owes it. */
  ghost predicate Owed(s: System, id: nat)
  {
    id in s.pushed || id in s.dropped || OnItsWay(s, id)
  }

  /** The messages committed after the drain completed: above its cursor, and not waiting there when it ended. */
  predicate Late(s: System, id: nat)
  {
    s.drain.done && Matches(s.t, s.drain.channel, s.drain.cursor, id) && id !in s.drain.missed
  }

  ghost predicate Covered(s: System)
  {
    forall id :: Late(s, id) ==>
      && (id in s.acked ==> Owed(s, id))
      && (id in s.acked || id in s.unacked || AwaitingAck(s, id))
  }

  ghost predicate PushesAcked(s: System)
  {
    && s.pushed + s.dropped <= s.acked
    && (forall h :: h in s.handlers && (s.handlers[h].Acknowledged? || s.handlers[h].Pushing?) ==>
          s.handlers[h].id in s.acked)
  }

  lemma StepKeepsPushesAcked(s: System, step: Step)
    requires Enabled(s, step) && PushesAcked(s)
    ensures PushesAcked(Do(s, step))
  {
  }

  // A late message of the state after a step was late before, unless the step committed it or finished the drain.

  lemma HandlerKeepsCovered(s: System, h: nat, action: Action)
    requires CanSend(s, h, action) && !action.Lock? && !action.Commit? && Covered(s) && Subscribed(s)
    ensures Covered(AfterHandler(s, h, action))
  {
    var s' := AfterHandler(s, h, action);
    forall id | Late(s', id)
      ensures id in s'.acked ==> Owed(s', id)
      ensures id in s'.acked || id in s'.unacked || AwaitingAck(s', id)
    {
      assert Late(s, id);
      if id in s'.acked { HandlerKeepsOwed(s, h, action, id); }
      if AwaitingAck(s, id) {
        var g :| g in s.handlers && s.handlers[g] == Committed(id);
        if g != h { assert g in s'.handlers && s'.handlers[g] == Committed(id); }
      }
    }
  }

  lemma HandlerKeepsOwed(s: System, h: nat, action: Action, id: nat)
    requires CanSend(s, h, action) && !action.Lock? && !action.Commit? && Subscribed(s)
    requires Late(s, id) && id in AfterHandler(s, h, action).acked && (id in s.acked ==> Owed(s, id))
    ensures Owed(AfterHandler(s, h, action), id)
  {
    var s' := AfterHandler(s, h, action);
    if id !in s.acked {
      assert h in s'.handlers && WillPush(s'.handlers[h], id, s.observer);
    } else if OnItsWay(s, id) {
      var g :| g in s.handlers && WillPush(s.handlers[g], id, s.observer);
      if g != h {
        assert g in s'.handlers && s'.handlers[g] == s.handlers[g];
      } else if !(action.Push? && action.session == s.observer) {
        assert h in s'.handlers && WillPush(s'.handlers[h], id, s.observer);
      }
    }
  }

  lemma CommitKeepsCovered(s: System, s': System, h: nat, input: CreateInput, id: nat, r: CreateResult)
    requires Covered(s) && RowsGrow(s.t, s'.t)
    requires h in s.handlers && s.handlers[h].Locked? && input.channel in s.t.channels
    requires CommitEffect(s.t, s'.t, input, id, r)
    requires s' == s.(t := s'.t, receipts := s'.receipts,
                      handlers := if r.Stored? then s.handlers[h := Committed(r.id)] else s.handlers - {h})
    requires forall m :: m in s.acked + s.unacked ==> m in s.t.messages
    ensures Covered(s')
  {
    forall m | Late(s', m)
      ensures m in s'.acked ==> Owed(s', m)
      ensures m in s'.acked || m in s'.unacked || AwaitingAck(s', m)
    {
      if m in s.t.messages {
        assert s'.t.messages[m].(status := s.t.messages[m].status) == s.t.messages[m];
        assert Late(s, m);
        OthersStay(s, s', h, m);
      } else {
        assert s'.handlers[h] == Committed(m);
      }
    }
  }

  /** Replacing a lock holder does not disturb what other handlers owe. */
  lemma OthersStay(s: System, s': System, h: nat, m: nat)
    requires h in s.handlers && s.handlers[h].Locked? && s'.observer == s.observer
    requires forall g :: g in s.handlers && g != h ==> g in s'.handlers && s'.handlers[g] == s.handlers[g]
    ensures OnItsWay(s, m) ==> OnItsWay(s', m)
    ensures AwaitingAck(s, m) ==> AwaitingAck(s', m)
  {
    if OnItsWay(s, m) {
      var g :| g in s.handlers && WillPush(s.handlers[g], m, s.observer);
      assert g in s'.handlers && WillPush(s'.handlers[g], m, s'.observer);
    }
    if AwaitingAck(s, m) {
      var g :| g in s.handlers && s.handlers[g] == Committed(m);
      assert g in s'.handlers && s'.handlers[g] == Committed(m);
    }
  }

  /** Fewer late messages, and nothing else changed, keeps the cover. */
  lemma ShrinkKeepsCovered(s: System, s': System)
    requires Covered(s)
    requires s'.handlers == s.handlers && s'.observer == s.observer
    requires s'.acked == s.acked && s'.unacked == s.unacked && s'.pushed == s.pushed && s'.dropped == s.dropped
    requires forall id :: Late(s', id) ==> Late(s, id)
    ensures Covered(s')
  {
    forall id | Late(s', id)
      ensures id in s'.acked ==> Owed(s', id)
      ensures id in s'.acked || id in s'.unacked || AwaitingAck(s', id)
    {
      assert Late(s, id);
      assert OnItsWay(s, id) ==> OnItsWay(s', id);
      assert AwaitingAck(s, id) ==> AwaitingAck(s', id);
    }
  }

  lemma LockKeepsCovered(s: System, h: nat, input: CreateInput)
    requires Covered(s) && CanSend(s, h, Lock(input))
    ensures Covered(AfterSend(s, h, Lock(input)))
  {
    var s' := AfterSend(s, h, Lock(input));
    forall id | Late(s', id)
      ensures id in s'.acked ==> Owed(s', id)
      ensures id in s'.acked || id in s'.unacked || AwaitingAck(s', id)
    {
      assert Late(s, id);
      if OnItsWay(s, id) {
        var g :| g in s.handlers && WillPush(s.handlers[g], id, s.observer);
        assert g in s'.handlers && s'.handlers[g] == s.handlers[g];
      }
      if AwaitingAck(s, id) {
        var g :| g in s.handlers && s.handlers[g] == Committed(id);
        assert g in s'.handlers && s'.handlers[g] == s.handlers[g];
      }
    }
  }

  lemma OthersLeaveHandlers(s: System, step: Step)
    requires Enabled(s, step) && !step.Sender?
    ensures var s' := Do(s, step);
            && s'.handlers == s.handlers && s'.observer == s.observer
            && s'.acked == s.acked && s'.unacked == s.unacked && s'.pushed == s.pushed && s'.dropped == s.dropped
  {
  }

  // ---------- what holds of the histories in every reachable state ----------

  /** Acknowledgements, sent or failed, are of stored messages; only acknowledged messages are ever pushed. */
  ghost predicate HistoryGood(s: System)
  {
    && PushesAcked(s)
    && s.acked + s.unacked <= s.t.messages.Keys
  }

  ghost predicate Always(s: System)
  {
    Inv(s) && HistoryGood(s)
  }

  function Genesis(observer: nat, channel: nat, start: nat): System
  {
    System.System(Tables(map[], map[], map[], map[], {}, map[], map[], map[]), map[], map[], map[], observer,
           Progress(channel, start, start, [], 0, 0, false, {}), {}, {}, {}, {}, {})
  }

  lemma GenesisAlways(observer: nat, channel: nat, start: nat)
    ensures Always(Genesis(observer, channel, start))
  {
  }

  lemma AckIsOfStored(s: System, h: nat, written: bool)
    requires HandlersKnown(s.t, s.handlers) && HistoryGood(s) && CanSend(s, h, Ack(written))
    ensures var s' := AfterHandler(s, h, Ack(written));
            forall m :: m in s'.acked + s'.unacked ==> m in s'.t.messages
  {
  }

  lemma GrowthKeepsStored(t: Tables, t': Tables, ids: set<nat>)
    requires RowsGrow(t, t') && ids <= t.messages.Keys
    ensures ids <= t'.messages.Keys
  {
    forall m | m in ids ensures m in t'.messages {
      var row := t.messages[m];
    }
  }

  lemma StepKeepsAlways(s: System, step: Step)
    requires Always(s) && Enabled(s, step)
    ensures Always(Do(s, step))
  {
    StepKeepsInv(s, step);
    StepKeepsPushesAcked(s, step);
    if step.Sender? && step.action.Ack? {
      AckIsOfStored(s, step.h, step.action.written);
    } else {
      OthersLeaveAcks(s, step);
      GrowthKeepsStored(s.t, Do(s, step).t, s.acked + s.unacked);
    }
  }

  lemma OthersLeaveAcks(s: System, step: Step)
    requires Enabled(s, step) && !(step.Sender? && step.action.Ack?)
    ensures Do(s, step).acked == s.acked && Do(s, step).unacked == s.unacked
  {
  }

  // ---------- the cover along a run ----------

  lemma SenderKeepsCovered(s: System, h: nat, action: Action)
    requires Always(s) && CanSend(s, h, action) && Covered(s) && Subscribed(s)
    ensures Covered(AfterSend(s, h, action))
  {
    var s' := AfterSend(s, h, action);
    match action {
      case Commit(id, messageId, now) =>
        var r := CommitHasEffect(s, h, id, messageId, now);
        CommitKeepsCovered(s, s', h, s.handlers[h].input, id, r);
      case Lock(input) => LockKeepsCovered(s, h, input);
      case _ => HandlerKeepsCovered(s, h, action);
    }
  }

  lemma PageLeavesNothingLate(s: System, size: uint32, id: nat)
    ensures !Late(AfterPage(s, size), id)
  {
  }

  lemma LateBefore(s: System, s': System)
    requires RowsGrow(s.t, s'.t) && s'.t.messages.Keys == s.t.messages.Keys && s'.drain == s.drain
    ensures forall id :: Late(s', id) ==> Late(s, id)
  {
    forall id | Late(s', id) ensures Late(s, id) {
      assert s'.t.messages[id].(status := s.t.messages[id].status) == s.t.messages[id];
    }
  }

  lemma StepKeepsCovered(s: System, step: Step)
    requires Always(s) && Enabled(s, step) && Subscribed(s) && DrainGood(s.t, s.drain) && Covered(s)
    ensures Covered(Do(s, step))
  {
    var s' := Do(s, step);
    if step.Sender? {
      SenderKeepsCovered(s, step.h, step.action);
    } else {
      OthersLeaveHandlers(s, step);
      if step.FetchPage? {
        forall id ensures !Late(s', id) {
          PageLeavesNothingLate(s, step.size, id);
        }
      } else {
        StepKeepsInv(s, step);
        OthersLeaveDrain(s, step);
        OnlyCommitAddsRows(s, step);
        LateBefore(s, s');
      }
      ShrinkKeepsCovered(s, s');
    }
  }

  lemma HistoryAt(run: seq<System>, steps: seq<Step>, i: nat)
    requires IsRun(run, steps) && Inv(run[0]) && i < |steps| && HistoryGood(run[i])
    ensures HistoryGood(run[i + 1])
  {
    assert Takes(run, steps, i);
    RunKeepsInv(run, steps, i);
    StepKeepsAlways(run[i], steps[i]);
  }

  lemma {:induction false} RunKeepsHistory(run: seq<System>, steps: seq<Step>, m: nat, n: nat)
    requires IsRun(run, steps) && Inv(run[0]) && m <= n < |run| && HistoryGood(run[m])
    ensures HistoryGood(run[n])
    decreases n - m
  {
    if m == n {
    } else {
      HistoryAt(run, steps, m);
      RunKeepsHistory(run, steps, m + 1, n);
    }
  }

  lemma RunKeepsAlways(run: seq<System>, steps: seq<Step>, n: nat)
    requires IsRun(run, steps) && Always(run[0]) && n < |run|
    ensures Always(run[n])
  {
    RunKeepsInv(run, steps, n);
    RunKeepsHistory(run, steps, 0, n);
  }

  lemma CoveredAt(run: seq<System>, steps: seq<Step>, i: nat)
    requires IsRun(run, steps) && Always(run[0]) && FreshDrain(run[0].drain) && i < |steps|
    requires Subscribed(run[i]) && Covered(run[i])
    ensures Covered(run[i + 1])
  {
    assert Takes(run, steps, i);
    RunKeepsAlways(run, steps, i);
    RunKeepsDrain(run, steps, i);
    StepKeepsCovered(run[i], steps[i]);
  }

  lemma {:induction false} RunKeepsCovered(run: seq<System>, steps: seq<Step>, n: nat)
    requires IsRun(run, steps) && Always(run[0]) && FreshDrain(run[0].drain) && n < |run|
    requires forall i :: 0 <= i < |run| ==> Subscribed(run[i])
    ensures Covered(run[n])
    decreases n
  {
    if n == 0 {
    } else {
      RunKeepsCovered(run, steps, n - 1);
      CoveredAt(run, steps, n - 1);
    }
  }

  /** Subscribe, then drain, then stay subscribed: whatever interleaves, every message above the start that is still
      normal was returned by the drain, was pushed, is owed by a handler that has yet to copy its targets or to write
      its copies, or was lost: to a failed write of the event itself, to a failed write of its sender's acknowledgement,
      or to a last page whose limit wrapped. */
  lemma SubscribeThenSync(run: seq<System>, steps: seq<Step>, id: nat)
    requires IsRun(run, steps) && Always(run[0]) && FreshDrain(run[0].drain)
    requires forall i :: 0 <= i < |run| ==> Subscribed(run[i])
    requires run[|steps|].drain.done && Matches(run[|steps|].t, run[|steps|].drain.channel, run[|steps|].drain.start, id)
    ensures var s := run[|steps|];
            || Key(s.t.messages[id].seqNo, id) in s.drain.returned
            || id in s.pushed || OnItsWay(s, id) || AwaitingAck(s, id)
            || id in s.dropped || id in s.unacked || id in s.drain.missed
  {
    RunKeepsCovered(run, steps, |steps|);
    RunKeepsDrain(run, steps, |steps|);
  }

  lemma Later(run: seq<System>, steps: seq<Step>, m: nat)
    requires IsRun(run, steps) && m <= |steps|
    ensures IsRun(run[m..], steps[m..])
  {
    forall i: nat | i < |steps[m..]| ensures Takes(run[m..], steps[m..], i) {
      assert Takes(run, steps, m + i);
      assert run[m..][i] == run[m + i] && run[m..][i + 1] == run[m + i + 1] && steps[m..][i] == steps[m + i];
    }
  }

  lemma FromSubscription(run: seq<System>, steps: seq<Step>, m: nat, id: nat)
    requires IsRun(run, steps) && Always(run[0]) && m <= |steps|
    requires FreshDrain(run[m].drain) && forall i :: m <= i < |run| ==> Subscribed(run[i])
    requires run[|steps|].drain.done && Matches(run[|steps|].t, run[|steps|].drain.channel, run[|steps|].drain.start, id)
    ensures var s := run[|steps|];
            || Key(s.t.messages[id].seqNo, id) in s.drain.returned
            || id in s.pushed || OnItsWay(s, id) || AwaitingAck(s, id)
            || id in s.dropped || id in s.unacked || id in s.drain.missed
  {
    RunKeepsAlways(run, steps, m);
    Later(run, steps, m);
    var run', steps' := run[m..], steps[m..];
    assert run'[0] == run[m] && run'[|steps'|] == run[|steps|];
    assert forall i :: 0 <= i < |run'| ==> run'[i] == run[m + i];
    SubscribeThenSync(run', steps', id);
  }

  lemma HonestMissesNothing(run: seq<System>, steps: seq<Step>, m: nat)
    requires IsRun(run, steps) && m <= |steps| && Inv(run[m]) && FreshDrain(run[m].drain)
    requires forall i :: m <= i < |steps| ==> Honest(run[i], steps[i])
    ensures run[|steps|].drain.missed == {}
  {
    Later(run, steps, m);
    var run', steps' := run[m..], steps[m..];
    assert run'[0] == run[m] && run'[|steps'|] == run[|steps|];
    forall i | 0 <= i < |steps'| ensures Honest(run'[i], steps'[i]) {
      assert run'[i] == run[m + i] && steps'[i] == steps[m + i];
    }
    MissedIff(run', steps', |steps'|);
  }

  /** The same from the empty server: anything may have happened before the observer subscribed, at state `m`, and started
      its drain. When no page limit wrapped with messages waiting and the writes for this message succeeded, only handlers
      still at work stand between the observer and the message. */
  lemma NoGapFromEmpty(run: seq<System>, steps: seq<Step>, m: nat, id: nat, c: nat, start: nat, observer: nat)
    requires IsRun(run, steps) && run[0] == Genesis(observer, c, start) && m <= |steps|
    requires FreshDrain(run[m].drain) && forall i :: m <= i < |run| ==> Subscribed(run[i])
    requires forall i :: m <= i < |steps| ==> Honest(run[i], steps[i])
    requires run[|steps|].drain.done && Matches(run[|steps|].t, run[|steps|].drain.channel, run[|steps|].drain.start, id)
    requires id !in run[|steps|].dropped && id !in run[|steps|].unacked
    ensures var s := run[|steps|];
            || Key(s.t.messages[id].seqNo, id) in s.drain.returned
            || id in s.pushed || OnItsWay(s, id) || AwaitingAck(s, id)
  {
    GenesisAlways(observer, c, start);
    FromSubscription(run, steps, m, id);
    RunKeepsInv(run, steps, m);
    HonestMissesNothing(run, steps, m);
  }

  /** When the senders have finished and no write of its event to the observer failed, the observer has seen a message that
      no wrapped page missed exactly when the drain's cursor passed it or some sender's acknowledgement of it was written.
      `SyncRuns.MissedIff` says when pages miss anything. */
  lemma SeenExactly(run: seq<System>, steps: seq<Step>, id: nat)
    requires IsRun(run, steps) && Always(run[0]) && FreshDrain(run[0].drain)
    requires forall i :: 0 <= i < |run| ==> Subscribed(run[i])
    requires run[|steps|].drain.done && Matches(run[|steps|].t, run[|steps|].drain.channel, run[|steps|].drain.start, id)
    requires run[|steps|].handlers == map[] && id !in run[|steps|].dropped && id !in run[|steps|].drain.missed
    ensures var s := run[|steps|];
            (Key(s.t.messages[id].seqNo, id) in s.drain.returned || id in s.pushed)
            <==> (s.t.messages[id].seqNo <= s.drain.cursor || id in s.acked)
  {
    RunKeepsCovered(run, steps, |steps|);
    RunKeepsDrain(run, steps, |steps|);
    RunKeepsAlways(run, steps, |steps|);
    var s := run[|steps|];
    assert !OnItsWay(s, id);
    assert s.t.messages[id].seqNo > s.drain.cursor ==> Late(s, id);
  }

  // ---------- without the acknowledgement there is a gap ----------

  const GAP_INPUT := CreateInput(1, 2, "client-1", Text, "hello", [])

  const GAP_KEY := ClientKey(1, 2, "client-1")

  const GAP_ROW := MessageRow("msg", 1, 1, 2, "client-1", Text, "hello", 0, Normal)

  const GAP_BEFORE := Tables(map[1 := ChannelRow(0, 0, true, 0)], map[], map[], map[], {}, map[], map[], map[])

  const GAP_AFTER := Tables(map[1 := ChannelRow(1, 1, true, 0)], map[5 := GAP_ROW], map[GAP_KEY := 5],
                           map[SeqKey(1, 1) := 5], {"msg"}, map[], map[], map[])

  /** Session 7 subscribed to channel 1 and draining it from 0. */
  function GapSystem(t: Tables, handlers: map<nat, Handler>, done: bool, unacked: set<nat>, receipts: set<Receipt>): System
  {
    System.System(t, handlers, map[], map[1 := {7}], 7, Progress(1, 0, 0, [], if done then 1 else 0, 0, done, {}), {}, unacked, {}, {}, receipts)
  }

  lemma GapStart()
    ensures Always(GapSystem(GAP_BEFORE, map[], false, {}, {}))
  {
    var g := Genesis(7, 1, 0);
    GenesisAlways(7, 1, 0);
    StepKeepsAlways(g, NewChannel(1, true));
    StepKeepsAlways(Do(g, NewChannel(1, true)), Subscribe(7, 1));
    assert Do(Do(g, NewChannel(1, true)), Subscribe(7, 1)) == GapSystem(GAP_BEFORE, map[], false, {}, {});
  }

  lemma GapPage()
    ensures var s := GapSystem(GAP_BEFORE, map[], false, {}, {});
            Do(s, FetchPage(10)) == GapSystem(GAP_BEFORE, map[], true, {}, {})
  {
    assert MatchKeys(GAP_BEFORE, 1, 0) == {};
  }

  lemma GapCommit()
    ensures var s := GapSystem(GAP_BEFORE, map[0 := Locked(GAP_INPUT, 0)], true, {}, {});
            && Enabled(s, Sender(0, Commit(5, "msg", 0)))
            && Do(s, Sender(0, Commit(5, "msg", 0)))
               == GapSystem(GAP_AFTER, map[0 := Committed(5)], true, {}, {Receipt(GAP_KEY, 5, 1)})
  {
    var (t, r) := CommitCreate(GAP_BEFORE, GAP_INPUT, 0, 5, "msg", 0);
    assert t.channels == GAP_AFTER.channels && t.messages == GAP_AFTER.messages;
    assert t.byClient == GAP_AFTER.byClient && t.bySeq == GAP_AFTER.bySeq && t.messageIds == GAP_AFTER.messageIds;
    assert t.attachments == map[] && t.media == map[] && t.refCount == map[];
  }

  const GAP_STEPS := [FetchPage(10), Sender(0, Lock(GAP_INPUT)), Sender(0, Commit(5, "msg", 0)), Sender(0, Ack(false))]

  function GapState(i: nat): System
  {
    if i == 0 then GapSystem(GAP_BEFORE, map[], false, {}, {})
    else if i == 1 then GapSystem(GAP_BEFORE, map[], true, {}, {})
    else if i == 2 then GapSystem(GAP_BEFORE, map[0 := Locked(GAP_INPUT, 0)], true, {}, {})
    else if i == 3 then GapSystem(GAP_AFTER, map[0 := Committed(5)], true, {}, {Receipt(GAP_KEY, 5, 1)})
    else GapSystem(GAP_AFTER, map[], true, {5}, {Receipt(GAP_KEY, 5, 1)})
  }

  lemma GapStep(i: nat)
    requires i < 4
    ensures Enabled(GapState(i), GAP_STEPS[i]) && GapState(i + 1) == Do(GapState(i), GAP_STEPS[i])
  {
    if i == 0 {
      GapPage();
    } else if i == 1 {
      assert GAP_BEFORE.channels[1].messageSeq == 0;
    } else if i == 2 {
      GapCommit();
    } else {
      assert map[0 := Committed(5)] - {0} == map[];
    }
  }

  /** A drain that finds nothing, then a send whose acknowledgement write fails: the message is stored and normal, the
      observer stayed subscribed, every handler has returned, and the observer has not seen it. */
  lemma FailedAckLeavesGap() returns (run: seq<System>, steps: seq<Step>, id: nat)
    ensures IsRun(run, steps) && Always(run[0]) && FreshDrain(run[0].drain)
    ensures forall i :: 0 <= i < |run| ==> Subscribed(run[i])
    ensures var s := run[|steps|];
            && s.drain.done && s.handlers == map[] && s.dropped == {}
            && Matches(s.t, s.drain.channel, s.drain.start, id)
            && Key(s.t.messages[id].seqNo, id) !in s.drain.returned && id !in s.pushed
  {
    id, steps := 5, GAP_STEPS;
    run := seq(5, i requires 0 <= i < 5 => GapState(i));
    GapStart();
    forall i: nat | i < 4 ensures Takes(run, steps, i) {
      GapStep(i);
    }
  }
}
