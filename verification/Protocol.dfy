/** Senders, cleaners, subscribers and one observing session, interleaved step by step.

    A sender locks the channel row and reads its seq, commits, writes its acknowledgement, copies the fan-out targets
    and pushes to each copy. A cleaner selects and later updates. The observer drains the channel page by page. */
module Protocol {
  import opened Ordering
  import opened ChannelLog
  import opened Cleanup
  import opened Sync
  import Subs = Subscriptions

  datatype Handler =
    | Locked(input: CreateInput, readSeq: nat)
    | Committed(id: nat)
    | Acknowledged(id: nat)
    | Pushing(id: nat, targets: set<nat>)

  datatype Selection = Selection(rows: seq<ExpiredRow>, now: Millis)

  /** `full` adds up the sizes of the pages that reported more to come; `missed` are the messages waiting above the cursor
      when a page reported that there is no more. */
  datatype Progress = Progress(channel: nat, start: nat, cursor: nat, returned: seq<Key>, pages: nat, full: nat, done: bool,
                               missed: set<nat>)

  datatype Receipt = Receipt(key: ClientKey, id: nat, seqNo: nat)

  datatype System = System(
    t: Tables,
    handlers: map<nat, Handler>,
    cleaners: map<nat, Selection>,
    subs: map<nat, set<nat>>,
    observer: nat,
    drain: Progress,
    acked: set<nat>,      // messages some handler acknowledged to its sender
    unacked: set<nat>,    // messages some handler failed to acknowledge, and so never fanned out
    pushed: set<nat>,     // messages written to the observer as events
    dropped: set<nat>,    // messages whose event write to the observer failed
    receipts: set<Receipt>)

  /** What a send handler does next. */
  datatype Action =
    | Lock(input: CreateInput)
    | Commit(id: nat, messageId: string, now: Millis)
    | Abort
    | Ack(written: bool)
    | Snapshot
    | Push(session: nat, written: bool)
    | Finish

  datatype Step =
    | Sender(h: nat, action: Action)
    | Select(k: nat, now: Millis, limit: nat)
    | Update(k: nat)
    | NewChannel(c: nat, isGroup: bool)
    | NewBlob(b: nat)
    | NewMedia(m: nat, row: MediaRow)
    | SetWindow(c: nat, seconds: nat)
    | Subscribe(session: nat, c: nat)
    | Unsubscribe(session: nat, c: nat)
    | Disconnect(session: nat)
    | FetchPage(size: uint32)

  predicate LockHeld(handlers: map<nat, Handler>, c: nat)
  {
    exists h :: h in handlers && handlers[h].Locked? && handlers[h].input.channel == c
  }

  predicate CanSend(s: System, h: nat, action: Action)
  {
    match action
    case Lock(input) => h !in s.handlers && input.channel in s.t.channels && !LockHeld(s.handlers, input.channel)
    case Commit(id, _, _) =>
      h in s.handlers && s.handlers[h].Locked? && s.handlers[h].input.channel in s.t.channels && id !in s.t.messages
    case Abort => h in s.handlers && s.handlers[h].Locked?
    case Ack(_) => h in s.handlers && s.handlers[h].Committed?
    case Snapshot => h in s.handlers && s.handlers[h].Acknowledged?
    case Push(session, _) => h in s.handlers && s.handlers[h].Pushing? && session in s.handlers[h].targets
    case Finish => h in s.handlers && s.handlers[h].Pushing? && s.handlers[h].targets == {}
  }

  predicate Enabled(s: System, step: Step)
  {
    match step
    case Sender(h, action) => CanSend(s, h, action)
    case Select(k, _, _) => k !in s.cleaners
    case Update(k) => k in s.cleaners
    case NewChannel(c, _) => c !in s.t.channels
    case NewBlob(b) => FreshBlob(s.t, b)
    case NewMedia(m, _) => FreshMedia(s.t, m)
    case FetchPage(size) => !s.drain.done && size >= 1
    case _ => true
  }

  function AfterCommit(s: System, h: nat, id: nat, messageId: string, now: Millis): System
    requires CanSend(s, h, Commit(id, messageId, now))
  {
    var input := s.handlers[h].input;
    var (t', r) := CommitCreate(s.t, input, s.handlers[h].readSeq, id, messageId, now);
    if r.Stored? && r.id in t'.messages then
      s.(t := t', handlers := s.handlers[h := Committed(r.id)],
         receipts := s.receipts + {Receipt(ClientKey(input.channel, input.sender, input.clientMsgId),
                                           r.id, t'.messages[r.id].seqNo)})
    else
      s.(t := t', handlers := s.handlers - {h})
  }

  function AfterPush(s: System, h: nat, session: nat, written: bool): System
    requires CanSend(s, h, Push(session, written))
  {
    var id := s.handlers[h].id;
    var s' := s.(handlers := s.handlers[h := Pushing(id, s.handlers[h].targets - {session})]);
    if session != s.observer then s'
    else if written then s'.(pushed := s.pushed + {id})
    else s'.(dropped := s.dropped + {id})
  }

  /** A sender past its commit; `Ack` with `written` false returns before any fan-out. */
  function AfterHandler(s: System, h: nat, action: Action): System
    requires CanSend(s, h, action) && !action.Lock? && !action.Commit?
  {
    match action
    case Abort => s.(handlers := s.handlers - {h})
    case Ack(written) =>
      var id := s.handlers[h].id;
      if written then s.(handlers := s.handlers[h := Acknowledged(id)], acked := s.acked + {id})
      else s.(handlers := s.handlers - {h}, unacked := s.unacked + {id})
    case Snapshot =>
      var id := s.handlers[h].id;
      var c := if id in s.t.messages then s.t.messages[id].channel else 0;
      s.(handlers := s.handlers[h := Pushing(id, Subs.Targets(s.subs, c))])
    case Push(session, written) => AfterPush(s, h, session, written)
    case Finish => s.(handlers := s.handlers - {h})
  }

  function AfterSend(s: System, h: nat, action: Action): System
    requires CanSend(s, h, action)
  {
    match action
    case Lock(input) => s.(handlers := s.handlers[h := Locked(input, s.t.channels[input.channel].messageSeq)])
    case Commit(id, messageId, now) => AfterCommit(s, h, id, messageId, now)
    case _ => AfterHandler(s, h, action)
  }

  function Waiting(t: Tables, c: nat, after: nat): set<nat>
  {
    set id | id in t.messages && Matches(t, c, after, id)
  }

  function AfterPage(s: System, size: uint32): System
  {
    var d := s.drain;
    var p := PageOf(s.t, d.channel, d.cursor, size);
    s.(drain := d.(cursor := p.next, returned := d.returned + p.items, pages := d.pages + 1,
                   full := if p.hasMore then d.full + size else d.full, done := !p.hasMore,
                   missed := if p.hasMore then {} else Waiting(s.t, d.channel, p.next)))
  }

  function Do(s: System, step: Step): System
    requires Enabled(s, step)
  {
    match step
    case Sender(h, action) => AfterSend(s, h, action)
    case Select(k, now, limit) => s.(cleaners := s.cleaners[k := Selection(SelectExpired(s.t, now, limit), now)])
    case Update(k) =>
      s.(t := Apply(s.t, s.cleaners[k].rows, s.cleaners[k].now).0, cleaners := s.cleaners - {k})
    case NewChannel(c, isGroup) => s.(t := AddChannel(s.t, c, isGroup))
    case NewBlob(b) => s.(t := AddBlob(s.t, b))
    case NewMedia(m, row) => s.(t := AddMedia(s.t, m, row))
    case SetWindow(c, seconds) => s.(t := SetAutoDelete(s.t, c, seconds).0)
    case Subscribe(session, c) => s.(subs := Subs.Add(s.subs, c, session))
    case Unsubscribe(session, c) => s.(subs := Subs.Remove(s.subs, c, session))
    case Disconnect(session) => s.(subs := map c | c in s.subs && s.subs[c] - {session} != {} :: s.subs[c] - {session})
    case FetchPage(size) => AfterPage(s, size)
  }

  /** Step `i` is allowed in state `i` and leads to the next. */
  ghost predicate Takes(run: seq<System>, steps: seq<Step>, i: nat)
    requires i < |steps| && |run| == |steps| + 1
  {
    Enabled(run[i], steps[i]) && run[i + 1] == Do(run[i], steps[i])
  }

  ghost predicate IsRun(run: seq<System>, steps: seq<Step>)
  {
    |run| == |steps| + 1 && forall i: nat | i < |steps| :: Takes(run, steps, i)
  }

  /** Who is copied by a fan-out of channel `c` after the steps that change subscriptions, and that no other step does. */
  lemma SubscriptionSteps(s: System, step: Step, c: nat, o: nat)
    requires Enabled(s, step)
    ensures var before, after := o in Subs.Targets(s.subs, c), o in Subs.Targets(Do(s, step).subs, c);
            match step
            case Subscribe(session, d) => after <==> before || (o == session && c == d)
            case Unsubscribe(session, d) => after <==> before && !(o == session && c == d)
            case Disconnect(session) => after <==> before && o != session
            case _ => after <==> before
  {
  }

  /** The messages a sender's action adds to each history: those acknowledged, those whose acknowledgement failed, and those
      whose event to the observer was written or lost. A fan-out copies every session that holds the message's channel. */
  lemma HistorySteps(s: System, h: nat, a: Action)
    requires CanSend(s, h, a) && !a.Lock? && !a.Commit? && !a.Abort?
    ensures var s', id := AfterSend(s, h, a), s.handlers[h].id;
            && s'.acked == s.acked + (if a == Ack(true) then {id} else {})
            && s'.unacked == s.unacked + (if a == Ack(false) then {id} else {})
            && s'.pushed == s.pushed + (if a == Push(s.observer, true) then {id} else {})
            && s'.dropped == s.dropped + (if a == Push(s.observer, false) then {id} else {})
            && (a == Ack(true) ==> s'.handlers == s.handlers[h := Acknowledged(id)])
            && (a == Snapshot && id in s.t.messages ==>
                  s'.handlers == s.handlers[h := Pushing(id, Subs.Targets(s.subs, s.t.messages[id].channel))])
            && (a.Push? ==> s'.handlers == s.handlers[h := Pushing(id, s.handlers[h].targets - {a.session})])
  {
  }

  /** No other step touches a history. */
  lemma HistoryStays(s: System, step: Step)
    requires Enabled(s, step) && (step.Sender? ==> step.action.Lock? || step.action.Commit? || step.action.Abort?)
    ensures var s' := Do(s, step);
            s'.acked == s.acked && s'.unacked == s.unacked && s'.pushed == s.pushed && s'.dropped == s.dropped
  {
  }

  // ---------- what every step keeps: the log, the locks, the cleaners and the receipts ----------

  predicate SameLock(handlers: map<nat, Handler>, g: nat, h: nat)
  {
    && g in handlers && handlers[g].Locked?
    && h in handlers && handlers[h].Locked?
    && handlers[g].input.channel == handlers[h].input.channel
  }

  /** A holder of the channel row lock still sees the seq it read. */
  ghost predicate ReadsCurrent(t: Tables, handlers: map<nat, Handler>)
  {
    forall h :: h in handlers && handlers[h].Locked? ==>
      && handlers[h].input.channel in t.channels
      && handlers[h].readSeq == t.channels[handlers[h].input.channel].messageSeq
  }

  ghost predicate Exclusive(handlers: map<nat, Handler>)
  {
    forall g, h :: SameLock(handlers, g, h) ==> g == h
  }

  ghost predicate HandlersKnown(t: Tables, handlers: map<nat, Handler>)
  {
    forall h :: h in handlers && !handlers[h].Locked? ==> handlers[h].id in t.messages
  }

  ghost predicate CleanersGood(t: Tables, cleaners: map<nat, Selection>)
  {
    forall k :: k in cleaners ==> RowsMatch(t, cleaners[k].rows)
  }

  ghost predicate Holds(t: Tables, r: Receipt)
  {
    r.id in t.messages && ClientKeyOf(t.messages[r.id]) == r.key && t.messages[r.id].seqNo == r.seqNo
  }

  ghost predicate ReceiptsGood(t: Tables, receipts: set<Receipt>)
  {
    forall r :: r in receipts ==> Holds(t, r)
  }

  ghost predicate Inv(s: System)
  {
    && LogInv(s.t)
    && ReadsCurrent(s.t, s.handlers)
    && Exclusive(s.handlers)
    && HandlersKnown(s.t, s.handlers)
    && CleanersGood(s.t, s.cleaners)
    && ReceiptsGood(s.t, s.receipts)
  }

  /** Everything but the locks survives any growth of the tables. */
  lemma GrowthKeeps(t: Tables, t': Tables, cleaners: map<nat, Selection>, receipts: set<Receipt>)
    requires RowsGrow(t, t') && CleanersGood(t, cleaners) && ReceiptsGood(t, receipts)
    ensures CleanersGood(t', cleaners) && ReceiptsGood(t', receipts)
  {
    forall k | k in cleaners ensures RowsMatch(t', cleaners[k].rows) {
      RowsMatchLater(t, t', cleaners[k].rows);
    }
    forall r | r in receipts ensures Holds(t', r) {
      assert Holds(t, r);
      assert t.messages[r.id].seqNo == r.seqNo;
    }
  }

  /** Locks survive a growth that leaves every seq alone. */
  lemma GrowthKeepsLocks(t: Tables, t': Tables, handlers: map<nat, Handler>)
    requires Grows(t, t') && ReadsCurrent(t, handlers) && HandlersKnown(t, handlers)
    requires forall c :: c in t.channels ==> t'.channels[c].messageSeq == t.channels[c].messageSeq
    ensures ReadsCurrent(t', handlers) && HandlersKnown(t', handlers)
  {
    forall h | h in handlers && !handlers[h].Locked? ensures handlers[h].id in t'.messages {
      var row := t.messages[handlers[h].id];
    }
  }

  /** What a commit does to the tables, by result. */
  ghost predicate CommitEffect(t: Tables, t': Tables, input: CreateInput, id: nat, r: CreateResult)
    requires input.channel in t.channels
  {
    && (r.Stored? ==> Holds(t', Receipt(ClientKey(input.channel, input.sender, input.clientMsgId), r.id,
                                        if r.id in t'.messages then t'.messages[r.id].seqNo else 0)))
    && (t' == t || (r == Stored(id) && AddsRow(t, t', input, id)))
  }

  lemma CommitHasEffect(s: System, h: nat, id: nat, messageId: string, now: Millis) returns (r: CreateResult)
    requires Inv(s) && CanSend(s, h, Commit(id, messageId, now))
    ensures var s', input := AfterCommit(s, h, id, messageId, now), s.handlers[h].input;
            && LogInv(s'.t) && Grows(s.t, s'.t)
            && CommitEffect(s.t, s'.t, input, id, r)
            && s' == if r.Stored?
                     then s.(t := s'.t, handlers := s.handlers[h := Committed(r.id)],
                             receipts := s.receipts + {Receipt(ClientKey(input.channel, input.sender, input.clientMsgId),
                                                               r.id, s'.t.messages[r.id].seqNo)})
                     else s.(t := s'.t, handlers := s.handlers - {h})
  {
    var input := s.handlers[h].input;
    r := Create(s.t, input, id, messageId, now).1;
    CreateKeepsLog(s.t, input, id, messageId, now);
    CreateGrows(s.t, input, id, messageId, now);
    CreateResultCorrect(s.t, input, id, messageId, now);
  }

  lemma CommitKeepsLocks(t: Tables, t': Tables, handlers: map<nat, Handler>, handlers': map<nat, Handler>,
                         h: nat, input: CreateInput, id: nat, r: CreateResult)
    requires ReadsCurrent(t, handlers) && Exclusive(handlers) && HandlersKnown(t, handlers)
    requires h in handlers && handlers[h].Locked? && handlers[h].input == input && input.channel in t.channels
    requires CommitEffect(t, t', input, id, r)
    requires handlers' == if r.Stored? then handlers[h := Committed(r.id)] else handlers - {h}
    ensures ReadsCurrent(t', handlers') && Exclusive(handlers') && HandlersKnown(t', handlers')
  {
    forall g, k | SameLock(handlers', g, k) ensures g == k {
      assert SameLock(handlers, g, k);
    }
    forall g | g in handlers' && handlers'[g].Locked?
      ensures handlers'[g].input.channel in t'.channels
      ensures handlers'[g].readSeq == t'.channels[handlers'[g].input.channel].messageSeq
    {
      assert g != h && handlers[g] == handlers'[g];
      assert !SameLock(handlers, g, h);
    }
  }

  lemma CommitKeepsInv(s: System, h: nat, id: nat, messageId: string, now: Millis)
    requires Inv(s) && CanSend(s, h, Commit(id, messageId, now))
    ensures Inv(AfterCommit(s, h, id, messageId, now)) && Grows(s.t, AfterCommit(s, h, id, messageId, now).t)
  {
    var s' := AfterCommit(s, h, id, messageId, now);
    var r := CommitHasEffect(s, h, id, messageId, now);
    GrowthKeeps(s.t, s'.t, s.cleaners, s.receipts);
    CommitKeepsLocks(s.t, s'.t, s.handlers, s'.handlers, h, s.handlers[h].input, id, r);
  }

  lemma TableStepKeepsInv(s: System, step: Step)
    requires Inv(s) && Enabled(s, step)
    requires step.Update? || step.NewChannel? || step.SetWindow?
    ensures Inv(Do(s, step)) && Grows(s.t, Do(s, step).t)
  {
    var s' := Do(s, step);
    match step {
      case Update(k) =>
        ApplyKeepsLog(s.t, s.cleaners[k].rows, s.cleaners[k].now);
        ApplyGrows(s.t, s.cleaners[k].rows, s.cleaners[k].now);
      case NewChannel(c, isGroup) =>
        AddChannelKeepsLog(s.t, c, isGroup);
        AddChannelGrows(s.t, c, isGroup);
      case SetWindow(c, seconds) =>
        SetAutoDeleteKeepsLog(s.t, c, seconds);
        SetAutoDeleteGrows(s.t, c, seconds);
    }
    GrowthKeeps(s.t, s'.t, s'.cleaners, s.receipts);
    GrowthKeepsLocks(s.t, s'.t, s.handlers);
  }

  lemma LockKeepsInv(s: System, h: nat, input: CreateInput)
    requires Inv(s) && CanSend(s, h, Lock(input))
    ensures Inv(AfterSend(s, h, Lock(input))) && Grows(s.t, AfterSend(s, h, Lock(input)).t)
  {
    GrowsSelf(s.t);
    var after := AfterSend(s, h, Lock(input)).handlers;
    forall g, k | SameLock(after, g, k) ensures g == k {
      if g != h && k != h {
        assert SameLock(s.handlers, g, k);
      }
    }
  }

  /** A handler past its commit moves on, or leaves. */
  lemma MoveHandler(t: Tables, handlers: map<nat, Handler>, h: nat, next: Handler)
    requires ReadsCurrent(t, handlers) && Exclusive(handlers) && HandlersKnown(t, handlers)
    requires !next.Locked? && next.id in t.messages
    ensures var after := handlers[h := next];
            ReadsCurrent(t, after) && Exclusive(after) && HandlersKnown(t, after)
  {
    var after := handlers[h := next];
    forall g, k | SameLock(after, g, k) ensures g == k {
      assert SameLock(handlers, g, k);
    }
  }

  lemma DropHandler(t: Tables, handlers: map<nat, Handler>, h: nat)
    requires ReadsCurrent(t, handlers) && Exclusive(handlers) && HandlersKnown(t, handlers)
    ensures var after := handlers - {h};
            ReadsCurrent(t, after) && Exclusive(after) && HandlersKnown(t, after)
  {
    var after := handlers - {h};
    forall g, k | SameLock(after, g, k) ensures g == k {
      assert SameLock(handlers, g, k);
    }
  }

  lemma HandlerMoves(s: System, h: nat, action: Action)
    requires ReadsCurrent(s.t, s.handlers) && Exclusive(s.handlers) && HandlersKnown(s.t, s.handlers)
    requires CanSend(s, h, action) && !action.Lock? && !action.Commit?
    ensures var s' := AfterHandler(s, h, action);
            && s'.t == s.t && s'.cleaners == s.cleaners && s'.receipts == s.receipts
            && ReadsCurrent(s.t, s'.handlers) && Exclusive(s'.handlers) && HandlersKnown(s.t, s'.handlers)
  {
    var after := AfterHandler(s, h, action).handlers;
    if h in after {
      MoveHandler(s.t, s.handlers, h, after[h]);
    } else {
      DropHandler(s.t, s.handlers, h);
    }
  }

  lemma HandlerKeepsInv(s: System, h: nat, action: Action)
    requires Inv(s) && CanSend(s, h, action) && !action.Lock? && !action.Commit?
    ensures Inv(AfterHandler(s, h, action)) && Grows(s.t, AfterHandler(s, h, action).t)
  {
    HandlerMoves(s, h, action);
    GrowsSelf(s.t);
  }

  lemma SenderKeepsInv(s: System, h: nat, action: Action)
    requires Inv(s) && CanSend(s, h, action)
    ensures Inv(AfterSend(s, h, action)) && Grows(s.t, AfterSend(s, h, action).t)
  {
    match action {
      case Commit(id, messageId, now) => CommitKeepsInv(s, h, id, messageId, now);
      case Lock(input) => LockKeepsInv(s, h, input);
      case _ => HandlerKeepsInv(s, h, action);
    }
  }

  lemma MediaStepKeepsInv(s: System, step: Step)
    requires Inv(s) && Enabled(s, step) && (step.NewBlob? || step.NewMedia?)
    ensures Inv(Do(s, step)) && Grows(s.t, Do(s, step).t)
  {
    GrowsSelf(s.t);
    var s' := Do(s, step);
    match step {
      case NewBlob(b) => AddBlobKeepsLog(s.t, b);
      case NewMedia(m, row) => AddMediaKeepsLog(s.t, m, row);
    }
    assert Grows(s.t, s'.t);
    GrowthKeeps(s.t, s'.t, s.cleaners, s.receipts);
    GrowthKeepsLocks(s.t, s'.t, s.handlers);
  }

  lemma StepKeepsInv(s: System, step: Step)
    requires Inv(s) && Enabled(s, step)
    ensures Inv(Do(s, step)) && Grows(s.t, Do(s, step).t)
  {
    if step.Sender? {
      SenderKeepsInv(s, step.h, step.action);
    } else if step.Update? || step.NewChannel? || step.SetWindow? {
      TableStepKeepsInv(s, step);
    } else if step.NewBlob? || step.NewMedia? {
      MediaStepKeepsInv(s, step);
    } else {
      GrowsSelf(s.t);
      if step.Select? {
        SelectMatches(s.t, step.now, step.limit);
      }
    }
  }
}
