/** Direct messages under interleaving: sends, racing acknowledgements and one recipient's pending drain.

    An acknowledgement reads the row, updates it on condition and, when the update touched nothing, reads it again. A send
    looks its key up and, when it is not there, runs the create transaction, which looks again. Other calls may run between
    these steps. */
module DirectRuns {
  import opened Ordering
  import opened Direct
  import opened Pending

  datatype Outcome = Acked | Already | Missing | NotRecipient | AckFailed

  datatype AckPhase = Reading | Updating | Rereading | Ended(outcome: Outcome)

  datatype AckCall = AckCall(id: nat, user: nat, at: nat, phase: AckPhase)

  /** `Replied` names the row, whether this call stored it, and whether an event for the recipient goes with the reply. */
  datatype SendPhase = Looking | Creating | Replied(id: nat, stored: bool, event: bool) | Rejected

  datatype SendCall = SendCall(input: SendInput, phase: SendPhase)

  datatype Receipt = Receipt(key: SendKey, id: nat, seqNo: nat)

  /** `full` adds up the effective limits of the pages that reported more to come. */
  datatype Progress = Progress(conversation: nat, user: nat, start: nat, cursor: nat, returned: seq<Key>, pages: nat,
                               full: nat, done: bool)

  datatype System = System(t: Tables, calls: map<nat, AckCall>, sends: map<nat, SendCall>, receipts: set<Receipt>,
                           drain: Progress)

  datatype Step =
    | Open(a: nat, b: nat, id: nat)
    | StartSend(h: nat, input: SendInput)
    | LookUp(h: nat)
    | Store(h: nat, id: nat, now: nat)
    | StartAck(h: nat, id: nat, user: nat, at: nat)
    | Advance(h: nat)
    | FetchPending(requested: nat)

  predicate Enabled(s: System, step: Step)
  {
    match step
    case Open(_, _, id) => id !in s.t.conversations
    case StartSend(h, _) => h !in s.sends
    case LookUp(h) => h in s.sends && s.sends[h].phase == Looking
    case Store(h, id, _) => h in s.sends && s.sends[h].phase == Creating && id !in s.t.messages
    case StartAck(h, _, _, _) => h !in s.calls
    case Advance(h) => h in s.calls && !s.calls[h].phase.Ended?
    case FetchPending(_) => !s.drain.done
  }

  function AfterRead(t: Tables, call: AckCall): AckPhase
  {
    if call.id !in t.messages then Ended(Missing)
    else if t.messages[call.id].recipient != call.user then Ended(NotRecipient)
    else if t.messages[call.id].acked.At? then Ended(Already)
    else Updating
  }

  function AfterReread(t: Tables, call: AckCall): AckPhase
  {
    if call.id !in t.messages then Ended(Missing)
    else if t.messages[call.id].acked.At? then Ended(Already)
    else Ended(AckFailed)
  }

  /** One database statement of an acknowledgement. */
  function AckStep(t: Tables, call: AckCall): (Tables, AckCall)
  {
    match call.phase
    case Reading => (t, call.(phase := AfterRead(t, call)))
    case Updating =>
      var (t', changed) := AckUpdate(t, call.id, call.user, call.at);
      (t', call.(phase := if changed then Ended(Acked) else Rereading))
    case Rereading => (t, call.(phase := AfterReread(t, call)))
    case Ended(_) => (t, call)
  }

  function KeyOf(input: SendInput): SendKey
  {
    SendKey(input.conversation, input.sender, input.clientMsgId)
  }

  /** The reply of a call: to the sender always, and with `event` to the recipient too. */
  function Reply(s: System, t: Tables, h: nat, id: nat, stored: bool, event: bool): System
    requires h in s.sends && id in t.messages
  {
    s.(t := t, sends := s.sends[h := s.sends[h].(phase := Replied(id, stored, event))],
       receipts := s.receipts + {Receipt(KeyOf(s.sends[h].input), id, t.messages[id].seqNo)})
  }

  function AfterLookUp(s: System, h: nat): System
    requires h in s.sends
  {
    var key := KeyOf(s.sends[h].input);
    if key in s.t.bySend && s.t.bySend[key] in s.t.messages then Reply(s, s.t, h, s.t.bySend[key], false, false)
    else s.(sends := s.sends[h := s.sends[h].(phase := Creating)])
  }

  function AfterStore(s: System, h: nat, id: nat, now: nat): System
    requires h in s.sends
  {
    var (t', r) := Create(s.t, s.sends[h].input, id, now);
    if r.Stored? && r.id in t'.messages then Reply(s, t', h, r.id, KeyOf(s.sends[h].input) !in s.t.bySend, true)
    else s.(t := t', sends := s.sends[h := s.sends[h].(phase := Rejected)])
  }

  function AfterPage(t: Tables, d: Progress, limit: nat): Progress
  {
    var p := ListPending(t, d.conversation, d.user, d.cursor, limit);
    d.(cursor := p.next, returned := d.returned + p.items, pages := d.pages + 1,
       full := if p.hasMore then d.full + limit else d.full, done := !p.hasMore)
  }

  function Do(s: System, step: Step): System
    requires Enabled(s, step)
  {
    match step
    case Open(a, b, id) => s.(t := GetOrCreate(s.t, a, b, id).0)
    case StartSend(h, input) => s.(sends := s.sends[h := SendCall(input, Looking)])
    case LookUp(h) => AfterLookUp(s, h)
    case Store(h, id, now) => AfterStore(s, h, id, now)
    case StartAck(h, id, user, at) => s.(calls := s.calls[h := AckCall(id, user, at, Reading)])
    case Advance(h) =>
      var (t', call) := AckStep(s.t, s.calls[h]);
      s.(t := t', calls := s.calls[h := call])
    case FetchPending(requested) => s.(drain := AfterPage(s.t, s.drain, EffectiveLimit(requested)))
  }

  /** Step `i` is allowed in state `i` and leads to the next. */
  ghost predicate Takes(run: seq<System>, steps: seq<Step>, i: nat)
    requires i < |steps| && |run| == |steps| + 1
  {
    Enabled(run[i], steps[i]) && run[i + 1] == Do(run[i], steps[i])
  }

  ghost predicate IsRun(run: seq<System>, steps: seq<Step>)
  {
    |run| == |steps| + 1 && forall i: nat | i < |steps| :: Takes(run, steps, i)
  }

  // ---------- tables ----------

  lemma StepKeepsTables(s: System, step: Step)
    requires TablesInv(s.t) && Enabled(s, step)
    ensures TablesInv(Do(s, step).t)
  {
    match step
    case Open(a, b, id) => OpenKeepsTables(s.t, a, b, id);
    case Store(h, id, now) => CreateKeepsTables(s.t, s.sends[h].input, id, now);
    case Advance(h) => AckKeepsTables(s.t, s.calls[h].id, s.calls[h].user, s.calls[h].at);
    case _ =>
  }

  lemma StepGrows(s: System, step: Step)
    requires Enabled(s, step)
    ensures Grows(s.t, Do(s, step).t)
  {
    match step
    case Open(a, b, id) => OpenGrows(s.t, a, b, id);
    case Store(h, id, now) => CreateGrows(s.t, s.sends[h].input, id, now);
    case Advance(h) => AckGrows(s.t, s.calls[h].id, s.calls[h].user, s.calls[h].at);
    case _ =>
  }

  // ---------- acknowledgements ----------

  /** What a call knows about its row at each phase. */
  predicate CallGood(messages: map<nat, Row>, call: AckCall)
  {
    match call.phase
    case Reading => true
    case Updating => call.id in messages && messages[call.id].recipient == call.user
    case Rereading => call.id in messages && messages[call.id].recipient == call.user && messages[call.id].acked.At?
    case Ended(Acked) => call.id in messages && messages[call.id].recipient == call.user
                         && messages[call.id].acked == At(call.at)
    case Ended(Already) => call.id in messages && messages[call.id].recipient == call.user
                           && messages[call.id].acked.At?
    case Ended(Missing) => true
    case Ended(NotRecipient) => call.id in messages && messages[call.id].recipient != call.user
    case Ended(AckFailed) => false
  }

  ghost predicate CallsGood(s: System)
  {
    forall h :: h in s.calls ==> CallGood(s.t.messages, s.calls[h])
  }

  predicate Won(call: AckCall, id: nat)
  {
    call.id == id && call.phase == Ended(Acked)
  }

  ghost predicate OneWinner(calls: map<nat, AckCall>)
  {
    forall g, h :: g in calls && h in calls && Won(calls[g], calls[h].id) && Won(calls[h], calls[h].id) ==> g == h
  }

  /** Acknowledged rows are those acknowledged at the start and those some call won. */
  ghost predicate WinnersMark(start: Tables, s: System)
  {
    forall id {:trigger s.t.messages[id]} :: id in s.t.messages && s.t.messages[id].acked.At? ==>
      || (id in start.messages && start.messages[id].acked.At?)
      || exists h :: h in s.calls && Won(s.calls[h], id)
  }

  lemma GrowthKeepsCall(t: Tables, t': Tables, call: AckCall)
    requires Grows(t, t') && CallGood(t.messages, call)
    ensures CallGood(t'.messages, call)
  {
    if call.id in t.messages {
      assert RowKept(t.messages[call.id], t'.messages[call.id]);
    }
  }

  lemma AckStepGood(t: Tables, call: AckCall)
    requires CallGood(t.messages, call)
    ensures CallGood(AckStep(t, call).0.messages, AckStep(t, call).1)
  {
  }

  lemma StepKeepsCalls(s: System, step: Step)
    requires CallsGood(s) && Enabled(s, step)
    ensures CallsGood(Do(s, step))
  {
    var s' := Do(s, step);
    StepGrows(s, step);
    forall h | h in s'.calls ensures CallGood(s'.t.messages, s'.calls[h]) {
      if step.Advance? && step.h == h {
        AckStepGood(s.t, s.calls[h]);
      } else if step.StartAck? && step.h == h {
        assert s'.calls[h].phase == Reading;
      } else {
        assert s'.calls[h] == s.calls[h];
        GrowthKeepsCall(s.t, s'.t, s.calls[h]);
      }
    }
  }

  /** A call can only win a row that nobody acknowledged, so no earlier call won it. */
  lemma WinIsFirst(s: System, h: nat, g: nat)
    requires CallsGood(s) && h in s.calls && !s.calls[h].phase.Ended? && g in s.calls
    requires AckStep(s.t, s.calls[h]).1.phase == Ended(Acked)
    ensures !Won(s.calls[g], s.calls[h].id)
  {
    assert CallGood(s.t.messages, s.calls[g]);
  }

  lemma StepKeepsWinner(s: System, step: Step)
    requires CallsGood(s) && Enabled(s, step) && OneWinner(s.calls)
    ensures OneWinner(Do(s, step).calls)
  {
    if step.Advance? && AckStep(s.t, s.calls[step.h]).1.phase == Ended(Acked) {
      forall g | g in s.calls ensures !Won(s.calls[g], s.calls[step.h].id) {
        WinIsFirst(s, step.h, g);
      }
    }
  }

  lemma StepKeepsMarks(start: Tables, s: System, step: Step)
    requires Enabled(s, step) && WinnersMark(start, s)
    ensures WinnersMark(start, Do(s, step))
  {
    var s' := Do(s, step);
    forall id | id in s'.t.messages && s'.t.messages[id].acked.At? && !(id in start.messages && start.messages[id].acked.At?)
      ensures exists h :: h in s'.calls && Won(s'.calls[h], id)
    {
      if id in s.t.messages && s.t.messages[id].acked.At? {
        var h :| h in s.calls && Won(s.calls[h], id);
        assert h in s'.calls && s'.calls[h] == s.calls[h];
      } else {
        assert step.Advance? && Won(s'.calls[step.h], id);
      }
    }
  }

  ghost predicate Initial(s: System)
  {
    TablesInv(s.t) && s.calls == map[] && s.sends == map[] && s.receipts == {}
  }

  ghost predicate AcksGood(start: Tables, s: System)
  {
    TablesInv(s.t) && CallsGood(s) && OneWinner(s.calls) && WinnersMark(start, s)
  }

  lemma {:induction false} RunKeepsAcks(run: seq<System>, steps: seq<Step>, n: nat)
    requires IsRun(run, steps) && Initial(run[0]) && n < |run|
    ensures AcksGood(run[0].t, run[n])
    decreases n
  {
    if n == 0 {
    } else {
      assert Takes(run, steps, n - 1);
      RunKeepsAcks(run, steps, n - 1);
      StepKeepsTables(run[n - 1], steps[n - 1]);
      StepKeepsCalls(run[n - 1], steps[n - 1]);
      StepKeepsWinner(run[n - 1], steps[n - 1]);
      StepKeepsMarks(run[0].t, run[n - 1], steps[n - 1]);
    }
  }

  lemma StepKeepsRow(s: System, step: Step, id: nat)
    requires Enabled(s, step) && id in s.t.messages
    ensures id in Do(s, step).t.messages && RowKept(s.t.messages[id], Do(s, step).t.messages[id])
  {
    StepGrows(s, step);
  }

  lemma {:induction false} RunGrows(run: seq<System>, steps: seq<Step>, m: nat, n: nat, id: nat)
    requires IsRun(run, steps) && m <= n < |run| && id in run[m].t.messages
    ensures id in run[n].t.messages && RowKept(run[m].t.messages[id], run[n].t.messages[id])
    decreases n
  {
    if m == n {
    } else {
      assert Takes(run, steps, n - 1);
      RunGrows(run, steps, m, n - 1, id);
      StepKeepsRow(run[n - 1], steps[n - 1], id);
    }
  }

  lemma MarkedByWinner(start: Tables, s: System, id: nat)
    requires AcksGood(start, s) && id in s.t.messages && (id in start.messages ==> start.messages[id].acked == Never)
    ensures s.t.messages[id].acked.At? <==> exists h :: h in s.calls && Won(s.calls[h], id)
  {
    forall h | h in s.calls && Won(s.calls[h], id) ensures s.t.messages[id].acked.At? {
      assert CallGood(s.t.messages, s.calls[h]);
    }
  }

  lemma EndedCalls(s: System)
    requires CallsGood(s)
    ensures forall h :: h in s.calls ==> s.calls[h].phase != Ended(AckFailed)
    ensures forall h :: h in s.calls && s.calls[h].phase == Ended(Acked) ==>
              && s.calls[h].id in s.t.messages
              && s.t.messages[s.calls[h].id].acked == At(s.calls[h].at)
              && s.t.messages[s.calls[h].id].recipient == s.calls[h].user
  {
    forall h | h in s.calls ensures CallGood(s.t.messages, s.calls[h]) {
    }
  }

  /** Over all interleavings: no call ends in "ack failed"; at most one call per message ends with already = false, and the
      message carries that call's time and recipient; and a message not acknowledged at the start is acknowledged exactly
      when such a call exists. */
  lemma AckSafety(run: seq<System>, steps: seq<Step>, n: nat)
    requires IsRun(run, steps) && Initial(run[0]) && n < |run|
    ensures var s := run[n];
            && (forall h :: h in s.calls ==> s.calls[h].phase != Ended(AckFailed))
            && OneWinner(s.calls)
            && (forall h :: h in s.calls && s.calls[h].phase == Ended(Acked) ==>
                  && s.calls[h].id in s.t.messages
                  && s.t.messages[s.calls[h].id].acked == At(s.calls[h].at)
                  && s.t.messages[s.calls[h].id].recipient == s.calls[h].user)
            && (forall id :: id in s.t.messages && (id in run[0].t.messages ==> run[0].t.messages[id].acked == Never) ==>
                  (s.t.messages[id].acked.At? <==> exists h :: h in s.calls && Won(s.calls[h], id)))
  {
    RunKeepsAcks(run, steps, n);
    var s := run[n];
    EndedCalls(s);
    forall id | id in s.t.messages && (id in run[0].t.messages ==> run[0].t.messages[id].acked == Never)
      ensures s.t.messages[id].acked.At? <==> exists h :: h in s.calls && Won(s.calls[h], id)
    {
      MarkedByWinner(run[0].t, s, id);
    }
  }

  /** Once set, the time of an acknowledgement never changes, and neither does anything else of the row. */
  lemma AckTimeFixed(run: seq<System>, steps: seq<Step>, m: nat, n: nat, id: nat)
    requires IsRun(run, steps) && m <= n < |run| && id in run[m].t.messages && run[m].t.messages[id].acked.At?
    ensures id in run[n].t.messages && run[n].t.messages[id] == run[m].t.messages[id]
  {
    RunGrows(run, steps, m, n, id);
  }
}
