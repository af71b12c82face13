/** Direct conversations and messages: the tables and the transactions on them. */
module Direct {

  datatype MaybeTime = Never | At(ms: nat)

  datatype Pair = Pair(low: nat, high: nat)

  datatype Conversation = Conversation(pair: Pair, lastSeq: nat, lastMessageAt: nat)

  datatype Row = Row(conversation: nat, seqNo: nat, sender: nat, recipient: nat, clientMsgId: string, text: string,
                     createdAt: nat, acked: MaybeTime)

  datatype SendKey = SendKey(conversation: nat, sender: nat, clientMsgId: string)

  datatype SeqKey = SeqKey(conversation: nat, seqNo: nat)

  /** `byPair`, `bySend` and `bySeq` are the unique keys of the two tables. */
  datatype Tables = Tables(
    conversations: map<nat, Conversation>,
    byPair: map<Pair, nat>,
    messages: map<nat, Row>,
    bySend: map<SendKey, nat>,
    bySeq: map<SeqKey, nat>)

  function SendKeyOf(r: Row): SendKey
  {
    SendKey(r.conversation, r.sender, r.clientMsgId)
  }

  function SeqKeyOf(r: Row): SeqKey
  {
    SeqKey(r.conversation, r.seqNo)
  }

  function NormalizeUserPair(a: nat, b: nat): Pair
  {
    if a < b then Pair(a, b) else Pair(b, a)
  }

  datatype OpenResult = Opened(conversation: nat) | InvalidPeer

  /** `id` is the fresh id used when the pair has no conversation yet. */
  function GetOrCreate(t: Tables, a: nat, b: nat, id: nat): (Tables, OpenResult)
  {
    var pair := NormalizeUserPair(a, b);
    if a == b then (t, InvalidPeer)
    else if pair in t.byPair then (t, Opened(t.byPair[pair]))
    else (t.(conversations := t.conversations[id := Conversation(pair, 0, 0)], byPair := t.byPair[pair := id]), Opened(id))
  }

  datatype SendInput = SendInput(conversation: nat, sender: nat, recipient: nat, clientMsgId: string, text: string)

  datatype SendResult = Stored(id: nat) | NotFound | Forbidden | InvalidRecipient

  predicate Participant(pair: Pair, user: nat)
  {
    user == pair.low || user == pair.high
  }

  function OtherParticipant(pair: Pair, self: nat): nat
  {
    if pair.low == self then pair.high else pair.low
  }

  function Create(t: Tables, input: SendInput, id: nat, now: nat): (Tables, SendResult)
  {
    var key := SendKey(input.conversation, input.sender, input.clientMsgId);
    if input.conversation !in t.conversations then (t, NotFound)
    else
      var conv := t.conversations[input.conversation];
      if !Participant(conv.pair, input.sender) || !Participant(conv.pair, input.recipient) then (t, Forbidden)
      else if input.sender == input.recipient then (t, InvalidRecipient)
      else if key in t.bySend then (t, Stored(t.bySend[key]))
      else
        var n := conv.lastSeq + 1;
        (t.(messages := t.messages[id := Row(input.conversation, n, input.sender, input.recipient, input.clientMsgId,
                                             input.text, now, Never)],
            bySend := t.bySend[key := id],
            bySeq := t.bySeq[SeqKey(input.conversation, n) := id],
            conversations := t.conversations[input.conversation := conv.(lastSeq := n, lastMessageAt := now)]),
         Stored(id))
  }

  /** `UPDATE ... WHERE recipient_acked_at_ms IS NULL`, and whether a row was affected. */
  function AckUpdate(t: Tables, id: nat, user: nat, at: nat): (Tables, bool)
  {
    if id in t.messages && t.messages[id].recipient == user && t.messages[id].acked == Never
    then (t.(messages := t.messages[id := t.messages[id].(acked := At(at))]), true)
    else (t, false)
  }

  // ---------- the invariant of the tables ----------

  ghost predicate PairsGood(t: Tables)
  {
    && (forall c {:trigger t.conversations[c]} :: c in t.conversations ==>
          && t.conversations[c].pair.low < t.conversations[c].pair.high
          && t.conversations[c].pair in t.byPair && t.byPair[t.conversations[c].pair] == c)
    && (forall p {:trigger t.byPair[p]} :: p in t.byPair ==> t.byPair[p] in t.conversations && t.conversations[t.byPair[p]].pair == p)
  }

  ghost predicate SendsGood(t: Tables)
  {
    && (forall id {:trigger t.messages[id]} :: id in t.messages ==>
          SendKeyOf(t.messages[id]) in t.bySend && t.bySend[SendKeyOf(t.messages[id])] == id)
    && (forall k {:trigger t.bySend[k]} :: k in t.bySend ==>
          t.bySend[k] in t.messages && SendKeyOf(t.messages[t.bySend[k]]) == k)
  }

  ghost predicate SeqsGood(t: Tables)
  {
    && (forall id {:trigger t.messages[id]} :: id in t.messages ==>
          SeqKeyOf(t.messages[id]) in t.bySeq && t.bySeq[SeqKeyOf(t.messages[id])] == id)
    && (forall k {:trigger t.bySeq[k]} :: k in t.bySeq ==>
          t.bySeq[k] in t.messages && SeqKeyOf(t.messages[t.bySeq[k]]) == k)
  }

  ghost predicate Dense(t: Tables)
  {
    && (forall k :: k in t.bySeq ==>
          k.conversation in t.conversations && 1 <= k.seqNo <= t.conversations[k.conversation].lastSeq)
    && (forall c, n: nat {:trigger SeqKey(c, n)} ::
          c in t.conversations && 1 <= n <= t.conversations[c].lastSeq ==> SeqKey(c, n) in t.bySeq)
  }

  /** A message goes from one participant of its conversation to the other. */
  ghost predicate Between(t: Tables)
  {
    forall id {:trigger t.messages[id]} :: id in t.messages ==>
      && t.messages[id].conversation in t.conversations
      && Participant(t.conversations[t.messages[id].conversation].pair, t.messages[id].sender)
      && t.messages[id].recipient == OtherParticipant(t.conversations[t.messages[id].conversation].pair, t.messages[id].sender)
  }

  ghost predicate TablesInv(t: Tables)
  {
    PairsGood(t) && SendsGood(t) && SeqsGood(t) && Dense(t) && Between(t)
  }

  predicate RowKept(r: Row, r': Row)
  {
    r'.(acked := r.acked) == r && (r.acked.At? ==> r'.acked == r.acked)
  }

  /** Rows stay; the only change to a row is its first acknowledgement; new rows get higher seqs. */
  ghost predicate Grows(t: Tables, t': Tables)
  {
    && (forall c :: c in t.conversations ==>
          c in t'.conversations && t.conversations[c].lastSeq <= t'.conversations[c].lastSeq)
    && (forall id {:trigger t.messages[id]} {:trigger t'.messages[id]} :: id in t.messages ==>
          id in t'.messages && RowKept(t.messages[id], t'.messages[id]))
    && (forall id {:trigger t'.messages[id]} :: id in t'.messages && id !in t.messages
                                                && t'.messages[id].conversation in t.conversations ==>
          t'.messages[id].seqNo > t.conversations[t'.messages[id].conversation].lastSeq)
  }

  lemma SeqBounded(t: Tables, id: nat)
    requires SeqsGood(t) && Dense(t) && id in t.messages
    ensures t.messages[id].conversation in t.conversations
    ensures 1 <= t.messages[id].seqNo <= t.conversations[t.messages[id].conversation].lastSeq
  {
    assert SeqKeyOf(t.messages[id]) in t.bySeq;
  }

  lemma OpenKeepsPairs(t: Tables, a: nat, b: nat, id: nat)
    requires PairsGood(t) && id !in t.conversations
    ensures PairsGood(GetOrCreate(t, a, b, id).0)
  {
  }

  lemma OpenKeepsBetween(t: Tables, a: nat, b: nat, id: nat)
    requires Between(t) && id !in t.conversations
    ensures Between(GetOrCreate(t, a, b, id).0)
  {
  }

  lemma OpenKeepsTables(t: Tables, a: nat, b: nat, id: nat)
    requires TablesInv(t) && id !in t.conversations
    ensures TablesInv(GetOrCreate(t, a, b, id).0)
  {
    OpenKeepsPairs(t, a, b, id);
    OpenKeepsBetween(t, a, b, id);
    assert Dense(GetOrCreate(t, a, b, id).0);
  }

  lemma OpenGrows(t: Tables, a: nat, b: nat, id: nat)
    requires id !in t.conversations
    ensures Grows(t, GetOrCreate(t, a, b, id).0)
  {
  }

  /** Whoever asks first, the two users share one conversation, and asking again changes nothing. */
  lemma OneConversationPerPair(t: Tables, a: nat, b: nat, id: nat, id2: nat)
    requires TablesInv(t) && id !in t.conversations && a != b
    ensures var (t1, r1) := GetOrCreate(t, a, b, id);
            var (t2, r2) := GetOrCreate(t1, b, a, id2);
            && t2 == t1 && r2 == r1 && r1.Opened?
            && r1.conversation in t1.conversations
            && Participant(t1.conversations[r1.conversation].pair, a)
            && Participant(t1.conversations[r1.conversation].pair, b)
            && OtherParticipant(t1.conversations[r1.conversation].pair, a) == b
  {
  }

  lemma CreateKeepsSends(t: Tables, input: SendInput, id: nat, now: nat)
    requires SendsGood(t) && id !in t.messages
    ensures SendsGood(Create(t, input, id, now).0)
  {
  }

  lemma CreateKeepsSeqs(t: Tables, input: SendInput, id: nat, now: nat)
    requires SeqsGood(t) && Dense(t) && id !in t.messages
    ensures SeqsGood(Create(t, input, id, now).0)
  {
    var t' := Create(t, input, id, now).0;
    if t' != t {
      assert SeqKey(input.conversation, t.conversations[input.conversation].lastSeq + 1) !in t.bySeq;
    }
  }

  lemma CreateKeepsPairs(t: Tables, input: SendInput, id: nat, now: nat)
    requires PairsGood(t)
    ensures PairsGood(Create(t, input, id, now).0)
  {
  }

  lemma CreateKeepsBetween(t: Tables, input: SendInput, id: nat, now: nat)
    requires Between(t)
    ensures Between(Create(t, input, id, now).0)
  {
  }

  lemma CreateKeepsDense(t: Tables, input: SendInput, id: nat, now: nat)
    requires Dense(t)
    ensures Dense(Create(t, input, id, now).0)
  {
  }

  lemma CreateGrows(t: Tables, input: SendInput, id: nat, now: nat)
    requires id !in t.messages
    ensures Grows(t, Create(t, input, id, now).0)
  {
  }

  lemma CreateKeepsTables(t: Tables, input: SendInput, id: nat, now: nat)
    requires TablesInv(t) && id !in t.messages
    ensures TablesInv(Create(t, input, id, now).0)
  {
    CreateKeepsSends(t, input, id, now);
    CreateKeepsSeqs(t, input, id, now);
    CreateKeepsPairs(t, input, id, now);
    CreateKeepsDense(t, input, id, now);
    CreateKeepsBetween(t, input, id, now);
  }

  /** A send is stored exactly when it goes from one participant to the other; the stored row is the one with the sender's
      client id, and a new one takes the next seq. A refused or repeated send changes nothing. */
  lemma CreateResultCorrect(t: Tables, input: SendInput, id: nat, now: nat)
    requires TablesInv(t) && id !in t.messages
    ensures var (t', r) := Create(t, input, id, now);
            var key := SendKey(input.conversation, input.sender, input.clientMsgId);
            && (r == NotFound <==> input.conversation !in t.conversations)
            && (r.Stored? <==> input.conversation in t.conversations
                               && Participant(t.conversations[input.conversation].pair, input.sender)
                               && input.recipient == OtherParticipant(t.conversations[input.conversation].pair, input.sender))
            && (r.Stored? ==> r.id in t'.messages && SendKeyOf(t'.messages[r.id]) == key
                              && t'.messages[r.id].recipient == input.recipient)
            && (r == Forbidden <==> input.conversation in t.conversations
                                    && !(Participant(t.conversations[input.conversation].pair, input.sender)
                                         && Participant(t.conversations[input.conversation].pair, input.recipient)))
            && (key in t.bySend || !r.Stored? ==> t' == t)
            && (key !in t.bySend && r.Stored? ==>
                  && r.id == id && t'.conversations.Keys == t.conversations.Keys
                  && t'.messages[id].seqNo == t.conversations[input.conversation].lastSeq + 1
                  && t'.messages[id].seqNo == t'.conversations[input.conversation].lastSeq
                  && t'.messages[id].text == input.text && t'.messages[id].acked == Never
                  && t'.messages[id].createdAt == now && t'.conversations[input.conversation].lastMessageAt == now)
  {
    var key := SendKey(input.conversation, input.sender, input.clientMsgId);
    if input.conversation in t.conversations {
      assert t.conversations[input.conversation].pair.low < t.conversations[input.conversation].pair.high;
      if key in t.bySend { assert SendKeyOf(t.messages[t.bySend[key]]) == key; }
    }
  }

  /** Replacing rows by rows with the same keys keeps both indexes. */
  lemma SameKeys(t: Tables, t': Tables)
    requires SendsGood(t) && SeqsGood(t) && t'.bySend == t.bySend && t'.bySeq == t.bySeq
    requires t'.messages.Keys == t.messages.Keys
    requires forall m {:trigger t'.messages[m]} :: m in t.messages ==>
               SendKeyOf(t'.messages[m]) == SendKeyOf(t.messages[m]) && SeqKeyOf(t'.messages[m]) == SeqKeyOf(t.messages[m])
    ensures SendsGood(t') && SeqsGood(t')
  {
  }

  lemma AckKeepsBetween(t: Tables, id: nat, user: nat, at: nat)
    requires Between(t)
    ensures Between(AckUpdate(t, id, user, at).0)
  {
  }

  lemma AckKeepsIndexes(t: Tables, id: nat, user: nat, at: nat)
    requires SendsGood(t) && SeqsGood(t)
    ensures SendsGood(AckUpdate(t, id, user, at).0) && SeqsGood(AckUpdate(t, id, user, at).0)
  {
    SameKeys(t, AckUpdate(t, id, user, at).0);
  }

  lemma AckKeepsRest(t: Tables, id: nat, user: nat, at: nat)
    requires PairsGood(t) && Dense(t)
    ensures PairsGood(AckUpdate(t, id, user, at).0) && Dense(AckUpdate(t, id, user, at).0)
  {
  }

  lemma AckKeepsTables(t: Tables, id: nat, user: nat, at: nat)
    requires TablesInv(t)
    ensures TablesInv(AckUpdate(t, id, user, at).0)
  {
    AckKeepsIndexes(t, id, user, at);
    AckKeepsRest(t, id, user, at);
    AckKeepsBetween(t, id, user, at);
  }

  /** A send or an acknowledgement touches one conversation and one message at most; opening adds one conversation. */
  lemma CreateFrame(t: Tables, input: SendInput, id: nat, now: nat)
    ensures var t' := Create(t, input, id, now).0;
            && t'.byPair == t.byPair && t'.conversations.Keys == t.conversations.Keys
            && (forall m :: m in t.messages && m != id ==> m in t'.messages && t'.messages[m] == t.messages[m])
            && (forall c :: c in t.conversations ==>
                  && t'.conversations[c].pair == t.conversations[c].pair
                  && (c != input.conversation ==> t'.conversations[c] == t.conversations[c]))
  {
  }

  lemma OpenFrame(t: Tables, a: nat, b: nat, id: nat)
    requires id !in t.conversations
    ensures var (t', r) := GetOrCreate(t, a, b, id);
            && (r == InvalidPeer <==> a == b)
            && t' == t.(conversations := t'.conversations, byPair := t'.byPair)
            && (forall c :: c in t.conversations ==> c in t'.conversations && t'.conversations[c] == t.conversations[c])
            && (t' != t ==> t'.conversations.Keys == t.conversations.Keys + {id}
                            && t'.conversations[id].lastSeq == 0 && t'.conversations[id].lastMessageAt == 0
                            && t'.conversations[id].pair in {Pair(a, b), Pair(b, a)})
  {
  }

  lemma AckGrows(t: Tables, id: nat, user: nat, at: nat)
    ensures Grows(t, AckUpdate(t, id, user, at).0)
  {
  }
}
