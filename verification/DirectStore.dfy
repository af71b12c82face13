/** The direct-message repository and service as code that updates the tables. */
module DirectStore {
  import opened Basics
  import opened Direct
  import opened Pending
  import opened DirectRuns

  function Rank(p: AckPhase): nat
  {
    match p case Reading => 3 case Updating => 2 case Rereading => 1 case Ended(_) => 0
  }

  /** An acknowledgement whose steps nobody interrupts. */
  function Uninterrupted(t: Tables, call: AckCall): (Tables, AckCall)
    decreases Rank(call.phase)
  {
    if call.phase.Ended? then (t, call)
    else var (t', call') := AckStep(t, call); Uninterrupted(t', call')
  }

  /** Alone, a call acknowledges exactly when the message exists, is addressed to the caller and is pending. */
  lemma AckAlone(t: Tables, id: nat, user: nat, at: nat)
    ensures var (t', call) := Uninterrupted(t, AckCall(id, user, at, Reading));
            && call == AckCall(id, user, at, call.phase) && call.phase.Ended?
            && (call.phase == Ended(Acked) <==>
                  id in t.messages && t.messages[id].recipient == user && t.messages[id].acked == Never)
            && (call.phase == Ended(Already) <==>
                  id in t.messages && t.messages[id].recipient == user && t.messages[id].acked.At?)
            && (call.phase == Ended(Missing) <==> id !in t.messages)
            && (call.phase == Ended(NotRecipient) <==> id in t.messages && t.messages[id].recipient != user)
            && t' == AckUpdate(t, id, user, at).0
            && (call.phase != Ended(Acked) ==> t' == t)
            && (call.phase == Ended(Acked) ==>
                  t' == t.(messages := t.messages[id := t.messages[id].(acked := At(at))]))
  {
    var read := AckStep(t, AckCall(id, user, at, Reading));
    if read.1.phase == Updating {
      var updated := AckStep(read.0, read.1);
      assert Uninterrupted(read.0, read.1) == Uninterrupted(updated.0, updated.1);
    }
  }

  /** A request names a conversation, or else a user, or neither. */
  datatype Target = InConversation(conversation: nat) | ToUser(user: nat) | NoTarget

  datatype Reply = Sent(id: nat, seqNo: nat, conversation: nat, event: bool) | Refused(error: SendError)

  datatype SendError = InvalidMessage | UnknownConversation | UnknownUser | NotParticipant | SamePeer

  datatype Resolved = Resolved(conversation: nat, recipient: nat) | Unresolved(error: SendError)

  /** Why a target cannot be sent to, if it cannot. */
  function TargetError(conversations: map<nat, Conversation>, users: set<nat>, sender: nat, target: Target): Option<SendError>
  {
    match target
    case NoTarget => Some(InvalidMessage)
    case ToUser(user) => if user !in users then Some(UnknownUser) else if user == sender then Some(SamePeer) else None
    case InConversation(c) =>
      if c !in conversations then Some(UnknownConversation)
      else if !Participant(conversations[c].pair, sender) then Some(NotParticipant)
      else None
  }

  /** Every refusal of a target and its kind. */
  lemma TargetErrors(conversations: map<nat, Conversation>, users: set<nat>, sender: nat, target: Target)
    ensures var e := TargetError(conversations, users, sender, target);
            && (e == Some(InvalidMessage) <==> target == NoTarget)
            && (e == Some(UnknownUser) <==> target.ToUser? && target.user !in users)
            && (e == Some(SamePeer) <==> target.ToUser? && target.user in users && target.user == sender)
            && (e == Some(UnknownConversation) <==> target.InConversation? && target.conversation !in conversations)
            && (e == Some(NotParticipant) <==>
                  target.InConversation? && target.conversation in conversations
                  && sender !in {conversations[target.conversation].pair.low, conversations[target.conversation].pair.high})
            && (e == None <==> (target.ToUser? && target.user in users && target.user != sender)
                               || (target.InConversation? && target.conversation in conversations
                                   && sender in {conversations[target.conversation].pair.low,
                                                 conversations[target.conversation].pair.high}))
  {
  }

  predicate BadContent(clientMsgId: string, text: string, isText: bool, maxTextLen: nat)
  {
    clientMsgId == "" || text == "" || (maxTextLen > 0 && |text| > maxTextLen) || !isText
  }

  datatype SyncReply = Pending(items: seq<Row>, next: nat, hasMore: bool) | NoConversation | NotAllowed

  /** `items` are the rows of the page `p`, in its order. */
  predicate Scanned(messages: map<nat, Row>, p: PendingPage, items: seq<Row>, next: nat, hasMore: bool)
  {
    && next == p.next && hasMore == p.hasMore && |items| == |p.items|
    && forall i :: 0 <= i < |items| ==> p.items[i].minor in messages && items[i] == messages[p.items[i].minor]
  }

  class Store {
    var conversations: map<nat, Conversation>
    var byPair: map<Pair, nat>
    var messages: map<nat, Row>
    var bySend: map<SendKey, nat>
    var bySeq: map<SeqKey, nat>

    function T(): Tables
      reads this
    {
      Tables(conversations, byPair, messages, bySend, bySeq)
    }

    method GetOrCreateConversation(a: nat, b: nat, freshId: nat) returns (r: OpenResult)
      modifies this`conversations, this`byPair
      ensures (T(), r) == GetOrCreate(old(T()), a, b, freshId)
    {
      if a == b { return InvalidPeer; }
      var pair := NormalizeUserPair(a, b);
      if pair in byPair { return Opened(byPair[pair]); }
      conversations := conversations[freshId := Conversation(pair, 0, 0)];
      byPair := byPair[pair := freshId];
      r := Opened(freshId);
    }

    method CreateDirectMessage(input: SendInput, id: nat, now: nat) returns (r: SendResult)
      modifies this`conversations, this`messages, this`bySend, this`bySeq
      ensures (T(), r) == Create(old(T()), input, id, now)
    {
      var c := input.conversation;
      if c !in conversations { return NotFound; }
      var conv := conversations[c];
      if input.sender != conv.pair.low && input.sender != conv.pair.high { return Forbidden; }
      if input.recipient != conv.pair.low && input.recipient != conv.pair.high { return Forbidden; }
      if input.sender == input.recipient { return InvalidRecipient; }
      var key := SendKey(c, input.sender, input.clientMsgId);
      if key in bySend { return Stored(bySend[key]); }
      var nextSeq := conv.lastSeq + 1;
      messages := messages[id := Row(c, nextSeq, input.sender, input.recipient, input.clientMsgId, input.text, now, Never)];
      bySend := bySend[key := id];
      bySeq := bySeq[SeqKey(c, nextSeq) := id];
      conversations := conversations[c := conv.(lastSeq := nextSeq, lastMessageAt := now)];
      r := Stored(id);
    }

    /** The three statements uninterrupted, when the re-read is never reached. */
    method AckDirectMessage(id: nat, user: nat, at: nat) returns (outcome: Outcome, sender: nat, conversation: nat)
      modifies this`messages
      ensures outcome in {Acked, Already} ==>
                id in messages && sender == messages[id].sender && conversation == messages[id].conversation
      ensures (T(), AckCall(id, user, at, Ended(outcome))) == Uninterrupted(old(T()), AckCall(id, user, at, Reading))
    {
      AckAlone(T(), id, user, at);
      if id !in messages { return Missing, 0, 0; }
      var row := messages[id];
      if row.recipient != user { return NotRecipient, 0, 0; }
      if row.acked.At? { return Already, row.sender, row.conversation; }
      messages := messages[id := row.(acked := At(at))];
      return Acked, row.sender, row.conversation;
    }

    /** Finds the conversation to send in and its other participant, opening the conversation for a user if need be. */
    method ResolveTarget(users: set<nat>, sender: nat, target: Target, convId: nat) returns (r: Resolved)
      requires TablesInv(T()) && convId !in conversations
      modifies this`conversations, this`byPair
      ensures TablesInv(T())
      ensures r.Unresolved? ==> T() == old(T())
      ensures TargetError(old(conversations), users, sender, target)
           == if r.Unresolved? then Some(r.error) else None
      ensures r.Resolved? ==>
                && r.conversation in conversations && Participant(conversations[r.conversation].pair, sender)
                && r.recipient == OtherParticipant(conversations[r.conversation].pair, sender)
                && (target.InConversation? ==> r.conversation == target.conversation)
                && (target.ToUser? ==> r.recipient == target.user)
    {
      match target {
        case NoTarget => return Unresolved(InvalidMessage);
        case InConversation(given) =>
          if given !in conversations { return Unresolved(UnknownConversation); }
          if !Participant(conversations[given].pair, sender) { return Unresolved(NotParticipant); }
          r := Resolved(given, OtherParticipant(conversations[given].pair, sender));
        case ToUser(user) =>
          if user !in users { return Unresolved(UnknownUser); }
          OpenKeepsTables(T(), sender, user, convId);
          var reply := GetOrCreateConversation(sender, user, convId);
          if reply.InvalidPeer? { return Unresolved(SamePeer); }
          r := Resolved(reply.conversation, user);
      }
    }

    /** Looks the client's key up first, outside the transaction, and stores the message when it is not there. */
    method StoreOnce(c: nat, sender: nat, recipient: nat, clientMsgId: string, text: string, id: nat, now: nat)
      returns (stored: nat, added: bool)
      requires TablesInv(T()) && id !in messages && c in conversations
      requires Participant(conversations[c].pair, sender) && recipient == OtherParticipant(conversations[c].pair, sender)
      modifies this`conversations, this`messages, this`bySend, this`bySeq
      ensures TablesInv(T())
      ensures stored in messages && SendKeyOf(messages[stored]) == SendKey(c, sender, clientMsgId)
      ensures messages[stored].recipient == recipient
      ensures added <==> stored !in old(messages)
      ensures added ==> messages[stored].text == text && messages[stored].createdAt == now && messages[stored].acked == Never
      ensures !added ==> T() == old(T())
      ensures c in conversations && conversations[c].pair == old(conversations)[c].pair
    {
      assert sender != recipient;
      var key := SendKey(c, sender, clientMsgId);
      if key in bySend { return bySend[key], false; }
      var input := SendInput(c, sender, recipient, clientMsgId, text);
      CreateKeepsTables(T(), input, id, now);
      var result := CreateDirectMessage(input, id, now);
      stored, added := id, true;
    }

    /** A send to a conversation or to a user. The reply names the one row with the client's key, whoever stored it; an
        event accompanies it exactly when this call stored the row. */
    method SendDirectMessage(users: set<nat>, sender: nat, target: Target, clientMsgId: string, text: string, isText: bool,
                             maxTextLen: nat, convId: nat, id: nat, now: nat) returns (r: Reply)
      requires TablesInv(T()) && convId !in conversations && id !in messages
      modifies this
      ensures TablesInv(T())
      ensures r.Refused? ==> T() == old(T())
      ensures (if r.Refused? then Some(r.error) else None)
           == if BadContent(clientMsgId, text, isText, maxTextLen) then Some(InvalidMessage)
              else TargetError(old(conversations), users, sender, target)
      ensures r == Refused(InvalidMessage) <==>
                || |clientMsgId| == 0 || |text| == 0 || (0 < maxTextLen < |text|) || !isText || target == NoTarget
      ensures r.Sent? ==>
                && r.id in messages && r.conversation in conversations
                && SendKeyOf(messages[r.id]) == SendKey(r.conversation, sender, clientMsgId)
                && messages[r.id].seqNo == r.seqNo
                && messages[r.id].recipient == OtherParticipant(conversations[r.conversation].pair, sender)
                && (target.InConversation? ==> r.conversation == target.conversation)
                && (target.ToUser? ==> messages[r.id].recipient == target.user)
                && (r.event <==> r.id !in old(messages))
                && (r.event ==> messages[r.id].text == text && messages[r.id].createdAt == now)
    {
      if clientMsgId == "" || text == "" { return Refused(InvalidMessage); }
      if maxTextLen > 0 && |text| > maxTextLen { return Refused(InvalidMessage); }
      if !isText { return Refused(InvalidMessage); }
      var place := ResolveTarget(users, sender, target, convId);
      if place.Unresolved? { return Refused(place.error); }
      var stored, added := StoreOnce(place.conversation, sender, place.recipient, clientMsgId, text, id, now);
      r := Sent(stored, messages[stored].seqNo, place.conversation, added);
    }

    /** Scans the rows of the page into messages. */
    method ListPendingDirectMessages(c: nat, user: nat, after: nat, wanted: nat)
      returns (items: seq<Row>, next: nat, hasMore: bool)
      ensures Scanned(messages, ListPending(T(), c, user, after, StoreLimit(wanted)), items, next, hasMore)
    {
      var limit := wanted;
      if limit == 0 || limit > 500 { limit := 100; }
      var keys := PendingRows(T(), c, user, after, limit);
      ghost var page := ListPending(T(), c, user, after, limit);
      assert limit == StoreLimit(wanted) && page.items == keys;
      items := [];
      for i := 0 to |keys|
        invariant |items| == i
        invariant forall j :: 0 <= j < i ==> items[j] == messages[keys[j].minor]
      {
        items := items + [messages[keys[i].minor]];
      }
      next, hasMore := after, |items| == limit;
      if |items| > 0 { next := items[|items| - 1].seqNo; }
    }

    /** The service's checks and default limit in front of the listing. */
    method SyncDirectMessages(user: nat, c: nat, after: nat, wanted: nat) returns (r: SyncReply)
      ensures r == NoConversation <==> c !in conversations
      ensures r == NotAllowed <==> c in conversations && !Participant(conversations[c].pair, user)
      ensures r.Pending? ==>
                Scanned(messages, ListPending(T(), c, user, after, EffectiveLimit(wanted)), r.items, r.next, r.hasMore)
    {
      if c !in conversations { return NoConversation; }
      if !Participant(conversations[c].pair, user) { return NotAllowed; }
      var limit := wanted;
      if limit == 0 { limit := 50; }
      var items, next, hasMore := ListPendingDirectMessages(c, user, after, limit);
      r := Pending(items, next, hasMore);
    }
  }
}
