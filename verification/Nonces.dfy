/** Challenge authentication: single-use nonces under racing verifications.

    A verification reads the clock and checks the proof, then consumes the nonce by a conditional update, then records the
    login; other verifications may run between these steps. Hashing, key derivation and signature checks are parameters. */
module Nonces {
  import opened Basics
  import opened Payload

  datatype Use = Unused | UsedAt(ms: int)

  datatype NonceRow = NonceRow(client: string, node: string, issuedAt: int, expiresAt: int, used: Use)

  datatype Proof = Proof(ch: Challenge, signature: seq<byte>, publicKey: seq<byte>)

  datatype Crypto = Crypto(
    hash: seq<byte> -> string,
    derive: seq<byte> -> Option<string>,
    verify: (seq<byte>, string, seq<byte>) -> bool)

  datatype Error = Expired | BadKey | PeerMismatch | BadSignature | NonceRefused | LoginFailed

  /** Everything that is decided before the nonce is touched; a proof may be a minute early. */
  function CheckProof(crypto: Crypto, protocol: string, now: int, proof: Proof): Option<Error>
  {
    if now > proof.ch.expiresAt || now < proof.ch.issuedAt - 60000 then Some(Expired)
    else
      match crypto.derive(proof.publicKey)
      case None => Some(BadKey)
      case Some(peer) =>
        if peer != proof.ch.client then Some(PeerMismatch)
        else if !crypto.verify(proof.publicKey, BuildChallengePayload(protocol, proof.ch), proof.signature)
        then Some(BadSignature)
        else None
  }

  /** A proof is accepted exactly when it is presented between a minute before its issue and its expiry, by the key its
      client id is derived from, with a signature over its payload; and each check that fails first has its own error. */
  lemma ProofAcceptedIff(crypto: Crypto, protocol: string, now: int, proof: Proof)
    ensures var e := CheckProof(crypto, protocol, now, proof);
            var timely := proof.ch.issuedAt - 60 * 1000 <= now <= proof.ch.expiresAt;
            var peer := crypto.derive(proof.publicKey);
            var signed := crypto.verify(proof.publicKey, BuildChallengePayload(protocol, proof.ch), proof.signature);
            && (e == None <==> timely && peer == Some(proof.ch.client) && signed)
            && (e == Some(Expired) <==> !timely)
            && (e == Some(BadKey) <==> timely && peer == None)
            && (e == Some(PeerMismatch) <==> timely && peer.Some? && peer.value != proof.ch.client)
            && (e == Some(BadSignature) <==> timely && peer == Some(proof.ch.client) && !signed)
  {
  }

  predicate Usable(rows: map<string, NonceRow>, hash: string, client: string, node: string, now: int)
  {
    && hash in rows
    && rows[hash].client == client && rows[hash].node == node
    && rows[hash].used == Unused && rows[hash].expiresAt >= now
  }

  function UseRow(rows: map<string, NonceRow>, hash: string, client: string, node: string, now: int):
    map<string, NonceRow>
  {
    if Usable(rows, hash, client, node, now) then rows[hash := rows[hash].(used := UsedAt(now))] else rows
  }

  /** Fails on the unique key when the hash is already stored. */
  function StoreRow(rows: map<string, NonceRow>, hash: string, ch: Challenge): map<string, NonceRow>
  {
    if hash in rows then rows else rows[hash := NonceRow(ch.client, ch.node, ch.issuedAt, ch.expiresAt, Unused)]
  }

  datatype Phase = Checked | Consumed | Accepted | Failed(error: Error)

  datatype Call = Call(proof: Proof, now: int, phase: Phase)

  datatype System = System(rows: map<string, NonceRow>, issued: set<Challenge>, calls: map<nat, Call>)

  datatype Step =
    | Issue(nonce: seq<byte>, client: string, node: string, now: int, ttl: int)
    | Begin(h: nat, proof: Proof, now: int)
    | Consume(h: nat)
    | Login(h: nat, recorded: bool)

  predicate Enabled(s: System, step: Step)
  {
    match step
    case Issue(_, _, _, _, _) => true
    case Begin(h, _, _) => h !in s.calls
    case Consume(h) => h in s.calls && s.calls[h].phase == Checked
    case Login(h, _) => h in s.calls && s.calls[h].phase == Consumed
  }

  function AfterIssue(crypto: Crypto, s: System, ch: Challenge): System
  {
    var hash := crypto.hash(ch.nonce);
    if hash in s.rows then s else s.(rows := StoreRow(s.rows, hash, ch), issued := s.issued + {ch})
  }

  function AfterConsume(crypto: Crypto, s: System, h: nat): System
    requires h in s.calls
  {
    var call := s.calls[h];
    var hash, ch := crypto.hash(call.proof.ch.nonce), call.proof.ch;
    var phase := if Usable(s.rows, hash, ch.client, ch.node, call.now) then Consumed else Failed(NonceRefused);
    s.(rows := UseRow(s.rows, hash, ch.client, ch.node, call.now), calls := s.calls[h := call.(phase := phase)])
  }

  function Do(crypto: Crypto, protocol: string, s: System, step: Step): System
    requires Enabled(s, step)
  {
    match step
    case Issue(nonce, client, node, now, ttl) => AfterIssue(crypto, s, Challenge(client, node, nonce, now, now + ttl))
    case Begin(h, proof, now) =>
      var error := CheckProof(crypto, protocol, now, proof);
      s.(calls := s.calls[h := Call(proof, now, if error.None? then Checked else Failed(error.value))])
    case Consume(h) => AfterConsume(crypto, s, h)
    case Login(h, recorded) =>
      s.(calls := s.calls[h := s.calls[h].(phase := if recorded then Accepted else Failed(LoginFailed))])
  }

  ghost predicate IsRun(crypto: Crypto, protocol: string, run: seq<System>, steps: seq<Step>)
  {
    && |run| == |steps| + 1
    && forall i :: 0 <= i < |steps| ==> Enabled(run[i], steps[i]) && run[i + 1] == Do(crypto, protocol, run[i], steps[i])
  }

  /** A challenge is issued exactly when the hash of its nonce is new; it is for the client and node that asked, and expires
      `ttl` after it was issued. */
  lemma IssueEffect(crypto: Crypto, protocol: string, s: System, nonce: seq<byte>, client: string, node: string, now: int, ttl: int)
    ensures var s' := Do(crypto, protocol, s, Issue(nonce, client, node, now, ttl));
            var k := crypto.hash(nonce);
            && s'.calls == s.calls && (k in s.rows ==> s' == s)
            && (k !in s.rows ==>
                  && s'.rows == s.rows[k := NonceRow(client, node, now, now + ttl, Unused)]
                  && s'.issued == s.issued + {Challenge(client, node, nonce, now, now + ttl)})
  {
  }

  // ---------- what every step keeps ----------

  /** The calls that consumed a nonce, whether or not the login was recorded afterwards. */
  predicate Spent(call: Call)
  {
    call.phase in {Consumed, Accepted, Failed(LoginFailed)}
  }

  predicate RowOf(row: NonceRow, ch: Challenge)
  {
    row.client == ch.client && row.node == ch.node && row.issuedAt == ch.issuedAt && row.expiresAt == ch.expiresAt
  }

  ghost predicate RowsIssued(crypto: Crypto, s: System)
  {
    forall k {:trigger s.rows[k]} :: k in s.rows ==>
      exists ch :: ch in s.issued && crypto.hash(ch.nonce) == k && RowOf(s.rows[k], ch)
  }

  predicate CallGood(crypto: Crypto, protocol: string, rows: map<string, NonceRow>, call: Call)
  {
    var k := crypto.hash(call.proof.ch.nonce);
    && (call.phase == Checked || Spent(call) ==> CheckProof(crypto, protocol, call.now, call.proof) == None)
    && (Spent(call) ==>
          && k in rows && rows[k].client == call.proof.ch.client && rows[k].node == call.proof.ch.node
          && rows[k].used == UsedAt(call.now) && call.now <= rows[k].expiresAt)
  }

  ghost predicate CallsGood(crypto: Crypto, protocol: string, s: System)
  {
    forall h :: h in s.calls ==> CallGood(crypto, protocol, s.rows, s.calls[h])
  }

  ghost predicate OneSpender(crypto: Crypto, calls: map<nat, Call>)
  {
    forall g, h ::
      && g in calls && h in calls && Spent(calls[g]) && Spent(calls[h])
      && crypto.hash(calls[g].proof.ch.nonce) == crypto.hash(calls[h].proof.ch.nonce)
      ==> g == h
  }

  predicate Keeps(rows: map<string, NonceRow>, rows': map<string, NonceRow>)
  {
    forall k {:trigger rows[k]} {:trigger rows'[k]} :: k in rows ==>
      && k in rows' && rows'[k].(used := rows[k].used) == rows[k]
      && (rows[k].used.UsedAt? ==> rows'[k] == rows[k])
  }

  lemma StepKeepsRows(crypto: Crypto, protocol: string, s: System, step: Step)
    requires Enabled(s, step)
    ensures Keeps(s.rows, Do(crypto, protocol, s, step).rows)
  {
  }

  lemma StepKeepsIssued(crypto: Crypto, protocol: string, s: System, step: Step)
    requires Enabled(s, step) && RowsIssued(crypto, s)
    ensures RowsIssued(crypto, Do(crypto, protocol, s, step))
  {
    var s' := Do(crypto, protocol, s, step);
    forall k | k in s'.rows
      ensures exists ch :: ch in s'.issued && crypto.hash(ch.nonce) == k && RowOf(s'.rows[k], ch)
    {
      if k in s.rows {
        var ch :| ch in s.issued && crypto.hash(ch.nonce) == k && RowOf(s.rows[k], ch);
        assert ch in s'.issued && RowOf(s'.rows[k], ch);
      } else {
        var ch := Challenge(step.client, step.node, step.nonce, step.now, step.now + step.ttl);
        assert ch in s'.issued && crypto.hash(ch.nonce) == k && RowOf(s'.rows[k], ch);
      }
    }
  }

  lemma GrowthKeepsCall(crypto: Crypto, protocol: string, rows: map<string, NonceRow>, rows': map<string, NonceRow>, call: Call)
    requires Keeps(rows, rows') && CallGood(crypto, protocol, rows, call)
    ensures CallGood(crypto, protocol, rows', call)
  {
  }

  lemma ConsumeGood(crypto: Crypto, protocol: string, s: System, h: nat)
    requires h in s.calls && s.calls[h].phase == Checked && CallGood(crypto, protocol, s.rows, s.calls[h])
    ensures CallGood(crypto, protocol, AfterConsume(crypto, s, h).rows, AfterConsume(crypto, s, h).calls[h])
  {
  }

  lemma StepKeepsCalls(crypto: Crypto, protocol: string, s: System, step: Step)
    requires Enabled(s, step) && CallsGood(crypto, protocol, s)
    ensures CallsGood(crypto, protocol, Do(crypto, protocol, s, step))
  {
    var s' := Do(crypto, protocol, s, step);
    StepKeepsRows(crypto, protocol, s, step);
    forall h | h in s'.calls ensures CallGood(crypto, protocol, s'.rows, s'.calls[h]) {
      if step.Consume? && step.h == h {
        ConsumeGood(crypto, protocol, s, h);
      } else if h in s.calls {
        GrowthKeepsCall(crypto, protocol, s.rows, s'.rows, s.calls[h]);
      }
    }
  }

  lemma ConsumeIsFirst(crypto: Crypto, protocol: string, s: System, h: nat, g: nat)
    requires CallsGood(crypto, protocol, s) && h in s.calls && s.calls[h].phase == Checked && g in s.calls
    requires Spent(AfterConsume(crypto, s, h).calls[h])
    ensures Spent(s.calls[g]) ==> crypto.hash(s.calls[g].proof.ch.nonce) != crypto.hash(s.calls[h].proof.ch.nonce)
  {
    assert CallGood(crypto, protocol, s.rows, s.calls[g]);
  }

  lemma StepKeepsSpender(crypto: Crypto, protocol: string, s: System, step: Step)
    requires Enabled(s, step) && CallsGood(crypto, protocol, s) && OneSpender(crypto, s.calls)
    ensures OneSpender(crypto, Do(crypto, protocol, s, step).calls)
  {
    if step.Consume? && Spent(AfterConsume(crypto, s, step.h).calls[step.h]) {
      forall g | g in s.calls
        ensures Spent(s.calls[g]) ==>
                  crypto.hash(s.calls[g].proof.ch.nonce) != crypto.hash(s.calls[step.h].proof.ch.nonce)
      {
        ConsumeIsFirst(crypto, protocol, s, step.h, g);
      }
    }
  }

  ghost predicate Inv(crypto: Crypto, protocol: string, s: System)
  {
    RowsIssued(crypto, s) && CallsGood(crypto, protocol, s) && OneSpender(crypto, s.calls)
  }

  lemma {:induction false} RunKeepsInv(crypto: Crypto, protocol: string, run: seq<System>, steps: seq<Step>, n: nat)
    requires IsRun(crypto, protocol, run, steps) && run[0] == System(map[], {}, map[]) && n < |run|
    ensures Inv(crypto, protocol, run[n])
    decreases n
  {
    if n == 0 {
    } else {
      RunKeepsInv(crypto, protocol, run, steps, n - 1);
      StepKeepsIssued(crypto, protocol, run[n - 1], steps[n - 1]);
      StepKeepsCalls(crypto, protocol, run[n - 1], steps[n - 1]);
      StepKeepsSpender(crypto, protocol, run[n - 1], steps[n - 1]);
    }
  }

  // ---------- main results ----------

  /** A nonce backs at most one successful verification, whatever else the proofs say. */
  lemma SingleUse(crypto: Crypto, protocol: string, run: seq<System>, steps: seq<Step>, n: nat, g: nat, h: nat)
    requires IsRun(crypto, protocol, run, steps) && run[0] == System(map[], {}, map[]) && n < |run|
    requires g in run[n].calls && h in run[n].calls
    requires run[n].calls[g].phase == Accepted && run[n].calls[h].phase == Accepted
    requires run[n].calls[g].proof.ch.nonce == run[n].calls[h].proof.ch.nonce
    ensures g == h
  {
    RunKeepsInv(crypto, protocol, run, steps, n);
  }

  /** A success is for a challenge that was issued with that nonce to that client and node, it came no later than the
      stored expiry, and the key that signed the payload is the client's. The hash of the presented nonce must not collide
      with that of another issued one. */
  lemma SuccessWasIssued(crypto: Crypto, protocol: string, run: seq<System>, steps: seq<Step>, n: nat, h: nat)
    requires IsRun(crypto, protocol, run, steps) && run[0] == System(map[], {}, map[]) && n < |run|
    requires h in run[n].calls && run[n].calls[h].phase == Accepted
    requires forall ch :: ch in run[n].issued && crypto.hash(ch.nonce) == crypto.hash(run[n].calls[h].proof.ch.nonce)
               ==> ch.nonce == run[n].calls[h].proof.ch.nonce
    ensures var Call(proof, now, _) := run[n].calls[h];
            && (exists ch :: ch in run[n].issued && ch.nonce == proof.ch.nonce && ch.client == proof.ch.client
                             && ch.node == proof.ch.node && now <= ch.expiresAt)
            && crypto.derive(proof.publicKey) == Some(proof.ch.client)
            && crypto.verify(proof.publicKey, BuildChallengePayload(protocol, proof.ch), proof.signature)
            && proof.ch.issuedAt - 60000 <= now <= proof.ch.expiresAt
  {
    RunKeepsInv(crypto, protocol, run, steps, n);
    var s := run[n];
    var call := s.calls[h];
    assert CallGood(crypto, protocol, s.rows, call);
    var k := crypto.hash(call.proof.ch.nonce);
    var ch :| ch in s.issued && crypto.hash(ch.nonce) == k && RowOf(s.rows[k], ch);
    assert ch.nonce == call.proof.ch.nonce;
  }

  /** A signed payload is good for one success: two accepted proofs over the same payload are one call. Client ids come
      from keys, and those are single lines; the node id is not restricted. */
  lemma SignedOnce(crypto: Crypto, protocol: string, run: seq<System>, steps: seq<Step>, n: nat, g: nat, h: nat)
    requires IsRun(crypto, protocol, run, steps) && run[0] == System(map[], {}, map[]) && n < |run|
    requires forall key :: crypto.derive(key).Some? ==> OneLine(crypto.derive(key).value)
    requires g in run[n].calls && h in run[n].calls
    requires run[n].calls[g].phase == Accepted && run[n].calls[h].phase == Accepted
    requires BuildChallengePayload(protocol, run[n].calls[g].proof.ch)
          == BuildChallengePayload(protocol, run[n].calls[h].proof.ch)
    ensures g == h
  {
    RunKeepsInv(crypto, protocol, run, steps, n);
    var s := run[n];
    assert CallGood(crypto, protocol, s.rows, s.calls[g]) && CallGood(crypto, protocol, s.rows, s.calls[h]);
    OneLineHoldsNone(s.calls[g].proof.ch.client);
    OneLineHoldsNone(s.calls[h].proof.ch.client);
    PayloadInjective(protocol, s.calls[g].proof.ch, protocol, s.calls[h].proof.ch);
  }

  // ---------- as code ----------

  class Service {
    const crypto: Crypto
    const protocol: string
    const challengeTTL: int
    var rows: map<string, NonceRow>

    method StoreNonce(hash: string, client: string, node: string, issuedAt: int, expiresAt: int) returns (stored: bool)
      modifies this`rows
      ensures stored <==> hash !in old(rows)
      ensures stored ==> rows == old(rows)[hash := NonceRow(client, node, issuedAt, expiresAt, Unused)]
      ensures !stored ==> rows == old(rows)
    {
      if hash in rows { return false; }
      rows := rows[hash := NonceRow(client, node, issuedAt, expiresAt, Unused)];
      stored := true;
    }

    method UseNonce(hash: string, client: string, node: string, now: int) returns (affected: bool)
      modifies this`rows
      ensures affected <==>
                && hash in old(rows) && old(rows)[hash].client == client && old(rows)[hash].node == node
                && old(rows)[hash].used == Unused && now <= old(rows)[hash].expiresAt
      ensures affected <==> Usable(old(rows), hash, client, node, now)
      ensures affected ==> rows == old(rows)[hash := old(rows)[hash].(used := UsedAt(now))]
      ensures rows == UseRow(old(rows), hash, client, node, now)
      ensures !Usable(rows, hash, client, node, now)
    {
      affected := Usable(rows, hash, client, node, now);
      if affected { rows := rows[hash := rows[hash].(used := UsedAt(now))]; }
    }

    /** The challenge handed out is stored, unused, under the hash of its nonce. */
    method IssueChallenge(nonce: seq<byte>, client: string, node: string, now: int) returns (r: Option<Challenge>)
      modifies this`rows
      ensures r.Some? <==> crypto.hash(nonce) !in old(rows)
      ensures r.Some? ==> r.value == Challenge(client, node, nonce, now, now + challengeTTL)
      ensures r.Some? ==> Usable(rows, crypto.hash(nonce), client, node, r.value.expiresAt)
      ensures Keeps(old(rows), rows) && (r.None? ==> rows == old(rows))
    {
      var expiresAt := now + challengeTTL;
      var stored := StoreNonce(crypto.hash(nonce), client, node, now, expiresAt);
      if !stored { return None; }
      r := Some(Challenge(client, node, nonce, now, expiresAt));
    }

    /** Uninterrupted: accepted exactly when the proof checks out, the stored nonce is usable and the login is recorded.
        The nonce is spent even when the login then fails, and untouched when the proof does not check out. */
    method VerifyChallenge(proof: Proof, now: int, recorded: bool) returns (error: Option<Error>)
      modifies this`rows
      ensures var usable := Usable(old(rows), crypto.hash(proof.ch.nonce), proof.ch.client, proof.ch.node, now);
              var checked := CheckProof(crypto, protocol, now, proof);
              && (error == None <==> checked == None && usable && recorded)
              && (checked.Some? ==> error == checked && rows == old(rows))
              && (checked == None && !usable ==> error == Some(NonceRefused) && rows == old(rows))
              && (checked == None && usable && !recorded ==> error == Some(LoginFailed))
              && (checked == None && usable ==>
                    rows == UseRow(old(rows), crypto.hash(proof.ch.nonce), proof.ch.client, proof.ch.node, now)
                    && !Usable(rows, crypto.hash(proof.ch.nonce), proof.ch.client, proof.ch.node, now))
    {
      var ch := proof.ch;
      if now > ch.expiresAt || now < ch.issuedAt - 60000 { return Some(Expired); }
      var derived := crypto.derive(proof.publicKey);
      if derived.None? { return Some(BadKey); }
      if derived.value != ch.client { return Some(PeerMismatch); }
      if !crypto.verify(proof.publicKey, BuildChallengePayload(protocol, ch), proof.signature) {
        return Some(BadSignature);
      }
      var affected := UseNonce(crypto.hash(ch.nonce), ch.client, ch.node, now);
      if !affected { return Some(NonceRefused); }
      if !recorded { return Some(LoginFailed); }
      error := None;
    }
  }
}
