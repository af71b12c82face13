/** The text a client signs to answer a challenge. */
module Payload {
  import opened Basics
  import opened Base64

  datatype Challenge = Challenge(client: string, node: string, nonce: seq<byte>, issuedAt: int, expiresAt: int)

  function Digit(d: int): char
    requires 0 <= d < 10
  {
    ('0' as int + d) as char
  }

  function Digits(n: nat): string
  {
    if n < 10 then [Digit(n)] else Digits(n / 10) + [Digit(n % 10)]
  }

  /** `%d` of a signed number. */
  function Decimal(n: int): string
  {
    if n < 0 then "-" + Digits(-n) else Digits(n)
  }

  function Line(key: string, value: string): string
  {
    key + "=" + value + "\n"
  }

  function BuildChallengePayload(protocol: string, ch: Challenge): string
  {
    Line("protocol_id", protocol)
    + Line("client_peer_id", ch.client)
    + Line("node_peer_id", ch.node)
    + Line("nonce", Encode(ch.nonce))
    + Line("issued_at_ms", Decimal(ch.issuedAt))
    + Line("expires_at_ms", Decimal(ch.expiresAt))
  }

  predicate OneLine(s: string)
  {
    '\n' !in s
  }

  // ---------- numbers ----------

  /** Reads a run of digits back; anything else counts as zero. */
  function ParseDigits(s: string): nat
  {
    if s == "" then 0
    else ParseDigits(s[..|s| - 1]) * 10 + (if '0' <= s[|s| - 1] <= '9' then s[|s| - 1] as int - '0' as int else 0)
  }

  function Parse(s: string): int
  {
    if s != "" && s[0] == '-' then -(ParseDigits(s[1..]) as int) else ParseDigits(s)
  }

  lemma {:induction false} DigitsRoundTrip(n: nat)
    ensures ParseDigits(Digits(n)) == n
    ensures Digits(n) != "" && Digits(n)[0] != '-'
    ensures OneLine(Digits(n))
  {
    if n < 10 {
      assert Digits(n)[..0] == "";
    } else {
      DigitsRoundTrip(n / 10);
      assert Digits(n)[..|Digits(n)| - 1] == Digits(n / 10);
    }
  }

  lemma DecimalRoundTrip(n: int)
    ensures Parse(Decimal(n)) == n && OneLine(Decimal(n))
  {
    if n < 0 {
      DigitsRoundTrip(-n);
      assert Decimal(n)[1..] == Digits(-n);
    } else {
      DigitsRoundTrip(n);
    }
  }

  /** Printed numbers are digits with at most a minus sign in front and no superfluous zero. */
  lemma {:induction false} DigitsPlain(n: nat)
    ensures forall i :: 0 <= i < |Digits(n)| ==> '0' <= Digits(n)[i] <= '9'
    ensures Digits(n)[0] == '0' <==> n == 0
    ensures n == 0 ==> Digits(n) == "0"
  {
    if n < 10 {
    } else {
      DigitsPlain(n / 10);
    }
  }

  lemma DecimalPlain(n: int)
    ensures n >= 0 ==> Decimal(n) == Digits(n)
    ensures n < 0 ==> Decimal(n) == ['-'] + Digits(-n)
    ensures Digits(if n < 0 then -n else n)[0] == '0' <==> n == 0
  {
    DigitsPlain(if n < 0 then -n else n);
  }

  lemma LineText(key: string, start: string, value: string)
    requires start == key + "="
    ensures Line(key, value) == start + value + "\n"
  {
  }

  /** The six lines a client signs, to the letter. */
  lemma PayloadText(p: string, ch: Challenge)
    ensures BuildChallengePayload(p, ch)
         == ("protocol_id=" + p + "\n") + ("client_peer_id=" + ch.client + "\n") + ("node_peer_id=" + ch.node + "\n")
            + ("nonce=" + Encode(ch.nonce) + "\n") + ("issued_at_ms=" + Decimal(ch.issuedAt) + "\n")
            + ("expires_at_ms=" + Decimal(ch.expiresAt) + "\n")
  {
    LineText("protocol_id", "protocol_id=", p);
    LineText("client_peer_id", "client_peer_id=", ch.client);
    LineText("node_peer_id", "node_peer_id=", ch.node);
    LineText("nonce", "nonce=", Encode(ch.nonce));
    LineText("issued_at_ms", "issued_at_ms=", Decimal(ch.issuedAt));
    LineText("expires_at_ms", "expires_at_ms=", Decimal(ch.expiresAt));
  }

  // ---------- lines ----------

  /** The text up to the first newline is determined. */
  lemma FirstLine(key: string, a: string, x: string, b: string, y: string)
    requires OneLine(a) && OneLine(b) && Line(key, a) + x == Line(key, b) + y
    ensures a == b && x == y
  {
    var s, t := Line(key, a) + x, Line(key, b) + y;
    var k := |key| + 1;
    assert s[k..] == a + "\n" + x && t[k..] == b + "\n" + y;
    CutFirst(a, x, b, y);
  }

  lemma CutFirst(a: string, x: string, b: string, y: string)
    requires OneLine(a) && OneLine(b) && a + "\n" + x == b + "\n" + y
    ensures a == b && x == y
  {
    var s, t := a + "\n" + x, b + "\n" + y;
    assert s[|a|] == '\n' && t[|b|] == '\n';
    assert |a| == |b|;
    assert s[..|a|] == a && t[..|b|] == b;
    assert s[|a| + 1..] == x && t[|b| + 1..] == y;
  }

  lemma CutLast(x: string, a: string, y: string, b: string)
    requires OneLine(a) && OneLine(b) && x + "\n" + a == y + "\n" + b
    ensures x == y && a == b
  {
    var s, t := x + "\n" + a, y + "\n" + b;
    assert s[|x|] == '\n' && t[|y|] == '\n';
    assert |x| == |y|;
    assert s[..|x|] == x && t[..|y|] == y;
    assert s[|x| + 1..] == a && t[|y| + 1..] == b;
  }

  /** The last line is determined, given that a newline stands before it. */
  lemma LastLine(x: string, key: string, a: string, y: string, b: string)
    requires OneLine(key) && OneLine(a) && OneLine(b)
    requires x + "\n" + Line(key, a) == y + "\n" + Line(key, b)
    ensures x == y && a == b
  {
    var s, t := x + "\n" + Line(key, a), y + "\n" + Line(key, b);
    var p, q := key + "=" + a, key + "=" + b;
    assert s[..|s| - 1] == x + "\n" + p && t[..|t| - 1] == y + "\n" + q;
    CutLast(x, p, y, q);
    assert p[|key| + 1..] == a && q[|key| + 1..] == b;
  }

  // ---------- the payload ----------

  function Front(protocol: string, ch: Challenge): string
  {
    Line("protocol_id", protocol) + Middle(ch)
  }

  lemma Shape(protocol: string, ch: Challenge)
    ensures BuildChallengePayload(protocol, ch)
         == Front(protocol, ch) + "\n" + Line("nonce", Encode(ch.nonce)) + Line("issued_at_ms", Decimal(ch.issuedAt))
            + Line("expires_at_ms", Decimal(ch.expiresAt))
  {
  }

  lemma EndsInLine(x: string, key: string, value: string)
    ensures x + Line(key, value) == (x + key + "=" + value) + "\n"
  {
  }

  /** Nonce and times never depend on what stands before them. */
  lemma TailDetermined(x: string, c: Challenge, y: string, d: Challenge)
    requires x + "\n" + Line("nonce", Encode(c.nonce)) + Line("issued_at_ms", Decimal(c.issuedAt))
             + Line("expires_at_ms", Decimal(c.expiresAt))
          == y + "\n" + Line("nonce", Encode(d.nonce)) + Line("issued_at_ms", Decimal(d.issuedAt))
             + Line("expires_at_ms", Decimal(d.expiresAt))
    ensures x == y && c.nonce == d.nonce && c.issuedAt == d.issuedAt && c.expiresAt == d.expiresAt
  {
    DecimalRoundTrip(c.issuedAt);
    DecimalRoundTrip(d.issuedAt);
    DecimalRoundTrip(c.expiresAt);
    DecimalRoundTrip(d.expiresAt);
    NoNewline(c.nonce);
    NoNewline(d.nonce);
    var x1, y1 := x + "\n" + Line("nonce", Encode(c.nonce)), y + "\n" + Line("nonce", Encode(d.nonce));
    var x2, y2 := x1 + Line("issued_at_ms", Decimal(c.issuedAt)), y1 + Line("issued_at_ms", Decimal(d.issuedAt));
    EndsInLine(x1, "issued_at_ms", Decimal(c.issuedAt));
    EndsInLine(y1, "issued_at_ms", Decimal(d.issuedAt));
    LastLine(x2[..|x2| - 1], "expires_at_ms", Decimal(c.expiresAt), y2[..|y2| - 1], Decimal(d.expiresAt));
    assert x2 == y2;
    EndsInLine(x + "\n", "nonce", Encode(c.nonce));
    EndsInLine(y + "\n", "nonce", Encode(d.nonce));
    LastLine(x1[..|x1| - 1], "issued_at_ms", Decimal(c.issuedAt), y1[..|y1| - 1], Decimal(d.issuedAt));
    assert x1 == y1;
    LastLine(x, "nonce", Encode(c.nonce), y, Encode(d.nonce));
    Injective(c.nonce, d.nonce);
  }

  function Middle(ch: Challenge): string
  {
    Line("client_peer_id", ch.client) + "node_peer_id=" + ch.node
  }

  // ---------- when two payloads are the same ----------

  /** What stands between the client id and the node id. */
  const SEPARATOR := "\nnode_peer_id="

  lemma SeparatorNewlines()
    ensures |SEPARATOR| == 14 && SEPARATOR[0] == '\n'
    ensures forall k :: 0 < k < 14 ==> SEPARATOR[k] != '\n'
  {
  }

  /** The text of `c` and `d` is split at two different separators: one inside c's client id, one inside d's node id. */
  predicate ShiftedBy(c: Challenge, d: Challenge, x: string)
  {
    c.client == d.client + SEPARATOR + x && d.node == x + SEPARATOR + c.node
  }

  ghost predicate Shifted(c: Challenge, d: Challenge)
  {
    exists x :: ShiftedBy(c, d, x)
  }

  lemma MiddleSplit(ch: Challenge)
    ensures Middle(ch) == "client_peer_id=" + (ch.client + SEPARATOR + ch.node)
  {
  }

  lemma ShiftedSame(a: string, b: string, x: string)
    ensures a + SEPARATOR + (x + SEPARATOR + b) == (a + SEPARATOR + x) + SEPARATOR + b
  {
  }

  /** The separator holds one newline, so it does not overlap itself. */
  lemma NoOverlap(a: string, b: string, c: string, d: string)
    requires a + SEPARATOR + b == c + SEPARATOR + d && |a| > |c|
    ensures |a| >= |c| + |SEPARATOR|
  {
    SeparatorNewlines();
    var s := a + SEPARATOR + b;
    assert s[|a|] == SEPARATOR[0];
  }

  lemma SplitLater(a: string, b: string, c: string, d: string) returns (x: string)
    requires a + SEPARATOR + b == c + SEPARATOR + d && |a| > |c|
    ensures a == c + SEPARATOR + x && d == x + SEPARATOR + b
  {
    NoOverlap(a, b, c, d);
    var s, n := a + SEPARATOR + b, |c| + |SEPARATOR|;
    x := a[n..];
    assert a == s[..|a|] && s[..n] == c + SEPARATOR;
    assert a[..n] == c + SEPARATOR;
    assert d == s[n..] && a == a[..n] + x;
    assert s[n..] == x + SEPARATOR + b;
  }

  lemma SplitEqual(a: string, b: string, c: string, d: string)
    requires a + SEPARATOR + b == c + SEPARATOR + d && |a| == |c|
    ensures a == c && b == d
  {
    var s, t := a + SEPARATOR + b, c + SEPARATOR + d;
    assert s[..|a|] == a && t[..|c|] == c;
    assert s[|a| + |SEPARATOR|..] == b && t[|c| + |SEPARATOR|..] == d;
  }

  lemma SplitIff(c: Challenge, d: Challenge)
    ensures c.client + SEPARATOR + c.node == d.client + SEPARATOR + d.node <==>
              (c.client == d.client && c.node == d.node) || Shifted(c, d) || Shifted(d, c)
  {
    if c.client + SEPARATOR + c.node == d.client + SEPARATOR + d.node {
      if |c.client| > |d.client| {
        var x := SplitLater(c.client, c.node, d.client, d.node);
        assert ShiftedBy(c, d, x);
      } else if |d.client| > |c.client| {
        var x := SplitLater(d.client, d.node, c.client, c.node);
        assert ShiftedBy(d, c, x);
      } else {
        SplitEqual(c.client, c.node, d.client, d.node);
      }
    }
    if Shifted(c, d) {
      var x :| ShiftedBy(c, d, x);
      ShiftedSame(d.client, c.node, x);
    }
    if Shifted(d, c) {
      var x :| ShiftedBy(d, c, x);
      ShiftedSame(c.client, d.node, x);
    }
  }

  lemma SamePrefix(p: string, a: string, b: string)
    ensures p + a == p + b <==> a == b
  {
    assert (p + a)[|p|..] == a && (p + b)[|p|..] == b;
  }

  lemma MiddleIff(c: Challenge, d: Challenge)
    ensures Middle(c) == Middle(d) <==>
              (c.client == d.client && c.node == d.node) || Shifted(c, d) || Shifted(d, c)
  {
    MiddleSplit(c);
    MiddleSplit(d);
    SamePrefix("client_peer_id=", c.client + SEPARATOR + c.node, d.client + SEPARATOR + d.node);
    SplitIff(c, d);
  }

  /** Exactly when two challenges of one server have the same payload: nonce and times agree, and so do the ids, unless the
      client id of one side and the node id of the other hold the separator so that the same text is split elsewhere. */
  lemma PayloadsEqualIff(p: string, c: Challenge, d: Challenge)
    ensures BuildChallengePayload(p, c) == BuildChallengePayload(p, d) <==>
              && c.nonce == d.nonce && c.issuedAt == d.issuedAt && c.expiresAt == d.expiresAt
              && ((c.client == d.client && c.node == d.node) || Shifted(c, d) || Shifted(d, c))
  {
    Shape(p, c);
    Shape(p, d);
    MiddleIff(c, d);
    SamePrefix(Line("protocol_id", p), Middle(c), Middle(d));
    if BuildChallengePayload(p, c) == BuildChallengePayload(p, d) {
      TailDetermined(Front(p, c), c, Front(p, d), d);
    }
  }

  predicate SeparatorAt(s: string, i: nat)
  {
    i + |SEPARATOR| <= |s| && s[i..i + |SEPARATOR|] == SEPARATOR
  }

  ghost predicate HoldsSeparator(s: string)
  {
    exists i: nat :: SeparatorAt(s, i)
  }

  lemma ShiftedHolds(c: Challenge, d: Challenge)
    requires Shifted(c, d)
    ensures HoldsSeparator(c.client) && HoldsSeparator(d.node)
  {
    var x :| ShiftedBy(c, d, x);
    assert SeparatorAt(c.client, |d.client|) && SeparatorAt(d.node, |x|);
  }

  lemma OneLineHoldsNone(s: string)
    requires OneLine(s)
    ensures !HoldsSeparator(s)
  {
    SeparatorNewlines();
    forall i: nat ensures !SeparatorAt(s, i) {
      if i + |SEPARATOR| <= |s| {
        assert s[i..i + |SEPARATOR|][0] == s[i] && s[i] in s;
      }
    }
  }

  /** Single-line protocols are told apart, whatever the ids hold. */
  lemma ProtocolDetermined(p: string, c: Challenge, q: string, d: Challenge)
    requires BuildChallengePayload(p, c) == BuildChallengePayload(q, d) && OneLine(p) && OneLine(q)
    ensures p == q
  {
    Shape(p, c);
    Shape(q, d);
    TailDetermined(Front(p, c), c, Front(q, d), d);
    FirstLine("protocol_id", p, Middle(c), q, Middle(d));
  }

  /** Equal payloads come from equal protocols and challenges whenever, in each direction, the client id of one side or the
      node id of the other is free of the separator; ids of a single line always are. One server has one protocol; of two
      different ones, both must be single lines. */
  lemma PayloadInjective(p: string, c: Challenge, q: string, d: Challenge)
    requires BuildChallengePayload(p, c) == BuildChallengePayload(q, d)
    requires p == q || (OneLine(p) && OneLine(q))
    requires !(HoldsSeparator(c.client) && HoldsSeparator(d.node))
    requires !(HoldsSeparator(d.client) && HoldsSeparator(c.node))
    ensures p == q && c == d
  {
    if OneLine(p) && OneLine(q) { ProtocolDetermined(p, c, q, d); }
    PayloadsEqualIff(p, c, d);
    if Shifted(c, d) { ShiftedHolds(c, d); }
    if Shifted(d, c) { ShiftedHolds(d, c); }
  }

  /** Any two texts around any third give two challenges that share one payload. */
  lemma MultilineIdsCollide(p: string, client: string, x: string, node: string, nonce: seq<byte>, issuedAt: int, expiresAt: int)
    ensures var c := Challenge(client + SEPARATOR + x, node, nonce, issuedAt, expiresAt);
            var d := Challenge(client, x + SEPARATOR + node, nonce, issuedAt, expiresAt);
            c != d && BuildChallengePayload(p, c) == BuildChallengePayload(p, d)
  {
    var c := Challenge(client + SEPARATOR + x, node, nonce, issuedAt, expiresAt);
    var d := Challenge(client, x + SEPARATOR + node, nonce, issuedAt, expiresAt);
    assert ShiftedBy(c, d, x);
    PayloadsEqualIff(p, c, d);
    assert |c.client| > |d.client|;
  }
}
