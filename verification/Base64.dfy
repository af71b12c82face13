/** Standard base64 with padding: section 4 of RFC 4648. */
module Base64 {
  import opened Basics

  type sextet = x: int | 0 <= x < 64

  function Symbol(v: sextet): char
  {
    if v < 26 then ('A' as int + v) as char
    else if v < 52 then ('a' as int + v - 26) as char
    else if v < 62 then ('0' as int + v - 52) as char
    else if v == 62 then '+'
    else '/'
  }

  function Value(c: char): Option<sextet>
  {
    if 'A' <= c <= 'Z' then Some(c as int - 'A' as int)
    else if 'a' <= c <= 'z' then Some(c as int - 'a' as int + 26)
    else if '0' <= c <= '9' then Some(c as int - '0' as int + 52)
    else if c == '+' then Some(62)
    else if c == '/' then Some(63)
    else None
  }

  // Three bytes a, b, c are the four sextets First(a), Second(a, b), Third(b, c), Fourth(c), and back.

  function First(a: byte): sextet { a / 4 }

  function Second(a: byte, b: byte): sextet { a % 4 * 16 + b / 16 }

  function Third(b: byte, c: byte): sextet { b % 16 * 4 + c / 64 }

  function Fourth(c: byte): sextet { c % 64 }

  function ByteA(v: sextet, w: sextet): byte { v * 4 + w / 16 }

  function ByteB(w: sextet, x: sextet): byte { w % 16 * 16 + x / 4 }

  function ByteC(x: sextet, y: sextet): byte { x % 4 * 64 + y }

  function Group(a: byte, b: byte, c: byte): string
  {
    [Symbol(First(a)), Symbol(Second(a, b)), Symbol(Third(b, c)), Symbol(Fourth(c))]
  }

  function Encode(b: seq<byte>): string
  {
    if b == [] then ""
    else if |b| == 1 then [Symbol(First(b[0])), Symbol(Second(b[0], 0)), '=', '=']
    else if |b| == 2 then [Symbol(First(b[0])), Symbol(Second(b[0], b[1])), Symbol(Third(b[1], 0)), '=']
    else Group(b[0], b[1], b[2]) + Encode(b[3..])
  }

  /** The bytes of a last group of four characters; the unused bits must be zero. */
  function DecodeGroup(s: string): Option<seq<byte>>
    requires |s| == 4
  {
    match (Value(s[0]), Value(s[1]), Value(s[2]), Value(s[3]))
    case (Some(v), Some(w), Some(x), Some(y)) => Some([ByteA(v, w), ByteB(w, x), ByteC(x, y)])
    case (Some(v), Some(w), Some(x), None) =>
      if s[3] == '=' && x % 4 == 0 then Some([ByteA(v, w), ByteB(w, x)]) else None
    case (Some(v), Some(w), None, None) =>
      if s[2] == '=' && s[3] == '=' && w % 16 == 0 then Some([ByteA(v, w)]) else None
    case _ => None
  }

  function Decode(s: string): Option<seq<byte>>
  {
    if s == "" then Some([])
    else if |s| < 4 then None
    else
      match DecodeGroup(s[..4])
      case None => None
      case Some(group) =>
        if |s| == 4 then Some(group)
        else if |group| < 3 then None
        else
          match Decode(s[4..])
          case None => None
          case Some(rest) => Some(group + rest)
  }

  lemma SymbolValue(v: sextet)
    ensures Value(Symbol(v)) == Some(v)
    ensures Symbol(v) != '\n' && Symbol(v) != '='
  {
  }

  lemma ByteParts(a: byte, b: byte, c: byte)
    ensures ByteA(First(a), Second(a, b)) == a
    ensures ByteB(Second(a, b), Third(b, c)) == b
    ensures ByteC(Third(b, c), Fourth(c)) == c
    ensures Second(a, 0) % 16 == 0 && Third(b, 0) % 4 == 0
  {
    assert Second(a, b) / 16 == a % 4 && Second(a, b) % 16 == b / 16;
    assert Third(b, c) / 4 == b % 16 && Third(b, c) % 4 == c / 64;
  }

  lemma DecodePadded(s: string, v: sextet, w: sextet)
    requires |s| == 4 && Value(s[0]) == Some(v) && Value(s[1]) == Some(w) && s[2] == '=' && s[3] == '='
    ensures w % 16 == 0 ==> DecodeGroup(s) == Some([ByteA(v, w)])
  {
    assert Value(s[2]) == None && Value(s[3]) == None;
  }

  lemma OneByte(a: byte)
    ensures DecodeGroup([Symbol(First(a)), Symbol(Second(a, 0)), '=', '=']) == Some([a])
  {
    SymbolValue(First(a));
    SymbolValue(Second(a, 0));
    DecodePadded([Symbol(First(a)), Symbol(Second(a, 0)), '=', '='], First(a), Second(a, 0));
    ByteParts(a, 0, 0);
  }

  lemma TwoBytes(a: byte, b: byte)
    ensures DecodeGroup([Symbol(First(a)), Symbol(Second(a, b)), Symbol(Third(b, 0)), '=']) == Some([a, b])
  {
    assert Value('=') == None;
    SymbolValue(First(a));
    SymbolValue(Second(a, b));
    SymbolValue(Third(b, 0));
    ByteParts(a, b, 0);
  }

  lemma ThreeBytes(a: byte, b: byte, c: byte)
    ensures DecodeGroup(Group(a, b, c)) == Some([a, b, c])
  {
    SymbolValue(First(a));
    SymbolValue(Second(a, b));
    SymbolValue(Third(b, c));
    SymbolValue(Fourth(c));
    ByteParts(a, b, c);
  }

  lemma GroupRoundTrip(b: seq<byte>)
    requires 1 <= |b| <= 3
    ensures |Encode(b)| == 4 && DecodeGroup(Encode(b)) == Some(b)
  {
    if |b| == 1 {
      OneByte(b[0]);
      assert b == [b[0]];
    } else if |b| == 2 {
      TwoBytes(b[0], b[1]);
      assert b == [b[0], b[1]];
    } else {
      ThreeBytes(b[0], b[1], b[2]);
      assert b == [b[0], b[1], b[2]] && b[3..] == [];
    }
  }

  lemma EncodeSplit(b: seq<byte>)
    requires |b| > 3
    ensures Encode(b) == Encode(b[..3]) + Encode(b[3..])
  {
    var head := b[..3];
    assert head[3..] == [] && Encode([]) == "";
    assert Encode(head) == Group(b[0], b[1], b[2]);
  }

  lemma {:induction false} RoundTrip(b: seq<byte>)
    ensures Decode(Encode(b)) == Some(b)
  {
    if 1 <= |b| <= 3 {
      GroupRoundTrip(b);
      assert Encode(b)[..4] == Encode(b);
    } else if |b| > 3 {
      RoundTrip(b[3..]);
      GroupRoundTrip(b[..3]);
      EncodeSplit(b);
      assert Encode(b)[..4] == Encode(b[..3]) && Encode(b)[4..] == Encode(b[3..]);
      assert b == b[..3] + b[3..];
    }
  }

  lemma {:induction false} NoNewline(b: seq<byte>)
    ensures '\n' !in Encode(b)
  {
    if |b| > 3 {
      NoNewline(b[..3]);
      NoNewline(b[3..]);
      EncodeSplit(b);
    } else if b != [] {
      GroupRoundTrip(b);
      forall i | 0 <= i < 4 ensures Encode(b)[i] != '\n' {
        assert Value('\n') == None;
      }
    }
  }

  lemma Injective(a: seq<byte>, b: seq<byte>)
    requires Encode(a) == Encode(b)
    ensures a == b
  {
    RoundTrip(a);
    RoundTrip(b);
  }

  // ---------- against the text of section 4 ----------

  /** The alphabet: capitals, small letters, digits, '+' and '/', each run in its order. */
  lemma Alphabet(v: sextet)
    ensures Symbol(0) == 'A' && Symbol(26) == 'a' && Symbol(52) == '0' && Symbol(62) == '+' && Symbol(63) == '/'
    ensures v !in {25, 51, 61, 62, 63} ==> Symbol(v + 1) as int == Symbol(v) as int + 1
  {
  }

  /** The 24 bits of three bytes, most significant first, are the 24 bits of four sextets. */
  lemma GroupBits(a: byte, b: byte, c: byte)
    ensures ((First(a) * 64 + Second(a, b)) * 64 + Third(b, c)) * 64 + Fourth(c) == (a * 256 + b) * 256 + c
  {
  }

  lemma EncodedShort(b: seq<byte>)
    requires |b| <= 2
    ensures |Encode(b)| == if b == [] then 0 else 4
  {
  }

  lemma EncodedStep(b: seq<byte>)
    requires |b| >= 3
    ensures |Encode(b)| == 4 + |Encode(b[3..])|
  {
    assert |Group(b[0], b[1], b[2])| == 4;
  }

  /** The number of groups of three that `n` bytes begin. */
  function Groups(n: nat): nat
  {
    if n == 0 then 0 else if n <= 3 then 1 else 1 + Groups(n - 3)
  }

  lemma {:induction false} GroupsCover(n: nat)
    ensures 3 * Groups(n) - 3 < n <= 3 * Groups(n) || n == Groups(n) == 0
  {
    if n <= 3 {
    } else {
      GroupsCover(n - 3);
    }
  }

  /** Four characters for every three bytes begun. */
  lemma {:induction false} EncodedLength(b: seq<byte>)
    ensures |Encode(b)| == 4 * Groups(|b|)
  {
    if |b| <= 2 {
      EncodedShort(b);
    } else {
      EncodedStep(b);
      EncodedLength(b[3..]);
      assert Groups(|b|) == 1 + Groups(|b| - 3);
    }
  }

  /** The last group is padded with two '=' for one byte left over, one for two, none for three. */
  lemma LastGroup(b: seq<byte>)
    requires 1 <= |b| <= 3
    ensures |b| == 1 ==> Encode(b)[2..] == "=="
    ensures |b| == 2 ==> Encode(b)[2] != '=' && Encode(b)[3] == '='
    ensures |b| == 3 ==> '=' !in Encode(b)
  {
    if |b| == 2 {
      SymbolValue(Third(b[1], 0));
    } else if |b| == 3 {
      SymbolValue(First(b[0]));
      SymbolValue(Second(b[0], b[1]));
      SymbolValue(Third(b[1], b[2]));
      SymbolValue(Fourth(b[2]));
      assert b[3..] == [] && Encode(b) == Group(b[0], b[1], b[2]) + [];
    }
  }
}
