/** Ordered, limited selection: what `ORDER BY major ASC, minor ASC LIMIT n` returns. */
module Ordering {

  datatype Key = Key(major: int, minor: nat)

  predicate Less(a: Key, b: Key)
  {
    a.major < b.major || (a.major == b.major && a.minor < b.minor)
  }

  predicate Ascending(s: seq<Key>)
  {
    forall i, j :: 0 <= i < j < |s| ==> Less(s[i], s[j])
  }

  /** Strictly increasing in the major key alone. */
  predicate Rising(s: seq<Key>)
  {
    forall i, j :: 0 <= i < j < |s| ==> s[i].major < s[j].major
  }

  function Elements(s: seq<Key>): set<Key>
  {
    set k | k in s
  }

  function Min(a: nat, b: nat): nat
  {
    if a < b then a else b
  }

  /** The relation between a result set, a limit and the returned rows. */
  ghost predicate IsPage(all: set<Key>, limit: nat, page: seq<Key>)
  {
    && Ascending(page)
    && Elements(page) <= all
    && |page| == Min(limit, |all|)
    && forall x, k :: x in page && k in all - Elements(page) ==> Less(x, k)
  }

  lemma LeastExists(s: set<Key>)
    requires s != {}
    ensures exists m :: m in s && forall k :: k in s && k != m ==> Less(m, k)
  {
    var x :| x in s;
    var rest := s - {x};
    if rest == {} {
      assert s == {x};
    } else {
      LeastExists(rest);
      var m :| m in rest && forall k :: k in rest && k != m ==> Less(m, k);
      var least := if Less(x, m) then x else m;
      forall k | k in s && k != least ensures Less(least, k) { assert k == x || k in rest; }
      assert least in s;
    }
  }

  function Least(s: set<Key>): (m: Key)
    requires s != {}
    ensures m in s && forall k :: k in s && k != m ==> Less(m, k)
  {
    LeastExists(s);
    var m :| m in s && forall k :: k in s && k != m ==> Less(m, k);
    m
  }

  lemma PageStep(all: set<Key>, limit: nat, m: Key, rest: seq<Key>)
    requires limit >= 1 && m in all && IsPage(all - {m}, limit - 1, rest)
    requires forall k :: k in all && k != m ==> Less(m, k)
    ensures IsPage(all, limit, [m] + rest)
  {
    var page := [m] + rest;
    assert Elements(page) == {m} + Elements(rest);
    forall j | 0 <= j < |rest| ensures Less(m, rest[j]) {
      assert rest[j] in Elements(rest);
    }
    assert all - Elements(page) == all - {m} - Elements(rest);
  }

  /** The first `limit` keys of `all`, ascending. */
  function Page(all: set<Key>, limit: nat): seq<Key>
    decreases all
  {
    if limit == 0 || all == {} then []
    else var m := Least(all); [m] + Page(all - {m}, limit - 1)
  }

  lemma {:induction false} PageIsPage(all: set<Key>, limit: nat)
    ensures IsPage(all, limit, Page(all, limit))
    decreases limit
  {
    if limit == 0 || all == {} {
    } else {
      var m := Least(all);
      PageIsPage(all - {m}, limit - 1);
      PageStep(all, limit, m, Page(all - {m}, limit - 1));
    }
  }

  lemma PageWithin(all: set<Key>, limit: nat)
    ensures forall i :: 0 <= i < |Page(all, limit)| ==> Page(all, limit)[i] in all
  {
    PageIsPage(all, limit);
    var page := Page(all, limit);
    forall i | 0 <= i < |page| ensures page[i] in all {
      assert page[i] in Elements(page);
    }
  }

  lemma {:induction false} AscendingDistinct(s: seq<Key>)
    requires Ascending(s)
    ensures |Elements(s)| == |s|
  {
    if s == [] {
    } else {
      var front, last := s[..|s| - 1], s[|s| - 1];
      AscendingDistinct(front);
      assert s == front + [last];
      assert Elements(s) == Elements(front) + {last};
      assert last !in front;
    }
  }

  /** Two ascending sequences over the same keys are the same sequence. */
  lemma {:induction false} AscendingUnique(s: seq<Key>, t: seq<Key>)
    requires Ascending(s) && Ascending(t)
    requires Elements(s) == Elements(t)
    ensures s == t
  {
    AscendingDistinct(s);
    AscendingDistinct(t);
    if s != [] {
      assert s[0] in Elements(s) && t[0] in Elements(t);
      assert s[0] == t[0];
      assert s == [s[0]] + s[1..] && t == [t[0]] + t[1..];
      assert Elements(s) == {s[0]} + Elements(s[1..]);
      assert Elements(t) == {t[0]} + Elements(t[1..]);
      assert s[0] !in s[1..] && t[0] !in t[1..];
      assert Elements(s[1..]) == Elements(s) - {s[0]};
      assert Elements(t[1..]) == Elements(t) - {t[0]};
      AscendingUnique(s[1..], t[1..]);
    }
  }

  lemma SameSizeSubset<T>(a: set<T>, b: set<T>)
    requires a <= b && |a| == |b|
    ensures a == b
  {
    assert |b - a| == |b| - |a|;
  }

  lemma SubsetSize<T>(a: set<T>, b: set<T>)
    requires a <= b
    ensures |a| <= |b|
  {
    assert |b - a| == |b| - |a|;
  }

  lemma PagesDoNotCross(all: set<Key>, limit: nat, p: seq<Key>, q: seq<Key>, x: Key, y: Key)
    requires IsPage(all, limit, p) && IsPage(all, limit, q)
    requires x in Elements(p) && x !in Elements(q) && y in Elements(q)
    ensures y in Elements(p)
  {
    assert y in q && x in all - Elements(q);
    assert !Less(x, y);
  }

  /** A result set, a limit and the order determine the page. */
  lemma PageUnique(all: set<Key>, limit: nat, p: seq<Key>, q: seq<Key>)
    requires IsPage(all, limit, p) && IsPage(all, limit, q)
    ensures p == q
  {
    AscendingDistinct(p);
    AscendingDistinct(q);
    if Elements(p) <= Elements(q) {
      SameSizeSubset(Elements(p), Elements(q));
    } else {
      var x :| x in Elements(p) && x !in Elements(q);
      forall y | y in Elements(q) ensures y in Elements(p) {
        PagesDoNotCross(all, limit, p, q, x, y);
      }
      SameSizeSubset(Elements(q), Elements(p));
    }
    AscendingUnique(p, q);
  }

  /** A page shorter than its limit, or exactly the size of the result, holds every key. */
  lemma ShortPageIsAll(all: set<Key>, limit: nat, page: seq<Key>)
    requires IsPage(all, limit, page)
    requires |page| < limit || |all| <= limit
    ensures Elements(page) == all
  {
    AscendingDistinct(page);
    SameSizeSubset(Elements(page), all);
  }

  /** The start of a page is the page of a smaller limit. */
  lemma PrefixIsPage(all: set<Key>, n: nat, m: nat, page: seq<Key>)
    requires IsPage(all, n, page) && m <= n
    ensures IsPage(all, m, page[..Min(m, |page|)])
  {
    var part := page[..Min(m, |page|)];
    assert page == part + page[|part|..];
    forall k | k in part ensures k in Elements(page) {
    }
    forall x, k | x in part && k in all - Elements(part) ensures Less(x, k) {
      var i :| 0 <= i < |part| && part[i] == x;
      assert page[i] == x;
      if k in page {
        assert k in page[|part|..];
        var j :| 0 <= j < |page[|part|..]| && page[|part|..][j] == k;
        assert page[|part| + j] == k;
      } else {
        assert k in all - Elements(page);
      }
    }
  }

  /** Pages cut at a major key join into one ascending sequence. */
  lemma JoinPages(a: seq<Key>, b: seq<Key>, cut: nat)
    requires Ascending(a) && Ascending(b)
    requires (forall k :: k in a ==> k.major <= cut) && (forall k :: k in Elements(b) ==> k.major > cut)
    ensures Ascending(a + b) && Elements(a + b) == Elements(a) + Elements(b)
  {
    forall i | 0 <= i < |b| ensures b[i].major > cut {
      assert b[i] in Elements(b);
    }
  }

  /** Strictly rising majors above a cut reach at least as far as their number. */
  lemma {:induction false} RisingSpan(s: seq<Key>, cut: nat)
    requires Rising(s) && forall i :: 0 <= i < |s| ==> s[i].major > cut
    ensures s != [] ==> s[|s| - 1].major >= cut + |s|
  {
    if |s| <= 1 {
    } else {
      var front := s[..|s| - 1];
      RisingSpan(front, cut);
      assert front[|front| - 1] == s[|s| - 2];
    }
  }
}
