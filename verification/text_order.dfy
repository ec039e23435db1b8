/** Text: byte-wise order, which is how SQLite compares TEXT and how Go compares strings, and
    lower-casing of ASCII letters. */
module TextOrder {

  predicate TextLess(a: string, b: string) {
    b != [] && (a == [] || a[0] < b[0] || (a[0] == b[0] && TextLess(a[1..], b[1..])))
  }

  lemma {:induction false} Irreflexive(a: string)
    ensures !TextLess(a, a)
    decreases |a|
  {
    if a != [] {
      Irreflexive(a[1..]);
    }
  }

  lemma {:induction false} Transitive(a: string, b: string, c: string)
    requires TextLess(a, b) && TextLess(b, c)
    ensures TextLess(a, c)
    decreases |a|
  {
    if a != [] && a[0] == b[0] && b[0] == c[0] {
      Transitive(a[1..], b[1..], c[1..]);
    }
  }

  lemma {:induction false} Total(a: string, b: string)
    ensures a == b || TextLess(a, b) || TextLess(b, a)
    decreases |a|
  {
    if a != [] && b != [] && a[0] == b[0] {
      Total(a[1..], b[1..]);
      assert a == [a[0]] + a[1..] && b == [b[0]] + b[1..];
    }
  }

  /** Texts that start with fields of equal width compare by the first field, then by the rest. */
  lemma {:induction false} ByFields(a: string, x: string, b: string, y: string)
    requires |a| == |b|
    ensures TextLess(a + x, b + y) <==> TextLess(a, b) || (a == b && TextLess(x, y))
    decreases |a|
  {
    if a == [] {
      assert a + x == x && b + y == y;
    } else {
      assert (a + x)[1..] == a[1..] + x && (b + y)[1..] == b[1..] + y;
      assert a == [a[0]] + a[1..] && b == [b[0]] + b[1..];
      ByFields(a[1..], x, b[1..], y);
    }
  }

  function LowerChar(c: char): char {
    if 'A' <= c <= 'Z' then c - 'A' + 'a' else c
  }

  function Lower(s: string): string {
    seq(|s|, k requires 0 <= k < |s| => LowerChar(s[k]))
  }

  // ----- LIKE ------------------------------------------------------------------------------

  /** SQLite's LIKE: '%' matches any text, '_' any character, and letters match in either case. */
  predicate Like(pattern: string, s: string)
    decreases |pattern|, |s|
  {
    if pattern == "" then s == ""
    else if pattern[0] == '%' then Like(pattern[1..], s) || (s != "" && Like(pattern, s[1..]))
    else
      && s != ""
      && (pattern[0] == '_' || LowerChar(pattern[0]) == LowerChar(s[0]))
      && Like(pattern[1..], s[1..])
  }

  predicate Plain(s: string) {
    '%' !in s && '_' !in s
  }

  lemma {:induction false} LikeAnything(s: string)
    ensures Like("%", s)
    decreases |s|
  {
    if s != "" {
      LikeAnything(s[1..]);
    }
  }

  /** A plain text followed by '%' matches what begins with that text, in either case. */
  lemma {:induction false} LikeBeginning(p: string, s: string)
    requires Plain(p)
    ensures Like(p + "%", s) <==> |p| <= |s| && Lower(s[..|p|]) == Lower(p)
    decreases |p|
  {
    if p == "" {
      assert p + "%" == "%";
      LikeAnything(s);
    } else {
      assert (p + "%")[1..] == p[1..] + "%" && (p + "%")[0] == p[0];
      assert p[0] in p;
      if s != "" {
        LikeBeginning(p[1..], s[1..]);
        LowerOfRest(p);
        if |p| <= |s| {
          LowerOfRest(s[..|p|]);
          assert s[..|p|][1..] == s[1..][..|p| - 1];
          SameBeginning(LowerChar(s[0]), Lower(s[1..][..|p| - 1]), LowerChar(p[0]), Lower(p[1..]));
        }
      }
    }
  }

  lemma SameBeginning(x: char, a: string, y: char, b: string)
    ensures [x] + a == [y] + b <==> x == y && a == b
  {
    assert ([x] + a)[1..] == a && ([y] + b)[1..] == b && ([x] + a)[0] == x && ([y] + b)[0] == y;
  }

  lemma LowerOfRest(s: string)
    requires s != ""
    ensures Lower(s) == [LowerChar(s[0])] + Lower(s[1..])
  {
  }

  lemma {:induction false} LikeAfter(p: string, s: string) returns (k: nat)
    requires Like("%" + p, s)
    ensures k <= |s| && Like(p, s[k..])
    decreases |s|
  {
    assert ("%" + p)[1..] == p && ("%" + p)[0] == '%';
    if Like(p, s) {
      k := 0;
      assert s[0..] == s;
    } else {
      var n := LikeAfter(p, s[1..]);
      k := n + 1;
      assert s[1..][n..] == s[k..];
    }
  }

  lemma {:induction false} LikeBefore(p: string, s: string, k: nat)
    requires k <= |s| && Like(p, s[k..])
    ensures Like("%" + p, s)
    decreases k
  {
    assert ("%" + p)[1..] == p && ("%" + p)[0] == '%';
    if k == 0 {
      assert s[0..] == s;
    } else {
      assert s[1..][k - 1..] == s[k..];
      LikeBefore(p, s[1..], k - 1);
    }
  }

  /** '%' stands for any text, and '_' for any one character. */
  lemma LikeWildcards(p: string, s: string)
    ensures Like("%" + p, s) <==> exists k | 0 <= k <= |s| :: Like(p, s[k..])
    ensures Like("_" + p, s) <==> s != "" && Like(p, s[1..])
  {
    if Like("%" + p, s) {
      var k := LikeAfter(p, s);
    }
    if k :| 0 <= k <= |s| && Like(p, s[k..]) {
      LikeBefore(p, s, k);
    }
    assert ("_" + p)[1..] == p && ("_" + p)[0] == '_';
  }

  /** Lower case: the letters from A to Z move to those from a to z, and nothing else changes. */
  lemma LowerIs(s: string)
    ensures |Lower(s)| == |s|
    ensures forall k | 0 <= k < |s| ::
              Lower(s)[k] as int == if 'A' <= s[k] <= 'Z' then s[k] as int + 32 else s[k] as int
  {
  }
}
