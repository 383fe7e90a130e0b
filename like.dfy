/**
 * SQLite's `LIKE` operator as searchBookings uses it (`col LIKE '%query%'`):
 * `%` matches any run of characters, `_` any one character, and letters
 * compare without regard to ASCII case.  There is no ESCAPE clause.
 */
module SqlLike {
  import opened Common

  /** ASCII case folding: LIKE treats 'A'..'Z' as 'a'..'z' and nothing else. */
  function FoldChar(c: char): (d: char)
    ensures 'A' <= c <= 'Z' ==> d as int == c as int + 32
    ensures !('A' <= c <= 'Z') ==> d == c
  {
    if 'A' <= c <= 'Z' then (c as int + 32) as char else c
  }

  function Fold(s: string): (t: string)
    ensures |t| == |s|
    ensures forall k :: 0 <= k < |s| ==> t[k] == FoldChar(s[k])
  {
    seq(|s|, k requires 0 <= k < |s| => FoldChar(s[k]))
  }

  /**
   * `s LIKE p`. A pattern matches only strings at least as long as its
   * characters other than `%`, and a pattern without `%` only strings of its
   * own length.
   */
  predicate Like(s: string, p: string)
    ensures Like(s, p) ==> |s| >= |p| - PercentCount(p)
    ensures Like(s, p) && PercentCount(p) == 0 ==> |s| == |p|
    decreases |p|, |s|
  {
    assert p != [] ==> p == [p[0]] + p[1..];
    if p == [] then s == []
    else if p[0] == '%' then Like(s, p[1..]) || (s != [] && Like(s[1..], p))
    else s != [] && (p[0] == '_' || FoldChar(s[0]) == FoldChar(p[0])) && Like(s[1..], p[1..])
  }

  function PercentCount(p: string): (n: nat)
    ensures n <= |p|
    decreases |p|
  {
    if p == [] then 0 else (if p[0] == '%' then 1 else 0) + PercentCount(p[1..])
  }

  /** Without wildcards, LIKE is equality of the ASCII case-folded strings. */
  lemma {:induction false} PlainLikeIsFoldedEquality(s: string, p: string)
    requires Plain(p)
    ensures Like(s, p) <==> Fold(s) == Fold(p)
    decreases |p|
  {
    if p != [] && s != [] {
      assert Plain(p[1..]) by {
        forall k | 0 <= k < |p[1..]| ensures p[1..][k] != '%' && p[1..][k] != '_' {
          assert p[1..][k] == p[k + 1];
        }
      }
      PlainLikeIsFoldedEquality(s[1..], p[1..]);
      if Fold(s) == Fold(p) {
        assert FoldChar(s[0]) == Fold(s)[0];
        assert Fold(s[1..]) == Fold(s)[1..];
        assert Fold(p[1..]) == Fold(p)[1..];
      }
      if Like(s, p) {
        assert Fold(s) == [FoldChar(s[0])] + Fold(s[1..]);
        assert Fold(p) == [FoldChar(p[0])] + Fold(p[1..]);
      }
    } else if p != [] {
      assert |Fold(p)| > 0;
    }
  }

  /** The pattern searchBookings binds: `%${query}%`. */
  function SearchPattern(q: string): string
  {
    "%" + q + "%"
  }

  /** A query with no wildcard characters of its own. */
  predicate Plain(q: string)
  {
    forall k :: 0 <= k < |q| ==> q[k] != '%' && q[k] != '_'
  }

  /** `q` matches `s` at position `i`, letter case aside. */
  predicate MatchesAt(s: string, q: string, i: nat)
  {
    i + |q| <= |s| && forall j :: 0 <= j < |q| ==> FoldChar(s[i + j]) == FoldChar(q[j])
  }

  lemma {:induction false} PercentMatchesAll(s: string)
    ensures Like(s, "%")
    decreases |s|
  {
    assert "%"[1..] == [];
    if s != [] {
      PercentMatchesAll(s[1..]);
    }
  }

  lemma {:induction false} LikePrefix(s: string, q: string)
    requires Plain(q)
    ensures Like(s, q + "%") <==> MatchesAt(s, q, 0)
    decreases |q|
  {
    if q == [] {
      assert q + "%" == "%";
      PercentMatchesAll(s);
    } else {
      var p := q + "%";
      assert p[0] == q[0] && p[1..] == q[1..] + "%";
      assert Plain(q[1..]) by {
        forall k | 0 <= k < |q[1..]| ensures q[1..][k] != '%' && q[1..][k] != '_' {
          assert q[1..][k] == q[k + 1];
        }
      }
      if s != [] {
        LikePrefix(s[1..], q[1..]);
        if MatchesAt(s, q, 0) {
          forall j | 0 <= j < |q[1..]|
            ensures FoldChar(s[1..][j]) == FoldChar(q[1..][j])
          {
            assert s[1..][j] == s[j + 1] && q[1..][j] == q[j + 1];
          }
        }
        if Like(s, p) {
          forall j | 0 <= j < |q|
            ensures FoldChar(s[j]) == FoldChar(q[j])
          {
            if j > 0 {
              assert s[1..][j - 1] == s[j] && q[1..][j - 1] == q[j];
            }
          }
        }
      }
    }
  }

  lemma {:induction false} LikeInfix(s: string, q: string)
    requires Plain(q)
    ensures Like(s, SearchPattern(q)) <==> exists i: nat :: i <= |s| && MatchesAt(s, q, i)
    decreases |s|
  {
    var p := SearchPattern(q);
    assert p[0] == '%' && p[1..] == q + "%";
    LikePrefix(s, q);
    if s == [] {
    } else {
      LikeInfix(s[1..], q);
      if Like(s[1..], p) {
        var i: nat :| i <= |s[1..]| && MatchesAt(s[1..], q, i);
        assert MatchesAt(s, q, i + 1) by {
          forall j | 0 <= j < |q| ensures FoldChar(s[i + 1 + j]) == FoldChar(q[j]) {
            assert s[1..][i + j] == s[i + 1 + j];
          }
        }
      }
      if exists i: nat :: i <= |s| && MatchesAt(s, q, i) {
        var i: nat :| i <= |s| && MatchesAt(s, q, i);
        if i > 0 {
          assert MatchesAt(s[1..], q, i - 1) by {
            forall j | 0 <= j < |q| ensures FoldChar(s[1..][i - 1 + j]) == FoldChar(q[j]) {
              assert s[1..][i - 1 + j] == s[i + j];
            }
          }
        }
      }
    }
  }

  /**
   * For a query without wildcards, `s LIKE '%q%'` holds exactly when the
   * case-folded `s` contains the case-folded query.
   */
  lemma SearchIsFoldedSubstring(s: string, q: string)
    requires Plain(q)
    ensures Like(s, SearchPattern(q)) <==> Contains(Fold(s), Fold(q))
  {
    LikeInfix(s, q);
    var fs, fq := Fold(s), Fold(q);
    forall i: nat | i <= |s|
      ensures MatchesAt(s, q, i) <==> OccursAt(fs, fq, i)
    {
      if i + |q| <= |s| {
        if MatchesAt(s, q, i) {
          assert fs[i..i + |q|] == fq by {
            forall j | 0 <= j < |q| ensures fs[i..i + |q|][j] == fq[j] {
              assert fs[i..i + |q|][j] == fs[i + j];
            }
          }
        }
        if OccursAt(fs, fq, i) {
          forall j | 0 <= j < |q| ensures FoldChar(s[i + j]) == FoldChar(q[j]) {
            assert fs[i..i + |q|][j] == fs[i + j];
          }
        }
      }
    }
    if Contains(fs, fq) {
      var i: nat :| i <= |fs| && OccursAt(fs, fq, i);
      assert MatchesAt(s, q, i);
    }
  }

  /** The empty query matches every non-NULL value. */
  lemma EmptyQueryMatchesAll(s: string)
    ensures Like(s, SearchPattern(""))
  {
    assert SearchPattern("") == "%%";
    assert "%%"[1..] == "%";
    PercentMatchesAll(s);
  }

  /** An underscore in the query is a wildcard: "J_n" finds "Jan". */
  lemma UnderscoreIsWildcard()
    ensures Like("Jan", SearchPattern("J_n"))
    ensures !Contains("Jan", "J_n")
  {
    var p := SearchPattern("J_n");
    assert p == "%J_n%";
    assert p[1..] == "J_n%";
    assert p[1..][1..] == "_n%";
    assert p[1..][1..][1..] == "n%";
    assert p[1..][1..][1..][1..] == "%";
    assert "Jan"[1..] == "an" && "an"[1..] == "n" && "n"[1..] == "";
    assert "%"[1..] == [];
    assert Like("", "%");
    assert Like("n", "n%");
    assert Like("an", "_n%");
    assert Like("Jan", "J_n%");
    NotContainsByChar("Jan", "J_n", 1);
  }
}
