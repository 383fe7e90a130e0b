/** Small value types and string helpers shared by the whole model. */
module Common {

  datatype Option<+T> = None | Some(value: T)

  /** A field of a JSON request body: absent (`undefined`) or present with a value. */
  datatype Patch<+T> = Keep | Set(value: T)

  function PatchOr<T>(p: Patch<T>, current: T): T
  {
    match p
    case Keep => current
    case Set(v) => v
  }

  /** JavaScript `x || null` on an optional text value: the empty string is falsy. */
  function OrNull(s: Option<string>): (r: Option<string>)
    ensures r.None? <==> (s.None? || s.value == "")
    ensures r.Some? ==> r == s
  {
    if s.Some? && s.value != "" then s else None
  }

  /** JavaScript truthiness of an optional text value. */
  predicate Truthy(s: Option<string>)
  {
    s.Some? && s.value != ""
  }

  // ---------------------------------------------------------------------------
  // Substrings (String.prototype.includes)

  predicate OccursAt(s: string, t: string, i: nat)
  {
    i + |t| <= |s| && s[i..i + |t|] == t
  }

  predicate Contains(s: string, t: string)
  {
    exists i: nat | i <= |s| :: OccursAt(s, t, i)
  }

  predicate Absent(s: string, c: char)
  {
    forall i :: 0 <= i < |s| ==> s[i] != c
  }

  lemma ContainsAt(s: string, t: string, i: nat)
    requires i + |t| <= |s|
    requires forall j :: 0 <= j < |t| ==> s[i + j] == t[j]
    ensures Contains(s, t)
  {
    assert s[i..i + |t|] == t;
    assert OccursAt(s, t, i);
  }

  /** A string cannot contain a word one of whose letters it lacks. */
  lemma NotContainsByChar(s: string, t: string, k: nat)
    requires k < |t| && Absent(s, t[k])
    ensures !Contains(s, t)
  {
    forall i: nat
      ensures !OccursAt(s, t, i)
    {
      if i + |t| <= |s| {
        assert s[i..i + |t|][k] == s[i + k];
      }
    }
  }

  lemma AbsentConcat(a: string, b: string, c: char)
    requires Absent(a, c) && Absent(b, c)
    ensures Absent(a + b, c)
  {
    forall i | 0 <= i < |a + b|
      ensures (a + b)[i] != c
    {
      if i >= |a| {
        assert (a + b)[i] == b[i - |a|];
      }
    }
  }

  // ---------------------------------------------------------------------------
  // Lexicographic order on strings (SQLite's BINARY collation for ORDER BY)

  predicate LexLessFrom(a: string, b: string, i: nat)
    decreases |a| - i
  {
    || (i == |a| && i < |b|)
    || (i < |a| && i < |b| && (a[i] < b[i] || (a[i] == b[i] && LexLessFrom(a, b, i + 1))))
  }

  predicate LexLess(a: string, b: string)
  {
    LexLessFrom(a, b, 0)
  }

  /** Agreement of two strings on their first i characters. */
  predicate AgreeUpTo(a: string, b: string, i: nat)
  {
    i <= |a| && i <= |b| && forall k :: 0 <= k < i ==> a[k] == b[k]
  }

  lemma {:induction false} LexLessFromIrreflexive(a: string, i: nat)
    requires i <= |a|
    ensures !LexLessFrom(a, a, i)
    decreases |a| - i
  {
    if i < |a| {
      LexLessFromIrreflexive(a, i + 1);
    }
  }

  lemma {:induction false} LexLessFromTransitive(a: string, b: string, c: string, i: nat)
    requires AgreeUpTo(a, b, i) && AgreeUpTo(b, c, i)
    requires LexLessFrom(a, b, i) && LexLessFrom(b, c, i)
    ensures LexLessFrom(a, c, i)
    decreases |a| - i
  {
    if i < |a| && a[i] == b[i] && b[i] == c[i] {
      LexLessFromTransitive(a, b, c, i + 1);
    }
  }

  lemma {:induction false} LexLessFromTotal(a: string, b: string, i: nat)
    requires AgreeUpTo(a, b, i)
    requires a != b
    ensures LexLessFrom(a, b, i) || LexLessFrom(b, a, i)
    decreases |a| - i
  {
    if i == |a| || i == |b| {
      if i == |a| && i == |b| {
        assert false;
      }
    } else if a[i] == b[i] {
      LexLessFromTotal(a, b, i + 1);
    }
  }

  lemma LexLessIrreflexive(a: string)
    ensures !LexLess(a, a)
  {
    LexLessFromIrreflexive(a, 0);
  }

  lemma LexLessTransitive(a: string, b: string, c: string)
    requires LexLess(a, b) && LexLess(b, c)
    ensures LexLess(a, c)
  {
    LexLessFromTransitive(a, b, c, 0);
  }

  lemma LexLessTotal(a: string, b: string)
    requires a != b
    ensures LexLess(a, b) || LexLess(b, a)
  {
    LexLessFromTotal(a, b, 0);
  }

  lemma LexLessAsymmetric(a: string, b: string)
    requires LexLess(a, b)
    ensures !LexLess(b, a)
  {
    if LexLess(b, a) {
      LexLessTransitive(a, b, a);
      LexLessIrreflexive(a);
    }
  }

  // ---------------------------------------------------------------------------
  // JavaScript String(n) for whole numbers

  function DigitChar(d: nat): (c: char)
    requires d < 10
    ensures '0' <= c <= '9'
  {
    "0123456789"[d]
  }

  function NatToString(n: nat): (s: string)
    ensures |s| > 0
    ensures forall k :: 0 <= k < |s| ==> '0' <= s[k] <= '9'
    decreases n
  {
    if n < 10 then [DigitChar(n)] else NatToString(n / 10) + [DigitChar(n % 10)]
  }

  function IntToString(n: int): (s: string)
    ensures |s| > 0
    ensures n >= 0 ==> s == NatToString(n)
    ensures n < 0 ==> s == "-" + NatToString(-n)
  {
    if n >= 0 then NatToString(n) else "-" + NatToString(-n)
  }
}
