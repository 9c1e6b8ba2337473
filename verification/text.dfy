/**
  String helpers shared by every page: ASCII case mapping (the model's stand-in
  for `toLowerCase` / `toUpperCase`), substring search (`includes`), joining
  and whitespace trimming (`trim`).
 */
module Text {

  // ---------------------------------------------------------------------------
  // Case mapping
  // ---------------------------------------------------------------------------

  predicate IsUpperAZ(c: char) { 'A' <= c <= 'Z' }

  predicate IsLowerAZ(c: char) { 'a' <= c <= 'z' }

  predicate IsAsciiLetter(c: char) { IsUpperAZ(c) || IsLowerAZ(c) }

  function LowerChar(c: char): char {
    if IsUpperAZ(c) then (c as int + 32) as char else c
  }

  function UpperChar(c: char): char {
    if IsLowerAZ(c) then (c as int - 32) as char else c
  }

  /** `s.toLowerCase()`, restricted to ASCII letters. */
  function Lower(s: string): (r: string)
    ensures |r| == |s|
    ensures forall i :: 0 <= i < |r| ==> !IsUpperAZ(r[i])
    ensures forall i :: 0 <= i < |r| && !IsAsciiLetter(s[i]) ==> r[i] == s[i]
  {
    seq(|s|, i requires 0 <= i < |s| => LowerChar(s[i]))
  }

  /** `s.toUpperCase()`, restricted to ASCII letters. */
  function Upper(s: string): (r: string)
    ensures |r| == |s|
    ensures forall i :: 0 <= i < |r| ==> !IsLowerAZ(r[i])
    ensures forall i :: 0 <= i < |r| && !IsAsciiLetter(s[i]) ==> r[i] == s[i]
  {
    seq(|s|, i requires 0 <= i < |s| => UpperChar(s[i]))
  }

  /** Every string of a list lower-cased, in order. */
  function LowerAll(items: seq<string>): (r: seq<string>)
    ensures |r| == |items|
    ensures forall i :: 0 <= i < |r| ==> r[i] == Lower(items[i])
  {
    seq(|items|, i requires 0 <= i < |items| => Lower(items[i]))
  }

  lemma LowerAppend(a: string, b: string)
    ensures Lower(a + b) == Lower(a) + Lower(b)
  {
    assert forall i :: 0 <= i < |a + b| ==> Lower(a + b)[i] == (Lower(a) + Lower(b))[i];
  }

  lemma LowerIdempotent(s: string)
    ensures Lower(Lower(s)) == Lower(s)
  {
    assert forall i :: 0 <= i < |s| ==> Lower(Lower(s))[i] == Lower(s)[i];
  }

  lemma LowerSlice(s: string, i: int, j: int)
    requires 0 <= i <= j <= |s|
    ensures Lower(s)[i..j] == Lower(s[i..j])
  {
  }

  // ---------------------------------------------------------------------------
  // Substring search
  // ---------------------------------------------------------------------------

  /** `t` occurs in `s` starting at position `k`. */
  predicate OccursAt(s: string, t: string, k: nat) {
    k + |t| <= |s| && s[k..k + |t|] == t
  }

  /** `s.includes(t)`: a scan that tries every start position in turn. */
  predicate Contains(s: string, t: string)
    decreases |s|
  {
    (|t| <= |s| && s[..|t|] == t) || (|s| > 0 && Contains(s[1..], t))
  }

  /** `Contains` is exactly "occurs at some position". */
  lemma {:induction false} ContainsIff(s: string, t: string)
    ensures Contains(s, t) <==> exists k: nat :: k <= |s| && OccursAt(s, t, k)
    decreases |s|
  {
    if |t| <= |s| && s[..|t|] == t {
      assert OccursAt(s, t, 0);
    } else if |s| > 0 {
      ContainsIff(s[1..], t);
      if Contains(s[1..], t) {
        var k: nat :| k <= |s[1..]| && OccursAt(s[1..], t, k);
        assert s[1..][k..k + |t|] == s[k + 1..k + 1 + |t|];
        assert OccursAt(s, t, k + 1);
      }
      if exists k: nat :: k <= |s| && OccursAt(s, t, k) {
        var k: nat :| k <= |s| && OccursAt(s, t, k);
        if k > 0 {
          assert s[1..][k - 1..k - 1 + |t|] == s[k..k + |t|];
          assert OccursAt(s[1..], t, k - 1);
        }
      }
    }
  }

  lemma ContainsAt(s: string, t: string, k: nat)
    requires OccursAt(s, t, k)
    ensures Contains(s, t)
  {
    ContainsIff(s, t);
  }

  /** A needle found in a part of a concatenation is found in the whole. */
  lemma ContainsInConcat(a: string, b: string, t: string)
    ensures Contains(a, t) ==> Contains(a + b, t)
    ensures Contains(b, t) ==> Contains(a + b, t)
  {
    ContainsIff(a, t);
    ContainsIff(b, t);
    if Contains(a, t) {
      var k: nat :| k <= |a| && OccursAt(a, t, k);
      assert (a + b)[k..k + |t|] == a[k..k + |t|];
      ContainsAt(a + b, t, k);
    }
    if Contains(b, t) {
      var k: nat :| k <= |b| && OccursAt(b, t, k);
      assert (a + b)[|a| + k..|a| + k + |t|] == b[k..k + |t|];
      ContainsAt(a + b, t, |a| + k);
    }
  }

  /** Substring containment is transitive. */
  lemma ContainsTransitive(s: string, u: string, t: string)
    requires Contains(s, u) && Contains(u, t)
    ensures Contains(s, t)
  {
    ContainsIff(s, u);
    ContainsIff(u, t);
    var k: nat :| k <= |s| && OccursAt(s, u, k);
    var m: nat :| m <= |u| && OccursAt(u, t, m);
    forall i | 0 <= i < |t|
      ensures s[k + m..k + m + |t|][i] == t[i]
    {
      assert t[i] == u[m + i] == s[k + m + i];
    }
    ContainsAt(s, t, k + m);
  }

  /** The empty needle is found everywhere. */
  lemma ContainsEmpty(s: string)
    ensures Contains(s, "")
  {
    assert s[..0] == "";
  }

  /** Lower-casing both sides keeps a match. */
  lemma ContainsLower(s: string, t: string)
    requires Contains(s, t)
    ensures Contains(Lower(s), Lower(t))
  {
    ContainsIff(s, t);
    var k: nat :| k <= |s| && OccursAt(s, t, k);
    LowerSlice(s, k, k + |t|);
    ContainsAt(Lower(s), Lower(t), k);
  }

  /** For a one-character needle, `includes` is plain membership. */
  lemma ContainsChar(s: string, c: char)
    ensures Contains(s, [c]) <==> c in s
  {
    ContainsIff(s, [c]);
    if c in s {
      var k :| 0 <= k < |s| && s[k] == c;
      assert OccursAt(s, [c], k);
    }
    if Contains(s, [c]) {
      var k: nat :| k <= |s| && OccursAt(s, [c], k);
      assert s[k..k + 1][0] == s[k];
      assert s[k] == c;
    }
  }

  // ---------------------------------------------------------------------------
  // Joining
  // ---------------------------------------------------------------------------

  /** `parts.join(sep)`. */
  function Join(parts: seq<string>, sep: string): (r: string)
    ensures |parts| == 0 ==> r == ""
  {
    if |parts| == 0 then ""
    else if |parts| == 1 then parts[0]
    else parts[0] + sep + Join(parts[1..], sep)
  }

  /** Every part is a substring of the joined string. */
  lemma {:induction false} JoinContainsPart(parts: seq<string>, sep: string, i: nat)
    requires i < |parts|
    ensures Contains(Join(parts, sep), parts[i])
  {
    if |parts| == 1 {
      ContainsIff(parts[0], parts[0]);
      assert OccursAt(parts[0], parts[0], 0);
    } else if i == 0 {
      ContainsIff(parts[0], parts[0]);
      assert OccursAt(parts[0], parts[0], 0);
      ContainsInConcat(parts[0], sep + Join(parts[1..], sep), parts[0]);
      assert parts[0] + sep + Join(parts[1..], sep) == parts[0] + (sep + Join(parts[1..], sep));
    } else {
      JoinContainsPart(parts[1..], sep, i - 1);
      ContainsInConcat(parts[0] + sep, Join(parts[1..], sep), parts[i]);
    }
  }

  // ---------------------------------------------------------------------------
  // Whitespace and trimming
  // ---------------------------------------------------------------------------

  /** The characters `trim` and the regular-expression class `\s` treat as white space
      (the ASCII ones plus the common Unicode ones; the full Zs category is not listed). */
  predicate IsSpace(c: char) {
    c == ' ' || c == '\t' || c == '\n' || c == '\r' || c == '\U{B}' || c == '\U{C}'
    || c == '\U{A0}' || c == '\U{2028}' || c == '\U{2029}' || c == '\U{FEFF}'
  }

  predicate AllSpace(s: string) {
    forall i :: 0 <= i < |s| ==> IsSpace(s[i])
  }

  function TrimStart(s: string): (r: string)
    decreases |s|
  {
    if |s| > 0 && IsSpace(s[0]) then TrimStart(s[1..]) else s
  }

  function TrimEnd(s: string): (r: string)
    decreases |s|
  {
    if |s| > 0 && IsSpace(s[|s| - 1]) then TrimEnd(s[..|s| - 1]) else s
  }

  /** `s` is `r` with an all-space prefix of length `i` and an all-space suffix. */
  predicate TrimmedAt(s: string, r: string, i: nat) {
    i + |r| <= |s| && s[i..i + |r|] == r && AllSpace(s[..i]) && AllSpace(s[i + |r|..])
  }

  lemma {:induction false} TrimStartSpec(s: string)
    ensures |TrimStart(s)| <= |s|
    ensures TrimmedAt(s, TrimStart(s), |s| - |TrimStart(s)|)
    ensures |TrimStart(s)| > 0 ==> !IsSpace(TrimStart(s)[0])
    decreases |s|
  {
    if |s| > 0 && IsSpace(s[0]) {
      TrimStartSpec(s[1..]);
      var r := TrimStart(s[1..]);
      var i := |s[1..]| - |r|;
      assert s[1..][..i] == s[1..i + 1];
      assert s[..i + 1] == [s[0]] + s[1..][..i];
      assert i + 1 + |r| == |s|;
      assert s[i + 1..i + 1 + |r|] == s[i + 1..];
      assert s[1..][i..i + |r|] == s[1..][i..];
      assert s[1..][i..] == s[i + 1..];
      assert s[i + 1 + |r|..] == s[1..][i + |r|..];
    }
  }

  lemma {:induction false} TrimEndSpec(s: string)
    ensures |TrimEnd(s)| <= |s| && TrimEnd(s) == s[..|TrimEnd(s)|]
    ensures AllSpace(s[|TrimEnd(s)|..])
    ensures |TrimEnd(s)| > 0 ==> !IsSpace(TrimEnd(s)[|TrimEnd(s)| - 1])
    decreases |s|
  {
    if |s| > 0 && IsSpace(s[|s| - 1]) {
      var p := s[..|s| - 1];
      TrimEndSpec(p);
      var n := |TrimEnd(p)|;
      assert p[..n] == s[..n];
      assert s[n..] == p[n..] + [s[|s| - 1]];
    }
  }

  /** `s.trim()`: removes leading and trailing white space, and nothing else. */
  function Trim(s: string): (r: string)
    ensures exists i: nat :: TrimmedAt(s, r, i)
    ensures |r| > 0 ==> !IsSpace(r[0]) && !IsSpace(r[|r| - 1])
  {
    var e := TrimEnd(s);
    TrimEndSpec(s);
    TrimStartSpec(e);
    var r := TrimStart(e);
    var i := |e| - |r|;
    assert s[i..i + |r|] == e[i..i + |r|];
    assert s[..i] == e[..i];
    assert s[i + |r|..] == e[i + |r|..] + s[|e|..];
    assert TrimmedAt(s, r, i);
    assert |r| > 0 ==> r[|r| - 1] == e[|e| - 1];
    r
  }

  /** Trailing white space never survives a trim. */
  lemma {:induction false} TrimEndAppendSpace(a: string, w: string)
    requires AllSpace(w)
    ensures TrimEnd(a + w) == TrimEnd(a)
    decreases |w|
  {
    if |w| > 0 {
      assert (a + w)[..|a + w| - 1] == a + w[..|w| - 1];
      TrimEndAppendSpace(a, w[..|w| - 1]);
    } else {
      assert a + w == a;
    }
  }

  lemma TrimAppendSpace(a: string, w: string)
    requires AllSpace(w)
    ensures Trim(a + w) == Trim(a)
  {
    TrimEndAppendSpace(a, w);
  }
}
