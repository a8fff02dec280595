/**
 * Python string operations that the reconciliation relies on: substring
 * containment (`k in s`), `str.strip()` and `str.lower()`, and the
 * code-point ordering Python uses to compare strings.
 */
module Text {

  /** `k` occurs in `s` starting at index `i`. */
  predicate OccursAt(s: string, k: string, i: int) {
    0 <= i && i + |k| <= |s| && s[i..i + |k|] == k
  }

  /** Python's `k in s` for strings. */
  predicate Contains(s: string, k: string) {
    exists i | 0 <= i <= |s| - |k| :: OccursAt(s, k, i)
  }

  /** Python's `any(k in s for k in ks)`. */
  predicate ContainsAny(s: string, ks: seq<string>) {
    exists j | 0 <= j < |ks| :: Contains(s, ks[j])
  }

  /** If `k` contains `m` at offset `d`, then every string containing `k` contains `m`. */
  lemma ContainsVia(s: string, k: string, m: string, d: nat)
    requires OccursAt(k, m, d)
    requires Contains(s, k)
    ensures Contains(s, m)
  {
    var i :| 0 <= i <= |s| - |k| && OccursAt(s, k, i);
    forall j | 0 <= j < |m| ensures s[i + d + j] == m[j] {
      assert s[i + d + j] == s[i..i + |k|][d + j] == k[d + j];
      assert k[d + j] == k[d..d + |m|][j];
    }
    assert s[i + d..i + d + |m|] == m;
    assert OccursAt(s, m, i + d);
  }

  /** The characters Python's `str.isspace()` accepts, which `str.strip()` removes. */
  predicate IsSpace(c: char) {
    ('\U{9}' <= c <= '\U{D}') || ('\U{1C}' <= c <= '\U{20}') || c == '\U{85}' || c == '\U{A0}'
    || c == '\U{1680}' || ('\U{2000}' <= c <= '\U{200A}') || c == '\U{2028}' || c == '\U{2029}'
    || c == '\U{202F}' || c == '\U{205F}' || c == '\U{3000}'
  }

  function TrimLeft(s: string): string {
    if s != [] && IsSpace(s[0]) then TrimLeft(s[1..]) else s
  }

  function TrimRight(s: string): string {
    if s != [] && IsSpace(s[|s| - 1]) then TrimRight(s[..|s| - 1]) else s
  }

  /** Python's `str.strip()` with no argument: no whitespace is left at either end. */
  function Strip(s: string): (r: string)
    ensures |r| <= |s|
    ensures r == [] || (!IsSpace(r[0]) && !IsSpace(r[|r| - 1]))
  {
    TrimLeftCuts(s);
    TrimRightCuts(TrimLeft(s));
    var r := TrimRight(TrimLeft(s));
    assert r != [] ==> r[0] == TrimLeft(s)[0];
    r
  }

  /** `TrimLeft` removes a prefix of whitespace and stops at a non-space. */
  lemma {:induction false} TrimLeftCuts(s: string)
    ensures TrimLeft(s) == [] || !IsSpace(TrimLeft(s)[0])
    ensures |TrimLeft(s)| <= |s| && TrimLeft(s) == s[|s| - |TrimLeft(s)|..]
    ensures forall i | 0 <= i < |s| - |TrimLeft(s)| :: IsSpace(s[i])
  {
    if s != [] && IsSpace(s[0]) {
      TrimLeftCuts(s[1..]);
    }
  }

  /** `TrimRight` removes a suffix of whitespace and stops at a non-space. */
  lemma {:induction false} TrimRightCuts(s: string)
    ensures TrimRight(s) == [] || !IsSpace(TrimRight(s)[|TrimRight(s)| - 1])
    ensures |TrimRight(s)| <= |s| && TrimRight(s) == s[..|TrimRight(s)|]
    ensures forall i | |TrimRight(s)| <= i < |s| :: IsSpace(s[i])
  {
    if s != [] && IsSpace(s[|s| - 1]) {
      TrimRightCuts(s[..|s| - 1]);
    }
  }

  predicate IsAsciiLetter(c: char) {
    ('A' <= c <= 'Z') || ('a' <= c <= 'z')
  }

  predicate IsUpper(c: char) {
    'A' <= c <= 'Z'
  }

  /** An upper-case ASCII letter becomes its lower-case partner; every other character is kept. */
  function LowerChar(c: char): (d: char)
    ensures !IsUpper(d)
    ensures IsUpper(c) ==> d as int == c as int + 32 && IsAsciiLetter(d)
    ensures !IsUpper(c) ==> d == c
  {
    if IsUpper(c) then (c as int + 32) as char else c
  }

  /** `str.lower()` restricted to the ASCII letters: no upper-case letter is left. */
  function Lower(s: string): (r: string)
    ensures |r| == |s|
    ensures forall i | 0 <= i < |r| :: !IsUpper(r[i])
    ensures forall i | 0 <= i < |s| :: !IsUpper(s[i]) ==> r[i] == s[i]
    ensures forall i | 0 <= i < |s| :: IsUpper(s[i]) ==> r[i] as int == s[i] as int + 32
  {
    seq(|s|, i requires 0 <= i < |s| => LowerChar(s[i]))
  }

  /** Lower-casing twice is lower-casing once; text without upper-case letters is unchanged. */
  lemma {:induction false} LowerIdempotent(s: string)
    ensures Lower(Lower(s)) == Lower(s)
    ensures (forall i | 0 <= i < |s| :: !IsUpper(s[i])) ==> Lower(s) == s
  {
    var l := Lower(s);
    assert forall i | 0 <= i < |l| :: Lower(l)[i] == l[i];
  }

  /**
   * A keyword with no ASCII letter and no whitespace at either end: the
   * form every status keyword of the reconciliation has.
   */
  predicate Plain(k: string) {
    |k| > 0 && !IsSpace(k[0]) && !IsSpace(k[|k| - 1])
    && forall i | 0 <= i < |k| :: !IsAsciiLetter(k[i])
  }

  /** Lower-casing does not change whether a plain keyword occurs. */
  lemma ContainsLower(s: string, k: string)
    requires Plain(k)
    ensures Contains(Lower(s), k) <==> Contains(s, k)
  {
    forall i | 0 <= i <= |s| - |k|
      ensures OccursAt(Lower(s), k, i) <==> OccursAt(s, k, i)
    {
      if OccursAt(s, k, i) {
        forall j | 0 <= j < |k| ensures Lower(s)[i + j] == k[j] {
          assert s[i + j] == s[i..i + |k|][j] == k[j];
        }
        assert Lower(s)[i..i + |k|] == k;
      }
      if OccursAt(Lower(s), k, i) {
        forall j | 0 <= j < |k| ensures s[i + j] == k[j] {
          assert Lower(s)[i + j] == Lower(s)[i..i + |k|][j] == k[j];
        }
        assert s[i..i + |k|] == k;
      }
    }
  }

  /** `Strip(s)` is the slice of `s` between its leading and trailing whitespace. */
  lemma StripSlice(s: string) returns (a: nat)
    ensures a + |Strip(s)| <= |s| && Strip(s) == s[a..a + |Strip(s)|]
    ensures forall i | 0 <= i < a :: IsSpace(s[i])
    ensures forall i | a + |Strip(s)| <= i < |s| :: IsSpace(s[i])
  {
    var l := TrimLeft(s);
    TrimLeftCuts(s);
    TrimRightCuts(l);
    a := |s| - |l|;
    assert forall i | a + |Strip(s)| <= i < |s| :: s[i] == l[i - a];
  }

  /** A slice of a slice of `s` is a slice of `s`. */
  lemma SliceWithin(s: string, a: nat, r: string, x: nat, len: nat)
    requires a + |r| <= |s| && r == s[a..a + |r|] && x + len <= |r|
    ensures r[x..x + len] == s[a + x..a + x + len]
  {
    var u, v := r[x..x + len], s[a + x..a + x + len];
    forall j | 0 <= j < len ensures u[j] == v[j] {
      assert r[x + j] == s[a..a + |r|][x + j];
    }
  }

  /** A plain keyword that occurs in `s` occurs in `Strip(s)`. */
  lemma ContainsStripped(s: string, k: string)
    requires Plain(k) && Contains(s, k)
    ensures Contains(Strip(s), k)
  {
    var a := StripSlice(s);
    var r := Strip(s);
    var i :| 0 <= i <= |s| - |k| && OccursAt(s, k, i);
    assert s[i] == k[0] && s[i + |k| - 1] == k[|k| - 1];
    assert a <= i && i + |k| <= a + |r|;
    SliceWithin(s, a, r, i - a, |k|);
    assert OccursAt(r, k, i - a);
  }

  /** Removing surrounding whitespace does not change whether a plain keyword occurs. */
  lemma ContainsStrip(s: string, k: string)
    requires Plain(k)
    ensures Contains(Strip(s), k) <==> Contains(s, k)
  {
    if Contains(s, k) {
      ContainsStripped(s, k);
    }
    if Contains(Strip(s), k) {
      var a := StripSlice(s);
      var i :| 0 <= i <= |Strip(s)| - |k| && OccursAt(Strip(s), k, i);
      SliceWithin(s, a, Strip(s), i, |k|);
      assert OccursAt(s, k, a + i);
    }
  }

  /** Python's `<=` on strings: lexicographic by code point. */
  predicate StrLe(a: string, b: string) {
    a == [] || (b != [] && (a[0] < b[0] || (a[0] == b[0] && StrLe(a[1..], b[1..]))))
  }

  lemma StrLeTotal(a: string, b: string)
    ensures StrLe(a, b) || StrLe(b, a)
  {
    if a != [] && b != [] && a[0] == b[0] {
      StrLeTotal(a[1..], b[1..]);
    }
  }

  lemma StrLeTransitive(a: string, b: string, c: string)
    requires StrLe(a, b) && StrLe(b, c)
    ensures StrLe(a, c)
  {
    if a != [] && b != [] && c != [] && a[0] == b[0] == c[0] {
      StrLeTransitive(a[1..], b[1..], c[1..]);
    }
  }
}
