/**
 The string operations the inventory view relies on: Python's `str.lower()`
 (restricted to ASCII case mapping) and the substring test `q in text`.
 */
module Text {

  /** True for the ASCII capital letters 'A'..'Z'. */
  predicate IsUpper(c: char) {
    'A' <= c <= 'Z'
  }

  /** ASCII case mapping of a single character: capitals become small letters,
      everything else is left alone. */
  function LowerChar(c: char): (d: char)
    ensures !IsUpper(d)
    ensures !IsUpper(c) ==> d == c
    ensures IsUpper(c) ==> 'a' <= d <= 'z' && d as int - c as int == 'a' as int - 'A' as int
  {
    if IsUpper(c) then (c as int - 'A' as int + 'a' as int) as char else c
  }

  /** `s.lower()`, character by character. */
  function Lower(s: string): (t: string)
    ensures |t| == |s|
    ensures forall i :: 0 <= i < |s| ==> t[i] == LowerChar(s[i])
  {
    seq(|s|, i requires 0 <= i < |s| => LowerChar(s[i]))
  }

  /** A lower-cased string has no capitals left in it. */
  predicate NoUpper(s: string) {
    forall i :: 0 <= i < |s| ==> !IsUpper(s[i])
  }

  /** Lower-casing is idempotent, and it leaves a string without capitals unchanged. */
  lemma LowerIdempotent(s: string)
    ensures NoUpper(Lower(s))
    ensures Lower(Lower(s)) == Lower(s)
    ensures NoUpper(s) ==> Lower(s) == s
  {
  }

  /** Lower-casing distributes over concatenation, so lowering `name + " " + sku`
      is the same as joining the lowered parts. */
  lemma LowerConcat(a: string, b: string)
    ensures Lower(a + b) == Lower(a) + Lower(b)
  {
  }

  /** Reference meaning of `q in t`: `q` occurs in `t` at offset `i`. */
  ghost predicate OccursAt(q: string, t: string, i: int) {
    0 <= i && i + |q| <= |t| && t[i..i + |q|] == q
  }

  /** Reference meaning of `q in t`: there is an offset at which `q` occurs. */
  ghost predicate IsSubstring(q: string, t: string) {
    exists i :: OccursAt(q, t, i)
  }

  /** Dropping the first character of `t` keeps every occurrence of `q` except one
      at offset 0, so when `t` does not begin with `q` the occurrences are the same. */
  lemma OccurrenceShift(t: string, q: string)
    requires |t| > 0 && !(q <= t)
    ensures IsSubstring(q, t) <==> IsSubstring(q, t[1..])
  {
    if IsSubstring(q, t[1..]) {
      var j :| OccursAt(q, t[1..], j);
      assert t[1..][j..j + |q|] == t[j + 1..j + 1 + |q|];
      assert OccursAt(q, t, j + 1);
    }
    if IsSubstring(q, t) {
      var i :| OccursAt(q, t, i);
      assert i != 0;
      assert t[1..][i - 1..i - 1 + |q|] == t[i..i + |q|];
      assert OccursAt(q, t[1..], i - 1);
    }
  }

  /** Python's `q in t`, computed by trying every start position of `t` in turn;
      it holds exactly when `q` occurs in `t` at some offset. */
  function Contains(t: string, q: string): (b: bool)
    ensures b <==> IsSubstring(q, t)
    decreases |t|
  {
    if q <= t then
      assert OccursAt(q, t, 0);
      true
    else if |t| == 0 then
      false
    else
      OccurrenceShift(t, q);
      Contains(t[1..], q)
  }
}
