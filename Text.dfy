/** Small string functions standing in for java.lang.Character (restricted to
    ASCII letters) and for the commons-lang3 StringUtils helpers the printer uses. */
module Text {

  predicate IsUpper(c: char) { 'A' <= c <= 'Z' }

  predicate IsLower(c: char) { 'a' <= c <= 'z' }

  function ToLower(c: char): (r: char)
    ensures IsUpper(c) ==> IsLower(r) && ToUpper(r) == c
    ensures !IsUpper(c) ==> r == c
  {
    if IsUpper(c) then (c as int - 'A' as int + 'a' as int) as char else c
  }

  function ToUpper(c: char): (r: char)
    ensures IsLower(c) ==> IsUpper(r)
    ensures !IsLower(c) ==> r == c
  {
    if IsLower(c) then (c as int - 'a' as int + 'A' as int) as char else c
  }

  /** `n` copies of `unit`; nothing when `n` is not positive. */
  function Repeat(unit: string, n: int): string
    decreases n
  {
    if n <= 0 then "" else Repeat(unit, n - 1) + unit
  }

  /** `Repeat` unfolds at the front as well as at the back. */
  lemma {:induction false} RepeatFront(unit: string, n: int)
    requires n > 0
    ensures Repeat(unit, n) == unit + Repeat(unit, n - 1)
    decreases n
  {
    if n == 1 {
      assert Repeat(unit, 0) == "";
      assert Repeat(unit, 1) == "" + unit;
    } else {
      RepeatFront(unit, n - 1);
      assert (unit + Repeat(unit, n - 2)) + unit == unit + (Repeat(unit, n - 2) + unit);
    }
  }

  /** The number of copies `Repeat` writes: max(n, 0). */
  function Copies(n: int): nat { if n <= 0 then 0 else n }

  lemma {:induction false} RepeatShape(unit: string, n: int)
    ensures |Repeat(unit, n)| == Copies(n) * |unit|
    ensures forall k :: 0 <= k < Copies(n) ==>
      Repeat(unit, n)[k * |unit| .. (k + 1) * |unit|] == unit
    decreases n
  {
    RepeatLength(unit, n);
    if n > 0 {
      RepeatShape(unit, n - 1);
      var r := Repeat(unit, n);
      var p := Repeat(unit, n - 1);
      assert r == p + unit;
      forall k | 0 <= k < Copies(n)
        ensures r[k * |unit| .. (k + 1) * |unit|] == unit
      {
        ScaleBelow(k, Copies(n - 1), |unit|);
        if k < Copies(n - 1) {
          assert r[k * |unit| .. (k + 1) * |unit|] == p[k * |unit| .. (k + 1) * |unit|];
        } else {
          assert k * |unit| == |p|;
        }
      }
    }
  }

  lemma {:induction false} RepeatLength(unit: string, n: int)
    ensures |Repeat(unit, n)| == Copies(n) * |unit|
    decreases n
  {
    if n > 0 {
      RepeatLength(unit, n - 1);
      assert Copies(n) * |unit| == Copies(n - 1) * |unit| + |unit|;
    }
  }

  /** Whole multiples of a width: the k-th slot ends where the next begins,
      and slots below count c end within c widths. */
  lemma ScaleBelow(k: nat, c: nat, w: nat)
    ensures (k + 1) * w == k * w + w
    ensures k < c ==> (k + 1) * w <= c * w
    ensures k == c ==> k * w == c * w
  {
    assert (k + 1) * w == k * w + w;
    if k < c {
      var d: nat := c - (k + 1);
      assert c * w == (k + 1) * w + d * w;
    }
  }

  /** Concatenation regroups freely. */
  lemma ConcatAssociative(a: string, b: string, c: string)
    ensures a + b + c == a + (b + c)
  {
  }

  /** StringUtils.lastIndexOfAny with one-character search strings: the last
      index holding one of `chars`, or -1. */
  function LastIndexOfAny(s: string, chars: set<char>): (i: int)
    ensures -1 <= i < |s|
    ensures i >= 0 ==> s[i] in chars
    ensures forall j :: i < j < |s| ==> s[j] !in chars
  {
    if |s| == 0 then -1
    else if s[|s| - 1] in chars then |s| - 1
    else LastIndexOfAny(s[..|s| - 1], chars)
  }

  /** StringUtils.containsAny with character arguments. */
  predicate ContainsAny(s: string, chars: set<char>) {
    exists i :: 0 <= i < |s| && s[i] in chars
  }

  /** StringUtils.endsWithAny with one-character search strings; false for no
      search strings at all. */
  predicate EndsWithAny(s: string, chars: set<char>) {
    |s| > 0 && s[|s| - 1] in chars
  }

  /** String.replace(char, char). */
  function ReplaceChar(s: string, from: char, to: char): (r: string)
    ensures |r| == |s|
    ensures forall i :: 0 <= i < |s| ==> r[i] == if s[i] == from then to else s[i]
  {
    if s == [] then [] else [if s[0] == from then to else s[0]] + ReplaceChar(s[1..], from, to)
  }
}
