// Layouts as text: what the buffer stands for, and how writing changes it.
module DateSpelling {
  import opened DateText
  import opened DateParser

  predicate Digits(w: string) { forall k :: 0 <= k < |w| ==> IsDigit(w[k]) }

  predicate Letters(w: string) { forall k :: 0 <= k < |w| ==> IsLetter(w[k]) }

  lemma LetterBytes(s: string, i: nat, w: string)
    requires i + |w| <= |s| && s[i..i + |w|] == w && Letters(w)
    ensures forall k :: i <= k < i + |w| ==> IsLetter(s[k])
  {
    forall k | i <= k < i + |w| ensures IsLetter(s[k]) { assert s[k] == w[k - i]; }
  }

  lemma DigitBytes(s: string, i: nat, w: string)
    requires i + |w| <= |s| && s[i..i + |w|] == w && Digits(w)
    ensures forall k :: i <= k < i + |w| ==> IsDigit(s[k])
  {
    forall k | i <= k < i + |w| ensures IsDigit(s[k]) { assert s[k] == w[k - i]; }
  }

  /** v put over t at a, if it fits. */
  function Over(t: string, a: int, v: string): (r: string)
    ensures |r| == |t|
  {
    if a < 0 || |t| < a + |v| then t else t[..a] + v + t[a + |v|..]
  }

  lemma OverAt(t: string, a: int, v: string, k: nat)
    requires k < |t|
    ensures Over(t, a, v)[k] == if 0 <= a && a + |v| <= |t| && a <= k < a + |v| then v[k - a] else t[k]
  {}

  lemma RenderWrite(l: seq<Cell>, a: int, v: string, s: string)
    ensures Render(Write(l, a, v), s) == Over(Render(l, s), a, v)
  {}

  lemma RenderFresh(s: string)
    ensures Render(Fresh(|s|), s) == s
  {}

  lemma OverPart(a: string, b: string, c: string, v: string)
    requires |v| == |b|
    ensures Over(a + b + c, |a|, v) == a + v + c
  {
    assert (a + b + c)[..|a|] == a && (a + b + c)[|a| + |v|..] == c;
  }

  lemma Regroup(a: string, b: string, c: string)
    ensures a + b + c == a + (b + c)
  {}

  /** Writing over the w between a and c. */
  lemma WriteReads(l: seq<Cell>, a: string, w: string, c: string, s: string, v: string)
    requires Render(l, s) == a + w + c && |v| == |w|
    ensures Render(Write(l, |a|, v), s) == a + v + c
  {
    RenderWrite(l, |a|, v, s);
    OverPart(a, w, c, v);
  }

  lemma EitherReads(l: seq<Cell>, a: string, w: string, c: string, s: string, n1: int, v1: string, n2: int, v2: string)
    requires Render(l, s) == a + w + c && |v1| == n1 && |v2| == n2
    ensures Render(Either(l, |a|, |w|, n1, v1, n2, v2), s) == a + (if |w| == n1 then v1 else if |w| == n2 then v2 else w) + c
  {
    if |w| == n1 { WriteReads(l, a, w, c, s, v1); }
    else if |w| == n2 { WriteReads(l, a, w, c, s, v2); }
  }

  predicate OneOrTwo(w: string) { Digits(w) && 1 <= |w| <= 2 }
}
