// Dates of three fields with separators between them: where the fields are in a string, and
// what writing over them does to the layout.
module DateFields {
  import opened DateText
  import opened DateParser
  import opened DateSpelling

  /** Three fields a, b and c, with p behind a and q behind b, and the rest behind c. */
  function Three(a: string, p: string, b: string, q: string, c: string, r: string): (s: string)
    ensures |s| == |a| + |p| + |b| + |q| + |c| + |r|
  {
    a + p + b + q + c + r
  }

  lemma ThreeParts(a: string, p: string, b: string, q: string, c: string, r: string)
    ensures var s := Three(a, p, b, q, c, r);
            var i := |a| + |p|;
            var j := i + |b| + |q|;
            && s[0..|a|] == a && s[|a|..i] == p
            && s[i..i + |b|] == b && s[i + |b|..j] == q
            && s[j..j + |c|] == c && s[j + |c|..] == r
  {}

  lemma FirstReads(l: seq<Cell>, s: string, a: string, p: string, b: string, q: string, c: string, r: string, v: string)
    requires Render(l, s) == Three(a, p, b, q, c, r) && |v| == |a|
    ensures Render(Write(l, 0, v), s) == Three(v, p, b, q, c, r)
  {
    hide Render, Write;
    Apart3(a, p, b, q, c, r);
    Apart3(v, p, b, q, c, r);
    WriteReads(l, "", a, p + b + q + c + r, s, v);
  }

  lemma SecondReads(l: seq<Cell>, s: string, a: string, p: string, b: string, q: string, c: string, r: string, v: string)
    requires Render(l, s) == Three(a, p, b, q, c, r) && |v| == |b|
    ensures Render(Write(l, |a| + |p|, v), s) == Three(a, p, v, q, c, r)
  {
    hide Render, Write;
    Apart3(a, p, b, q, c, r);
    Apart3(a, p, v, q, c, r);
    WriteReads(l, a + p, b, q + c + r, s, v);
  }

  lemma ThirdReads(l: seq<Cell>, s: string, a: string, p: string, b: string, q: string, c: string, r: string, v: string)
    requires Render(l, s) == Three(a, p, b, q, c, r) && |v| == |c|
    ensures Render(Write(l, |a| + |p| + |b| + |q|, v), s) == Three(a, p, b, q, v, r)
  {
    hide Render, Write;
    Apart3(a, p, b, q, c, r);
    Apart3(a, p, b, q, v, r);
    WriteReads(l, a + p + b + q, c, r, s, v);
  }

  lemma RestReads(l: seq<Cell>, s: string, a: string, p: string, b: string, q: string, c: string, r: string, v: string)
    requires Render(l, s) == Three(a, p, b, q, c, r) && |v| == |r|
    ensures Render(Write(l, |a| + |p| + |b| + |q| + |c|, v), s) == Three(a, p, b, q, c, v)
  {
    hide Render, Write;
    LastApart(a, p, b, q, c, r);
    LastApart(a, p, b, q, c, v);
    WriteReads(l, a + p + b + q + c, r, "", s, v);
  }

  lemma LastApart(a: string, p: string, b: string, q: string, c: string, r: string)
    ensures Three(a, p, b, q, c, r) == (a + p + b + q + c) + r + ""
  {}

  lemma Apart3(a: string, p: string, b: string, q: string, c: string, r: string)
    ensures Three(a, p, b, q, c, r) == "" + a + (p + b + q + c + r)
    ensures Three(a, p, b, q, c, r) == (a + p) + b + (q + c + r)
    ensures Three(a, p, b, q, c, r) == (a + p + b + q) + c + r
  {}
}
