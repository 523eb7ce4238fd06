// The processes below a process: collecting them from the map of children.
module Children {
  type PidMap = map<nat, seq<nat>>

  /** A missing key reads as no children. */
  function Kids(m: PidMap, p: nat): seq<nat> { if p in m then m[p] else [] }

  /** Nobody is listed twice, and parents are higher than their children. */
  ghost predicate Forest(m: PidMap, height: nat -> nat) {
    && (forall p, q, i, j :: 0 <= i < |Kids(m, p)| && 0 <= j < |Kids(m, q)| && Kids(m, p)[i] == Kids(m, q)[j] ==>
          p == q && i == j)
    && (forall p, i :: 0 <= i < |Kids(m, p)| ==> height(Kids(m, p)[i]) < height(p))
  }

  /** x is n generations below a. */
  ghost predicate Below(m: PidMap, a: nat, x: nat, n: nat)
    decreases n
  {
    if n == 0 then x == a else exists y :: x in Kids(m, y) && Below(m, a, y, n - 1)
  }

  ghost predicate Descendant(m: PidMap, a: nat, x: nat) {
    exists n: nat :: n > 0 && Below(m, a, x, n)
  }

  /** The children from the i-th on, each followed by what is below it. */
  ghost function Collected(m: PidMap, p: nat, i: nat, height: nat -> nat): seq<nat>
    requires Forest(m, height) && i <= |Kids(m, p)|
    decreases height(p), |Kids(m, p)| - i
  {
    if i == |Kids(m, p)| then []
    else [Kids(m, p)[i]] + Collected(m, Kids(m, p)[i], 0, height) + Collected(m, p, i + 1, height)
  }

  /** collectAllChildren.  On a forest it terminates. */
  method CollectAllChildren(ppid: nat, m: PidMap, ghost height: nat -> nat) returns (result: seq<nat>)
    requires Forest(m, height)
    ensures result == Collected(m, ppid, 0, height)
    decreases height(ppid)
  {
    hide Collected, Forest;
    result := [];
    var children := Kids(m, ppid);
    for i := 0 to |children|
      invariant result + Collected(m, ppid, i, height) == Collected(m, ppid, 0, height)
    {
      OneMoreChild(m, ppid, i, height, result);
      var child := children[i];
      result := result + [child];
      var below := CollectAllChildren(child, m, height);
      result := result + below;
    }
    NoMoreChildren(m, ppid, height);
  }

  lemma NoMoreChildren(m: PidMap, p: nat, height: nat -> nat)
    requires Forest(m, height)
    ensures Collected(m, p, |Kids(m, p)|, height) == []
  {}

  lemma OneMoreChild(m: PidMap, p: nat, i: nat, height: nat -> nat, before: seq<nat>)
    requires Forest(m, height) && i < |Kids(m, p)|
    ensures before + Collected(m, p, i, height)
            == before + [Kids(m, p)[i]] + Collected(m, Kids(m, p)[i], 0, height) + Collected(m, p, i + 1, height)
    ensures height(Kids(m, p)[i]) < height(p)
  {
    var c := Kids(m, p)[i];
    var a, b := Collected(m, c, 0, height), Collected(m, p, i + 1, height);
    assert before + ([c] + a + b) == before + [c] + a + b;
  }

  lemma {:induction false} BelowIsLower(m: PidMap, height: nat -> nat, a: nat, x: nat, n: nat)
    requires Forest(m, height) && Below(m, a, x, n)
    ensures height(x) + n <= height(a)
    decreases n
  {
    if n > 0 {
      var y :| x in Kids(m, y) && Below(m, a, y, n - 1);
      BelowIsLower(m, height, a, y, n - 1);
    }
  }

  /** Two ancestors of one process are one below the other. */
  lemma {:induction false} Comparable(m: PidMap, height: nat -> nat, a: nat, b: nat, x: nat, n: nat, k: nat)
    requires Forest(m, height) && Below(m, a, x, n) && Below(m, b, x, k) && n <= k
    ensures Below(m, b, a, k - n)
    decreases n
  {
    hide Forest, Kids;
    if n > 0 {
      var y :| x in Kids(m, y) && Below(m, a, y, n - 1);
      var z :| x in Kids(m, z) && Below(m, b, z, k - 1);
      assert y == z by { OneParent(m, height, x, y, z); }
      Comparable(m, height, a, b, y, n - 1, k - 1);
    }
  }

  lemma OneParent(m: PidMap, height: nat -> nat, x: nat, y: nat, z: nat)
    requires Forest(m, height) && x in Kids(m, y) && x in Kids(m, z)
    ensures y == z
  {
    var i :| 0 <= i < |Kids(m, y)| && Kids(m, y)[i] == x;
    var j :| 0 <= j < |Kids(m, z)| && Kids(m, z)[j] == x;
  }

  /** Siblings have nobody below them in common. */
  lemma SiblingsApart(m: PidMap, height: nat -> nat, p: nat, c: nat, d: nat, x: nat, n: nat, k: nat)
    requires Forest(m, height) && c in Kids(m, p) && d in Kids(m, p)
    requires Below(m, c, x, n) && Below(m, d, x, k)
    ensures c == d
  {
    hide Forest, Below, Kids;
    if n <= k {
      Comparable(m, height, c, d, x, n, k);
      Sibling(m, height, p, c, d, k - n);
    } else {
      Comparable(m, height, d, c, x, k, n);
      Sibling(m, height, p, d, c, n - k);
    }
  }

  lemma Sibling(m: PidMap, height: nat -> nat, p: nat, c: nat, d: nat, n: nat)
    requires Forest(m, height) && c in Kids(m, p) && d in Kids(m, p) && Below(m, d, c, n)
    ensures c == d
  {
    if n > 0 {
      var y :| c in Kids(m, y) && Below(m, d, y, n - 1);
      OneParent(m, height, c, y, p);
      BelowIsLower(m, height, d, p, n - 1);
      assert false;
    }
  }

  /** Below one of the children from the i-th on. */
  ghost predicate BelowKid(m: PidMap, p: nat, i: nat, x: nat) {
    exists j, n: nat :: i <= j < |Kids(m, p)| && Below(m, Kids(m, p)[j], x, n)
  }

  /** One more generation can be put on top. */
  lemma {:induction false} Above(m: PidMap, p: nat, c: nat, x: nat, n: nat)
    requires c in Kids(m, p) && Below(m, c, x, n)
    ensures Below(m, p, x, n + 1)
    decreases n
  {
    if n > 0 {
      var y :| x in Kids(m, y) && Below(m, c, y, n - 1);
      Above(m, p, c, y, n - 1);
    } else {
      assert Below(m, p, p, 0);
    }
  }

  lemma {:induction false} FirstStep(m: PidMap, p: nat, x: nat, n: nat)
    requires n > 0 && Below(m, p, x, n)
    ensures BelowKid(m, p, 0, x)
    decreases n
  {
    var y :| x in Kids(m, y) && Below(m, p, y, n - 1);
    if n == 1 {
      var j :| 0 <= j < |Kids(m, p)| && Kids(m, p)[j] == x;
      assert Below(m, Kids(m, p)[j], x, 0);
    } else {
      FirstStep(m, p, y, n - 1);
      var j, k: nat :| 0 <= j < |Kids(m, p)| && Below(m, Kids(m, p)[j], y, k);
      assert Below(m, Kids(m, p)[j], x, k + 1);
    }
  }

  lemma DescendantsAreBelowKids(m: PidMap, p: nat, x: nat)
    ensures Descendant(m, p, x) <==> BelowKid(m, p, 0, x)
  {
    if Descendant(m, p, x) {
      var n: nat :| n > 0 && Below(m, p, x, n);
      FirstStep(m, p, x, n);
    }
    if BelowKid(m, p, 0, x) {
      var j, n: nat :| 0 <= j < |Kids(m, p)| && Below(m, Kids(m, p)[j], x, n);
      Above(m, p, Kids(m, p)[j], x, n);
    }
  }

  lemma BelowKidSplit(m: PidMap, p: nat, i: nat, x: nat)
    requires i < |Kids(m, p)|
    ensures BelowKid(m, p, i, x) <==>
            x == Kids(m, p)[i] || Descendant(m, Kids(m, p)[i], x) || BelowKid(m, p, i + 1, x)
  {
    var c := Kids(m, p)[i];
    if BelowKid(m, p, i, x) {
      var j, n: nat :| i <= j < |Kids(m, p)| && Below(m, Kids(m, p)[j], x, n);
    }
    if x == c { assert Below(m, c, x, 0); }
  }

  ghost predicate Unique(s: seq<nat>) { forall i, j :: 0 <= i < j < |s| ==> s[i] != s[j] }

  /** Each is a child of p, or of one before it. */
  ghost predicate ParentsFirst(m: PidMap, p: nat, s: seq<nat>) {
    forall i :: 0 <= i < |s| ==> s[i] in Kids(m, p) || exists j :: 0 <= j < i && s[i] in Kids(m, s[j])
  }

  lemma {:induction false} CollectedIs(m: PidMap, p: nat, i: nat, height: nat -> nat)
    requires Forest(m, height) && i <= |Kids(m, p)|
    ensures var s := Collected(m, p, i, height);
            && (forall x :: x in s <==> BelowKid(m, p, i, x))
            && Unique(s) && ParentsFirst(m, p, s)
    decreases height(p), |Kids(m, p)| - i
  {
    if i < |Kids(m, p)| {
      var c := Kids(m, p)[i];
      var a, b := Collected(m, c, 0, height), Collected(m, p, i + 1, height);
      CollectedIs(m, c, 0, height);
      CollectedIs(m, p, i + 1, height);
      forall x ensures BelowKid(m, p, i, x) <==> x == c || x in a || x in b {
        BelowKidSplit(m, p, i, x);
        DescendantsAreBelowKids(m, c, x);
      }
      forall x | x in a ensures x != c && x !in b { OneSubtree(m, height, p, i, x); }
      assert c !in b by { KidOnce(m, height, p, i); }
      UniqueParts(c, a, b);
      ParentsParts(m, p, c, a, b);
    }
  }

  lemma OneSubtree(m: PidMap, height: nat -> nat, p: nat, i: nat, x: nat)
    requires Forest(m, height) && i < |Kids(m, p)| && BelowKid(m, Kids(m, p)[i], 0, x)
    ensures x != Kids(m, p)[i] && !BelowKid(m, p, i + 1, x)
  {
    var c := Kids(m, p)[i];
    DescendantsAreBelowKids(m, c, x);
    var n: nat :| n > 0 && Below(m, c, x, n);
    BelowIsLower(m, height, c, x, n);
    forall j, k: nat | i + 1 <= j < |Kids(m, p)| ensures !Below(m, Kids(m, p)[j], x, k) {
      if Below(m, Kids(m, p)[j], x, k) {
        SiblingsApart(m, height, p, c, Kids(m, p)[j], x, n, k);
        assert false;
      }
    }
  }

  lemma KidOnce(m: PidMap, height: nat -> nat, p: nat, i: nat)
    requires Forest(m, height) && i < |Kids(m, p)|
    ensures !BelowKid(m, p, i + 1, Kids(m, p)[i])
  {
    var c := Kids(m, p)[i];
    assert Below(m, c, c, 0);
    forall j, k: nat | i + 1 <= j < |Kids(m, p)| ensures !Below(m, Kids(m, p)[j], c, k) {
      if Below(m, Kids(m, p)[j], c, k) {
        SiblingsApart(m, height, p, c, Kids(m, p)[j], c, 0, k);
        assert false;
      }
    }
  }

  lemma UniqueParts(c: nat, a: seq<nat>, b: seq<nat>)
    requires Unique(a) && Unique(b) && c !in b && forall x :: x in a ==> x != c && x !in b
    ensures Unique([c] + a + b)
  {
    var s := [c] + a + b;
    assert forall i :: 0 < i <= |a| ==> s[i] == a[i - 1];
    assert forall i :: |a| < i < |s| ==> s[i] == b[i - 1 - |a|];
    assert forall i :: 0 <= i < |a| ==> a[i] in a;
    assert forall i :: 0 <= i < |b| ==> b[i] in b;
  }

  /** The i-th process comes after its parent. */
  ghost predicate Parented(m: PidMap, p: nat, s: seq<nat>, i: nat)
    requires i < |s|
  {
    s[i] in Kids(m, p) || exists j :: 0 <= j < i && s[i] in Kids(m, s[j])
  }

  lemma ParentInside(m: PidMap, p: nat, c: nat, a: seq<nat>, b: seq<nat>, i: nat)
    requires ParentsFirst(m, c, a) && i < |a|
    ensures Parented(m, p, [c] + a + b, 1 + i)
  {
    hide Kids;
    var s := [c] + a + b;
    assert s[1 + i] == a[i];
    if a[i] in Kids(m, c) {
      assert s[0] == c;
    } else {
      var j :| 0 <= j < i && a[i] in Kids(m, a[j]);
      assert s[1 + j] == a[j];
    }
  }

  lemma ParentBehind(m: PidMap, p: nat, c: nat, a: seq<nat>, b: seq<nat>, i: nat)
    requires ParentsFirst(m, p, b) && i < |b|
    ensures Parented(m, p, [c] + a + b, 1 + |a| + i)
  {
    hide Kids;
    var s := [c] + a + b;
    assert s[1 + |a| + i] == b[i];
    if !(b[i] in Kids(m, p)) {
      var j :| 0 <= j < i && b[i] in Kids(m, b[j]);
      assert s[1 + |a| + j] == b[j];
    }
  }

  lemma ParentsParts(m: PidMap, p: nat, c: nat, a: seq<nat>, b: seq<nat>)
    requires c in Kids(m, p) && ParentsFirst(m, c, a) && ParentsFirst(m, p, b)
    ensures ParentsFirst(m, p, [c] + a + b)
  {
    hide Kids, ParentsFirst;
    var s := [c] + a + b;
    forall i: nat | i < |s| ensures Parented(m, p, s, i) {
      if i == 0 { assert s[0] == c; }
      else if i <= |a| { ParentInside(m, p, c, a, b, i - 1); }
      else { ParentBehind(m, p, c, a, b, i - 1 - |a|); }
    }
    AllParented(m, p, s);
  }

  lemma AllParented(m: PidMap, p: nat, s: seq<nat>)
    requires forall i: nat | i < |s| :: Parented(m, p, s, i)
    ensures ParentsFirst(m, p, s)
  {
    hide Kids;
    forall i: nat | i < |s| ensures s[i] in Kids(m, p) || exists j :: 0 <= j < i && s[i] in Kids(m, s[j]) {
      assert Parented(m, p, s, i);
    }
  }

  /** Every proper descendant exactly once, each after its parent, and nobody else. */
  lemma CollectsDescendants(m: PidMap, p: nat, height: nat -> nat)
    requires Forest(m, height)
    ensures var s := Collected(m, p, 0, height);
            && (forall x :: x in s <==> Descendant(m, p, x))
            && p !in s && Unique(s) && ParentsFirst(m, p, s)
  {
    CollectedIs(m, p, 0, height);
    forall x ensures x in Collected(m, p, 0, height) <==> Descendant(m, p, x) { DescendantsAreBelowKids(m, p, x); }
    forall n: nat | n > 0 ensures !Below(m, p, p, n) {
      if Below(m, p, p, n) { BelowIsLower(m, height, p, p, n); assert false; }
    }
  }
}
