/** What falling sand does to one column of blocks, bottom block first. */
module FallingSand {
  import opened World

  /** Which blocks fall. */
  type Falls = f: seq<bool> | |f| == BLOCKMAX witness seq(BLOCKMAX, _ => false)

  predicate Loose(falls: Falls, b: Block) {
    b == AIR || falls[Clamp(b)]
  }

  /** Going down from `y`, the first block that stays put; the lowest cell ends the
      search whatever it holds. */
  function Floor(falls: Falls, col: seq<Block>, y: nat): (r: nat)
    requires y < |col|
    ensures r <= y
    ensures forall i :: r < i <= y ==> Loose(falls, col[i])
    ensures r > 0 ==> !Loose(falls, col[r])
  {
    if y == 0 || !Loose(falls, col[y]) then y else Floor(falls, col, y - 1)
  }

  /** The first air at or above `i`. */
  function FirstAir(col: seq<Block>, i: nat): (r: nat)
    requires i <= |col|
    ensures i <= r <= |col|
    ensures forall j :: i <= j < r ==> col[j] != AIR
    ensures r < |col| ==> col[r] == AIR
    decreases |col| - i
  {
    if i == |col| || col[i] == AIR then i else FirstAir(col, i + 1)
  }

  /** The first block at or above `i` that stays put. */
  function FirstFirm(falls: Falls, col: seq<Block>, i: nat): (r: nat)
    requires i <= |col|
    ensures i <= r <= |col|
    ensures forall j :: i <= j < r ==> Loose(falls, col[j])
    ensures r < |col| ==> !Loose(falls, col[r])
    decreases |col| - i
  {
    if i == |col| || !Loose(falls, col[i]) then i else FirstFirm(falls, col, i + 1)
  }

  /** The blocks of a stretch that are not air, in order. */
  function Solids(s: seq<Block>): (r: seq<Block>)
    ensures |r| <= |s|
    ensures forall i :: 0 <= i < |r| ==> r[i] != AIR && r[i] < BLOCKMAX
  {
    if s == [] then []
    else
      var rest, last := Solids(s[..|s| - 1]), s[|s| - 1];
      if last == AIR then rest else rest + [Clamp(last)]
  }

  function Airs(n: nat): (r: seq<Block>)
    ensures |r| == n
  {
    seq(n, _ => AIR)
  }

  /** The column with everything in `a..e` packed down onto `a`. */
  function Packed(col: seq<Block>, a: nat, e: nat): (r: seq<Block>)
    requires a <= e <= |col|
    ensures |r| == |col|
  {
    var s := Solids(col[a..e]);
    seq(|col|, i requires 0 <= i < |col| =>
      if i < a || i >= e then col[i] else if i < a + |s| then s[i - a] else AIR)
  }

  /** What `check_for_sand`, called at height `y`, makes of a column. */
  function Settle(falls: Falls, col: seq<Block>, y: nat): (r: seq<Block>)
    requires y < |col|
    ensures |r| == |col|
  {
    var a := FirstAir(col, Floor(falls, col, y));
    Packed(col, a, FirstFirm(falls, col, a))
  }

  // ---- How packing grows, one block at a time ------------------------------------------

  lemma SolidsSnoc(col: seq<Block>, a: nat, q: nat)
    requires a <= q < |col|
    ensures Solids(col[a..q + 1]) == Solids(col[a..q]) + (if col[q] == AIR then [] else [Clamp(col[q])])
  {
    assert col[a..q + 1][..q - a] == col[a..q];
  }

  lemma {:induction false} SolidsFewer(col: seq<Block>, a: nat, q: nat)
    requires a < q <= |col| && col[a] == AIR
    ensures a + |Solids(col[a..q])| < q
  {
    if q == a + 1 {
      assert col[a..q] == [AIR];
    } else {
      SolidsFewer(col, a, q - 1);
      SolidsSnoc(col, a, q - 1);
    }
  }

  lemma PackedNothing(col: seq<Block>, a: nat)
    requires a <= |col|
    ensures Packed(col, a, a) == col
  {
  }

  /** Air above the packed part joins it unchanged. */
  lemma {:induction false} SolidsPlusAir(col: seq<Block>, a: nat, r: nat, q: nat)
    requires a <= r <= q <= |col| && forall i :: r <= i < q ==> col[i] == AIR
    ensures Solids(col[a..q]) == Solids(col[a..r])
  {
    if r < q {
      SolidsPlusAir(col, a, r, q - 1);
      SolidsSnoc(col, a, q - 1);
    }
  }

  lemma PackedAir(col: seq<Block>, a: nat, r: nat, q: nat)
    requires a <= r <= q <= |col| && forall i :: r <= i < q ==> col[i] == AIR
    ensures Packed(col, a, q) == Packed(col, a, r)
  {
    SolidsPlusAir(col, a, r, q);
  }

  /** A block at `q` drops into the lowest free cell. */
  lemma PackedDrop(col: seq<Block>, a: nat, q: nat)
    requires a < q < |col| && col[a] == AIR && col[q] != AIR
    ensures a + |Solids(col[a..q])| < q
    ensures |Solids(col[a..q + 1])| == |Solids(col[a..q])| + 1
    ensures Packed(col, a, q)[a + |Solids(col[a..q])|] == AIR && Packed(col, a, q)[q] == col[q]
    ensures Packed(col, a, q + 1) == Packed(col, a, q)[a + |Solids(col[a..q])| := Clamp(col[q])][q := AIR]
  {
    SolidsFewer(col, a, q);
    SolidsSnoc(col, a, q);
  }

  // ---- What settling means --------------------------------------------------------------

  lemma {:induction false} SolidsConcat(s: seq<Block>, t: seq<Block>)
    ensures Solids(s + t) == Solids(s) + Solids(t)
    decreases |t|
  {
    if t == [] {
      assert s + t == s;
    } else {
      var n := |t| - 1;
      SolidsConcat(s, t[..n]);
      assert (s + t)[..|s + t| - 1] == s + t[..n];
    }
  }

  lemma {:induction false} SolidsOfSolids(s: seq<Block>)
    requires forall i :: 0 <= i < |s| ==> s[i] != AIR && s[i] < BLOCKMAX
    ensures Solids(s) == s
  {
    if s != [] {
      SolidsOfSolids(s[..|s| - 1]);
      assert s == s[..|s| - 1] + [s[|s| - 1]];
    }
  }

  lemma {:induction false} SolidsOfAirs(n: nat)
    ensures Solids(Airs(n)) == []
  {
    if n > 0 {
      assert Airs(n)[..n - 1] == Airs(n - 1);
      SolidsOfAirs(n - 1);
    }
  }

  lemma SolidsLast(s: seq<Block>)
    requires s != []
    ensures var front, last := s[..|s| - 1], s[|s| - 1];
            && Solids(s) == Solids(front) + (if last == AIR then [] else [Clamp(last)])
            && multiset(s) == multiset(front) + multiset([last])
  {
    assert s == s[..|s| - 1] + [s[|s| - 1]];
  }

  lemma {:induction false} CountSolids(s: seq<Block>)
    requires forall i :: 0 <= i < |s| ==> s[i] < BLOCKMAX
    ensures multiset(s) == multiset(Solids(s))[AIR := |s| - |Solids(s)|]
  {
    if s != [] {
      CountSolids(s[..|s| - 1]);
      SolidsLast(s);
    }
  }

  lemma {:induction false} CountAirs(n: nat)
    ensures multiset(Airs(n)) == multiset{}[AIR := n]
  {
    if n > 0 {
      assert Airs(n) == Airs(n - 1) + [AIR];
      CountAirs(n - 1);
    }
  }

  lemma {:induction false} SolidsFall(falls: Falls, s: seq<Block>)
    requires forall i :: 0 <= i < |s| ==> Loose(falls, s[i])
    ensures forall i :: 0 <= i < |Solids(s)| ==> falls[Solids(s)[i]]
  {
    if s != [] { SolidsFall(falls, s[..|s| - 1]); }
  }

  /** The stretch that `check_for_sand` deals with: from its first gap to the first
      block that stays put. */
  function Stretch(falls: Falls, col: seq<Block>, y: nat): (r: (nat, nat))
    requires y < |col|
    ensures r.0 <= r.1 <= |col|
  {
    var a := FirstAir(col, Floor(falls, col, y));
    (a, FirstFirm(falls, col, a))
  }

  lemma PackedSolids(col: seq<Block>, a: nat, e: nat)
    requires a <= e <= |col|
    ensures var s := Solids(col[a..e]);
            && Packed(col, a, e)[a..e] == s + Airs(e - a - |s|)
            && Solids(Packed(col, a, e)[a..e]) == s
  {
    var s := Solids(col[a..e]);
    assert Packed(col, a, e)[a..e] == s + Airs(e - a - |s|);
    SolidsConcat(s, Airs(e - a - |s|));
    SolidsOfSolids(s);
    SolidsOfAirs(e - a - |s|);
  }

  lemma PackedBottom(col: seq<Block>, a: nat, e: nat)
    requires a <= e <= |col|
    ensures var s := Solids(col[a..e]); Packed(col, a, e)[a..a + |s|] == s
  {
  }

  /** Settling leaves everything outside one stretch where it is, and in that stretch
      the fallen blocks in their old order at the bottom with only air above them. */
  lemma SettleIsAFall(falls: Falls, col: seq<Block>, y: nat)
    requires y < |col|
    ensures var (a, e) := Stretch(falls, col, y);
            var s, r := Solids(col[a..e]), Settle(falls, col, y);
            && (forall i :: 0 <= i < a || e <= i < |col| ==> r[i] == col[i])
            && (forall i :: 0 <= i < |s| ==> falls[s[i]])
            && r[a..a + |s|] == s
            && (forall i :: a + |s| <= i < e ==> r[i] == AIR)
            && Solids(r[a..e]) == s
  {
    var (a, e) := Stretch(falls, col, y);
    PackedSolids(col, a, e);
    SolidsFall(falls, col[a..e]);
    PackedBottom(col, a, e);
  }

  /** No block is gained or lost. */
  lemma SettleConserves(falls: Falls, col: seq<Block>, y: nat)
    requires y < |col| && forall i :: 0 <= i < |col| ==> col[i] < BLOCKMAX
    ensures multiset(Settle(falls, col, y)) == multiset(col)
  {
    var (a, e) := Stretch(falls, col, y);
    PackedConserves(col, a, e);
  }

  lemma StretchConserves(col: seq<Block>, a: nat, e: nat)
    requires a <= e <= |col| && forall i :: 0 <= i < |col| ==> col[i] < BLOCKMAX
    ensures multiset(Packed(col, a, e)[a..e]) == multiset(col[a..e])
  {
    PackedSolids(col, a, e);
    CountSolids(col[a..e]);
    CountAirs(e - a - |Solids(col[a..e])|);
  }

  lemma PackedConserves(col: seq<Block>, a: nat, e: nat)
    requires a <= e <= |col| && forall i :: 0 <= i < |col| ==> col[i] < BLOCKMAX
    ensures multiset(Packed(col, a, e)) == multiset(col)
  {
    StretchConserves(col, a, e);
    var r := Packed(col, a, e);
    Thirds(r, a, e);
    Thirds(col, a, e);
    assert r[..a] == col[..a] && r[e..] == col[e..];
  }

  lemma Thirds(s: seq<Block>, a: nat, e: nat)
    requires a <= e <= |s|
    ensures multiset(s) == multiset(s[..a]) + multiset(s[a..e]) + multiset(s[e..])
  {
    assert s == s[..a] + s[a..e] + s[e..];
  }

  /** A column with nothing loose above its first gap stays as it is. */
  lemma AtRest(falls: Falls, r: seq<Block>, y: nat, lo: nat, top: nat, e: nat)
    requires lo <= y < |r| && lo <= top < e <= |r|
    requires forall i :: lo < i <= y ==> Loose(falls, r[i])
    requires lo > 0 ==> !Loose(falls, r[lo])
    requires forall i :: lo <= i < top ==> r[i] != AIR
    requires forall i :: top <= i < e ==> r[i] == AIR
    requires e < |r| ==> !Loose(falls, r[e])
    ensures Settle(falls, r, y) == r
  {
    SameFloor(falls, r, lo, y);
    AirAt(r, lo, top);
    FirmAt(falls, r, top, e);
    SolidsPlusAir(r, top, top, e);
  }

  lemma StaysLoose(falls: Falls, col: seq<Block>, y: nat)
    requires y < |col|
    ensures forall i :: 0 <= i < |col| && Loose(falls, col[i]) ==> Loose(falls, Settle(falls, col, y)[i])
  {
    var (a, e) := Stretch(falls, col, y);
    var s, r := Solids(col[a..e]), Settle(falls, col, y);
    SolidsFall(falls, col[a..e]);
    forall i | 0 <= i < |col| && Loose(falls, col[i]) ensures Loose(falls, r[i]) {
      if a <= i < a + |s| { assert r[i] == s[i - a]; }
    }
  }

  /** Settling once is enough: nothing is left to fall. */
  lemma SettleTwice(falls: Falls, col: seq<Block>, y: nat)
    requires y < |col|
    ensures Settle(falls, Settle(falls, col, y), y) == Settle(falls, col, y)
  {
    var lo := Floor(falls, col, y);
    var (a, e) := Stretch(falls, col, y);
    var s, r := Solids(col[a..e]), Settle(falls, col, y);
    if a < |col| {
      SolidsFewer(col, a, e);
      SolidsFall(falls, col[a..e]);
      StaysLoose(falls, col, y);
      AtRest(falls, r, y, lo, a + |s|, e);
    } else {
      assert r == col;
    }
  }

  lemma {:induction false} SameFloor(falls: Falls, r: seq<Block>, lo: nat, y: nat)
    requires lo <= y < |r|
    requires forall i :: lo < i <= y ==> Loose(falls, r[i])
    requires lo > 0 ==> !Loose(falls, r[lo])
    ensures Floor(falls, r, y) == lo
  {
    if y > lo { SameFloor(falls, r, lo, y - 1); }
  }

  lemma {:induction false} AirAt(r: seq<Block>, i: nat, top: nat)
    requires i <= top < |r| && r[top] == AIR && forall j :: i <= j < top ==> r[j] != AIR
    ensures FirstAir(r, i) == top
    decreases top - i
  {
    if i < top { AirAt(r, i + 1, top); }
  }

  lemma {:induction false} FirmAt(falls: Falls, r: seq<Block>, i: nat, e: nat)
    requires i <= e <= |r| && (e < |r| ==> !Loose(falls, r[e]))
    requires forall j :: i <= j < e ==> Loose(falls, r[j])
    ensures FirstFirm(falls, r, i) == e
    decreases e - i
  {
    if i < e { FirmAt(falls, r, i + 1, e); }
  }
}
