/** Brace expansion in a word: the walker rewrites a vector of prefixes group by group; the outcome is
    the Cartesian product of the groups in lexicographic order. */
module Braces {
  import opened Text

  /** A piece of text, or the alternatives of one brace group. */
  datatype Piece = Fixed(s: string) | Group(elems: seq<string>)

  function Width(p: Piece): nat { if p.Fixed? then 1 else |p.elems| }

  predicate WfPieces(ps: seq<Piece>) { forall i | 0 <= i < |ps| :: Width(ps[i]) > 0 }

  function ChoiceOf(p: Piece, d: nat): string
    requires d < Width(p)
  {
    if p.Fixed? then p.s else p.elems[d]
  }

  // ---- What the expansion is ----

  function Product(ps: seq<Piece>): nat { if ps == [] then 1 else Width(ps[0]) * Product(ps[1..]) }

  /** One alternative for each piece. */
  predicate IsChoice(ps: seq<Piece>, c: seq<nat>) {
    |c| == |ps| && forall i | 0 <= i < |c| :: c[i] < Width(ps[i])
  }

  function Spell(ps: seq<Piece>, c: seq<nat>): string
    requires IsChoice(ps, c)
  {
    if ps == [] then "" else ChoiceOf(ps[0], c[0]) + Spell(ps[1..], c[1..])
  }

  lemma Times(x: int, y: int, w: nat)
    requires x <= y
    ensures x * w <= y * w
  {
  }

  lemma Divides(a: nat, w: nat, n: nat)
    requires n < a * w
    ensures w > 0 && n / w < a && n % w < w
  {
    if w > 0 && n / w >= a { Times(a, n / w, w); }
  }

  lemma Below(b: nat, w: nat, g: nat, r: nat)
    requires b < w && r < g
    ensures b * g + r < w * g
  {
    Times(b + 1, w, g);
    assert (b + 1) * g == b * g + g;
  }

  lemma NoMultiple(d: int, w: nat)
    requires 0 - w < d * w && d * w < w
    ensures d == 0
  {
    if d >= 1 { Times(1, d, w); }
    if d <= -1 { Times(d, -1, w); }
  }

  lemma Minus(x: int, y: int, w: int)
    ensures (x - y) * w == x * w - y * w
  {
  }

  lemma Determined(a: int, b: nat, q: int, r: nat, w: nat)
    requires a * w + b == q * w + r && b < w && r < w
    ensures a == q && b == r
  {
    Minus(a, q, w);
    NoMultiple(a - q, w);
  }

  lemma Parts(n: nat, w: nat)
    requires w > 0
    ensures n == (n / w) * w + n % w && n % w < w
  {
  }

  /** Division is determined. */
  lemma Quotient(q: nat, w: nat, r: nat)
    requires r < w
    ensures (q * w + r) / w == q && (q * w + r) % w == r
  {
    var n := q * w + r;
    Parts(n, w);
    Determined(n / w, n % w, q, r, w);
  }

  /** The same for a number given as such a sum. */
  lemma QuotientOf(n: nat, q: nat, w: nat, r: nat)
    requires r < w && n == q * w + r
    ensures n / w == q && n % w == r
  {
    Quotient(q, w, r);
  }

  lemma Compares(i: nat, k: nat, w: nat)
    requires i < k && w > 0
    ensures i / w < k / w || (i / w == k / w && i % w < k % w)
  {
    if i / w > k / w { Times(k / w + 1, i / w, w); }
  }

  /** The digits of n, the first piece most significant, each in the base of its piece's width. */
  function DigitsOf(ps: seq<Piece>, n: nat): (c: seq<nat>)
    requires n < Product(ps)
    ensures IsChoice(ps, c)
  {
    if ps == [] then []
    else
      var w := Product(ps[1..]);
      Divides(Width(ps[0]), w, n);
      [n / w] + DigitsOf(ps[1..], n % w)
  }

  predicate LexLess(a: seq<nat>, b: seq<nat>)
    requires |a| == |b|
  {
    a != [] && (a[0] < b[0] || (a[0] == b[0] && LexLess(a[1..], b[1..])))
  }

  /** Results come in lexicographic order of their choices. */
  lemma {:induction false} LexicographicOrder(ps: seq<Piece>, i: nat, k: nat)
    requires i < k < Product(ps)
    ensures LexLess(DigitsOf(ps, i), DigitsOf(ps, k))
  {
    hide Product;
    if ps != [] {
      var w := Product(ps[1..]);
      ProductHead(ps);
      Divides(Width(ps[0]), w, i);
      Divides(Width(ps[0]), w, k);
      Compares(i, k, w);
      if i / w == k / w { LexicographicOrder(ps[1..], i % w, k % w); }
      assert DigitsOf(ps, i)[1..] == DigitsOf(ps[1..], i % w) && DigitsOf(ps, k)[1..] == DigitsOf(ps[1..], k % w);
    } else {
      assert Product(ps) == 1 by { NoPieces(); }
    }
  }

  lemma ProductHead(ps: seq<Piece>)
    requires ps != []
    ensures Product(ps) == Width(ps[0]) * Product(ps[1..])
  {
  }

  lemma NoPieces()
    ensures Product([]) == 1
  {
  }

  /** The place of a choice among the results. */
  function PlaceOf(ps: seq<Piece>, c: seq<nat>): (n: nat)
    requires IsChoice(ps, c)
  {
    if ps == [] then 0 else c[0] * Product(ps[1..]) + PlaceOf(ps[1..], c[1..])
  }

  /** Every choice occurs. With the order, each occurs once. */
  lemma {:induction false} EveryChoiceOccurs(ps: seq<Piece>, c: seq<nat>)
    requires IsChoice(ps, c)
    ensures PlaceOf(ps, c) < Product(ps) && DigitsOf(ps, PlaceOf(ps, c)) == c
  {
    hide Product;
    if ps != [] {
      EveryChoiceOccurs(ps[1..], c[1..]);
      var w, r := Product(ps[1..]), PlaceOf(ps[1..], c[1..]);
      ProductHead(ps);
      Below(c[0], Width(ps[0]), w, r);
      Quotient(c[0], w, r);
      assert c == [c[0]] + c[1..];
    } else {
      NoPieces();
    }
  }

  // ---- The loops ----

  /** `*iter += value` over all prefixes. */
  method AppendToAll(base: seq<string>, s: string) returns (r: seq<string>)
    ensures |r| == |base| && forall i | 0 <= i < |r| :: r[i] == base[i] + s
  {
    r := base;
    var k := 0;
    while k < |r|
      invariant 0 <= k <= |r| == |base|
      invariant forall i | 0 <= i < |r| :: r[i] == if i < k then base[i] + s else base[i]
    {
      r := r[k := r[k] + s];
      k := k + 1;
    }
  }

  function Pair(base: seq<string>, elems: seq<string>, n: nat): string
    requires elems != []
  {
    if n / |elems| < |base| then base[n / |elems|] + elems[n % |elems|] else ""
  }

  lemma PairAt(base: seq<string>, elems: seq<string>, b: nat, i: nat)
    requires b < |base| && i < |elems|
    ensures Pair(base, elems, b * |elems| + i) == base[b] + elems[i % |elems|]
  {
    var n := b * |elems| + i;
    assert n / |elems| == b && n % |elems| == i by { Quotient(b, |elems|, i); }
    assert i % |elems| == i by { Quotient(0, |elems|, i); }
  }

  /** Every prefix followed by every alternative. */
  method MultiplyOut(base: seq<string>, elems: seq<string>) returns (expanded: seq<string>)
    requires elems != []
    ensures |expanded| == |base| * |elems|
    ensures forall n | 0 <= n < |expanded| :: expanded[n] == Pair(base, elems, n)
  {
    hide Pair;
    expanded := [];
    var b := 0;
    while b < |base|
      invariant 0 <= b <= |base| && |expanded| == b * |elems|
      invariant forall n | 0 <= n < |expanded| :: expanded[n] == Pair(base, elems, n)
    {
      var i := 0;
      while i != |elems|
        invariant 0 <= i <= |elems| && |expanded| == b * |elems| + i
        invariant forall n | 0 <= n < |expanded| :: expanded[n] == Pair(base, elems, n)
        decreases |elems| - i
      {
        PairAt(base, elems, b, i);
        expanded := expanded + [base[b] + elems[i % |elems|]];
        i := i + 1;
      }
      assert (b + 1) * |elems| == b * |elems| + |elems|;
      b := b + 1;
    }
  }

  /** The vector after the first pieces: as many as the product, the n-th spelling the digits of n. */
  predicate Expanded(ps: seq<Piece>, base: seq<string>) {
    |base| == Product(ps) && forall n | 0 <= n < |base| :: base[n] == Spell(ps, DigitsOf(ps, n))
  }

  method ExpandBraces(ps: seq<Piece>) returns (base: seq<string>)
    requires WfPieces(ps)
    ensures Expanded(ps, base)
  {
    base := [""];
    var k := 0;
    while k < |ps|
      invariant 0 <= k <= |ps| && Expanded(ps[..k], base)
      decreases |ps| - k
    {
      ghost var before := base;
      if ps[k].Fixed? {
        base := AppendToAll(base, ps[k].s);
        FixedInTurn(ps[k], before, base);
      } else {
        base := MultiplyOut(base, ps[k].elems);
        GroupInTurn(ps[k], before, base);
      }
      assert ps[..k + 1] == ps[..k] + [ps[k]];
      OnePieceMore(ps[..k], ps[k], before, base);
      k := k + 1;
    }
    assert ps[..k] == ps;
  }

  predicate InTurn(p: Piece, before: seq<string>, base: seq<string>, n: nat)
    requires Width(p) > 0 && n < |base|
  {
    n / Width(p) < |before| && base[n] == before[n / Width(p)] + ChoiceOf(p, n % Width(p))
  }

  lemma FixedInTurn(p: Piece, before: seq<string>, base: seq<string>)
    requires p.Fixed? && |base| == |before| && forall i | 0 <= i < |base| :: base[i] == before[i] + p.s
    ensures |base| == |before| * Width(p) && forall n | 0 <= n < |base| :: InTurn(p, before, base, n)
  {
    forall n | 0 <= n < |base|
      ensures InTurn(p, before, base, n)
    {
      assert n / 1 == n;
    }
  }

  lemma GroupInTurn(p: Piece, before: seq<string>, base: seq<string>)
    requires p.Group? && p.elems != [] && |base| == |before| * |p.elems|
    requires forall n | 0 <= n < |base| :: base[n] == Pair(before, p.elems, n)
    ensures |base| == |before| * Width(p) && forall n | 0 <= n < |base| :: InTurn(p, before, base, n)
  {
    forall n | 0 <= n < |base|
      ensures InTurn(p, before, base, n)
    {
      assert base[n] == Pair(before, p.elems, n);
      Divides(|before|, |p.elems|, n);
    }
  }

  lemma OnePieceMore(ps: seq<Piece>, p: Piece, before: seq<string>, base: seq<string>)
    requires Width(p) > 0 && Expanded(ps, before)
    requires |base| == |before| * Width(p)
    requires forall n | 0 <= n < |base| :: InTurn(p, before, base, n)
    ensures Expanded(ps + [p], base)
  {
    hide DigitsOf, Spell, Product, ChoiceOf;
    ProductJoin(ps, [p]);
    OnePiece(p);
    forall n | 0 <= n < |base|
      ensures base[n] == Spell(ps + [p], DigitsOf(ps + [p], n))
    {
      PlaceInTurn(ps, p, before, base, n);
    }
  }

  lemma PlaceInTurn(ps: seq<Piece>, p: Piece, before: seq<string>, base: seq<string>, n: nat)
    requires Width(p) > 0 && Expanded(ps, before)
    requires n < |base| == |before| * Width(p) && InTurn(p, before, base, n)
    ensures n < Product(ps + [p]) && base[n] == Spell(ps + [p], DigitsOf(ps + [p], n))
  {
    hide DigitsOf, Spell, Product, ChoiceOf, Width, IsChoice;
    var q, d := n / Width(p), n % Width(p);
    Divides(Product(ps), Width(p), n);
    Parts(n, Width(p));
    OnePiece(p);
    JoinedPlace(ps, [p], n, q, d);
  }

  lemma OnePiece(p: Piece)
    ensures Product([p]) == Width(p)
    ensures forall d | 0 <= d < Width(p) :: Spell([p], DigitsOf([p], d)) == ChoiceOf(p, d)
  {
    assert [p][1..] == [];
    forall d | 0 <= d < Width(p)
      ensures Spell([p], DigitsOf([p], d)) == ChoiceOf(p, d)
    {
      QuotientOf(d, d, 1, 0);
      assert DigitsOf([p], d) == [d] && [d][1..] == [];
    }
  }

  lemma {:induction false} ProductJoin(ps: seq<Piece>, qs: seq<Piece>)
    ensures Product(ps + qs) == Product(ps) * Product(qs)
  {
    if ps == [] {
      assert ps + qs == qs;
    } else {
      assert (ps + qs)[1..] == ps[1..] + qs;
      ProductJoin(ps[1..], qs);
      var a, b, c := Width(ps[0]), Product(ps[1..]), Product(qs);
      assert a * (b * c) == (a * b) * c;
    }
  }

  lemma {:induction false} SpellJoin(ps: seq<Piece>, qs: seq<Piece>, c: seq<nat>, d: seq<nat>)
    requires IsChoice(ps, c) && IsChoice(qs, d)
    ensures IsChoice(ps + qs, c + d) && Spell(ps + qs, c + d) == Spell(ps, c) + Spell(qs, d)
  {
    if ps == [] {
      assert ps + qs == qs && c + d == d;
    } else {
      assert (ps + qs)[1..] == ps[1..] + qs && (c + d)[1..] == c[1..] + d;
      SpellJoin(ps[1..], qs, c[1..], d);
      var x, y, z := ChoiceOf(ps[0], c[0]), Spell(ps[1..], c[1..]), Spell(qs, d);
      assert x + (y + z) == (x + y) + z;
    }
  }

  /** The head digit and the rest. */
  lemma DigitsHead(ps: seq<Piece>, n: nat, head: nat, rest: nat)
    requires ps != [] && head < Width(ps[0]) && rest < Product(ps[1..]) && n == head * Product(ps[1..]) + rest
    ensures n < Product(ps) && DigitsOf(ps, n) == [head] + DigitsOf(ps[1..], rest)
  {
    hide Product;
    ProductHead(ps);
    Below(head, Width(ps[0]), Product(ps[1..]), rest);
    QuotientOf(n, head, Product(ps[1..]), rest);
  }

  lemma Regroup(a: nat, w: nat, b: nat, g: nat, d: nat)
    ensures (a * w + b) * g + d == a * (w * g) + (b * g + d)
  {
    assert (a * w + b) * g == (a * w) * g + b * g;
    assert (a * w) * g == a * (w * g);
  }

  /** The digits of the pieces before come before. */
  lemma {:induction false} DigitsJoin(ps: seq<Piece>, qs: seq<Piece>, n: nat, q: nat, d: nat)
    requires q < Product(ps) && d < Product(qs) && n == q * Product(qs) + d
    ensures n < Product(ps + qs) && DigitsOf(ps + qs, n) == DigitsOf(ps, q) + DigitsOf(qs, d)
    decreases ps, 1
  {
    hide Product, DigitsOf, Width, IsChoice;
    if ps == [] {
      assert ps + qs == qs;
      NoPieces();
      NoDigits();
      assert [] + DigitsOf(qs, d) == DigitsOf(qs, d);
    } else {
      var w := Product(ps[1..]);
      ProductHead(ps);
      Divides(Width(ps[0]), w, q);
      Parts(q, w);
      JoinStep(ps, qs, n, q / w, q % w, d, (q % w) * Product(qs) + d);
    }
  }

  lemma {:induction false} JoinStep(ps: seq<Piece>, qs: seq<Piece>, n: nat, head: nat, r: nat, d: nat, rest: nat)
    requires ps != [] && head < Width(ps[0]) && r < Product(ps[1..]) && d < Product(qs)
    requires rest == r * Product(qs) + d && n == (head * Product(ps[1..]) + r) * Product(qs) + d
    ensures n < Product(ps + qs)
    ensures head * Product(ps[1..]) + r < Product(ps)
    ensures DigitsOf(ps + qs, n) == DigitsOf(ps, head * Product(ps[1..]) + r) + DigitsOf(qs, d)
    decreases ps, 0
  {
    hide Product, DigitsOf, Width, IsChoice;
    DigitsJoin(ps[1..], qs, rest, r, d);
    assert (ps + qs)[1..] == ps[1..] + qs;
    ProductJoin(ps[1..], qs);
    Regroup(head, Product(ps[1..]), r, Product(qs), d);
    DigitsHead(ps, head * Product(ps[1..]) + r, head, r);
    DigitsHead(ps + qs, n, head, rest);
  }

  lemma NoDigits()
    ensures DigitsOf([], 0) == []
  {
  }

  lemma JoinedPlace(ps: seq<Piece>, qs: seq<Piece>, n: nat, q: nat, d: nat)
    requires q < Product(ps) && d < Product(qs) && n == q * Product(qs) + d
    ensures n < Product(ps + qs)
    ensures Spell(ps + qs, DigitsOf(ps + qs, n)) == Spell(ps, DigitsOf(ps, q)) + Spell(qs, DigitsOf(qs, d))
  {
    hide DigitsOf, Spell, Product, IsChoice;
    DigitsJoin(ps, qs, n, q, d);
    SpellJoin(ps, qs, DigitsOf(ps, q), DigitsOf(qs, d));
  }

  // ---- The results themselves ----

  /** A text expands to itself, a brace group to its alternatives as they stand. */
  lemma OneGroup(base: seq<string>, s: string, elems: seq<string>)
    ensures Expanded([Fixed(s)], base) ==> base == [s]
    ensures Expanded([Group(elems)], base) ==> base == elems
    ensures Expanded([], base) ==> base == [""]
  {
    hide DigitsOf, Spell, Product;
    OnePiece(Fixed(s));
    OnePiece(Group(elems));
    NoPieces();
    NoDigits();
    assert IsChoice([], []) && Spell([], []) == "" by { NothingSpelled(); }
  }

  lemma NothingSpelled()
    ensures Spell([], []) == ""
  {
  }

  /** Two words side by side expand to every result of the first followed by every result of the second,
      in this order. */
  lemma SideBySide(ps: seq<Piece>, qs: seq<Piece>, a: seq<string>, b: seq<string>, both: seq<string>)
    requires Expanded(ps, a) && Expanded(qs, b) && Expanded(ps + qs, both)
    ensures |both| == |a| * |b|
    ensures forall i, k | 0 <= i < |a| && 0 <= k < |b| :: i * |b| + k < |both| && both[i * |b| + k] == a[i] + b[k]
  {
    hide DigitsOf, Spell, Product;
    ProductJoin(ps, qs);
    forall i, k | 0 <= i < |a| && 0 <= k < |b|
      ensures i * |b| + k < |both| && both[i * |b| + k] == a[i] + b[k]
    {
      Below(i, |a|, |b|, k);
      JoinedPlace(ps, qs, i * |b| + k, i, k);
    }
  }
}
