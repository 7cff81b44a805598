/** The arithmetic of the dream module: vector similarity, the deltas of an amplified
    ranking, and the seeded generator.  Numbers are exact reals; the generator is exact too. */
module Dream {
  import opened Options
  import opened Words

  // ---------------------------------------------------------------- similarity

  /** A product of two numbers, so that proofs can leave it folded. */
  function Mul(x: real, y: real): real { x * y }

  function Dot(a: seq<real>, b: seq<real>): real
    requires |a| == |b|
  {
    if a == [] then 0.0 else Mul(a[0], b[0]) + Dot(a[1..], b[1..])
  }

  /** `a` less `t` times `b`, squared. */
  function Off(x: real, t: real, y: real): real { (x - t * y) * (x - t * y) }

  /** The squared length of a - t * b. */
  function Gap(a: seq<real>, b: seq<real>, t: real): real
    requires |a| == |b|
  {
    if a == [] then 0.0 else Off(a[0], t, b[0]) + Gap(a[1..], b[1..], t)
  }

  lemma Positive(x: real, y: real)
    requires x > 0.0 && y > 0.0
    ensures x * y > 0.0
  {
  }

  lemma SquareOfNegative(x: real)
    ensures (-x) * (-x) == x * x
  {
  }

  lemma MulPositive(x: real, y: real)
    requires x > 0.0 && y > 0.0
    ensures Mul(x, y) > 0.0
  {
  }

  lemma MulNegated(x: real, y: real)
    ensures Mul(-x, -y) == Mul(x, y)
  {
  }

  lemma Square(x: real)
    ensures Mul(x, x) >= 0.0
    ensures x != 0.0 ==> Mul(x, x) > 0.0
    ensures x == 0.0 ==> Mul(x, x) == 0.0
  {
    if x == 0.0 {
      assert Mul(0.0, 0.0) == 0.0;
    } else {
      hide Mul;
      if x > 0.0 {
        MulPositive(x, x);
      } else {
        MulPositive(-x, -x);
        MulNegated(x, x);
      }
    }
  }

  lemma OffSquare(x: real, t: real, y: real)
    ensures Off(x, t, y) >= 0.0
  {
    Square(x - t * y);
  }

  /** What the squared gap is, in terms of the three products. */
  function Quadratic(aa: real, ab: real, bb: real, t: real): real { aa - 2.0 * t * ab + t * t * bb }

  lemma QuadraticStep(x: real, y: real, t: real, aa: real, ab: real, bb: real)
    ensures Off(x, t, y) + Quadratic(aa, ab, bb, t) == Quadratic(Mul(x, x) + aa, Mul(x, y) + ab, Mul(y, y) + bb, t)
  {
    assert (x - t * y) * (x - t * y) == x * x - 2.0 * t * (x * y) + t * t * (y * y);
  }

  lemma {:induction false} GapExpands(a: seq<real>, b: seq<real>, t: real)
    requires |a| == |b|
    ensures Gap(a, b, t) == Quadratic(Dot(a, a), Dot(a, b), Dot(b, b), t)
    ensures Gap(a, b, t) >= 0.0
  {
    hide Mul, Off;
    if a != [] {
      hide Quadratic;
      GapExpands(a[1..], b[1..], t);
      QuadraticStep(a[0], b[0], t, Dot(a[1..], a[1..]), Dot(a[1..], b[1..]), Dot(b[1..], b[1..]));
      OffSquare(a[0], t, b[0]);
    }
  }

  lemma {:induction false} DotSelf(a: seq<real>)
    ensures Dot(a, a) >= 0.0
    ensures Dot(a, a) == 0.0 <==> forall i | 0 <= i < |a| :: a[i] == 0.0
  {
    hide Mul;
    if a != [] {
      DotSelf(a[1..]);
      Square(a[0]);
      assert forall i | 0 < i < |a| :: a[i] == a[1..][i - 1];
    }
  }

  lemma {:induction false} DotSymmetric(a: seq<real>, b: seq<real>)
    requires |a| == |b|
    ensures Dot(a, b) == Dot(b, a)
  {
    if a != [] { DotSymmetric(a[1..], b[1..]); }
  }

  lemma {:induction false} DotZero(a: seq<real>, b: seq<real>)
    requires |a| == |b| && forall i | 0 <= i < |b| :: b[i] == 0.0
    ensures Dot(a, b) == 0.0
  {
    if a != [] { DotZero(a[1..], b[1..]); }
  }

  /** The gap at the best multiple. */
  lemma BestGap(aa: real, ab: real, bb: real)
    requires bb > 0.0
    ensures bb * Quadratic(aa, ab, bb, ab / bb) == aa * bb - ab * ab
  {
    var t := ab / bb;
    assert t * bb == ab;
    BestProduct(aa, ab, bb, t);
  }

  lemma BestProduct(aa: real, ab: real, bb: real, t: real)
    requires t * bb == ab
    ensures bb * (aa - 2.0 * t * ab + t * t * bb) == aa * bb - ab * ab
  {
    assert bb * (2.0 * t * ab) == 2.0 * (t * bb) * ab;
    assert bb * (t * t * bb) == (t * bb) * (t * bb);
  }

  lemma Product(x: real, y: real)
    requires x >= 0.0 && y >= 0.0
    ensures x * y >= 0.0
  {
  }

  lemma CauchySchwarz(a: seq<real>, b: seq<real>)
    requires |a| == |b|
    ensures Dot(a, b) * Dot(a, b) <= Dot(a, a) * Dot(b, b)
  {
    hide *;
    var aa, ab, bb := Dot(a, a), Dot(a, b), Dot(b, b);
    DotSelf(b);
    if bb == 0.0 {
      DotZero(a, b);
    } else {
      GapExpands(a, b, ab / bb);
      BestGap(aa, ab, bb);
      Product(bb, Gap(a, b, ab / bb));
    }
  }

  /** A square root: what the similarity needs of one. */
  ghost predicate Root(sqrt: real -> real) { forall x | x >= 0.0 :: sqrt(x) >= 0.0 && sqrt(x) * sqrt(x) == x }

  /** `nodeSimilarity` of two embeddings. */
  function Similarity(sqrt: real -> real, a: seq<real>, b: seq<real>): real
    requires |a| == |b|
  {
    Cosine(sqrt, Dot(a, b), Dot(a, a), Dot(b, b))
  }

  function Cosine(sqrt: real -> real, ab: real, aa: real, bb: real): real {
    var mag := sqrt(aa) * sqrt(bb);
    if mag == 0.0 then 0.0 else ab / mag
  }

  lemma SquareOfProduct(p: real, q: real)
    ensures (p * q) * (p * q) == (p * p) * (q * q)
  {
  }

  lemma Magnitude(sqrt: real -> real, a: seq<real>, b: seq<real>)
    requires Root(sqrt) && |a| == |b|
    ensures var mag := sqrt(Dot(a, a)) * sqrt(Dot(b, b));
      mag >= 0.0 && mag * mag == Dot(a, a) * Dot(b, b)
  {
    hide Dot;
    DotSelf(a);
    DotSelf(b);
    var p, q := sqrt(Dot(a, a)), sqrt(Dot(b, b));
    Product(p, q);
    SquareOfProduct(p, q);
  }

  lemma SquareLess(x: real, y: real)
    requires 0.0 <= x < y
    ensures y * y - x * x > 0.0
  {
    Positive(y - x, y + x);
    assert y * y - x * x == (y - x) * (y + x);
  }

  lemma SquaresOrder(d: real, m: real)
    requires m > 0.0 && d * d <= m * m
    ensures -m <= d <= m
  {
    SquareOfNegative(d);
    if d > m { SquareLess(m, d); }
    if -d > m { SquareLess(m, -d); }
  }

  lemma Quotient(d: real, m: real)
    requires m > 0.0 && -m <= d <= m
    ensures -1.0 <= d / m <= 1.0
  {
    assert d / m * m == d;
  }

  /** The similarity lies between -1 and 1, and does not depend on the order of the two. */
  lemma SimilarityBounded(sqrt: real -> real, a: seq<real>, b: seq<real>)
    requires Root(sqrt) && |a| == |b|
    ensures -1.0 <= Similarity(sqrt, a, b) <= 1.0
    ensures Similarity(sqrt, a, b) == Similarity(sqrt, b, a)
  {
    hide Dot, Root;
    var mag := sqrt(Dot(a, a)) * sqrt(Dot(b, b));
    Magnitude(sqrt, a, b);
    CauchySchwarz(a, b);
    DotSymmetric(a, b);
    if mag != 0.0 {
      SquaresOrder(Dot(a, b), mag);
      Quotient(Dot(a, b), mag);
    }
    assert sqrt(Dot(b, b)) * sqrt(Dot(a, a)) == mag;
  }

  lemma QuotientTimes(d: real, m: real)
    requires m != 0.0
    ensures d / m * m == d
  {
  }

  lemma SameQuotient(x: real, y: real, t: real)
    requires t > 0.0 && x * t == y * t
    ensures x == y
  {
    assert x == x * t / t && y == y * t / t;
  }

  lemma OnlyZeroSquare(x: real)
    requires x * x <= 0.0
    ensures x == 0.0
  {
    Square(x);
  }

  /** A similarity times the two lengths is the dot product, and a vector that is not zero has
      similarity 1 with itself. */
  lemma SimilarityIsCosine(sqrt: real -> real, a: seq<real>, b: seq<real>)
    requires Root(sqrt) && |a| == |b|
    ensures Mul(Similarity(sqrt, a, b), Mul(sqrt(Dot(a, a)), sqrt(Dot(b, b)))) == Dot(a, b)
    ensures (exists i :: 0 <= i < |a| && a[i] != 0.0) ==> Similarity(sqrt, a, a) == 1.0
  {
    hide *;
    var mag := sqrt(Dot(a, a)) * sqrt(Dot(b, b));
    MulIs(sqrt(Dot(a, a)), sqrt(Dot(b, b)));
    Magnitude(sqrt, a, b);
    CauchySchwarz(a, b);
    SimilarityIs(sqrt, a, b);
    CosineTimes(sqrt, Dot(a, b), Dot(a, a), Dot(b, b), mag);
    DotSelf(a);
    if Dot(a, a) != 0.0 { SelfSimilar(sqrt, a); }
  }

  lemma SimilarityIs(sqrt: real -> real, a: seq<real>, b: seq<real>)
    requires |a| == |b|
    ensures Similarity(sqrt, a, b) == Cosine(sqrt, Dot(a, b), Dot(a, a), Dot(b, b))
  {
    hide Dot, Cosine;
  }

  lemma CosineTimes(sqrt: real -> real, ab: real, aa: real, bb: real, mag: real)
    requires mag == Mul(sqrt(aa), sqrt(bb)) && ab * ab <= aa * bb == mag * mag
    ensures Mul(Cosine(sqrt, ab, aa, bb), mag) == ab
  {
    var c := Cosine(sqrt, ab, aa, bb);
    assert c == if mag == 0.0 then 0.0 else ab / mag;
    hide Mul, Cosine;
    if mag == 0.0 {
      assert mag * mag == 0.0;
      OnlyZeroSquare(ab);
    } else {
      QuotientTimes(ab, mag);
    }
    MulIs(c, mag);
  }

  lemma MulIs(x: real, y: real)
    ensures Mul(x, y) == x * y
  {
  }

  lemma SelfSimilar(sqrt: real -> real, a: seq<real>)
    requires Root(sqrt) && Dot(a, a) > 0.0
    ensures Similarity(sqrt, a, a) == 1.0
  {
    hide Dot;
    var aa := Dot(a, a);
    assert sqrt(aa) * sqrt(aa) == aa;
    QuotientTimes(aa, aa);
    SameQuotient(aa / aa, 1.0, aa);
  }

  lemma {:induction false} DotSnoc(a: seq<real>, b: seq<real>, x: real, y: real)
    requires |a| == |b|
    ensures Dot(a + [x], b + [y]) == Dot(a, b) + Mul(x, y)
  {
    hide Mul;
    if a == [] {
      assert a + [x] == [x] && b + [y] == [y];
    } else {
      assert (a + [x])[1..] == a[1..] + [x] && (b + [y])[1..] == b[1..] + [y];
      DotSnoc(a[1..], b[1..], x, y);
    }
  }

  lemma DotNext(a: seq<real>, b: seq<real>, i: nat)
    requires |a| == |b| && i < |a|
    ensures Dot(a[..i + 1], b[..i + 1]) == Dot(a[..i], b[..i]) + Mul(a[i], b[i])
  {
    assert a[..i + 1] == a[..i] + [a[i]] && b[..i + 1] == b[..i] + [b[i]];
    DotSnoc(a[..i], b[..i], a[i], b[i]);
  }

  /** `nodeSimilarity` of two nodes: 0 unless both have embeddings.  Coordinates that only the
      second has are not looked at; one that only the first has makes the answer no number. */
  function SimilarityOf(sqrt: real -> real, a: Option<seq<real>>, b: Option<seq<real>>): Option<real> {
    if a.None? || b.None? then Some(0.0)
    else if |a.value| > |b.value| then None
    else Some(Similarity(sqrt, a.value, b.value[..|a.value|]))
  }

  /** A similarity that is a number lies between -1 and 1; and it does not depend on the order
      of the nodes if and only if their embeddings are of one length, or one is missing. */
  lemma SimilarityOfAny(sqrt: real -> real, a: Option<seq<real>>, b: Option<seq<real>>)
    requires Root(sqrt)
    ensures SimilarityOf(sqrt, a, b).Some? ==> -1.0 <= SimilarityOf(sqrt, a, b).value <= 1.0
    ensures SimilarityOf(sqrt, a, b) == SimilarityOf(sqrt, b, a) <==> a.None? || b.None? || |a.value| == |b.value|
  {
    hide Similarity, Root;
    if a.Some? && b.Some? && |a.value| <= |b.value| {
      SimilarityBounded(sqrt, a.value, b.value[..|a.value|]);
      assert |a.value| == |b.value| ==> b.value[..|a.value|] == b.value && a.value[..|b.value|] == a.value;
    }
  }

  /** The one pass over the first embedding. */
  method NodeSimilarity(sqrt: real -> real, a: Option<seq<real>>, b: Option<seq<real>>) returns (r: Option<real>)
    ensures r == SimilarityOf(sqrt, a, b)
  {
    if a == None || b == None { return Some(0.0); }
    assert Dot([], []) == 0.0;
    hide Dot, Cosine, Mul;
    var va, vb := a.value, b.value;
    ghost var n := if |va| <= |vb| then |va| else |vb|;
    assert va[..0] == [] && vb[..0] == [];
    var dot, magA, magB, numbers := 0.0, 0.0, 0.0, true;
    var i := 0;
    while i < |va|
      invariant 0 <= i <= |va| && numbers == (i <= |vb|)
      invariant numbers ==> dot == Dot(va[..i], vb[..i]) && magA == Dot(va[..i], va[..i]) && magB == Dot(vb[..i], vb[..i])
    {
      if i < |vb| {
        DotNext(va[..n], vb[..n], i);
        DotNext(va[..n], va[..n], i);
        DotNext(vb[..n], vb[..n], i);
        assert va[..n][..i] == va[..i] && va[..n][..i + 1] == va[..i + 1];
        assert vb[..n][..i] == vb[..i] && vb[..n][..i + 1] == vb[..i + 1];
        dot := dot + Mul(va[i], vb[i]);
        magA := magA + Mul(va[i], va[i]);
        magB := magB + Mul(vb[i], vb[i]);
      } else {
        numbers := false;
      }
      i := i + 1;
    }
    assert va[..i] == va;
    return if numbers then Some(Cosine(sqrt, dot, magA, magB)) else None;
  }

  // ---------------------------------------------------------------- amplified deltas

  /** A candidate: the weight of its edge, if there is one, and whether it verifies. */
  datatype Candidate = Candidate(weight: Option<real>, verified: bool)

  function Score(c: Candidate): real {
    if c.weight.Some? then c.weight.value * (if c.verified then 1.0 else 0.5) else if c.verified then 0.3 else 0.0
  }

  ghost predicate NonNegative(cs: seq<Candidate>) { forall c | c in cs && c.weight.Some? :: c.weight.value >= 0.0 }

  function Total(cs: seq<Candidate>): real { if cs == [] then 0.0 else Score(cs[0]) + Total(cs[1..]) }

  function Delta(score: real, total: real): real {
    if score > 0.0 && total > 0.0 then (if score / total * 0.1 < 0.1 then score / total * 0.1 else 0.1) else 0.0
  }

  function Deltas(cs: seq<Candidate>, total: real): (r: seq<real>)
    ensures |r| == |cs|
  {
    seq(|cs|, i requires 0 <= i < |cs| => Delta(Score(cs[i]), total))
  }

  function Sum(xs: seq<real>): real { if xs == [] then 0.0 else xs[0] + Sum(xs[1..]) }

  lemma {:induction false} ScoreWithin(cs: seq<Candidate>, i: nat)
    requires NonNegative(cs) && i < |cs|
    ensures 0.0 <= Score(cs[i]) <= Total(cs)
  {
    assert cs[0] in cs;
    assert NonNegative(cs[1..]) by { assert forall c | c in cs[1..] :: c in cs; }
    if i > 0 {
      ScoreWithin(cs[1..], i - 1);
    } else if |cs| > 1 {
      ScoreWithin(cs[1..], 0);
    }
  }

  /** With nonnegative scores the cap of a single delta never cuts anything off. */
  lemma DeltaShare(score: real, total: real)
    requires 0.0 <= score <= total && total > 0.0
    ensures Delta(score, total) * total == score * 0.1 && 0.0 <= Delta(score, total) <= 0.1
  {
    var share := score / total;
    assert share * total == score;
    if share > 1.0 { Positive(share - 1.0, total); }
    if share < 0.0 { Positive(-share, total); }
    assert score == 0.0 ==> share == 0.0;
    assert share * 0.1 * total == score * 0.1;
  }

  lemma {:induction false} DeltasShare(cs: seq<Candidate>, total: real)
    requires total > 0.0 && forall i | 0 <= i < |cs| :: 0.0 <= Score(cs[i]) <= total
    ensures Sum(Deltas(cs, total)) * total == Total(cs) * 0.1
  {
    hide Delta, Score, Sum, Total, Deltas;
    SumsUnfold(cs, total);
    if cs != [] {
      assert forall i | 0 <= i < |cs| - 1 :: cs[1..][i] == cs[i + 1];
      DeltasShare(cs[1..], total);
      DeltaShare(Score(cs[0]), total);
      Distribute(Delta(Score(cs[0]), total), Sum(Deltas(cs[1..], total)), total);
      Distribute(Score(cs[0]), Total(cs[1..]), 0.1);
    }
  }

  lemma SumsUnfold(cs: seq<Candidate>, total: real)
    ensures Total([]) == 0.0 && Sum(Deltas([], total)) == 0.0
    ensures cs != [] ==> Total(cs) == Score(cs[0]) + Total(cs[1..])
    ensures cs != [] ==> Sum(Deltas(cs, total)) == Delta(Score(cs[0]), total) + Sum(Deltas(cs[1..], total))
  {
    hide Delta, Score;
    if cs != [] { assert Deltas(cs, total)[1..] == Deltas(cs[1..], total); }
  }

  lemma Distribute(x: real, y: real, t: real)
    ensures (x + y) * t == x * t + y * t
  {
  }

  lemma {:induction false} SumZero(xs: seq<real>)
    requires forall i | 0 <= i < |xs| :: xs[i] == 0.0
    ensures Sum(xs) == 0.0
  {
    if xs != [] { SumZero(xs[1..]); }
  }

  /** With nonnegative edge weights every delta is nonnegative, each is the candidate's share of
      one tenth, and together they are one tenth, or nothing when no candidate scores. */
  lemma DeltasBounded(cs: seq<Candidate>)
    requires NonNegative(cs)
    ensures var ds := Deltas(cs, Total(cs));
      && (forall i | 0 <= i < |ds| :: 0.0 <= ds[i] <= 0.1 && ds[i] * Total(cs) == Score(cs[i]) * 0.1)
      && Sum(ds) == if exists i :: 0 <= i < |cs| && Score(cs[i]) > 0.0 then 0.1 else 0.0
  {
    hide Delta, Score, NonNegative, Sum, Total, Deltas;
    forall i | 0 <= i < |cs| ensures 0.0 <= Score(cs[i]) <= Total(cs) { ScoreWithin(cs, i); }
    if forall i | 0 <= i < |cs| :: Score(cs[i]) == 0.0 { NothingScored(cs); } else { SharesSum(cs); }
  }

  /** The shares compare as they should: with edges of one weight a verified candidate gets
      twice what an unverified one gets; without an edge a verified one counts like a verified
      edge of weight 0.3, and an unverified one gets nothing. */
  lemma SharesCompare(cs: seq<Candidate>, i: nat, k: nat)
    requires NonNegative(cs) && i < |cs| && k < |cs| && cs[i].verified
    ensures var ds := Deltas(cs, Total(cs));
      && (cs[i].weight.Some? && cs[k] == Candidate(cs[i].weight, false) ==> ds[i] == 2.0 * ds[k])
      && (cs[i].weight == Some(0.3) && cs[k] == Candidate(None, true) ==> ds[i] == ds[k])
      && (cs[k] == Candidate(None, false) ==> ds[k] == 0.0)
  {
    ScoreWithin(cs, i);
    ScoreWithin(cs, k);
    ScoresCompare(cs[i], cs[k]);
    var total, ds := Total(cs), Deltas(cs, Total(cs));
    assert ds[i] == Delta(Score(cs[i]), total) && ds[k] == Delta(Score(cs[k]), total);
    assert Delta(0.0, total) == 0.0;
    hide Delta, Deltas, Total, Score, NonNegative;
    if Score(cs[i]) == 2.0 * Score(cs[k]) { DeltaDoubles(Score(cs[k]), total); }
  }

  lemma ScoresCompare(c: Candidate, d: Candidate)
    requires c.verified
    ensures c.weight.Some? && d == Candidate(c.weight, false) ==> Score(c) == 2.0 * Score(d)
    ensures c.weight == Some(0.3) && d == Candidate(None, true) ==> Score(c) == Score(d)
    ensures d == Candidate(None, false) ==> Score(d) == 0.0
  {
  }

  lemma DeltaDoubles(score: real, total: real)
    requires 0.0 <= score && 2.0 * score <= total
    ensures Delta(2.0 * score, total) == 2.0 * Delta(score, total)
  {
    if total > 0.0 {
      DeltaShare(score, total);
      DeltaShare(2.0 * score, total);
      hide Delta;
      Twice(Delta(score, total), Delta(2.0 * score, total), score * 0.1, total);
    }
  }

  lemma Twice(x: real, y: real, s: real, t: real)
    requires t > 0.0 && x * t == s && y * t == 2.0 * s
    ensures y == 2.0 * x
  {
    Distribute(x, x, t);
    SameQuotient(y, x + x, t);
  }

  lemma NothingScored(cs: seq<Candidate>)
    requires forall i | 0 <= i < |cs| :: Score(cs[i]) == 0.0
    ensures var ds := Deltas(cs, Total(cs)); Sum(ds) == 0.0 && forall i | 0 <= i < |ds| :: ds[i] == 0.0
    ensures Total(cs) == 0.0
  {
    assert Delta(0.0, Total(cs)) == 0.0;
    hide Delta, Score, Sum, Total;
    TotalZero(cs);
    SumZero(Deltas(cs, Total(cs)));
  }

  lemma SharesSum(cs: seq<Candidate>)
    requires forall i | 0 <= i < |cs| :: 0.0 <= Score(cs[i]) <= Total(cs)
    requires exists i :: 0 <= i < |cs| && Score(cs[i]) > 0.0
    ensures var ds := Deltas(cs, Total(cs));
      Sum(ds) == 0.1 && forall i | 0 <= i < |ds| :: 0.0 <= ds[i] <= 0.1 && ds[i] * Total(cs) == Score(cs[i]) * 0.1
  {
    hide Delta, Score, Sum, Total;
    var total, ds := Total(cs), Deltas(cs, Total(cs));
    assert total > 0.0;
    DeltasShare(cs, total);
    forall i | 0 <= i < |cs| ensures ds[i] * total == Score(cs[i]) * 0.1 && 0.0 <= ds[i] <= 0.1 { DeltaShare(Score(cs[i]), total); }
    Cancel(Sum(ds), 0.1, total);
  }

  lemma Cancel(x: real, y: real, t: real)
    requires t > 0.0 && x * t == t * y
    ensures x == y
  {
    if x > y { Positive(x - y, t); }
    if x < y { Positive(y - x, t); }
  }

  lemma {:induction false} TotalZero(cs: seq<Candidate>)
    requires forall i | 0 <= i < |cs| :: Score(cs[i]) == 0.0
    ensures Total(cs) == 0.0
  {
    if cs != [] { TotalZero(cs[1..]); }
  }

  lemma {:induction false} TotalSnoc(cs: seq<Candidate>, c: Candidate)
    ensures Total(cs + [c]) == Total(cs) + Score(c)
  {
    if cs == [] {
      assert cs + [c] == [c];
    } else {
      assert (cs + [c])[1..] == cs[1..] + [c];
      TotalSnoc(cs[1..], c);
    }
  }

  /** The two loops of `amplify`: the total, then each candidate's delta. */
  method WeightDeltas(cs: seq<Candidate>) returns (ds: seq<real>)
    ensures ds == Deltas(cs, Total(cs))
    ensures NonNegative(cs) ==> Sum(ds) <= 0.1 && forall i | 0 <= i < |ds| :: 0.0 <= ds[i] <= 0.1
  {
    var total := 0.0;
    var i := 0;
    while i < |cs|
      invariant 0 <= i <= |cs| && total == Total(cs[..i])
    {
      assert cs[..i + 1] == cs[..i] + [cs[i]];
      TotalSnoc(cs[..i], cs[i]);
      total := total + Score(cs[i]);
      i := i + 1;
    }
    assert cs[..i] == cs;
    ds := [];
    i := 0;
    while i < |cs|
      invariant 0 <= i <= |cs| && |ds| == i && forall k | 0 <= k < i :: ds[k] == Delta(Score(cs[k]), total)
    {
      ds := ds + [Delta(Score(cs[i]), total)];
      i := i + 1;
    }
    if NonNegative(cs) { DeltasBounded(cs); }
  }

  // ---------------------------------------------------------------- the seeded generator

  const OFFSET: Word := 2166136261

  /** One draw's change of the state. */
  function Next(s: Word): (t: Word) {
    MixWithin(Times(Mix(s, 13)), 16);
    Mix(Times(Mix(s, 13)), 16)
  }

  function Undo(t: Word): (s: Word) {
    var a := Divide(Mix(t, 16));
    UnmixWithin(a);
    Unmix13(a)
  }

  /** The step is a bijection of the 32-bit states. */
  lemma NextBijective(s: Word)
    ensures Undo(Next(s)) == s && Next(Undo(s)) == s
  {
    hide Times, Divide, Mix, Unmix13;
    MixWithin(s, 13);
    Mix13Inverses(s);
    Inverses(Mix(s, 13));
    Mix16Twice(Times(Mix(s, 13)));
    MixWithin(s, 16);
    Mix16Twice(s);
    Inverses(Mix(s, 16));
    Mix13Inverses(Divide(Mix(s, 16)));
  }

  lemma ZeroStays()
    ensures Next(0) == 0 && Undo(0) == 0
  {
    hide Xor, Shift;
    ShiftZero(13);
    ShiftZero(16);
    ShiftZero(26);
    XorSelf(0);
    assert Mix(0, 13) == 0 && Mix(0, 16) == 0 && Unmix13(0) == 0;
    assert Times(0) == 0 && Divide(0) == 0;
  }

  function State(s: Word, n: nat): Word { if n == 0 then s else Next(State(s, n - 1)) }

  /** Different states stay different, so a state other than zero never becomes zero. */
  lemma {:induction false} StatesApart(s: Word, t: Word, n: nat)
    ensures State(s, n) == State(t, n) <==> s == t
    ensures State(s, n) == 0 <==> s == 0
  {
    hide Next, Undo;
    if n > 0 {
      StatesApart(s, t, n - 1);
      NextBijective(State(s, n - 1));
      NextBijective(State(t, n - 1));
      ZeroStays();
    }
  }

  /** The sequence of states is a pure cycle: whenever two of them agree, the first state
      comes back after as many steps as lie between. */
  lemma {:induction false} PureCycle(s: Word, i: nat, d: nat)
    requires State(s, i) == State(s, i + d)
    ensures State(s, d) == s
  {
    hide Next, Undo;
    if i > 0 {
      NextBijective(State(s, i - 1));
      NextBijective(State(s, i + d - 1));
      PureCycle(s, i - 1, d);
    }
  }

  /** The number drawn from a state. */
  function Drawn(s: Word): real { s as real / 4294967296.0 }

  lemma DrawnWithin(s: Word)
    ensures 0.0 <= Drawn(s) < 1.0
    ensures Drawn(s) == 0.0 <==> s == 0
  {
  }

  /** The first UTF-16 unit of a character. */
  function Unit(c: char): (u: nat)
    ensures u < 0x10000
  {
    var code := c as int;
    if code < 0x10000 then code else 0xD800 + (code - 0x10000) / 0x400
  }

  /** One character of a seed. */
  function Hashed(state: Word, c: char): Word { Times(Xor(state, Unit(c))) }

  function Seed(s: string, state: Word): Word { if s == "" then state else Seed(s[1..], Hashed(state, s[0])) }

  /** A seed's draws are all zero if one is, exactly when its own state is zero. */
  lemma ZeroDraws(seed: string, n: nat)
    ensures Drawn(State(Seed(seed, OFFSET), n)) == 0.0 <==> Seed(seed, OFFSET) == 0
  {
    hide State, Seed;
    StatesApart(Seed(seed, OFFSET), 0, n);
    DrawnWithin(State(Seed(seed, OFFSET), n));
  }

  lemma {:induction false} SeedSnoc(s: string, c: char, state: Word)
    ensures Seed(s + [c], state) == Hashed(Seed(s, state), c)
  {
    hide Hashed;
    if s == "" {
      assert s + [c] == [c] && [c][1..] == "";
    } else {
      assert (s + [c])[0] == s[0] && (s + [c])[1..] == s[1..] + [c];
      SeedSnoc(s[1..], c, Hashed(state, s[0]));
    }
  }

  /** Nothing keeps a seed's own state from being zero: it is as soon as its last character's
      unit is the hash of the rest, and then every draw is zero. */
  lemma DeadSeed(s: string, c: char, n: nat)
    ensures Drawn(State(Seed(s + [c], OFFSET), n)) == 0.0 <==> Unit(c) == Seed(s, OFFSET)
  {
    hide Seed, State, Drawn;
    var h := Seed(s, OFFSET);
    SeedSnoc(s, c, OFFSET);
    ZeroDraws(s + [c], n);
    UnitWithin(h, c);
    ZeroTimes(Xor(h, Unit(c)));
    ZeroXor(h, Unit(c));
  }

  /** Three characters whose hash is itself the unit of a character. */
  const DEAD_START := "#_9"

  lemma ShortHash(q: nat, x: nat, c: char)
    requires x < 128 && c as int < 128 && 128 * q + x < 0x1_0000_0000
    ensures Hashed(128 * q + x, c) == (128 * q + Xor(x, c as int)) * 16777619 % 0x1_0000_0000
  {
    assert Power(7) == 128;
    hide Power, Xor;
    XorLow(q, x, c as int, 7);
  }

  lemma ShortXors()
    ensures Xor(69, 35) == 102 && Xor(18, 95) == 77 && Xor(55, 57) == 14
  {
    hide Xor;
    XorSelf(1);
    XorSelf(2);
    XorSelf(3);
    XorNext(2, 1, 3);
    XorNext(4, 2, 6);
    XorNext(8, 4, 12);
    XorNext(17, 8, 25);
    XorNext(34, 17, 51);
    XorNext(69, 35, 102);
    XorNext(1, 5, 4);
    XorNext(2, 11, 9);
    XorNext(4, 23, 19);
    XorNext(9, 47, 38);
    XorNext(18, 95, 77);
    XorNext(6, 7, 1);
    XorNext(13, 14, 3);
    XorNext(27, 28, 7);
    XorNext(55, 57, 14);
  }

  lemma XorNext(a: nat, b: nat, c: nat)
    requires Xor(a / 2, b / 2) == c / 2 && (a % 2 + b % 2) % 2 == c % 2
    ensures Xor(a, b) == c
  {
    XorParts(a, b);
    Halves(Xor(a, b), c);
  }

  lemma HashesOfStart()
    ensures Hashed(OFFSET, '#') == 638357778
    ensures Hashed(638357778, '_') == 852016183
    ensures Hashed(852016183, '9') == 2570
  {
    hide Hashed, Xor;
    ShortXors();
    ShortHash(16922939, 69, '#');
    ShortHash(4987170, 18, '_');
    ShortHash(6656376, 55, '9');
  }

  lemma HashOfStart()
    ensures Seed(DEAD_START, OFFSET) == 2570
  {
    assert Seed("", OFFSET) == OFFSET;
    var one, two, three := "" + ['#'], "" + ['#'] + ['_'], "" + ['#'] + ['_'] + ['9'];
    assert three == DEAD_START;
    hide *;
    HashesOfStart();
    SeedSnoc("", '#', OFFSET);
    SeedSnoc(one, '_', OFFSET);
    SeedSnoc(two, '9', OFFSET);
  }

  /** So there are seeds from which every draw is zero. */
  lemma DeadSeedExists(n: nat)
    ensures Drawn(State(Seed(DEAD_START + ['\U{0A0A}'], OFFSET), n)) == 0.0
  {
    hide Seed, State, Drawn;
    HashOfStart();
    DeadSeed(DEAD_START, '\U{0A0A}', n);
  }

  lemma UnitWithin(h: Word, c: char)
    ensures Xor(h, Unit(c)) < 0x1_0000_0000
  {
    hide Xor;
    Power32();
    XorWithin(h, Unit(c), 0x1_0000_0000, 32);
  }

  /** The generator, whose state each draw changes in place. */
  class SeededRandom {
    var state: Word

    constructor (seed: string)
      ensures state == Seed(seed, OFFSET)
    {
      hide Hashed;
      state := OFFSET;
      new;
      var i := 0;
      assert seed[0..] == seed;
      while i < |seed|
        invariant 0 <= i <= |seed| && Seed(seed[i..], state) == Seed(seed, OFFSET)
      {
        assert seed[i..][0] == seed[i] && seed[i..][1..] == seed[i + 1..];
        state := Hashed(state, seed[i]);
        i := i + 1;
      }
    }

    method Draw() returns (r: real)
      modifies this
      ensures state == Next(old(state)) && r == Drawn(state) && 0.0 <= r < 1.0
      ensures Undo(state) == old(state)
    {
      hide Times, Mix, Undo;
      NextBijective(state);
      MixWithin(state, 13);
      MixWithin(Times(Mix(state, 13)), 16);
      state := Mix(state, 13);
      state := Times(state);
      state := Mix(state, 16);
      DrawnWithin(state);
      return Drawn(state);
    }
  }
}
