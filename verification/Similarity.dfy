/** Cosine similarity over exact numbers, and picking the most similar chunks. The square root is a parameter. */
module Similarity {
  import opened Collections

  /** A square root of every non-negative number. */
  ghost predicate IsRoot(root: real -> real) {
    forall x :: x >= 0.0 ==> root(x) >= 0.0 && root(x) * root(x) == x
  }

  /** The sum of the products of the first n coordinates. */
  function Dot(a: seq<real>, b: seq<real>, n: nat): real
    requires n <= |a| && n <= |b|
  {
    if n == 0 then 0.0 else Dot(a, b, n - 1) + a[n - 1] * b[n - 1]
  }

  /** A dot product scaled by two norms. */
  function Scaled(d: real, p: real, q: real, root: real -> real): real
    requires root(p) * root(q) > 0.0
  {
    d / (root(p) * root(q))
  }

  function Cosine(a: seq<real>, b: seq<real>, root: real -> real): real
    requires IsRoot(root)
  {
    if |a| != |b| || Dot(a, a, |a|) == 0.0 || Dot(b, b, |b|) == 0.0 then 0.0
    else
      NormsPositive(a, b, root);
      Scaled(Dot(a, b, |a|), Dot(a, a, |a|), Dot(b, b, |b|), root)
  }

  method CosineSimilarity(a: seq<real>, b: seq<real>, root: real -> real) returns (s: real)
    requires IsRoot(root)
    ensures s == Cosine(a, b, root)
    ensures -1.0 <= s <= 1.0
  {
    CosineInRange(a, b, root);
    hide Scaled;
    if |a| != |b| {
      return 0.0;
    }
    var dotProduct, normA, normB := 0.0, 0.0, 0.0;
    for i := 0 to |a|
      invariant dotProduct == Dot(a, b, i) && normA == Dot(a, a, i) && normB == Dot(b, b, i)
    {
      dotProduct := dotProduct + a[i] * b[i];
      normA := normA + a[i] * a[i];
      normB := normB + b[i] * b[i];
    }
    if normA == 0.0 || normB == 0.0 {
      return 0.0;
    }
    NormsPositive(a, b, root);
    s := Scaled(dotProduct, normA, normB, root);
  }

  // ----- Cauchy-Schwarz

  lemma SquareIsNonNegative(x: real)
    ensures 0.0 <= x * x
  {
  }

  lemma {:induction false} NormIsNonNegative(a: seq<real>, n: nat)
    requires n <= |a|
    ensures 0.0 <= Dot(a, a, n)
  {
    if n > 0 {
      NormIsNonNegative(a, n - 1);
      SquareIsNonNegative(a[n - 1]);
    }
  }

  /** The cross term of one more coordinate, bounded by the mean of the two squares it mixes. */
  lemma CrossTerm(d: real, p: real, q: real, x: real, y: real)
    requires 0.0 <= p && 0.0 <= q && d * d <= p * q
    ensures 2.0 * d * x * y <= p * y * y + q * x * x
  {
    var u, v := p * (y * y), q * (x * x);
    SquareIsNonNegative(x);
    SquareIsNonNegative(y);
    assert u >= 0.0 && v >= 0.0;
    var z := x * y;
    var w := 2.0 * d * z;
    assert w * w == 4.0 * (d * d) * (z * z);
    SquareIsNonNegative(z);
    ScaleUp(d * d, p * q, z * z);
    assert z * z == (x * x) * (y * y);
    assert (p * q) * (z * z) == u * v;
    SquareIsNonNegative(u - v);
    assert (u + v) * (u + v) == (u - v) * (u - v) + 4.0 * (u * v);
    assert w * w <= (u + v) * (u + v);
    RootOrder(w, u + v);
    assert p * y * y == u && q * x * x == v && 2.0 * d * x * y == w;
  }

  lemma ScaleUp(a: real, b: real, c: real)
    requires a <= b && 0.0 <= c
    ensures a * c <= b * c
  {
  }

  lemma NotAbove(w: real, s: real)
    requires 0.0 <= s && w * w <= s * s
    ensures w <= s
  {
    assert (w - s) * (w + s) == w * w - s * s;
    PositiveProduct(w - s, w + s);
  }

  lemma RootOrder(w: real, s: real)
    requires 0.0 <= s && w * w <= s * s
    ensures -s <= w <= s
  {
    assert (-w) * (-w) == w * w;
    NotAbove(w, s);
    NotAbove(-w, s);
  }

  /** The accumulated dot product squared never exceeds the product of the accumulated norms. */
  lemma {:induction false} CauchySchwarz(a: seq<real>, b: seq<real>, n: nat)
    requires n <= |a| && n <= |b|
    ensures Dot(a, b, n) * Dot(a, b, n) <= Dot(a, a, n) * Dot(b, b, n)
  {
    if n > 0 {
      CauchySchwarz(a, b, n - 1);
      NormIsNonNegative(a, n - 1);
      NormIsNonNegative(b, n - 1);
      var d, p, q, x, y := Dot(a, b, n - 1), Dot(a, a, n - 1), Dot(b, b, n - 1), a[n - 1], b[n - 1];
      CrossTerm(d, p, q, x, y);
      OneMoreCoordinate(d, p, q, x, y);
    }
  }

  lemma OneMoreCoordinate(d: real, p: real, q: real, x: real, y: real)
    requires d * d <= p * q && 2.0 * d * x * y <= p * y * y + q * x * x
    ensures (d + x * y) * (d + x * y) <= (p + x * x) * (q + y * y)
  {
    assert (d + x * y) * (d + x * y) == d * d + 2.0 * d * x * y + (x * y) * (x * y);
    assert (p + x * x) * (q + y * y) == p * q + p * y * y + q * x * x + (x * x) * (y * y);
    assert (x * y) * (x * y) == (x * x) * (y * y);
  }

  lemma NormsPositive(a: seq<real>, b: seq<real>, root: real -> real)
    requires IsRoot(root) && Dot(a, a, |a|) != 0.0 && Dot(b, b, |b|) != 0.0
    ensures var r := root(Dot(a, a, |a|)) * root(Dot(b, b, |b|));
            r > 0.0 && r * r == Dot(a, a, |a|) * Dot(b, b, |b|)
  {
    NormIsNonNegative(a, |a|);
    NormIsNonNegative(b, |b|);
    RootProduct(Dot(a, a, |a|), Dot(b, b, |b|), root(Dot(a, a, |a|)), root(Dot(b, b, |b|)));
  }

  lemma RootProduct(p: real, q: real, rp: real, rq: real)
    requires p > 0.0 && q > 0.0 && rp >= 0.0 && rq >= 0.0 && rp * rp == p && rq * rq == q
    ensures rp * rq > 0.0 && (rp * rq) * (rp * rq) == p * q
  {
    assert rp != 0.0 && rq != 0.0;
    assert (rp * rq) * (rp * rq) == (rp * rp) * (rq * rq);
  }

  lemma QuotientInRange(d: real, r: real)
    requires r > 0.0 && -r <= d <= r
    ensures -1.0 <= d / r <= 1.0
  {
  }

  lemma ScaledInRange(d: real, p: real, q: real, root: real -> real)
    requires var r := root(p) * root(q); r > 0.0 && r * r == p * q && d * d <= p * q
    ensures -1.0 <= Scaled(d, p, q, root) <= 1.0
  {
    var r := root(p) * root(q);
    RootOrder(d, r);
    QuotientInRange(d, r);
  }

  /** A similarity lies in [-1, 1]. */
  lemma CosineInRange(a: seq<real>, b: seq<real>, root: real -> real)
    requires IsRoot(root)
    ensures -1.0 <= Cosine(a, b, root) <= 1.0
  {
    if !(|a| != |b| || Dot(a, a, |a|) == 0.0 || Dot(b, b, |b|) == 0.0) {
      NormsPositive(a, b, root);
      CauchySchwarz(a, b, |a|);
      hide IsRoot;
      ScaledInRange(Dot(a, b, |a|), Dot(a, a, |a|), Dot(b, b, |b|), root);
    }
  }

  /** Comparison is symmetric, and a non-zero vector is fully similar to itself. */
  lemma CosineLaws(a: seq<real>, b: seq<real>, root: real -> real)
    requires IsRoot(root)
    ensures Cosine(a, b, root) == Cosine(b, a, root)
    ensures Dot(a, a, |a|) != 0.0 ==> Cosine(a, a, root) == 1.0
  {
    if |a| == |b| {
      DotSymmetric(a, b, |a|);
    }
    if Dot(a, a, |a|) != 0.0 {
      NormsPositive(a, a, root);
      NormIsNonNegative(a, |a|);
      var n := Dot(a, a, |a|);
      assert root(n) * root(n) == n;
      SelfQuotient(n, root(n) * root(n));
    }
  }

  lemma SelfQuotient(x: real, y: real)
    requires x == y && x != 0.0
    ensures x / y == 1.0
  {
  }

  lemma {:induction false} DotSymmetric(a: seq<real>, b: seq<real>, n: nat)
    requires n <= |a| && n <= |b|
    ensures Dot(a, b, n) == Dot(b, a, n)
  {
    if n > 0 {
      DotSymmetric(a, b, n - 1);
    }
  }

  predicate IsZero(a: seq<real>) {
    forall i :: 0 <= i < |a| ==> a[i] == 0.0
  }

  /** Only the zero vector has no length. */
  lemma {:induction false} OnlyZeroHasNoLength(a: seq<real>, n: nat)
    requires n <= |a|
    ensures if IsZero(a[..n]) then Dot(a, a, n) == 0.0 else Dot(a, a, n) > 0.0
  {
    if n > 0 {
      OnlyZeroHasNoLength(a, n - 1);
      AddSquare(Dot(a, a, n - 1), a[n - 1]);
      assert a[..n] == a[..n - 1] + [a[n - 1]];
      assert IsZero(a[..n]) <==> IsZero(a[..n - 1]) && a[n - 1] == 0.0;
    }
  }

  lemma SquareIsPositive(x: real)
    requires x != 0.0
    ensures x * x > 0.0
  {
  }

  lemma AddSquare(d: real, x: real)
    requires d >= 0.0
    ensures x == 0.0 ==> d + x * x == d
    ensures x != 0.0 ==> d + x * x > 0.0
    ensures d > 0.0 ==> d + x * x > 0.0
  {
    if x != 0.0 {
      SquareIsPositive(x);
      var s: real :| s == x * x && s > 0.0;
      assert d + s > 0.0;
    }
  }

  /** What a similarity is, without the root: nothing for vectors of different lengths or a zero vector, and otherwise
      the number of the dot product's sign whose square is the squared dot product over the product of the norms. */
  lemma CosineExactly(a: seq<real>, b: seq<real>, root: real -> real)
    requires IsRoot(root)
    ensures |a| != |b| || IsZero(a) || IsZero(b) ==> Cosine(a, b, root) == 0.0
    ensures |a| == |b| && !IsZero(a) && !IsZero(b) ==>
              var c, d := Cosine(a, b, root), Dot(a, b, |a|);
              && c * c * (Dot(a, a, |a|) * Dot(b, b, |b|)) == d * d
              && (c > 0.0 <==> d > 0.0) && (c < 0.0 <==> d < 0.0)
  {
    assert a[..|a|] == a && b[..|b|] == b;
    OnlyZeroHasNoLength(a, |a|);
    OnlyZeroHasNoLength(b, |b|);
    if |a| == |b| && !IsZero(a) && !IsZero(b) {
      NormsPositive(a, b, root);
      var p, q := Dot(a, a, |a|), Dot(b, b, |b|);
      var d, r := Dot(a, b, |a|), root(p) * root(q);
      QuotientTimes(d, r);
      FactorOf(Cosine(a, b, root), r, d, p * q);
    }
  }

  lemma QuotientTimes(d: real, r: real)
    requires r > 0.0
    ensures d / r * r == d
  {
  }

  lemma FactorOf(c: real, r: real, d: real, n: real)
    requires r > 0.0 && c * r == d && r * r == n
    ensures c * c * n == d * d && (c > 0.0 <==> d > 0.0) && (c < 0.0 <==> d < 0.0)
  {
    PositiveProduct(c, r);
    PositiveProduct(-c, r);
    assert (-c) * r == -d;
    assert c * c * (r * r) == (c * r) * (c * r);
  }

  // ----- choosing chunks

  datatype Chunk = Chunk(id: int, text: string, embedding: seq<real>)

  function Score(query: seq<real>, c: Chunk, root: real -> real): real
    requires IsRoot(root)
  {
    Cosine(query, c.embedding, root)
  }

  /** The best score of any chunk, never below zero. */
  method BestSimilarity(query: seq<real>, chunks: seq<Chunk>, root: real -> real) returns (best: real)
    requires IsRoot(root)
    ensures 0.0 <= best <= 1.0
    ensures forall k :: 0 <= k < |chunks| ==> Score(query, chunks[k], root) <= best
    ensures best == 0.0 || exists k :: 0 <= k < |chunks| && Score(query, chunks[k], root) == best
  {
    best := 0.0;
    for i := 0 to |chunks|
      invariant 0.0 <= best <= 1.0
      invariant forall k :: 0 <= k < i ==> Score(query, chunks[k], root) <= best
      invariant best == 0.0 || exists k :: 0 <= k < i && Score(query, chunks[k], root) == best
    {
      hide IsRoot, Cosine;
      var s := CosineSimilarity(query, chunks[i].embedding, root);
      if s > best {
        best := s;
      }
    }
  }

  datatype Scored = Scored(chunk: Chunk, score: real)

  function ByScore(): (Scored, Scored) -> bool {
    (x: Scored, y: Scored) => x.score > y.score
  }

  /** Some arrangement by descending score; nothing more is promised about ties. */
  method SortScored(scored: seq<Scored>) returns (r: seq<Scored>)
    ensures multiset(r) == multiset(scored) && |r| == |scored|
    ensures forall i, j :: 0 <= i < j < |r| ==> r[i].score >= r[j].score
  {
    hide Sort;
    r := Sort(scored, ByScore());
    SortPermutes(scored, ByScore());
    SortSorts(scored, ByScore());
    forall i, j | 0 <= i < j < |r|
      ensures r[i].score >= r[j].score
    {
      assert !ByScore()(r[j], r[i]);
    }
  }

  function ChunkOf(): Scored -> Chunk {
    (s: Scored) => s.chunk
  }

  /** The k best chunks, best first: min(k, n) of them, and none that is left out scores above one that is kept. */
  method RetrieveTopK(query: seq<real>, chunks: seq<Chunk>, k: int, root: real -> real)
    returns (top: seq<Chunk>, ghost omitted: seq<Chunk>)
    requires IsRoot(root)
    ensures |top| == if k < 0 then 0 else if k < |chunks| then k else |chunks|
    ensures multiset(top + omitted) == multiset(chunks)
    ensures forall i, j :: 0 <= i < j < |top| ==> Score(query, top[i], root) >= Score(query, top[j], root)
    ensures forall i, j :: 0 <= i < |top| && 0 <= j < |omitted| ==>
              Score(query, top[i], root) >= Score(query, omitted[j], root)
  {
    hide IsRoot, Cosine;
    var scored: seq<Scored> := [];
    for i := 0 to |chunks|
      invariant |scored| == i
      invariant forall j :: 0 <= j < i ==> scored[j] == Scored(chunks[j], Score(query, chunks[j], root))
    {
      var s := CosineSimilarity(query, chunks[i].embedding, root);
      scored := scored + [Scored(chunks[i], s)];
    }
    var sorted := SortScored(scored);
    MapPermutes(sorted, scored, ChunkOf());
    assert Map(scored, ChunkOf()) == chunks;
    SameMembers(sorted, scored);
    forall j | 0 <= j < |sorted|
      ensures sorted[j].score == Score(query, sorted[j].chunk, root)
    {
      assert sorted[j] in scored;
    }
    var n := if k < 0 then 0 else if k < |sorted| then k else |sorted|;
    top := [];
    for i := 0 to n
      invariant top == Map(sorted[..i], ChunkOf())
    {
      assert sorted[..i + 1] == sorted[..i] + [sorted[i]];
      top := top + [sorted[i].chunk];
    }
    omitted := Map(sorted[n..], ChunkOf());
    assert top + omitted == Map(sorted, ChunkOf());
  }
}
