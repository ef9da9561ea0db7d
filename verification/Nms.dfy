/** apps/analytics/app/providers/yolox_onnx.py, `_nms`: greedy suppression of overlapping
    boxes, over the reals. */
module Nms {
  import opened Ranking

  datatype Box = Box(x1: real, y1: real, x2: real, y2: real)

  function Max(a: real, b: real): real {
    if a < b then b else a
  }

  function Min(a: real, b: real): real {
    if a < b then a else b
  }

  /** numpy's `clip(0)`. */
  function Clip(a: real): (r: real)
    ensures r >= 0.0 && r >= a && (r == 0.0 || r == a)
  {
    Max(a, 0.0)
  }

  function Area(b: Box): real {
    Clip(b.x2 - b.x1) * Clip(b.y2 - b.y1)
  }

  function Width(a: Box, b: Box): real {
    Clip(Min(a.x2, b.x2) - Max(a.x1, b.x1))
  }

  function Height(a: Box, b: Box): real {
    Clip(Min(a.y2, b.y2) - Max(a.y1, b.y1))
  }

  function Intersection(a: Box, b: Box): real {
    Width(a, b) * Height(a, b)
  }

  const EPSILON := 0.000000001

  lemma {:induction false} ProductGrows(a: real, b: real, c: real, d: real)
    requires 0.0 <= a <= c && 0.0 <= b <= d
    ensures 0.0 <= a * b <= c * d
  {
    assert a * b <= c * b;
    assert c * b <= c * d;
  }

  /** The intersection fits into either box, inverted boxes included. */
  lemma {:induction false} IntersectionFits(a: Box, b: Box)
    ensures 0.0 <= Intersection(a, b) <= Area(a) && Intersection(a, b) <= Area(b)
  {
    ProductGrows(Width(a, b), Height(a, b), Clip(a.x2 - a.x1), Clip(a.y2 - a.y1));
    ProductGrows(Width(a, b), Height(a, b), Clip(b.x2 - b.x1), Clip(b.y2 - b.y1));
  }

  function Union(a: Box, b: Box): (r: real)
    ensures r > Intersection(a, b) >= 0.0
  {
    IntersectionFits(a, b);
    Area(a) + Area(b) - Intersection(a, b) + EPSILON
  }

  function IoU(a: Box, b: Box): real {
    Intersection(a, b) / Union(a, b)
  }

  /** For all boxes, inverted ones included, the ratio is symmetric and below one. */
  lemma {:induction false} IoUBounds(a: Box, b: Box)
    ensures 0.0 <= IoU(a, b) < 1.0 && IoU(a, b) == IoU(b, a)
  {
    assert Intersection(a, b) == Intersection(b, a);
    QuotientBelowOne(Intersection(a, b), Union(a, b));
  }

  lemma {:induction false} QuotientBelowOne(n: real, d: real)
    requires 0.0 <= n < d
    ensures 0.0 <= n / d < 1.0
  {
  }

  predicate Overlaps(boxes: seq<Box>, i: nat, j: nat, thr: real)
    requires i < |boxes| && j < |boxes|
  {
    IoU(boxes[i], boxes[j]) > thr
  }

  // ── The suppression loop ──────────────────────────────────────────────────

  /** The remaining indices that do not overlap the kept one, in their order. */
  function NotOverlapped(boxes: seq<Box>, i: nat, rest: seq<nat>, thr: real): (r: seq<nat>)
    requires i < |boxes| && forall k :: 0 <= k < |rest| ==> rest[k] < |boxes|
    ensures |r| <= |rest|
    ensures forall x :: x in r <==> x in rest && x < |boxes| && !Overlaps(boxes, i, x, thr)
  {
    if rest == [] then []
    else
      var last := rest[|rest| - 1];
      NotOverlapped(boxes, i, rest[..|rest| - 1], thr) + (if Overlaps(boxes, i, last, thr) then [] else [last])
  }

  lemma {:induction false} NotOverlappedInOrder(
    boxes: seq<Box>, scores: seq<real>, i: nat, rest: seq<nat>, thr: real)
    requires i < |boxes| == |scores| && Indices(rest, |boxes|) && Descending(rest, scores)
    ensures var r := NotOverlapped(boxes, i, rest, thr);
            Indices(r, |boxes|) && Descending(r, scores)
  {
    if rest == [] {
    } else {
      var front, last := rest[..|rest| - 1], rest[|rest| - 1];
      NotOverlappedInOrder(boxes, scores, i, front, thr);
      LastIsLeast(rest, scores);
      Appended(NotOverlapped(boxes, i, front, thr), scores, last);
    }
  }

  lemma {:induction false} LastIsLeast(rest: seq<nat>, scores: seq<real>)
    requires rest != [] && Indices(rest, |scores|) && Descending(rest, scores)
    ensures var front, last := rest[..|rest| - 1], rest[|rest| - 1];
            forall x :: x in front ==> x < |scores| && x != last && scores[x] >= scores[last]
  {
    var front, last := rest[..|rest| - 1], rest[|rest| - 1];
    forall x | x in front
      ensures x < |scores| && x != last && scores[x] >= scores[last]
    {
      var k :| 0 <= k < |front| && front[k] == x;
      assert rest[k] == x;
    }
  }

  method Survivors(boxes: seq<Box>, i: nat, rest: seq<nat>, thr: real) returns (left: seq<nat>)
    requires i < |boxes| && forall k :: 0 <= k < |rest| ==> rest[k] < |boxes|
    ensures left == NotOverlapped(boxes, i, rest, thr)
  {
    left := [];
    for k := 0 to |rest|
      invariant left == NotOverlapped(boxes, i, rest[..k], thr)
    {
      assert rest[..k + 1][..k] == rest[..k];
      if !Overlaps(boxes, i, rest[k], thr) {
        left := left + [rest[k]];
      }
    }
    assert rest[..|rest|] == rest;
  }

  /** What greedy suppression promises of the indices it keeps. */
  ghost predicate IsNms(boxes: seq<Box>, scores: seq<real>, thr: real, keep: seq<nat>)
    requires |boxes| == |scores|
  {
    && Indices(keep, |boxes|) && Descending(keep, scores)
    && (forall j, k :: 0 <= j < k < |keep| ==> !Overlaps(boxes, keep[j], keep[k], thr))
    && (forall i: nat :: i < |boxes| && i !in keep ==> Suppressed(boxes, scores, thr, keep, i))
  }

  /** The kept indices so far. */
  ghost predicate Kept(boxes: seq<Box>, scores: seq<real>, thr: real, keep: seq<nat>)
    requires |boxes| == |scores|
  {
    && Indices(keep, |boxes|) && Descending(keep, scores)
    && (forall j, k :: 0 <= j < k < |keep| ==> !Overlaps(boxes, keep[j], keep[k], thr))
  }

  predicate Leads(boxes: seq<Box>, scores: seq<real>, thr: real, x: nat, y: nat)
    requires |boxes| == |scores| && x < |boxes| && y < |boxes|
  {
    x != y && scores[x] >= scores[y] && !Overlaps(boxes, x, y, thr)
  }

  /** Every kept index comes before what is left. */
  ghost predicate AllLead(boxes: seq<Box>, scores: seq<real>, thr: real, keep: seq<nat>, order: seq<nat>)
    requires |boxes| == |scores| && Indices(keep, |boxes|) && Indices(order, |boxes|)
  {
    forall x, y :: x in keep && y in order ==> Leads(boxes, scores, thr, x, y)
  }

  /** Whatever is neither kept nor left has its reason. */
  ghost predicate Covered(boxes: seq<Box>, scores: seq<real>, thr: real, keep: seq<nat>, order: seq<nat>)
    requires |boxes| == |scores| && Indices(keep, |boxes|)
  {
    forall i: nat :: i < |boxes| && i !in keep && i !in order ==> Suppressed(boxes, scores, thr, keep, i)
  }

  /** The state of the loop: `order` is what is left to look at. */
  ghost predicate Halfway(boxes: seq<Box>, scores: seq<real>, thr: real, keep: seq<nat>, order: seq<nat>)
    requires |boxes| == |scores|
  {
    && Kept(boxes, scores, thr, keep)
    && Indices(order, |boxes|) && Descending(order, scores)
    && AllLead(boxes, scores, thr, keep, order)
    && Covered(boxes, scores, thr, keep, order)
  }

  ghost predicate Suppressed(boxes: seq<Box>, scores: seq<real>, thr: real, keep: seq<nat>, i: nat)
    requires i < |boxes| == |scores| && Indices(keep, |boxes|)
  {
    exists k :: k in keep && scores[k] >= scores[i] && Overlaps(boxes, k, i, thr)
  }

  ghost predicate Splits(boxes: seq<Box>, thr: real, order: seq<nat>, left: seq<nat>)
    requires order != [] && Indices(order, |boxes|)
  {
    && Indices(left, |boxes|)
    && forall x :: x in left <==> x in order[1..] && !Overlaps(boxes, order[0], x, thr)
  }

  /** The kept index leads the rest by score and overlaps nothing kept before. */
  lemma {:induction false} KeepExtends(
    boxes: seq<Box>, scores: seq<real>, thr: real, keep: seq<nat>, first: nat)
    requires |boxes| == |scores| && Kept(boxes, scores, thr, keep) && first < |boxes|
    requires forall x :: x in keep ==> Leads(boxes, scores, thr, x, first)
    ensures Kept(boxes, scores, thr, keep + [first])
  {
    Appended(keep, scores, first);
    forall j | 0 <= j < |keep|
      ensures Leads(boxes, scores, thr, keep[j], first)
    {
      assert keep[j] in keep;
    }
  }

  lemma {:induction false} KeepLeads(
    boxes: seq<Box>, scores: seq<real>, thr: real, keep: seq<nat>, order: seq<nat>, left: seq<nat>)
    requires |boxes| == |scores| && order != [] && Indices(order, |boxes|) && Descending(order, scores)
    requires Indices(keep, |boxes|) && AllLead(boxes, scores, thr, keep, order) && Splits(boxes, thr, order, left)
    requires Indices(keep + [order[0]], |boxes|)
    ensures AllLead(boxes, scores, thr, keep + [order[0]], left)
  {
    forall x, y | x in keep + [order[0]] && y in left
      ensures Leads(boxes, scores, thr, x, y)
    {
      assert y in order[1..];
      var k :| 0 <= k < |order[1..]| && order[1..][k] == y;
      assert order[k + 1] == y && y in order;
      if x !in keep {
        assert x == order[0];
      }
    }
  }

  lemma {:induction false} NowSuppressed(
    boxes: seq<Box>, scores: seq<real>, thr: real, keep: seq<nat>, first: nat, z: nat)
    requires z < |boxes| == |scores| && Indices(keep + [first], |boxes|)
    requires first < |boxes| && scores[first] >= scores[z] && Overlaps(boxes, first, z, thr)
    ensures Suppressed(boxes, scores, thr, keep + [first], z)
  {
    assert (keep + [first])[|keep|] == first;
  }

  lemma {:induction false} KeepCovers(
    boxes: seq<Box>, scores: seq<real>, thr: real, keep: seq<nat>, order: seq<nat>, left: seq<nat>)
    requires |boxes| == |scores| && order != [] && Indices(order, |boxes|) && Descending(order, scores)
    requires Indices(keep, |boxes|) && Indices(keep + [order[0]], |boxes|)
    requires Covered(boxes, scores, thr, keep, order) && Splits(boxes, thr, order, left)
    ensures Covered(boxes, scores, thr, keep + [order[0]], left)
  {
    var first, next := order[0], keep + [order[0]];
    forall z: nat | z < |boxes| && z !in next && z !in left
      ensures Suppressed(boxes, scores, thr, next, z)
    {
      assert first == next[|keep|];
      if z in order {
        var k :| 0 <= k < |order| && order[k] == z;
        assert k > 0 && order[1..][k - 1] == z;
        NowSuppressed(boxes, scores, thr, keep, first, z);
      } else {
        var k :| k in keep && scores[k] >= scores[z] && Overlaps(boxes, k, z, thr);
        assert k in next;
      }
    }
  }

  lemma {:induction false} KeepOne(
    boxes: seq<Box>, scores: seq<real>, thr: real, keep: seq<nat>, order: seq<nat>, left: seq<nat>)
    requires |boxes| == |scores| && order != [] && Halfway(boxes, scores, thr, keep, order)
    requires Splits(boxes, thr, order, left) && Descending(left, scores)
    ensures Halfway(boxes, scores, thr, keep + [order[0]], left)
  {
    assert order[0] in order;
    KeepExtends(boxes, scores, thr, keep, order[0]);
    KeepLeads(boxes, scores, thr, keep, order, left);
    KeepCovers(boxes, scores, thr, keep, order, left);
  }

  /** Distinct indices in falling score, no two kept boxes overlapping, and every dropped
      box overlapped by a kept one of at least its score. */
  method Nms(boxes: seq<Box>, scores: seq<real>, thr: real) returns (keep: seq<nat>)
    requires |boxes| == |scores|
    ensures IsNms(boxes, scores, thr, keep)
  {
    keep := [];
    if |boxes| == 0 {
      return;
    }
    var order := ArgsortDescending(scores);
    while |order| > 0
      invariant Halfway(boxes, scores, thr, keep, order)
      decreases |order|
    {
      var i := order[0];
      ghost var before := keep;
      keep := keep + [i];
      if |order| == 1 {
        KeepOne(boxes, scores, thr, before, order, []);
        break;
      }
      var left := Survivors(boxes, i, order[1..], thr);
      NotOverlappedInOrder(boxes, scores, i, order[1..], thr);
      KeepOne(boxes, scores, thr, before, order, left);
      order := left;
    }
  }

  // ── The promise pins the result down ──────────────────────────────────────

  ghost function Better(scores: seq<real>, i: nat): set<nat>
    requires i < |scores|
  {
    set j: nat | j < |scores| && scores[j] > scores[i]
  }

  lemma {:induction false} OnlyOneKernel(
    boxes: seq<Box>, scores: seq<real>, thr: real, a: seq<nat>, b: seq<nat>, i: nat)
    requires |boxes| == |scores| && IsNms(boxes, scores, thr, a) && IsNms(boxes, scores, thr, b)
    requires forall j, k :: 0 <= j < k < |scores| ==> scores[j] != scores[k]
    requires i in a
    ensures i in b
    decreases Better(scores, i)
  {
    if i !in b {
      var k :| k in b && scores[k] >= scores[i] && Overlaps(boxes, k, i, thr);
      assert scores[k] > scores[i];
      assert k in Better(scores, i) && k !in Better(scores, k);
      OnlyOneKernel(boxes, scores, thr, b, a, k);
    }
  }

  /** With distinct scores no other result meets the promise. */
  lemma {:induction false} NmsIsUnique(boxes: seq<Box>, scores: seq<real>, thr: real, a: seq<nat>, b: seq<nat>)
    requires |boxes| == |scores| && IsNms(boxes, scores, thr, a) && IsNms(boxes, scores, thr, b)
    requires forall j, k :: 0 <= j < k < |scores| ==> scores[j] != scores[k]
    ensures a == b
  {
    forall i
      ensures i in a <==> i in b
    {
      if i in a {
        OnlyOneKernel(boxes, scores, thr, a, b, i);
      }
      if i in b {
        OnlyOneKernel(boxes, scores, thr, b, a, i);
      }
    }
    OneRanking(a, b, scores);
  }

  // ── What the ratio is, in coordinates ─────────────────────────────────────

  predicate Upright(b: Box) {
    b.x1 < b.x2 && b.y1 < b.y2
  }

  predicate Inside(b: Box, x: real, y: real) {
    b.x1 < x < b.x2 && b.y1 < y < b.y2
  }

  lemma {:induction false} Quotient(n: real, d: real)
    requires d > 0.0
    ensures n / d * d == n
  {
  }

  lemma {:induction false} OverlapParts(a: Box, b: Box, w: real, h: real)
    requires w > 0.0 && h > 0.0
    requires w == (if a.x2 < b.x2 then a.x2 else b.x2) - (if a.x1 > b.x1 then a.x1 else b.x1)
    requires h == (if a.y2 < b.y2 then a.y2 else b.y2) - (if a.y1 > b.y1 then a.y1 else b.y1)
    ensures Width(a, b) == w && Height(a, b) == h
  {
  }

  lemma {:induction false} AreaOfUpright(b: Box)
    requires Upright(b)
    ensures Area(b) == (b.x2 - b.x1) * (b.y2 - b.y1)
  {
    assert Clip(b.x2 - b.x1) == b.x2 - b.x1 && Clip(b.y2 - b.y1) == b.y2 - b.y1;
  }

  lemma {:induction false} RatioOf(a: Box, b: Box, union: real)
    requires union == Area(a) + Area(b) - Intersection(a, b) + 0.000000001
    ensures IoU(a, b) * union == Intersection(a, b)
  {
    UnionIs(a, b, union);
    Quotient(Intersection(a, b), union);
  }

  lemma {:induction false} UnionIs(a: Box, b: Box, union: real)
    requires union == Area(a) + Area(b) - Intersection(a, b) + 0.000000001
    ensures Union(a, b) == union > 0.0 && IoU(a, b) == Intersection(a, b) / union
  {
    IntersectionFits(a, b);
  }

  /** Two upright boxes that overlap by `w` times `h`: the overlap over what they cover
      together, plus the guard against zero. */
  lemma {:induction false} IoUOfOverlap(a: Box, b: Box, w: real, h: real, union: real)
    requires Upright(a) && Upright(b) && w > 0.0 && h > 0.0
    requires w == (if a.x2 < b.x2 then a.x2 else b.x2) - (if a.x1 > b.x1 then a.x1 else b.x1)
    requires h == (if a.y2 < b.y2 then a.y2 else b.y2) - (if a.y1 > b.y1 then a.y1 else b.y1)
    requires union == (a.x2 - a.x1) * (a.y2 - a.y1) + (b.x2 - b.x1) * (b.y2 - b.y1) - w * h + 0.000000001
    ensures IoU(a, b) * union == w * h
  {
    AreaOfUpright(a);
    AreaOfUpright(b);
    OverlapParts(a, b, w, h);
    RatioOf(a, b, union);
  }

  /** Of a box inside another one, the ratio of the areas; of equal boxes, all but one. */
  lemma {:induction false} IoUOfInner(a: Box, b: Box, inner: real, outer: real)
    requires Upright(a) && b.x1 <= a.x1 && a.x2 <= b.x2 && b.y1 <= a.y1 && a.y2 <= b.y2
    requires inner == (a.x2 - a.x1) * (a.y2 - a.y1) && outer == (b.x2 - b.x1) * (b.y2 - b.y1)
    ensures IoU(a, b) * (outer + 0.000000001) == inner
  {
    IoUOfOverlap(a, b, a.x2 - a.x1, a.y2 - a.y1, outer + 0.000000001);
  }

  /** Two boxes overlap at all exactly if they share an interior point. */
  lemma {:induction false} OverlapIsShared(a: Box, b: Box)
    ensures IoU(a, b) > 0.0 <==> exists x, y :: Inside(a, x, y) && Inside(b, x, y)
  {
    var left, right := Max(a.x1, b.x1), Min(a.x2, b.x2);
    var top, bottom := Max(a.y1, b.y1), Min(a.y2, b.y2);
    PositiveQuotient(Intersection(a, b), Union(a, b));
    PositiveProduct(Width(a, b), Height(a, b));
    if left < right && top < bottom {
      var x, y := (left + right) / 2.0, (top + bottom) / 2.0;
      assert Inside(a, x, y) && Inside(b, x, y);
    }
    forall x, y | Inside(a, x, y) && Inside(b, x, y)
      ensures left < right && top < bottom
    {
    }
  }

  lemma {:induction false} PositiveQuotient(n: real, d: real)
    requires d > 0.0
    ensures n / d > 0.0 <==> n > 0.0
  {
    Quotient(n, d);
  }

  lemma {:induction false} PositiveProduct(a: real, b: real)
    requires a >= 0.0 && b >= 0.0
    ensures a * b > 0.0 <==> a > 0.0 && b > 0.0
  {
  }

  lemma {:induction false} KeptDoNotOverlap(
    boxes: seq<Box>, scores: seq<real>, thr: real, keep: seq<nat>, i: nat, j: nat)
    requires |boxes| == |scores| && IsNms(boxes, scores, thr, keep) && i in keep && j in keep && i != j
    ensures IoU(boxes[i], boxes[j]) <= thr
  {
    var a :| 0 <= a < |keep| && keep[a] == i;
    var b :| 0 <= b < |keep| && keep[b] == j;
    IoUBounds(boxes[i], boxes[j]);
    assert !Overlaps(boxes, keep[if a < b then a else b], keep[if a < b then b else a], thr);
  }

  /** Of two boxes that cover the same rectangle at most one is kept, if the threshold is
      below its ratio with itself. */
  lemma {:induction false} CopiesAreDropped(
    boxes: seq<Box>, scores: seq<real>, thr: real, keep: seq<nat>, i: nat, j: nat, area: real)
    requires |boxes| == |scores| && IsNms(boxes, scores, thr, keep)
    requires i < j < |boxes| && boxes[i] == boxes[j] && Upright(boxes[i])
    requires area == (boxes[i].x2 - boxes[i].x1) * (boxes[i].y2 - boxes[i].y1)
    requires thr * (area + 0.000000001) < area
    ensures !(i in keep && j in keep)
  {
    PositiveProduct(boxes[i].x2 - boxes[i].x1, boxes[i].y2 - boxes[i].y1);
    IoUOfInner(boxes[i], boxes[j], area, area);
    BelowQuotient(thr, IoU(boxes[i], boxes[j]), area + 0.000000001);
    IoUBounds(boxes[i], boxes[j]);
    if i in keep && j in keep {
      KeptDoNotOverlap(boxes, scores, thr, keep, i, j);
    }
  }

  lemma {:induction false} BelowQuotient(t: real, q: real, d: real)
    requires d > 0.0 && t * d < q * d
    ensures t < q
  {
  }

  /** A box that shares no interior point with any other of at least its score is kept, if the
      threshold is not negative. */
  lemma {:induction false} LoneBoxIsKept(boxes: seq<Box>, scores: seq<real>, thr: real, keep: seq<nat>, i: nat)
    requires |boxes| == |scores| && IsNms(boxes, scores, thr, keep) && thr >= 0.0 && i < |boxes|
    requires forall k: nat, x, y :: k < |boxes| && k != i && scores[k] >= scores[i] && Inside(boxes[k], x, y) ==>
                                      !Inside(boxes[i], x, y)
    ensures i in keep
  {
    if i !in keep {
      var k :| k in keep && scores[k] >= scores[i] && Overlaps(boxes, k, i, thr);
      OverlapIsShared(boxes[k], boxes[i]);
    }
  }
}
