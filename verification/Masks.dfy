/** Mask samplers over a grid of patches. What the random generator decides is a parameter of every operation. */
module Masks {
  import opened Wrappers

  datatype Rect = Rect(top: int, left: int, height: int, width: int)

  predicate In(r: Rect, i: int, j: int) {
    r.top <= i < r.top + r.height && r.left <= j < r.left + r.width
  }

  predicate InGrid(gridH: int, gridW: int, i: int, j: int) {
    0 <= i < gridH && 0 <= j < gridW
  }

  /** A rectangle with at least one cell, all of them in the grid. */
  predicate Fits(gridH: int, gridW: int, r: Rect) {
    0 <= r.top && 0 <= r.left && 1 <= r.height && 1 <= r.width && r.top + r.height <= gridH && r.left + r.width <= gridW
  }

  /** The draws for one block: the two side lengths as rounded from the drawn scales, and two raw random numbers. */
  datatype Draw = Draw(height: int, width: int, top: nat, left: nat)

  /** A random integer in [lo, hi), or `lo` when there is none. */
  function UniformInt(lo: int, hi: int, raw: nat): int {
    if hi <= lo then lo else lo + raw % (hi - lo)
  }

  datatype Sampled = Masks(context: seq<bool>, targets: seq<seq<bool>>) | BadGrid | TooShort | TooSmall | NoFuture | Covered

  lemma TimesMonotone(a: int, b: int, c: nat)
    requires a <= b
    ensures a * c <= b * c
  {
  }

  /** Cell number `k` of the flattened grid is cell (k / gridW, k % gridW). */
  lemma CellOf(gridH: nat, gridW: nat, k: nat)
    requires k < gridH * gridW
    ensures gridW > 0 && InGrid(gridH, gridW, k / gridW, k % gridW)
  {
    if gridW > 0 && k / gridW >= gridH {
      TimesMonotone(gridH, k / gridW, gridW);
      assert false;
    }
  }

  lemma QuotientAndRest(i: nat, j: nat, w: nat)
    requires j < w
    ensures (i * w + j) / w == i && (i * w + j) % w == j
  {
    var q := (i * w + j) / w;
    if q < i {
      TimesMonotone(q + 1, i, w);
      assert false;
    } else if q > i {
      TimesMonotone(i + 1, q, w);
      assert false;
    }
  }

  /** Every cell of the grid has a number. */
  lemma IndexOf(gridH: nat, gridW: nat, i: nat, j: nat) returns (k: nat)
    requires InGrid(gridH, gridW, i, j)
    ensures k < gridH * gridW && k / gridW == i && k % gridW == j
  {
    k := i * gridW + j;
    TimesMonotone(i + 1, gridH, gridW);
    QuotientAndRest(i, j, gridW);
  }

  function Flatten(m: array2<bool>): (flat: seq<bool>)
    reads m
    ensures |flat| == m.Length0 * m.Length1
  {
    seq(m.Length0 * m.Length1, k requires 0 <= k < m.Length0 * m.Length1 reads m =>
      CellOf(m.Length0, m.Length1, k); m[k / m.Length1, k % m.Length1])
  }

  /** A flat mask of the grid that marks exactly the cells of a rectangle. */
  ghost predicate MarksRect(flat: seq<bool>, gridH: int, gridW: int, r: Rect) {
    && 0 < gridH && 0 < gridW && |flat| == gridH * gridW
    && forall k :: 0 <= k < |flat| ==> (flat[k] <==> In(r, k / gridW, k % gridW))
  }

  predicate Any(m: array2<bool>)
    reads m
  {
    exists i, j :: 0 <= i < m.Length0 && 0 <= j < m.Length1 && m[i, j]
  }

  /** A mask of one rectangle. */
  method MarkBlock(gridH: nat, gridW: nat, r: Rect) returns (mask: array2<bool>)
    requires Fits(gridH, gridW, r)
    ensures fresh(mask) && mask.Length0 == gridH && mask.Length1 == gridW
    ensures forall i, j :: InGrid(gridH, gridW, i, j) ==> (mask[i, j] <==> In(r, i, j))
  {
    mask := new bool[gridH, gridW]((i, j) => false);
    forall i, j | r.top <= i < r.top + r.height && r.left <= j < r.left + r.width {
      mask[i, j] := true;
    }
  }

  // ---------------------------------------------------------------- infill

  /** The rectangle that a draw gives: at least one cell, cut to the grid, and placed inside it. */
  function Block(gridH: int, gridW: int, d: Draw): Rect {
    var h := Min(Max(1, d.height), gridH);
    var w := Min(Max(1, d.width), gridW);
    Rect(UniformInt(0, gridH - h + 1, d.top), UniformInt(0, gridW - w + 1, d.left), h, w)
  }

  /** Every draw gives at least one cell, and none outside the grid. */
  lemma BlockFits(gridH: int, gridW: int, d: Draw)
    requires gridH > 0 && gridW > 0
    ensures Fits(gridH, gridW, Block(gridH, gridW, d))
  {
  }

  lemma UniformIntRange(lo: int, hi: int, raw: nat)
    requires lo < hi
    ensures lo <= UniformInt(lo, hi, raw) < hi
    ensures raw < hi - lo ==> UniformInt(lo, hi, raw) == lo + raw
  {
  }

  /** The length nearest to the drawn one between 1 and `most`. */
  function Clamped(drawn: int, most: int): int {
    if drawn < 1 then 1 else if drawn > most then most else drawn
  }

  /** The blocks that a drawn size can give are exactly the rectangles of that size, cut to the grid, at every place in it. */
  lemma BlockReaches(gridH: int, gridW: int, height: int, width: int, r: Rect)
    requires gridH > 0 && gridW > 0
    ensures (exists top: nat, left: nat :: Block(gridH, gridW, Draw(height, width, top, left)) == r)
       <==> && r.height == Clamped(height, gridH) && r.width == Clamped(width, gridW)
            && 0 <= r.top <= gridH - r.height && 0 <= r.left <= gridW - r.width
  {
    forall top: nat, left: nat
      ensures var b := Block(gridH, gridW, Draw(height, width, top, left));
              && b.height == Clamped(height, gridH) && b.width == Clamped(width, gridW)
              && 0 <= b.top <= gridH - b.height && 0 <= b.left <= gridW - b.width
    {
      BlockIs(gridH, gridW, Draw(height, width, top, left));
    }
    if r.height == Clamped(height, gridH) && r.width == Clamped(width, gridW)
       && 0 <= r.top <= gridH - r.height && 0 <= r.left <= gridW - r.width {
      BlockIs(gridH, gridW, Draw(height, width, r.top, r.left));
    }
  }

  lemma BlockIs(gridH: int, gridW: int, d: Draw)
    requires gridH > 0 && gridW > 0
    ensures var b := Block(gridH, gridW, d);
            && b.height == Clamped(d.height, gridH) && b.width == Clamped(d.width, gridW)
            && 0 <= b.top <= gridH - b.height && 0 <= b.left <= gridW - b.width
            && (d.top <= gridH - b.height ==> b.top == d.top)
            && (d.left <= gridW - b.width ==> b.left == d.left)
  {
    UniformIntRange(0, gridH - Clamped(d.height, gridH) + 1, d.top);
    UniformIntRange(0, gridW - Clamped(d.width, gridW) + 1, d.left);
  }

  predicate Targeted(gridH: int, gridW: int, targets: seq<Draw>, i: int, j: int) {
    exists t :: 0 <= t < |targets| && In(Block(gridH, gridW, targets[t]), i, j)
  }

  /** The targets leave no cell of the grid free. */
  ghost predicate CoverGrid(gridH: int, gridW: int, targets: seq<Draw>) {
    forall i, j :: InGrid(gridH, gridW, i, j) ==> Targeted(gridH, gridW, targets, i, j)
  }

  /** Some cell of the block of `d` is free. */
  ghost predicate SticksOut(gridH: int, gridW: int, targets: seq<Draw>, d: Draw) {
    exists i, j :: InGrid(gridH, gridW, i, j) && In(Block(gridH, gridW, d), i, j) && !Targeted(gridH, gridW, targets, i, j)
  }

  /** A cell is in the context when it is free and in the first context block that sticks out of the targets; when
      none does, when it is free. */
  ghost predicate InContext(gridH: int, gridW: int, targets: seq<Draw>, tries: seq<Draw>, i: int, j: int) {
    if tries == [] then !Targeted(gridH, gridW, targets, i, j)
    else if SticksOut(gridH, gridW, targets, tries[0]) then
      In(Block(gridH, gridW, tries[0]), i, j) && !Targeted(gridH, gridW, targets, i, j)
    else InContext(gridH, gridW, targets, tries[1..], i, j)
  }

  /** Nothing of the block is free: it lies within the targets. */
  ghost predicate Swallowed(gridH: int, gridW: int, targets: seq<Draw>, d: Draw) {
    forall i, j :: InGrid(gridH, gridW, i, j) && In(Block(gridH, gridW, d), i, j) ==> Targeted(gridH, gridW, targets, i, j)
  }

  /** The attempts before number `n` are swallowed: the context is what that one leaves free, if it leaves something; if
      all attempts are swallowed, it is everything that is free. */
  lemma {:induction false} ContextIsFirst(gridH: int, gridW: int, targets: seq<Draw>, tries: seq<Draw>, n: nat, i: int, j: int)
    requires n <= |tries| && InGrid(gridH, gridW, i, j)
    requires forall m :: 0 <= m < n ==> Swallowed(gridH, gridW, targets, tries[m])
    ensures n == |tries| ==> (InContext(gridH, gridW, targets, tries, i, j) <==> !Targeted(gridH, gridW, targets, i, j))
    ensures n < |tries| && !Swallowed(gridH, gridW, targets, tries[n]) ==>
              (InContext(gridH, gridW, targets, tries, i, j)
               <==> In(Block(gridH, gridW, tries[n]), i, j) && !Targeted(gridH, gridW, targets, i, j))
  {
    if n > 0 {
      assert Swallowed(gridH, gridW, targets, tries[0]);
      assert forall m :: 0 <= m < n - 1 ==> tries[1..][m] == tries[m + 1];
      ContextIsFirst(gridH, gridW, targets, tries[1..], n - 1, i, j);
    }
  }

  method SampleBlock(gridH: nat, gridW: nat, d: Draw) returns (mask: array2<bool>)
    requires gridH > 0 && gridW > 0
    ensures fresh(mask) && mask.Length0 == gridH && mask.Length1 == gridW
    ensures forall i, j :: InGrid(gridH, gridW, i, j) ==> (mask[i, j] <==> In(Block(gridH, gridW, d), i, j))
  {
    var h := Max(1, d.height);
    var w := Max(1, d.width);
    h := Min(h, gridH);
    w := Min(w, gridW);
    var top := UniformInt(0, gridH - h + 1, d.top);
    var left := UniformInt(0, gridW - w + 1, d.left);
    mask := MarkBlock(gridH, gridW, Rect(top, left, h, w));
  }

  /** The union of the targets, accumulated in place. */
  method Union(masks: seq<array2<bool>>, gridH: nat, gridW: nat, ghost targets: seq<Draw>) returns (out: array2<bool>)
    requires |masks| == |targets|
    requires forall t :: 0 <= t < |masks| ==> Depicts(masks[t], gridH, gridW, targets[t])
    ensures fresh(out) && out.Length0 == gridH && out.Length1 == gridW
    ensures forall i, j :: InGrid(gridH, gridW, i, j) ==> (out[i, j] <==> Targeted(gridH, gridW, targets, i, j))
  {
    out := new bool[gridH, gridW]((i, j) => false);
    for t := 0 to |masks|
      invariant forall i, j :: InGrid(gridH, gridW, i, j) ==> (out[i, j] <==> Targeted(gridH, gridW, targets[..t], i, j))
    {
      var m := masks[t];
      assert Depicts(m, gridH, gridW, targets[t]);
      forall i, j | InGrid(gridH, gridW, i, j)
        ensures Targeted(gridH, gridW, targets[..t + 1], i, j)
           <==> Targeted(gridH, gridW, targets[..t], i, j) || In(Block(gridH, gridW, targets[t]), i, j)
      {
        TargetedByMore(gridH, gridW, targets[..t], targets[t], i, j);
        assert targets[..t] + [targets[t]] == targets[..t + 1];
      }
      forall i, j | 0 <= i < gridH && 0 <= j < gridW {
        out[i, j] := out[i, j] || m[i, j];
      }
    }
    assert targets[..|masks|] == targets;
  }

  lemma TargetedByMore(gridH: int, gridW: int, targets: seq<Draw>, d: Draw, i: int, j: int)
    ensures Targeted(gridH, gridW, targets + [d], i, j)
       <==> Targeted(gridH, gridW, targets, i, j) || In(Block(gridH, gridW, d), i, j)
  {
    var more := targets + [d];
    if In(Block(gridH, gridW, d), i, j) {
      assert more[|targets|] == d;
    }
    if Targeted(gridH, gridW, targets, i, j) {
      var t :| 0 <= t < |targets| && In(Block(gridH, gridW, targets[t]), i, j);
      assert more[t] == targets[t];
    }
  }

  ghost predicate Depicts(m: array2<bool>, gridH: nat, gridW: nat, d: Draw)
    reads m
  {
    && m.Length0 == gridH && m.Length1 == gridW
    && forall i, j :: InGrid(gridH, gridW, i, j) ==> (m[i, j] <==> In(Block(gridH, gridW, d), i, j))
  }

  /** The first drawn block that is not swallowed by the targets, less the targets; after the last attempt, all free
      cells. It fails only when there are none. */
  method SampleContext(gridH: nat, gridW: nat, union: array2<bool>, tries: seq<Draw>, ghost targets: seq<Draw>)
    returns (context: Option<array2<bool>>)
    requires gridH > 0 && gridW > 0 && union.Length0 == gridH && union.Length1 == gridW
    requires forall i, j :: InGrid(gridH, gridW, i, j) ==> (union[i, j] <==> Targeted(gridH, gridW, targets, i, j))
    ensures context == None <==> CoverGrid(gridH, gridW, targets)
    ensures context.Some? ==>
      && fresh(context.value) && context.value.Length0 == gridH && context.value.Length1 == gridW
      && Any(context.value)
      && forall i, j :: InGrid(gridH, gridW, i, j) ==>
           (context.value[i, j] <==> InContext(gridH, gridW, targets, tries, i, j))
  {
    for n := 0 to |tries|
      invariant forall i, j :: InContext(gridH, gridW, targets, tries, i, j) <==> InContext(gridH, gridW, targets, tries[n..], i, j)
    {
      var block := SampleBlock(gridH, gridW, tries[n]);
      forall i, j | 0 <= i < gridH && 0 <= j < gridW {
        block[i, j] := block[i, j] && !union[i, j];
      }
      assert tries[n..][0] == tries[n] && tries[n..][1..] == tries[n + 1..];
      if Any(block) {
        var i, j :| 0 <= i < gridH && 0 <= j < gridW && block[i, j];
        assert SticksOut(gridH, gridW, targets, tries[n]);
        return Some(block);
      }
      assert !SticksOut(gridH, gridW, targets, tries[n]) by {
        assert forall i, j :: InGrid(gridH, gridW, i, j) ==> !block[i, j];
      }
    }
    var fallback := new bool[gridH, gridW]((i, j) => false);
    forall i, j | 0 <= i < gridH && 0 <= j < gridW {
      fallback[i, j] := !union[i, j];
    }
    if Any(fallback) {
      return Some(fallback);
    }
    assert forall i, j :: InGrid(gridH, gridW, i, j) ==> !fallback[i, j];
    return None;
  }

  method SampleTargets(gridH: nat, gridW: nat, draws: seq<Draw>) returns (blocks: seq<array2<bool>>)
    requires gridH > 0 && gridW > 0
    ensures |blocks| == |draws| && forall t :: 0 <= t < |blocks| ==> Depicts(blocks[t], gridH, gridW, draws[t])
  {
    blocks := [];
    for t := 0 to |draws|
      invariant |blocks| == t
      invariant forall u :: 0 <= u < t ==> Depicts(blocks[u], gridH, gridW, draws[u])
    {
      var block := SampleBlock(gridH, gridW, draws[t]);
      blocks := blocks + [block];
    }
  }

  method FlattenAll(blocks: seq<array2<bool>>, gridH: nat, gridW: nat, ghost draws: seq<Draw>) returns (flats: seq<seq<bool>>)
    requires gridH > 0 && gridW > 0
    requires |blocks| == |draws| && forall t :: 0 <= t < |blocks| ==> Depicts(blocks[t], gridH, gridW, draws[t])
    ensures |flats| == |draws|
    ensures forall t :: 0 <= t < |flats| ==> MarksRect(flats[t], gridH, gridW, Block(gridH, gridW, draws[t]))
  {
    flats := [];
    for t := 0 to |blocks|
      invariant |flats| == t
      invariant forall u :: 0 <= u < t ==> MarksRect(flats[u], gridH, gridW, Block(gridH, gridW, draws[u]))
    {
      FlatMarksRect(blocks[t], gridH, gridW, draws[t]);
      flats := flats + [Flatten(blocks[t])];
    }
  }

  /** The targets are the drawn blocks, and the context is what the draws of the attempts leave of the free cells. */
  ghost predicate IsInfill(gridH: int, gridW: int, targetDraws: seq<Draw>, contextDraws: seq<Draw>, r: Sampled)
    requires r.Masks?
  {
    && gridH > 0 && gridW > 0
    && |r.targets| == |targetDraws|
    && (forall t :: 0 <= t < |r.targets| ==> MarksRect(r.targets[t], gridH, gridW, Block(gridH, gridW, targetDraws[t])))
    && MarksContext(r.context, gridH, gridW, targetDraws, contextDraws)
  }

  ghost predicate MarksContext(flat: seq<bool>, gridH: int, gridW: int, targetDraws: seq<Draw>, contextDraws: seq<Draw>) {
    && gridH > 0 && gridW > 0 && |flat| == gridH * gridW
    && forall k :: 0 <= k < |flat| ==> (flat[k] <==> InContext(gridH, gridW, targetDraws, contextDraws, k / gridW, k % gridW))
  }

  /** The infill sampler. `targetDraws` has one entry per target and `contextDraws` one per context attempt. It fails
      exactly when the targets cover the grid, whatever the attempts draw. */
  method SampleInfill(gridH: int, gridW: int, targetDraws: seq<Draw>, contextDraws: seq<Draw>) returns (r: Sampled)
    ensures r.BadGrid? <==> gridH <= 0 || gridW <= 0
    ensures r.Covered? <==> gridH > 0 && gridW > 0 && CoverGrid(gridH, gridW, targetDraws)
    ensures r.BadGrid? || r.Covered? || (r.Masks? && IsInfill(gridH, gridW, targetDraws, contextDraws, r))
  {
    if gridH <= 0 || gridW <= 0 {
      return BadGrid;
    }
    var blocks := SampleTargets(gridH, gridW, targetDraws);
    var union := Union(blocks, gridH, gridW, targetDraws);
    var context := SampleContext(gridH, gridW, union, contextDraws, targetDraws);
    if context == None {
      return Covered;
    }
    var targets := FlattenAll(blocks, gridH, gridW, targetDraws);
    FlatMarksContext(context.value, gridH, gridW, targetDraws, contextDraws);
    return Masks(Flatten(context.value), targets);
  }

  lemma FlatMarksContext(m: array2<bool>, gridH: nat, gridW: nat, targetDraws: seq<Draw>, contextDraws: seq<Draw>)
    requires gridH > 0 && gridW > 0 && m.Length0 == gridH && m.Length1 == gridW
    requires forall i, j :: InGrid(gridH, gridW, i, j) ==>
               (m[i, j] <==> InContext(gridH, gridW, targetDraws, contextDraws, i, j))
    ensures MarksContext(Flatten(m), gridH, gridW, targetDraws, contextDraws)
  {
    forall k | 0 <= k < gridH * gridW
      ensures Flatten(m)[k] <==> InContext(gridH, gridW, targetDraws, contextDraws, k / gridW, k % gridW)
    {
      CellOf(gridH, gridW, k);
    }
  }

  lemma FlatMarksRect(m: array2<bool>, gridH: nat, gridW: nat, d: Draw)
    requires gridH > 0 && gridW > 0 && Depicts(m, gridH, gridW, d)
    ensures MarksRect(Flatten(m), gridH, gridW, Block(gridH, gridW, d))
  {
    forall k | 0 <= k < gridH * gridW
      ensures Flatten(m)[k] <==> In(Block(gridH, gridW, d), k / gridW, k % gridW)
    {
      CellOf(gridH, gridW, k);
    }
  }

  /** Covering the grid is not an accident that retries could avoid: on a single cell every target covers it. */
  lemma TinyGridIsCovered(targets: seq<Draw>)
    ensures CoverGrid(1, 1, targets) <==> targets != []
  {
    if targets != [] {
      BlockFits(1, 1, targets[0]);
      assert In(Block(1, 1, targets[0]), 0, 0);
      assert forall i, j :: InGrid(1, 1, i, j) ==> i == 0 && j == 0;
    } else {
      assert InGrid(1, 1, 0, 0) && !Targeted(1, 1, targets, 0, 0);
    }
  }

  // ---------------------------------------------------------------- future blocks

  /** The block that a draw gives inside the future rows, from `start` on. */
  function FutureBlock(gridH: int, gridW: int, start: int, d: Draw): Rect {
    var h := Max(1, Min(gridH - start, d.height));
    var w := Max(1, Min(gridW, d.width));
    Rect(UniformInt(start, gridH - h + 1, d.top), UniformInt(0, gridW - w + 1, d.left), h, w)
  }

  /** The number of context rows, from the rounded draw. */
  function ContextEnd(gridH: int, gap: int, drawn: int): int {
    Max(1, Min(gridH - Max(1, gap + 1), drawn))
  }

  lemma FutureBlockFits(gridH: int, gridW: int, start: int, d: Draw)
    requires gridW > 0 && 0 <= start < gridH
    ensures Fits(gridH, gridW, FutureBlock(gridH, gridW, start, d))
    ensures FutureBlock(gridH, gridW, start, d).top >= start
  {
  }

  /** The same for the rows from `start` on. */
  lemma FutureBlockReaches(gridH: int, gridW: int, start: int, height: int, width: int, r: Rect)
    requires gridW > 0 && 0 <= start < gridH
    ensures (exists top: nat, left: nat :: FutureBlock(gridH, gridW, start, Draw(height, width, top, left)) == r)
       <==> && r.height == Clamped(height, gridH - start) && r.width == Clamped(width, gridW)
            && start <= r.top <= gridH - r.height && 0 <= r.left <= gridW - r.width
  {
    forall top: nat, left: nat
      ensures var b := FutureBlock(gridH, gridW, start, Draw(height, width, top, left));
              && b.height == Clamped(height, gridH - start) && b.width == Clamped(width, gridW)
              && start <= b.top <= gridH - b.height && 0 <= b.left <= gridW - b.width
    {
      FutureBlockIs(gridH, gridW, start, Draw(height, width, top, left));
    }
    if r.height == Clamped(height, gridH - start) && r.width == Clamped(width, gridW)
       && start <= r.top <= gridH - r.height && 0 <= r.left <= gridW - r.width {
      FutureBlockIs(gridH, gridW, start, Draw(height, width, r.top - start, r.left));
    }
  }

  lemma FutureBlockIs(gridH: int, gridW: int, start: int, d: Draw)
    requires gridW > 0 && 0 <= start < gridH
    ensures var b := FutureBlock(gridH, gridW, start, d);
            && b.height == Clamped(d.height, gridH - start) && b.width == Clamped(d.width, gridW)
            && start <= b.top <= gridH - b.height && 0 <= b.left <= gridW - b.width
            && (start + d.top <= gridH - b.height ==> b.top == start + d.top)
            && (d.left <= gridW - b.width ==> b.left == d.left)
  {
    UniformIntRange(start, gridH - Clamped(d.height, gridH - start) + 1, d.top);
    UniformIntRange(0, gridW - Clamped(d.width, gridW) + 1, d.left);
  }

  /** A drawn context length is kept if it is positive and leaves the gap and one future row. */
  lemma ContextEndIs(gridH: int, gap: nat, drawn: int)
    requires gridH >= gap + 2
    ensures ContextEnd(gridH, gap, drawn) == Clamped(drawn, gridH - gap - 1)
  {
  }

  method SampleFutureBlock(gridH: nat, gridW: nat, start: nat, futureLen: nat, d: Draw) returns (mask: array2<bool>)
    requires gridW > 0 && start < gridH && futureLen == gridH - start
    ensures fresh(mask) && mask.Length0 == gridH && mask.Length1 == gridW
    ensures MarksRect(Flatten(mask), gridH, gridW, FutureBlock(gridH, gridW, start, d))
  {
    var h := Max(1, Min(futureLen, d.height));
    var w := Max(1, Min(gridW, d.width));
    var topHi := gridH - h + 1;
    var top := start;
    if topHi > start {
      top := UniformInt(start, topHi, d.top);
    }
    var leftHi := gridW - w + 1;
    var left := 0;
    if leftHi > 0 {
      left := UniformInt(0, leftHi, d.left);
    }
    var r := Rect(top, left, h, w);
    FutureBlockFits(gridH, gridW, start, d);
    mask := MarkBlock(gridH, gridW, r);
    forall k | 0 <= k < gridH * gridW
      ensures Flatten(mask)[k] <==> In(r, k / gridW, k % gridW)
    {
      CellOf(gridH, gridW, k);
    }
  }

  /** The context is the first rows, and the targets are the drawn blocks behind the gap. */
  ghost predicate IsFuture(gridH: int, gridW: int, gap: nat, drawnEnd: int, targetDraws: seq<Draw>, r: Sampled)
    requires r.Masks?
  {
    var end := ContextEnd(gridH, gap, drawnEnd);
    && |r.targets| == |targetDraws|
    && MarksRect(r.context, gridH, gridW, Rect(0, 0, end, gridW))
    && (forall t :: 0 <= t < |r.targets| ==>
          MarksRect(r.targets[t], gridH, gridW, FutureBlock(gridH, gridW, end + gap, targetDraws[t])))
  }

  /** The future sampler. It fails exactly when the grid has no room for one context row, the gap and one future row;
      the second complaint about a missing future is never raised. `drawnEnd` is the rounded length of the context, before it is clamped. */
  method SampleFuture(gridH: int, gridW: int, gap: nat, drawnEnd: int, targetDraws: seq<Draw>) returns (r: Sampled)
    ensures r.BadGrid? <==> gridH <= 0 || gridW <= 0
    ensures r.TooShort? <==> gridH == 1 && gridW > 0
    ensures r.TooSmall? <==> gridH >= 2 && gridW > 0 && gridH < gap + 2
    ensures r.Masks? <==> gridW > 0 && gridH >= Max(2, gap + 2)
    ensures r.Masks? ==> IsFuture(gridH, gridW, gap, drawnEnd, targetDraws, r)
  {
    if gridH <= 0 || gridW <= 0 {
      return BadGrid;
    }
    if gridH < 2 {
      return TooShort;
    }
    var minFuture := Max(1, gap + 1);
    var maxEnd := gridH - minFuture;
    if maxEnd < 1 {
      return TooSmall;
    }
    var end := Max(1, Min(maxEnd, drawnEnd));
    var start := end + gap;
    var futureLen := gridH - start;
    if futureLen <= 0 {
      assert false;
      return NoFuture;
    }
    var context := MarkBlock(gridH, gridW, Rect(0, 0, end, gridW));
    var flat := Flatten(context);
    forall k | 0 <= k < gridH * gridW
      ensures flat[k] <==> In(Rect(0, 0, end, gridW), k / gridW, k % gridW)
    {
      CellOf(gridH, gridW, k);
    }
    var targets: seq<seq<bool>> := [];
    for t := 0 to |targetDraws|
      invariant |targets| == t
      invariant forall u :: 0 <= u < t ==>
        MarksRect(targets[u], gridH, gridW, FutureBlock(gridH, gridW, start, targetDraws[u]))
    {
      var block := SampleFutureBlock(gridH, gridW, start, futureLen, targetDraws[t]);
      targets := targets + [Flatten(block)];
    }
    return Masks(flat, targets);
  }

  // ---------------------------------------------------------------- what the masks guarantee

  /** A flat mask of a rectangle that fits marks some cell. */
  lemma RectIsMarked(flat: seq<bool>, gridH: int, gridW: int, r: Rect)
    requires MarksRect(flat, gridH, gridW, r) && Fits(gridH, gridW, r)
    ensures exists k :: 0 <= k < |flat| && flat[k]
  {
    var k := IndexOf(gridH, gridW, r.top, r.left);
    assert flat[k];
  }

  lemma {:induction false} ContextIsFree(gridH: int, gridW: int, targets: seq<Draw>, tries: seq<Draw>, i: int, j: int)
    requires InContext(gridH, gridW, targets, tries, i, j)
    ensures !Targeted(gridH, gridW, targets, i, j)
    decreases |tries|
  {
    if tries != [] && !SticksOut(gridH, gridW, targets, tries[0]) {
      ContextIsFree(gridH, gridW, targets, tries[1..], i, j);
    }
  }

  lemma {:induction false} ContextIsNotEmpty(gridH: int, gridW: int, targets: seq<Draw>, tries: seq<Draw>) returns (i: int, j: int)
    requires !CoverGrid(gridH, gridW, targets)
    ensures InGrid(gridH, gridW, i, j) && InContext(gridH, gridW, targets, tries, i, j)
    decreases |tries|
  {
    if tries == [] {
      i, j :| InGrid(gridH, gridW, i, j) && !Targeted(gridH, gridW, targets, i, j);
    } else if SticksOut(gridH, gridW, targets, tries[0]) {
      i, j :| InGrid(gridH, gridW, i, j) && In(Block(gridH, gridW, tries[0]), i, j) && !Targeted(gridH, gridW, targets, i, j);
    } else {
      i, j := ContextIsNotEmpty(gridH, gridW, targets, tries[1..]);
    }
  }

  /** For every draw, the infill masks have the size of the grid, every target is a rectangle with at least one cell, and
      the context has a cell and shares none with any target. */
  lemma InfillGeometry(gridH: int, gridW: int, targetDraws: seq<Draw>, contextDraws: seq<Draw>, r: Sampled)
    requires r.Masks? && IsInfill(gridH, gridW, targetDraws, contextDraws, r) && !CoverGrid(gridH, gridW, targetDraws)
    ensures |r.context| == gridH * gridW && exists k :: 0 <= k < |r.context| && r.context[k]
    ensures forall t :: 0 <= t < |r.targets| ==>
              |r.targets[t]| == gridH * gridW && exists k :: 0 <= k < |r.targets[t]| && r.targets[t][k]
    ensures forall t :: 0 <= t < |r.targets| ==> Fits(gridH, gridW, Block(gridH, gridW, targetDraws[t]))
    ensures forall t, k :: 0 <= t < |r.targets| && 0 <= k < gridH * gridW ==> !(r.context[k] && r.targets[t][k])
  {
    var i, j := ContextIsNotEmpty(gridH, gridW, targetDraws, contextDraws);
    var n := IndexOf(gridH, gridW, i, j);
    assert r.context[n];
    forall t | 0 <= t < |r.targets|
      ensures |r.targets[t]| == gridH * gridW && exists k :: 0 <= k < |r.targets[t]| && r.targets[t][k]
    {
      BlockFits(gridH, gridW, targetDraws[t]);
      RectIsMarked(r.targets[t], gridH, gridW, Block(gridH, gridW, targetDraws[t]));
    }
    forall t, k | 0 <= t < |r.targets| && 0 <= k < gridH * gridW && r.context[k]
      ensures !r.targets[t][k]
    {
      ContextIsFree(gridH, gridW, targetDraws, contextDraws, k / gridW, k % gridW);
      assert MarksRect(r.targets[t], gridH, gridW, Block(gridH, gridW, targetDraws[t]));
    }
  }

  /** For every draw, the future masks look only ahead: whatever is in the context lies in an earlier row than whatever is
      in a target, with at least `gap` rows between them, and has a smaller flat index; no mask is empty. */
  lemma FutureGeometry(gridH: int, gridW: int, gap: nat, drawnEnd: int, targetDraws: seq<Draw>, r: Sampled)
    requires r.Masks? && gridW > 0 && gridH >= Max(2, gap + 2) && IsFuture(gridH, gridW, gap, drawnEnd, targetDraws, r)
    ensures |r.context| == gridH * gridW && exists k :: 0 <= k < |r.context| && r.context[k]
    ensures forall t :: 0 <= t < |r.targets| ==>
              |r.targets[t]| == gridH * gridW && exists k :: 0 <= k < |r.targets[t]| && r.targets[t][k]
    ensures forall t, p, q :: 0 <= t < |r.targets| && 0 <= p < gridH * gridW && 0 <= q < gridH * gridW
              && r.context[p] && r.targets[t][q]
              ==> p / gridW + gap < q / gridW && p < q
  {
    var end := ContextEnd(gridH, gap, drawnEnd);
    RectIsMarked(r.context, gridH, gridW, Rect(0, 0, end, gridW));
    forall t | 0 <= t < |r.targets|
      ensures |r.targets[t]| == gridH * gridW && exists k :: 0 <= k < |r.targets[t]| && r.targets[t][k]
    {
      FutureBlockFits(gridH, gridW, end + gap, targetDraws[t]);
      RectIsMarked(r.targets[t], gridH, gridW, FutureBlock(gridH, gridW, end + gap, targetDraws[t]));
    }
    forall t, p, q | 0 <= t < |r.targets| && 0 <= p < gridH * gridW && 0 <= q < gridH * gridW
                     && r.context[p] && r.targets[t][q]
      ensures p / gridW + gap < q / gridW && p < q
    {
      var block := FutureBlock(gridH, gridW, end + gap, targetDraws[t]);
      FutureBlockFits(gridH, gridW, end + gap, targetDraws[t]);
      assert MarksRect(r.targets[t], gridH, gridW, block) && In(block, q / gridW, q % gridW);
      LaterRow(p, q, gridW);
    }
  }

  lemma LaterRow(p: nat, q: nat, w: nat)
    requires w > 0 && p / w < q / w
    ensures p < q
  {
    if p >= q {
      TimesMonotone(p / w + 1, q / w, w);
      assert false;
    }
  }
}
