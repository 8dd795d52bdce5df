/**
 * The semantics of regenerateMine as values: what the loop body does to one
 * cell, the order its three loops visit the box in, and what a whole run
 * leaves behind. The Mine class proves its loops against these.
 */
module Regeneration {

  import opened Wrappers
  import opened Host
  import opened Bounds

  /** Cell `p` comes before cell `q` in the order of regenerateMine's loops:
      x outermost, then y, then z. */
  predicate Precedes(p: Point, q: Point)
  {
    p.x < q.x || (p.x == q.x && (p.y < q.y || (p.y == q.y && p.z < q.z)))
  }

  /** Every cell of `ps` comes before every later one. */
  ghost predicate Ascending(ps: seq<Point>)
  {
    forall i, j :: 0 <= i < j < |ps| ==> Precedes(ps[i], ps[j])
  }

  /** What regenerateMine does to one cell. */
  datatype CellAction = Keep | PlaceSurface(m: Material) | Draw

  /** The data one regeneration works from: the box, the two settings, and
      the world's blocks when it started (`hasWorld` false: l1 has no world). */
  datatype Job = Job(box: MineBounds, replaceOnlyAir: bool, surface: Option<Material>,
                     hasWorld: bool, before: map<Point, Material>)
  {
    /** getBlockAt as the regeneration finds the cell: no block without a
        world, otherwise the block the cell held when it started. */
    function Found(p: Point): Option<Material>
    {
      if hasWorld then Some(BlockIn(before, p)) else None
    }

    /** With replaceOnlyAir a cell that is not air (or has no block) is
        skipped; the top layer takes a surface that is set and is not AIR;
        every other cell takes the next draw. */
    function Action(p: Point): CellAction
    {
      if replaceOnlyAir && (Found(p).None? || !IsAir(Found(p).value)) then Keep
      else if p.y == box.yMax && surface.Some? && surface.value != Air then PlaceSurface(surface.value)
      else Draw
    }
  }

  // ---------------------------------------------------------------------
  // One run, cell by cell

  /** The state of a run: the world's blocks and the cells drawn for so far. */
  datatype Sweep = Sweep(after: map<Point, Material>, drawn: seq<Point>)

  function Start(job: Job): Sweep
  {
    Sweep(job.before, [])
  }

  /** setBlock: a no-op without a world. */
  function Put(job: Job, after: map<Point, Material>, p: Point, m: Material): map<Point, Material>
  {
    if job.hasWorld then after[p := m] else after
  }

  /** The i-th of the draws `pool`. */
  function PoolAt(pool: seq<Material>, i: nat): Material
  {
    if i < |pool| then pool[i] else Air
  }

  /** The loop body on cell `p`; a Draw takes the next material of `pool`. */
  function Visit(job: Job, s: Sweep, p: Point, pool: seq<Material>): Sweep
  {
    match job.Action(p)
    case Keep => s
    case PlaceSurface(m) => s.(after := Put(job, s.after, p, m))
    case Draw => Sweep(Put(job, s.after, p, PoolAt(pool, |s.drawn|)), s.drawn + [p])
  }

  /** Each cell gets exactly one of the three treatments: kept when only air
      is replaced and the cell holds no air block; otherwise the surface
      material on the top layer when one other than AIR is set; otherwise a
      draw. */
  lemma ActionCases(job: Job, p: Point)
    ensures job.Action(p) == Keep <==> job.replaceOnlyAir && !(job.hasWorld && IsAir(BlockIn(job.before, p)))
    ensures job.Action(p).PlaceSurface? <==>
      job.Action(p) != Keep && p.y == job.box.yMax && job.surface.Some? && job.surface.value != Air
    ensures job.Action(p).PlaceSurface? ==> job.Action(p).m == job.surface.value
    ensures job.Action(p) == Draw <==> job.Action(p) != Keep && !job.Action(p).PlaceSurface?
  {
  }

  /** The loop body changes at most the block at `p`, and appends `p` to the
      drawn cells exactly when it takes a draw, setting the block to that draw. */
  lemma VisitEffect(job: Job, s: Sweep, p: Point, pool: seq<Material>)
    ensures var t := Visit(job, s, p, pool);
      && (forall q :: q != p ==> BlockIn(t.after, q) == BlockIn(s.after, q))
      && (job.Action(p) == Keep ==> t == s)
      && (job.Action(p).PlaceSurface? ==>
            t.drawn == s.drawn &&
            BlockIn(t.after, p) == (if job.hasWorld then job.surface.value else BlockIn(s.after, p)))
      && (job.Action(p) == Draw ==>
            t.drawn == s.drawn + [p] &&
            BlockIn(t.after, p) == (if job.hasWorld then PoolAt(pool, |s.drawn|) else BlockIn(s.after, p)))
  {
  }

  /** The loop body on the cells `ps`, in order. */
  function VisitAll(job: Job, s: Sweep, ps: seq<Point>, pool: seq<Material>): Sweep
    decreases |ps|
  {
    if ps == [] then s else Visit(job, VisitAll(job, s, ps[..|ps| - 1], pool), ps[|ps| - 1], pool)
  }

  lemma VisitAllAppend(job: Job, s: Sweep, ps: seq<Point>, p: Point, pool: seq<Material>)
    ensures VisitAll(job, s, ps + [p], pool) == Visit(job, VisitAll(job, s, ps, pool), p, pool)
  {
    assert (ps + [p])[..|ps|] == ps;
  }

  /** The loop body's effect on `p`, case by case, is Visit. */
  lemma VisitByCases(job: Job, s: Sweep, p: Point, pool: seq<Material>, after': map<Point, Material>, drawn': seq<Point>)
    requires job.Action(p) == Keep ==> after' == s.after && drawn' == s.drawn
    requires job.Action(p).PlaceSurface? ==> after' == Put(job, s.after, p, job.Action(p).m) && drawn' == s.drawn
    requires job.Action(p) == Draw ==>
      |s.drawn| < |pool| && after' == Put(job, s.after, p, pool[|s.drawn|]) && drawn' == s.drawn + [p]
    ensures Sweep(after', drawn') == Visit(job, s, p, pool)
  {
  }

  /** A cell the run does not visit keeps its block. */
  lemma {:induction false} VisitAllElsewhere(job: Job, s: Sweep, ps: seq<Point>, pool: seq<Material>, q: Point)
    requires q !in ps
    ensures BlockIn(VisitAll(job, s, ps, pool).after, q) == BlockIn(s.after, q)
    decreases |ps|
  {
    if ps != [] {
      assert q in ps[..|ps| - 1] ==> q in ps;
      VisitAllElsewhere(job, s, ps[..|ps| - 1], pool, q);
    }
  }

  /** A run takes its draws from the front of the pool, so a longer pool
      changes nothing once the run's draws are in it. */
  lemma {:induction false} VisitAllPool(job: Job, s: Sweep, ps: seq<Point>, pool: seq<Material>, more: seq<Material>)
    requires |VisitAll(job, s, ps, pool).drawn| <= |pool|
    ensures VisitAll(job, s, ps, pool + more) == VisitAll(job, s, ps, pool)
    ensures |s.drawn| <= |VisitAll(job, s, ps, pool).drawn|
    decreases |ps|
  {
    if ps != [] {
      var init := ps[..|ps| - 1];
      var t := VisitAll(job, s, init, pool);
      assert |t.drawn| <= |Visit(job, t, ps[|ps| - 1], pool).drawn|;
      VisitAllPool(job, s, init, pool, more);
      if job.Action(ps[|ps| - 1]) == Draw {
        assert PoolAt(pool + more, |t.drawn|) == PoolAt(pool, |t.drawn|);
      }
    }
  }

  // ---------------------------------------------------------------------
  // The order of the loops

  /** The cells (x, y, z0) .. (x, y, z - 1): a run of the innermost loop. */
  function ZRun(x: int, y: int, z0: int, z: int): seq<Point>
    decreases z - z0
  {
    if z <= z0 then [] else ZRun(x, y, z0, z - 1) + [Point(x, y, z - 1)]
  }

  /** The layers b.yMin .. y - 1 of slice x. */
  function Layers(b: MineBounds, x: int, y: int): seq<Point>
    decreases y - b.yMin
  {
    if y <= b.yMin then [] else Layers(b, x, y - 1) + ZRun(x, y - 1, b.zMin, b.zMax + 1)
  }

  /** The slices b.xMin .. x - 1 of the box. */
  function Slices(b: MineBounds, x: int): seq<Point>
    decreases x - b.xMin
  {
    if x <= b.xMin then [] else Slices(b, x - 1) + Layers(b, x - 1, b.yMax + 1)
  }

  /** The cells the loops have visited when they reach cell (x, y, z). */
  function Visited(b: MineBounds, x: int, y: int, z: int): seq<Point>
  {
    Slices(b, x) + Layers(b, x, y) + ZRun(x, y, b.zMin, z)
  }

  /** Every cell of the box, in the order of the loops. */
  function LoopOrder(b: MineBounds): seq<Point>
  {
    Slices(b, b.xMax + 1)
  }

  lemma AscendingConcat(a: seq<Point>, c: seq<Point>)
    requires Ascending(a) && Ascending(c)
    requires forall p, q :: p in a && q in c ==> Precedes(p, q)
    ensures Ascending(a + c)
  {
    forall i, j | 0 <= i < j < |a + c|
      ensures Precedes((a + c)[i], (a + c)[j])
    {
      if j < |a| {
        assert (a + c)[i] == a[i] && (a + c)[j] == a[j];
      } else if i >= |a| {
        assert (a + c)[i] == c[i - |a|] && (a + c)[j] == c[j - |a|];
      } else {
        assert (a + c)[i] in a && (a + c)[j] in c;
      }
    }
  }

  /** A run of z holds the cells of its row from z0 up to z, in order. */
  lemma {:induction false} ZRunCells(x: int, y: int, z0: int, z: int)
    ensures forall q :: q in ZRun(x, y, z0, z) <==> q.x == x && q.y == y && z0 <= q.z < z
    ensures Ascending(ZRun(x, y, z0, z))
    decreases z - z0
  {
    if z > z0 {
      ZRunCells(x, y, z0, z - 1);
      AscendingConcat(ZRun(x, y, z0, z - 1), [Point(x, y, z - 1)]);
    }
  }

  /** The layers below y of slice x, in order. */
  lemma {:induction false} LayersCells(b: MineBounds, x: int, y: int)
    ensures forall q :: q in Layers(b, x, y) <==> q.x == x && b.yMin <= q.y < y && b.zMin <= q.z <= b.zMax
    ensures Ascending(Layers(b, x, y))
    decreases y - b.yMin
  {
    if y > b.yMin {
      LayersCells(b, x, y - 1);
      ZRunCells(x, y - 1, b.zMin, b.zMax + 1);
      AscendingConcat(Layers(b, x, y - 1), ZRun(x, y - 1, b.zMin, b.zMax + 1));
    }
  }

  /** The slices before x, in order. */
  lemma {:induction false} SlicesCells(b: MineBounds, x: int)
    ensures forall q :: q in Slices(b, x) <==> b.xMin <= q.x < x && b.yMin <= q.y <= b.yMax && b.zMin <= q.z <= b.zMax
    ensures Ascending(Slices(b, x))
    decreases x - b.xMin
  {
    if x > b.xMin {
      SlicesCells(b, x - 1);
      LayersCells(b, x - 1, b.yMax + 1);
      AscendingConcat(Slices(b, x - 1), Layers(b, x - 1, b.yMax + 1));
    }
  }

  /** The loops visit exactly the cells of the box, each after the ones before it. */
  lemma LoopOrderCells(b: MineBounds)
    ensures forall q :: q in LoopOrder(b) <==> b.Contains(q)
    ensures Ascending(LoopOrder(b))
  {
    SlicesCells(b, b.xMax + 1);
  }

  lemma VisitedAtStart(b: MineBounds)
    ensures Visited(b, b.xMin, b.yMin, b.zMin) == []
  {
  }

  /** A cell of the box is not visited before the loops reach it. */
  lemma NotYetVisited(b: MineBounds, x: int, y: int, z: int)
    requires b.xMin <= x && b.yMin <= y
    ensures Point(x, y, z) !in Visited(b, x, y, z)
  {
    SlicesCells(b, x);
    LayersCells(b, x, y);
    ZRunCells(x, y, b.zMin, z);
  }

  /** The innermost loop moves on by one cell. */
  lemma VisitedNextZ(b: MineBounds, x: int, y: int, z: int)
    requires b.zMin <= z
    ensures Visited(b, x, y, z + 1) == Visited(b, x, y, z) + [Point(x, y, z)]
  {
  }

  /** The end of a run of z: on to the next layer. */
  lemma VisitedNextY(b: MineBounds, x: int, y: int)
    requires b.yMin <= y
    ensures Visited(b, x, y, b.zMax + 1) == Visited(b, x, y + 1, b.zMin)
  {
  }

  /** The end of a slice: on to the next one. */
  lemma VisitedNextX(b: MineBounds, x: int)
    requires b.xMin <= x && b.yMin <= b.yMax + 1
    ensures Visited(b, x, b.yMax + 1, b.zMin) == Visited(b, x + 1, b.yMin, b.zMin)
  {
  }

  lemma VisitedAtEnd(b: MineBounds)
    requires b.xMin <= b.xMax + 1
    ensures Visited(b, b.xMax + 1, b.yMin, b.zMin) == LoopOrder(b)
  {
  }

  /** When the loops reach a cell of the box it still holds what it held. */
  lemma AheadUntouched(job: Job, b: MineBounds, x: int, y: int, z: int, pool: seq<Material>)
    requires b.xMin <= x && b.yMin <= y
    ensures BlockIn(VisitAll(job, Start(job), Visited(b, x, y, z), pool).after, Point(x, y, z))
         == BlockIn(job.before, Point(x, y, z))
  {
    NotYetVisited(b, x, y, z);
    VisitAllElsewhere(job, Start(job), Visited(b, x, y, z), pool, Point(x, y, z));
  }

  /** One turn of the innermost loop: `after'` and `drawn'` are what the
      body leaves on cell (x, y, z), `more` the draws it made. */
  lemma RowStep(job: Job, b: MineBounds, x: int, y: int, z: int, pool: seq<Material>, more: seq<Material>,
                after': map<Point, Material>, drawn': seq<Point>)
    requires b.zMin <= z
    requires |VisitAll(job, Start(job), Visited(b, x, y, z), pool).drawn| == |pool|
    requires var s, p := VisitAll(job, Start(job), Visited(b, x, y, z), pool), Point(x, y, z);
      && (job.Action(p) == Keep ==> after' == s.after && drawn' == s.drawn)
      && (job.Action(p).PlaceSurface? ==> after' == Put(job, s.after, p, job.Action(p).m) && drawn' == s.drawn)
      && (job.Action(p) == Draw ==>
            |more| > 0 && after' == Put(job, s.after, p, more[0]) && drawn' == s.drawn + [p])
    ensures Sweep(after', drawn') == VisitAll(job, Start(job), Visited(b, x, y, z + 1), pool + more)
  {
    var visited, p := Visited(b, x, y, z), Point(x, y, z);
    VisitAllPool(job, Start(job), visited, pool, more);
    var s := VisitAll(job, Start(job), visited, pool + more);
    assert job.Action(p) == Draw ==> (pool + more)[|s.drawn|] == more[0];
    VisitByCases(job, s, p, pool + more, after', drawn');
    VisitedNextZ(b, x, y, z);
    VisitAllAppend(job, Start(job), visited, p, pool + more);
  }

  // ---------------------------------------------------------------------
  // What a run leaves behind

  /** The cells `ps` have been handled: the cells drawn for are exactly its
      Draw cells, in loop order, and got the materials `mats`; kept cells and
      every cell outside `ps` hold what they held; surface cells hold the surface. */
  ghost predicate Swept(job: Job, ps: seq<Point>, after: map<Point, Material>, drawn: seq<Point>, mats: seq<Material>)
  {
    && |drawn| == |mats|
    && (forall p :: p in drawn <==> p in ps && job.Action(p) == Draw)
    && Ascending(drawn)
    && (job.hasWorld ==>
          && (forall p :: p !in ps ==> BlockIn(after, p) == BlockIn(job.before, p))
          && (forall p :: p in ps && job.Action(p) == Keep ==> BlockIn(after, p) == BlockIn(job.before, p))
          && (forall p :: p in ps && job.Action(p).PlaceSurface? ==> BlockIn(after, p) == job.Action(p).m)
          && (forall i :: 0 <= i < |drawn| ==> BlockIn(after, drawn[i]) == mats[i]))
  }

  /** The outcome of a whole regeneration: every cell of the box is handled
      once, in loop order, and nothing outside the box changes. */
  ghost predicate Regenerated(job: Job, after: map<Point, Material>, drawn: seq<Point>, mats: seq<Material>)
  {
    && |drawn| == |mats|
    && (forall p :: p in drawn <==> job.box.Contains(p) && job.Action(p) == Draw)
    && Ascending(drawn)
    && (job.hasWorld ==>
          && (forall p :: !job.box.Contains(p) ==> BlockIn(after, p) == BlockIn(job.before, p))
          && (forall p :: job.box.Contains(p) && job.Action(p) == Keep ==> BlockIn(after, p) == BlockIn(job.before, p))
          && (forall p :: job.box.Contains(p) && job.Action(p).PlaceSurface? ==> BlockIn(after, p) == job.Action(p).m)
          && (forall i :: 0 <= i < |drawn| ==> BlockIn(after, drawn[i]) == mats[i]))
  }

  /** One more cell `p`, later than every cell handled so far. */
  lemma SweptStep(job: Job, ps: seq<Point>, p: Point, s: Sweep, pool: seq<Material>)
    requires forall q :: q in ps ==> Precedes(q, p)
    requires |s.drawn| <= |Visit(job, s, p, pool).drawn| <= |pool|
    requires Swept(job, ps, s.after, s.drawn, pool[..|s.drawn|])
    ensures var s' := Visit(job, s, p, pool);
      Swept(job, ps + [p], s'.after, s'.drawn, pool[..|s'.drawn|])
  {
    assert p !in ps;
    assert forall q :: q in ps + [p] <==> q in ps || q == p;
    if job.Action(p) == Draw {
      SweptDrawStep(job, ps, p, s, pool);
    }
  }

  /** SweptStep for a drawn cell: it joins the drawn cells, last, with the next material of the pool. */
  lemma SweptDrawStep(job: Job, ps: seq<Point>, p: Point, s: Sweep, pool: seq<Material>)
    requires forall q :: q in ps ==> Precedes(q, p)
    requires job.Action(p) == Draw && |s.drawn| < |pool|
    requires Swept(job, ps, s.after, s.drawn, pool[..|s.drawn|])
    ensures var s' := Visit(job, s, p, pool);
      Swept(job, ps + [p], s'.after, s'.drawn, pool[..|s'.drawn|])
  {
    var s' := Visit(job, s, p, pool);
    var n := |s.drawn|;
    assert p !in ps;
    assert forall q :: q in ps + [p] <==> q in ps || q == p;
    assert pool[..n + 1] == pool[..n] + [pool[n]];
    assert forall i :: 0 <= i < n ==> s.drawn[i] in ps && s'.drawn[i] == s.drawn[i];
  }

  /** The loop body run on ascending cells `ps` from the start handles exactly
      those cells. */
  lemma {:induction false} VisitAllSwept(job: Job, ps: seq<Point>, pool: seq<Material>)
    requires Ascending(ps)
    requires |VisitAll(job, Start(job), ps, pool).drawn| <= |pool|
    ensures var s := VisitAll(job, Start(job), ps, pool);
      Swept(job, ps, s.after, s.drawn, pool[..|s.drawn|])
    decreases |ps|
  {
    if ps != [] {
      var init, p := ps[..|ps| - 1], ps[|ps| - 1];
      var t := VisitAll(job, Start(job), init, pool);
      assert |t.drawn| <= |Visit(job, t, p, pool).drawn|;
      assert Ascending(init);
      VisitAllSwept(job, init, pool);
      forall q | q in init
        ensures Precedes(q, p)
      {
        var i :| 0 <= i < |init| && init[i] == q;
        assert ps[i] == q;
      }
      SweptStep(job, init, p, t, pool);
      assert init + [p] == ps;
    }
  }

  /** The loops visit every cell of the box once, in order: a run over the
      loop order that used up its pool is a regeneration of the box. */
  lemma RunRegenerates(job: Job, after: map<Point, Material>, drawn: seq<Point>, pool: seq<Material>)
    requires Sweep(after, drawn) == VisitAll(job, Start(job), LoopOrder(job.box), pool)
    requires |drawn| == |pool|
    ensures Regenerated(job, after, drawn, pool)
  {
    LoopOrderCells(job.box);
    VisitAllSwept(job, LoopOrder(job.box), pool);
    assert pool[..|pool|] == pool;
  }

  /** The cells a regeneration draws for are listed once each. */
  lemma DrawnOnce(job: Job, after: map<Point, Material>, drawn: seq<Point>, mats: seq<Material>)
    requires Regenerated(job, after, drawn, mats)
    ensures forall i, j :: 0 <= i < j < |drawn| ==> drawn[i] != drawn[j]
  {
  }

  /** With replaceOnlyAir no block that is not air changes. */
  lemma OnlyAirReplaced(job: Job, after: map<Point, Material>, drawn: seq<Point>, mats: seq<Material>, p: Point)
    requires Regenerated(job, after, drawn, mats)
    requires job.hasWorld && job.replaceOnlyAir && !IsAir(BlockIn(job.before, p))
    ensures BlockIn(after, p) == BlockIn(job.before, p)
  {
    if job.box.Contains(p) {
      assert job.Action(p) == Keep;
    }
  }
}
