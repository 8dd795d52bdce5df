/**
 * Composition: the weighted mix of materials a mine is refilled with, the
 * "fill the remainder with the fill material" rule, the lazily compiled
 * sampler (RandomCollection) and the NAME:weight text form of a composition.
 *
 * Weights are exact reals. The draw of java.util.Random is a parameter `r`
 * in [0, 1), and Double's text form is a codec parameter.
 */
module Compositions {

  import opened Wrappers
  import opened Host

  /** The material map: material to its chance of occurring, intended in (0, 1]. */
  type Weights = map<Material, real>

  // ---------------------------------------------------------------------
  // Sums of weights

  /** How a weight counts towards a sum: as it is, or only when positive. */
  function Part(w: real, positiveOnly: bool): real
  {
    if positiveOnly && w <= 0.0 then 0.0 else w
  }

  /** The sum of the weights of the keys `ks`, in no particular order. */
  ghost function SumOf(m: Weights, ks: set<Material>, positiveOnly: bool): real
    requires ks <= m.Keys
    decreases ks
  {
    if ks == {} then 0.0
    else
      var k :| k in ks;
      Part(m[k], positiveOnly) + SumOf(m, ks - {k}, positiveOnly)
  }

  /** getTotalPercentage: the sum of all weights. */
  ghost function Total(m: Weights): real
  {
    SumOf(m, m.Keys, false)
  }

  /** The sum of the positive weights: the total a compiled sampler reaches. */
  ghost function PositiveTotal(m: Weights): real
  {
    SumOf(m, m.Keys, true)
  }

  /** isValidComposition: the weights add up to exactly 1. */
  ghost predicate Complete(m: Weights)
  {
    Total(m) == 1.0
  }

  /** The order in which a sum is taken does not matter: any key can be taken first. */
  lemma {:induction false} SumOfPick(m: Weights, ks: set<Material>, k: Material, positiveOnly: bool)
    requires ks <= m.Keys && k in ks
    ensures SumOf(m, ks, positiveOnly) == Part(m[k], positiveOnly) + SumOf(m, ks - {k}, positiveOnly)
    decreases ks
  {
    var j :| j in ks && SumOf(m, ks, positiveOnly) == Part(m[j], positiveOnly) + SumOf(m, ks - {j}, positiveOnly);
    if j != k {
      SumOfPick(m, ks - {j}, k, positiveOnly);
      SumOfPick(m, ks - {k}, j, positiveOnly);
      assert ks - {j} - {k} == ks - {k} - {j};
    }
  }

  /** A sum only depends on the weights of the keys summed. */
  lemma {:induction false} SumOfAgree(m: Weights, m': Weights, ks: set<Material>, positiveOnly: bool)
    requires ks <= m.Keys && ks <= m'.Keys
    requires forall k :: k in ks ==> m[k] == m'[k]
    ensures SumOf(m, ks, positiveOnly) == SumOf(m', ks, positiveOnly)
    decreases ks
  {
    if ks != {} {
      var k :| k in ks;
      SumOfPick(m, ks, k, positiveOnly);
      SumOfPick(m', ks, k, positiveOnly);
      SumOfAgree(m, m', ks - {k}, positiveOnly);
    }
  }

  /** Taking one key out of a map takes its weight out of the sum. */
  lemma SumRemove(m: Weights, k: Material, positiveOnly: bool)
    requires k in m
    ensures SumOf(m, m.Keys, positiveOnly) == Part(m[k], positiveOnly) + SumOf(m - {k}, (m - {k}).Keys, positiveOnly)
  {
    SumOfPick(m, m.Keys, k, positiveOnly);
    assert (m - {k}).Keys == m.Keys - {k};
    SumOfAgree(m, m - {k}, m.Keys - {k}, positiveOnly);
  }

  lemma TotalRemove(m: Weights, k: Material)
    ensures k in m ==> Total(m) == m[k] + Total(m - {k})
    ensures k !in m ==> Total(m - {k}) == Total(m)
  {
    if k in m {
      SumRemove(m, k, false);
    } else {
      assert m - {k} == m;
    }
  }

  /** Storing weight `w` for `k` replaces the old weight of `k` in the sum. */
  lemma TotalUpdate(m: Weights, k: Material, w: real)
    ensures Total(m[k := w]) == w + Total(m - {k})
  {
    TotalRemove(m[k := w], k);
    assert m[k := w] - {k} == m - {k};
  }

  lemma {:induction false} PositiveSumAtLeast(m: Weights, ks: set<Material>)
    requires ks <= m.Keys
    ensures SumOf(m, ks, true) >= SumOf(m, ks, false)
    decreases ks
  {
    if ks != {} {
      var k :| k in ks;
      SumOfPick(m, ks, k, true);
      SumOfPick(m, ks, k, false);
      PositiveSumAtLeast(m, ks - {k});
    }
  }

  /** Dropping the non-positive weights never lowers the total. */
  lemma PositiveTotalAtLeastTotal(m: Weights)
    ensures PositiveTotal(m) >= Total(m)
  {
    PositiveSumAtLeast(m, m.Keys);
  }

  // ---------------------------------------------------------------------
  // The weight-map rules of setMaterial and fillMaterial

  /** What setMaterial reports: stored (true), over capacity (false), or the
      NullPointerException of unboxing a missing fill weight. */
  datatype SetOutcome = Stored | OverCapacity | FillMissing

  /** fillMaterial(mat): mat's weight becomes 1 minus the weights of the others. */
  ghost function Fill(m: Weights, mat: Material): (r: Weights)
    ensures r - {mat} == m - {mat}
    ensures mat in r && r[mat] == 1.0 - Total(m - {mat})
    ensures Complete(r)
  {
    var rest := m - {mat};
    TotalUpdate(rest, mat, 1.0 - Total(rest));
    assert rest - {mat} == rest;
    rest[mat := 1.0 - Total(rest)]
  }

  /** setMaterial(mat, p) on the map `m` with fill material `fill`. The
      capacity test counts the weight `mat` already has. */
  ghost function SetWeight(m: Weights, fill: Material, mat: Material, p: real): (r: (SetOutcome, Weights))
    ensures r.0 != Stored ==> r.1 == m
    ensures r.0 == FillMissing <==> Total(m) + p > 1.0 && fill !in m
    ensures r.0 == OverCapacity <==> Total(m) + p > 1.0 && fill in m && m[fill] < p
  {
    if Total(m) + p > 1.0 then
      if fill !in m then (FillMissing, m)
      else if m[fill] >= p then (Stored, Fill((m - {fill})[mat := p], fill))
      else (OverCapacity, m)
    else
      (Stored, m[mat := p])
  }

  /** Within capacity, `p` is stored for `mat`, nothing else changes, and the
      total moves by the difference. */
  lemma StoreWithinCapacity(m: Weights, fill: Material, mat: Material, p: real)
    requires Total(m) + p <= 1.0
    ensures SetWeight(m, fill, mat, p).0 == Stored
    ensures var r := SetWeight(m, fill, mat, p).1;
      mat in r && r[mat] == p && r - {mat} == m - {mat} && Total(r) == Total(m - {mat}) + p
  {
    TotalUpdate(m, mat, p);
    assert m[mat := p] - {mat} == m - {mat};
  }

  /** Over capacity, with enough fill weight: `p` is stored for `mat` (unless
      `mat` is the fill material itself), every other non-fill weight is kept,
      and the fill material takes what is left, so the total is exactly 1. */
  lemma StealFromFill(m: Weights, fill: Material, mat: Material, p: real)
    requires Total(m) + p > 1.0 && fill in m && m[fill] >= p
    ensures SetWeight(m, fill, mat, p).0 == Stored
    ensures var r := SetWeight(m, fill, mat, p).1;
      && Complete(r)
      && fill in r && r[fill] == 1.0 - Total(r - {fill})
      && (mat != fill ==> mat in r && r[mat] == p)
      && (forall k :: k in m && k != mat && k != fill ==> k in r && r[k] == m[k])
  {
    var m1 := (m - {fill})[mat := p];
    var r := Fill(m1, fill);
    assert r - {fill} == m1 - {fill};
  }

  /** A composition with non-negative weights that add up to at most 1. */
  ghost predicate WithinCapacity(m: Weights)
  {
    (forall k :: k in m ==> m[k] >= 0.0) && Total(m) <= 1.0
  }

  /** setMaterial with a non-negative weight never takes a composition over
      capacity and never stores a negative weight. */
  lemma SetKeepsCapacity(m: Weights, fill: Material, mat: Material, p: real)
    requires WithinCapacity(m) && p >= 0.0
    ensures WithinCapacity(SetWeight(m, fill, mat, p).1)
  {
    var r := SetWeight(m, fill, mat, p);
    if Total(m) + p <= 1.0 {
      StoreWithinCapacity(m, fill, mat, p);
      TotalRemove(m, mat);
    } else if fill in m && m[fill] >= p {
      var m1 := (m - {fill})[mat := p];
      TotalRemove(m, fill);
      if mat != fill {
        assert m1 - {fill} == (m - {fill})[mat := p];
        TotalUpdate(m - {fill}, mat, p);
        TotalRemove(m - {fill}, mat);
      } else {
        assert m1 - {fill} == m - {fill};
      }
      assert Total(m1 - {fill}) <= 1.0;
    }
  }

  /** The capacity test counts the old weight of the material being set: in
      the full composition {A: 0.6, fill: 0.4}, lowering A to 0.5 is refused,
      although A: 0.5 with fill 0.4 would total 0.9. */
  lemma LoweringAWeightCanBeRefused(a: Material, fill: Material)
    requires a != fill
    ensures SetWeight(map[a := 0.6, fill := 0.4], fill, a, 0.5).0 == OverCapacity
    ensures Total(map[a := 0.6, fill := 0.4][a := 0.5]) < 1.0
  {
    var m := map[a := 0.6, fill := 0.4];
    TotalRemove(m, a);
    assert m - {a} == map[fill := 0.4];
    TotalRemove(map[fill := 0.4], fill);
    assert map[fill := 0.4] - {fill} == map[];
    TotalUpdate(m, a, 0.5);
  }

  // ---------------------------------------------------------------------
  // The compiled sampler

  /** The boundary below entry `i`: the previous key, or 0 for the first entry. */
  function Lower<E>(es: seq<(real, E)>, i: int): real
    requires 0 <= i < |es|
  {
    if i == 0 then 0.0 else es[i - 1].0
  }

  /** TreeMap.higherEntry over keys in ascending order: the first entry whose
      key is strictly greater than `v`. */
  function HigherIndex<E>(es: seq<(real, E)>, v: real): (r: Option<nat>)
    ensures r.Some? ==> r.value < |es| && es[r.value].0 > v
    ensures r.Some? ==> forall j :: 0 <= j < r.value ==> es[j].0 <= v
    ensures r.None? ==> forall j :: 0 <= j < |es| ==> es[j].0 <= v
    decreases |es|
  {
    if es == [] then None
    else if es[0].0 > v then Some(0)
    else
      match HigherIndex(es[1..], v)
      case None => None
      case Some(i) => Some(i + 1)
  }

  /** Keys in strictly ascending order: each key is above the one before it. */
  ghost predicate Increasing<E>(es: seq<(real, E)>)
    decreases |es|
  {
    |es| <= 1 || (Increasing(es[..|es| - 1]) && es[|es| - 2].0 < es[|es| - 1].0)
  }

  /** Ascending keys are ordered pairwise, not just neighbour by neighbour. */
  lemma {:induction false} IncreasingPair<E>(es: seq<(real, E)>, i: int, j: int)
    requires Increasing(es) && 0 <= i < j < |es|
    ensures es[i].0 < es[j].0
    decreases |es|, j
  {
    var n := |es| - 1;
    if j < n {
      IncreasingPair(es[..n], i, j);
    } else if i < n - 1 {
      IncreasingPair(es, i, n - 1);
    }
  }

  /** A key above the last one extends an ascending sequence. */
  lemma IncreasingAppend<E>(es: seq<(real, E)>, key: real, e: E)
    requires Increasing(es) && (es != [] ==> es[|es| - 1].0 < key)
    ensures Increasing(es + [(key, e)])
  {
    assert (es + [(key, e)])[..|es|] == es;
  }

  /** Entry `i` has the smallest key strictly greater than `v`. */
  ghost predicate IsHigherEntry<E>(es: seq<(real, E)>, i: int, v: real)
  {
    && 0 <= i < |es| && es[i].0 > v
    && forall j :: 0 <= j < |es| && es[j].0 > v ==> es[i].0 <= es[j].0
  }

  /** Over ascending keys the first key above `v` is also the smallest one. */
  lemma HigherIndexIsHigherEntry<E>(es: seq<(real, E)>, v: real)
    requires Increasing(es)
    ensures HigherIndex(es, v).Some? ==> IsHigherEntry(es, HigherIndex(es, v).value, v)
  {
    var h := HigherIndex(es, v);
    if h.Some? {
      forall j | 0 <= j < |es| && es[j].0 > v
        ensures es[h.value].0 <= es[j].0
      {
        if j > h.value {
          IncreasingPair(es, h.value, j);
        }
      }
    }
  }

  /** A draw in [0, 1) scaled by a positive total stays below it. */
  lemma ScaledDrawBelowTotal(r: real, total: real)
    ensures 0.0 <= r < 1.0 && total > 0.0 ==> 0.0 <= r * total < total
  {
    if 0.0 <= r < 1.0 && total > 0.0 {
      assert total - r * total == (1.0 - r) * total;
    }
  }

  /** random.nextDouble() * total: the point on the boundaries a draw `r` picks. */
  function Scaled(r: real, total: real): (v: real)
    ensures 0.0 <= r < 1.0 && total > 0.0 ==> 0.0 <= v < total
  {
    ScaledDrawBelowTotal(r, total);
    r * total
  }

  /** The item of TreeMap.higherEntry(v) over ascending keys whose largest
      key is `total`. */
  function HigherItem<E>(es: seq<(real, E)>, total: real, v: real): (e: Option<E>)
    requires Increasing(es)
    requires total == (if es == [] then 0.0 else es[|es| - 1].0)
    ensures e.Some? ==> exists i :: IsHigherEntry(es, i, v) && es[i].1 == e.value
    ensures e.None? <==> forall j :: 0 <= j < |es| ==> es[j].0 <= v
    ensures es != [] && v < total ==> e.Some?
  {
    var h := HigherIndex(es, v);
    HigherIndexIsHigherEntry(es, v);
    if h.None? then None else Some(es[h.value].1)
  }

  /** RandomCollection: a map from cumulative boundary to item, and the
      running total. `entries` holds the map in ascending key order. */
  class RandomCollection<E(==)> {
    var entries: seq<(real, E)>
    var total: real

    /** Keys strictly increase from above 0, and the largest key is `total`. */
    ghost predicate Valid()
      reads this
    {
      && Increasing(entries)
      && (|entries| > 0 ==> entries[0].0 > 0.0)
      && total == (if entries == [] then 0.0 else entries[|entries| - 1].0)
    }

    constructor ()
      ensures Valid() && entries == [] && total == 0.0
    {
      entries := [];
      total := 0.0;
    }

    /** add: a weight <= 0 is dropped; otherwise the total grows by it and the
        new total becomes the key of `result`. */
    method Add(weight: real, result: E)
      requires Valid()
      modifies this
      ensures Valid()
      ensures weight <= 0.0 ==> entries == old(entries) && total == old(total)
      ensures weight > 0.0 ==> total == old(total) + weight && entries == old(entries) + [(total, result)]
    {
      if weight <= 0.0 {
        return;
      }
      IncreasingAppend(entries, total + weight, result);
      total := total + weight;
      entries := entries + [(total, result)];
    }

    /** next, given the draw `r`: the item of the smallest boundary strictly
        greater than r * total, or nothing (a null entry in the source). */
    function Next(r: real): (e: Option<E>)
      reads this
      requires Valid()
      ensures e.Some? ==> exists i :: IsHigherEntry(entries, i, Scaled(r, total)) && entries[i].1 == e.value
      ensures e.None? <==> forall j :: 0 <= j < |entries| ==> entries[j].0 <= Scaled(r, total)
      ensures 0.0 <= r < 1.0 && total > 0.0 ==> e.Some?
    {
      HigherItem(entries, total, Scaled(r, total))
    }

    /** Each item owns the band [Lower(i), key i) of draws: a draw landing there returns it. */
    lemma NextPicksBand(i: int, r: real)
      requires Valid() && 0 <= i < |entries|
      requires Lower(entries, i) <= Scaled(r, total) < entries[i].0
      ensures Next(r) == Some(entries[i].1)
    {
      var h := HigherIndex(entries, Scaled(r, total));
      if h.Some? && h.value < i - 1 {
        IncreasingPair(entries, h.value, i - 1);
      }
    }
  }

  /** Every entry is a key of `done` whose band is exactly as wide as its weight. */
  ghost predicate BandsFrom(es: seq<(real, Material)>, m: Weights, done: set<Material>)
    requires done <= m.Keys
  {
    forall i {:trigger Lower(es, i)} :: 0 <= i < |es| ==> es[i].1 in done && es[i].0 - Lower(es, i) == m[es[i].1]
  }

  /** The band of entry `i`, as BandsFrom promises it. */
  lemma BandAt(es: seq<(real, Material)>, m: Weights, done: set<Material>, i: int)
    requires done <= m.Keys && BandsFrom(es, m, done) && 0 <= i < |es|
    ensures es[i].1 in done && es[i].0 - Lower(es, i) == m[es[i].1]
  {
  }

  /** No item has two entries. */
  ghost predicate DistinctItems<E>(es: seq<(real, E)>)
    decreases |es|
  {
    es == [] ||
      (&& DistinctItems(es[..|es| - 1])
       && forall i :: 0 <= i < |es| - 1 ==> es[i].1 != es[|es| - 1].1)
  }

  /** The items of the entries. */
  ghost function Items<E>(es: seq<(real, E)>): set<E>
    decreases |es|
  {
    if es == [] then {} else Items(es[..|es| - 1]) + {es[|es| - 1].1}
  }

  /** Every key of `done` with a positive weight has an entry. */
  ghost predicate CoversPositive(es: seq<(real, Material)>, m: Weights, done: set<Material>)
    requires done <= m.Keys
  {
    forall k :: k in done && m[k] > 0.0 ==> k in Items(es)
  }

  /** The sampler built from the keys `done` of `m`: its bands are the
      weights, its items distinct, every positive key of `done` is in it, and
      the total is the sum of the positive weights. */
  ghost predicate CompiledFrom(es: seq<(real, Material)>, total: real, m: Weights, done: set<Material>)
    requires done <= m.Keys
  {
    && BandsFrom(es, m, done)
    && DistinctItems(es)
    && CoversPositive(es, m, done)
    && total == SumOf(m, done, true)
  }

  lemma BandsStep(es: seq<(real, Material)>, total: real, m: Weights, done: set<Material>, k: Material)
    requires done <= m.Keys && k in m
    requires total == (if es == [] then 0.0 else es[|es| - 1].0)
    requires BandsFrom(es, m, done)
    ensures BandsFrom(es, m, done + {k})
    ensures BandsFrom(es + [(total + m[k], k)], m, done + {k})
  {
    forall i | 0 <= i < |es|
      ensures es[i].1 in done + {k} && es[i].0 - Lower(es, i) == m[es[i].1]
    {
      BandAt(es, m, done, i);
    }
    var es' := es + [(total + m[k], k)];
    forall i | 0 <= i < |es'|
      ensures es'[i].1 in done + {k} && es'[i].0 - Lower(es', i) == m[es'[i].1]
    {
      if i < |es| {
        assert es'[i] == es[i];
        assert Lower(es', i) == Lower(es, i);
      } else {
        assert Lower(es', i) == total;
      }
    }
  }

  lemma DistinctStep(es: seq<(real, Material)>, m: Weights, done: set<Material>, k: Material, total: real)
    requires done <= m.Keys && k !in done
    requires BandsFrom(es, m, done) && DistinctItems(es)
    ensures DistinctItems(es + [(total, k)])
  {
    var es' := es + [(total, k)];
    assert es'[..|es|] == es;
    forall i | 0 <= i < |es|
      ensures es'[i].1 != k
    {
      BandAt(es, m, done, i);
      assert es'[i] == es[i];
    }
  }

  lemma CoverStep(es: seq<(real, Material)>, m: Weights, done: set<Material>, k: Material, w: real)
    requires done + {k} <= m.Keys
    requires CoversPositive(es, m, done)
    ensures m[k] <= 0.0 ==> CoversPositive(es, m, done + {k})
    ensures CoversPositive(es + [(w, k)], m, done + {k})
  {
    var es' := es + [(w, k)];
    assert es'[..|es|] == es;
    forall k' | k' in done + {k} && m[k'] > 0.0
      ensures k' in Items(es')
    {
      if k' != k {
        assert k' in Items(es);
      }
    }
  }

  lemma SumStep(m: Weights, done: set<Material>, k: Material)
    requires done <= m.Keys && k in m && k !in done
    ensures SumOf(m, done + {k}, true) == Part(m[k], true) + SumOf(m, done, true)
  {
    assert (done + {k}) - {k} == done;
    SumOfPick(m, done + {k}, k, true);
  }

  /** One add of compileMaterials keeps the sampler compiled from the keys
      done so far: `es'` and `total'` are the sampler after add(m[k], k). */
  lemma CompileStep(es: seq<(real, Material)>, total: real, m: Weights, done: set<Material>, k: Material,
                    es': seq<(real, Material)>, total': real)
    requires done <= m.Keys && k in m && k !in done
    requires total == (if es == [] then 0.0 else es[|es| - 1].0)
    requires CompiledFrom(es, total, m, done)
    requires m[k] <= 0.0 ==> es' == es && total' == total
    requires m[k] > 0.0 ==> total' == total + m[k] && es' == es + [(total', k)]
    ensures CompiledFrom(es', total', m, done + {k})
  {
    SumStep(m, done, k);
    BandsStep(es, total, m, done, k);
    if m[k] > 0.0 {
      DistinctStep(es, m, done, k, total');
      CoverStep(es, m, done, k, total');
    } else {
      CoverStep(es, m, done, k, total);
    }
  }

  // ---------------------------------------------------------------------
  // The text form

  /** Double.toString and Double.valueOf; `read` gives nothing for text that
      is not a number (NumberFormatException). */
  datatype DoubleText = DoubleText(show: real -> string, read: string -> Option<real>)

  /** The assumption under which a saved weight loads back: its text reads
      back as the same weight, is not empty and holds no ':'. */
  ghost predicate RoundTrips(codec: DoubleText, w: real)
  {
    codec.read(codec.show(w)) == Some(w) && codec.show(w) != "" && ':' !in codec.show(w)
  }

  /** One line of parseToStringList: NAME:weight. */
  function EntryText(mat: Material, w: real, codec: DoubleText): string
  {
    mat.name + ":" + codec.show(w)
  }

  /** The lines of the keys `order` of `m`, in that order. */
  function Encode(m: Weights, order: seq<Material>, codec: DoubleText): (lines: seq<string>)
    requires forall k :: k in order ==> k in m
    ensures |lines| == |order|
  {
    seq(|order|, i requires 0 <= i < |order| => EntryText(order[i], m[order[i]], codec))
  }

  /** The index of the first ':' of `s`. */
  function ColonAt(s: string): (i: nat)
    requires ':' in s
    ensures i < |s| && s[i] == ':' && ':' !in s[..i]
  {
    if s[0] == ':' then 0 else 1 + ColonAt(s[1..])
  }

  /** The pieces of `s` between its ':' characters, empty ones included. */
  function Fields(s: string): (r: seq<string>)
    ensures |r| >= 1
    ensures forall i :: 0 <= i < |r| ==> ':' !in r[i]
    decreases |s|
  {
    if ':' !in s then [s]
    else
      var i := ColonAt(s);
      [s[..i]] + Fields(s[i + 1..])
  }

  function DropTrailingEmpty(fs: seq<string>): (r: seq<string>)
    ensures |r| <= |fs| && r == fs[..|r|]
    ensures r != [] ==> r[|r| - 1] != ""
    ensures forall i :: |r| <= i < |fs| ==> fs[i] == ""
  {
    if fs == [] then []
    else if fs[|fs| - 1] == "" then DropTrailingEmpty(fs[..|fs| - 1])
    else fs
  }

  /** String.split(":"): the pieces without the trailing empty ones; a string
      without ':' is its own single piece. */
  function Split(s: string): (r: seq<string>)
    ensures ':' !in s ==> r == [s]
    ensures forall i :: 0 <= i < |r| ==> ':' !in r[i]
    ensures ':' in s && r != [] ==> r[|r| - 1] != ""
  {
    if ':' !in s then [s] else DropTrailingEmpty(Fields(s))
  }

  /** Splitting a line NAME:weight gives back the name and the weight text. */
  lemma SplitEntry(a: string, b: string)
    requires ':' !in a && ':' !in b && b != ""
    ensures Split(a + ":" + b) == [a, b]
  {
    var s := a + ":" + b;
    assert s[|a|] == ':';
    var i := ColonAt(s);
    assert s[..i] == a;
    assert s[i + 1..] == b;
    assert Fields(s) == [a, b];
  }

  datatype LoadError =
    | MissingField(line: string)     // data[0] or data[1] does not exist
    | BadNumber(line: string)        // Double.valueOf refuses the weight text
    | UnknownMaterial(line: string)  // Material.getMaterial knows no such name

  /** One line of the list constructor, in the order the source evaluates it. */
  function ParseEntry(line: string, catalog: Catalog, codec: DoubleText): (r: Result<(Material, real), LoadError>)
    ensures r == Failure(MissingField(line)) <==> |Split(line)| < 2
    ensures r == Failure(BadNumber(line)) <==> |Split(line)| >= 2 && codec.read(Split(line)[1]).None?
    ensures r == Failure(UnknownMaterial(line)) <==>
      |Split(line)| >= 2 && codec.read(Split(line)[1]).Some? && Split(line)[0] !in catalog
    ensures r.Success? <==>
      |Split(line)| >= 2 && codec.read(Split(line)[1]).Some? && Split(line)[0] in catalog
    ensures r.Success? ==> r.value == (catalog[Split(line)[0]], codec.read(Split(line)[1]).value)
  {
    var data := Split(line);
    if |data| < 2 then Failure(MissingField(line))
    else
      match codec.read(data[1])
      case None => Failure(BadNumber(line))
      case Some(w) =>
        match MaterialNamed(catalog, data[0])
        case None => Failure(UnknownMaterial(line))
        case Some(mat) => Success((mat, w))
  }

  /** The outcome of one line of the list constructor. */
  type Entry = Result<(Material, real), LoadError>

  /** The outcome of each line, in order. */
  function Entries(lines: seq<string>, catalog: Catalog, codec: DoubleText): (es: seq<Entry>)
    ensures |es| == |lines|
    ensures forall i :: 0 <= i < |lines| ==> es[i] == ParseEntry(lines[i], catalog, codec)
  {
    seq(|lines|, i requires 0 <= i < |lines| => ParseEntry(lines[i], catalog, codec))
  }

  /** The list constructor's loop over the line outcomes: each entry is put
      into the map in order; the first error ends the load. */
  function Collect(es: seq<Entry>): Result<Weights, LoadError>
    decreases |es|
  {
    if es == [] then Success(map[])
    else
      match Collect(es[..|es| - 1])
      case Failure(e) => Failure(e)
      case Success(m) =>
        match es[|es| - 1]
        case Failure(e) => Failure(e)
        case Success(entry) => Success(m[entry.0 := entry.1])
  }

  /** The list constructor's loop: the lines are put into the map in order, a
      later line overriding an earlier one; the first bad line is the error. */
  function Parse(lines: seq<string>, catalog: Catalog, codec: DoubleText): Result<Weights, LoadError>
  {
    Collect(Entries(lines, catalog, codec))
  }

  /** The outcomes of a prefix of the lines are a prefix of the outcomes. */
  lemma EntriesPrefix(lines: seq<string>, i: nat, catalog: Catalog, codec: DoubleText)
    requires i <= |lines|
    ensures Entries(lines[..i], catalog, codec) == Entries(lines, catalog, codec)[..i]
  {
  }

  lemma {:induction false} CollectSucceeds(es: seq<Entry>)
    ensures Collect(es).Success? <==> forall i :: 0 <= i < |es| ==> es[i].Success?
    decreases |es|
  {
    if es != [] {
      CollectSucceeds(es[..|es| - 1]);
    }
  }

  /** Entry `i` is the error `e` and every earlier entry loads. */
  ghost predicate FirstFailure(es: seq<Entry>, i: int, e: LoadError)
  {
    0 <= i < |es| && es[i] == Failure(e) && forall j :: 0 <= j < i ==> es[j].Success?
  }

  lemma {:induction false} CollectFirstError(es: seq<Entry>)
    requires Collect(es).Failure?
    ensures exists i :: FirstFailure(es, i, Collect(es).error)
    decreases |es|
  {
    var n := |es|;
    var init := es[..n - 1];
    if Collect(init).Failure? {
      CollectFirstError(init);
      var i :| FirstFailure(init, i, Collect(init).error);
      assert FirstFailure(es, i, Collect(es).error);
    } else {
      CollectSucceeds(init);
      assert FirstFailure(es, n - 1, Collect(es).error);
    }
  }

  lemma {:induction false} CollectKeys(es: seq<Entry>)
    requires Collect(es).Success?
    ensures forall i :: 0 <= i < |es| ==> es[i].Success? && es[i].value.0 in Collect(es).value
    decreases |es|
  {
    if es != [] {
      CollectKeys(es[..|es| - 1]);
    }
  }

  /** Entry `i` is (k, w) and no later entry is for `k`. */
  ghost predicate LastEntryFor(es: seq<Entry>, i: int, k: Material, w: real)
  {
    && 0 <= i < |es| && es[i] == Success((k, w))
    && forall j :: i < j < |es| ==> !(es[j].Success? && es[j].value.0 == k)
  }

  lemma {:induction false} CollectLastWins(es: seq<Entry>)
    requires Collect(es).Success?
    ensures forall k :: k in Collect(es).value ==> exists i :: LastEntryFor(es, i, k, Collect(es).value[k])
    decreases |es|
  {
    if es != [] {
      var n := |es|;
      var init := es[..n - 1];
      CollectLastWins(init);
      var m, r := Collect(init).value, Collect(es).value;
      var e := es[n - 1].value;
      forall k | k in r
        ensures exists i :: LastEntryFor(es, i, k, r[k])
      {
        if k != e.0 {
          var i :| LastEntryFor(init, i, k, m[k]);
          assert LastEntryFor(es, i, k, r[k]);
        } else {
          assert LastEntryFor(es, n - 1, k, r[k]);
        }
      }
    }
  }

  /** A load succeeds exactly when every line loads. */
  lemma ParseSucceeds(lines: seq<string>, catalog: Catalog, codec: DoubleText)
    ensures Parse(lines, catalog, codec).Success? <==> forall i :: 0 <= i < |lines| ==> ParseEntry(lines[i], catalog, codec).Success?
  {
    CollectSucceeds(Entries(lines, catalog, codec));
  }

  /** A failed load reports the error of its first bad line. */
  lemma ParseFirstError(lines: seq<string>, catalog: Catalog, codec: DoubleText)
    requires Parse(lines, catalog, codec).Failure?
    ensures exists i :: 0 <= i < |lines| && ParseEntry(lines[i], catalog, codec) == Failure(Parse(lines, catalog, codec).error)
                        && forall j :: 0 <= j < i ==> ParseEntry(lines[j], catalog, codec).Success?
  {
    var es := Entries(lines, catalog, codec);
    CollectFirstError(es);
    var i :| FirstFailure(es, i, Collect(es).error);
    assert ParseEntry(lines[i], catalog, codec) == Failure(Parse(lines, catalog, codec).error);
  }

  /** A loaded map holds the material of every line. */
  lemma ParseKeys(lines: seq<string>, catalog: Catalog, codec: DoubleText)
    requires Parse(lines, catalog, codec).Success?
    ensures forall i :: 0 <= i < |lines| ==>
      ParseEntry(lines[i], catalog, codec).Success? && ParseEntry(lines[i], catalog, codec).value.0 in Parse(lines, catalog, codec).value
  {
    CollectKeys(Entries(lines, catalog, codec));
  }

  /** Line `i` loads as (k, w) and no later line loads as `k`. */
  ghost predicate LastLineFor(lines: seq<string>, catalog: Catalog, codec: DoubleText, i: int, k: Material, w: real)
  {
    && 0 <= i < |lines| && ParseEntry(lines[i], catalog, codec) == Success((k, w))
    && forall j :: i < j < |lines| ==> !(ParseEntry(lines[j], catalog, codec).Success? && ParseEntry(lines[j], catalog, codec).value.0 == k)
  }

  /** Each material of a loaded map has the weight of the last line that names it. */
  lemma ParseLaterLineWins(lines: seq<string>, catalog: Catalog, codec: DoubleText)
    requires Parse(lines, catalog, codec).Success?
    ensures forall k :: k in Parse(lines, catalog, codec).value ==>
      exists i :: LastLineFor(lines, catalog, codec, i, k, Parse(lines, catalog, codec).value[k])
  {
    var es := Entries(lines, catalog, codec);
    var r := Parse(lines, catalog, codec).value;
    CollectLastWins(es);
    forall k | k in r
      ensures exists i :: LastLineFor(lines, catalog, codec, i, k, r[k])
    {
      var i :| LastEntryFor(es, i, k, r[k]);
      assert LastLineFor(lines, catalog, codec, i, k, r[k]);
    }
  }

  /** Material names that split cleanly and that the catalog gives back. */
  ghost predicate Loadable(ks: seq<Material>, catalog: Catalog)
  {
    forall k :: k in ks ==> ':' !in k.name && k.name in catalog && catalog[k.name] == k
  }

  /** The lines of a shorter key list are a prefix of the lines of the longer one. */
  lemma EncodePrefix(m: Weights, order: seq<Material>, codec: DoubleText)
    requires forall k :: k in order ==> k in m
    requires order != []
    ensures var n := |order|;
      Encode(m, order, codec)[..n - 1] == Encode(m, order[..n - 1], codec) &&
      Encode(m, order, codec)[n - 1] == EntryText(order[n - 1], m[order[n - 1]], codec)
  {
  }

  /** One line NAME:weight parses back to its material and weight. */
  lemma ParseEntryText(mat: Material, w: real, catalog: Catalog, codec: DoubleText)
    requires Loadable([mat], catalog) && RoundTrips(codec, w)
    ensures ParseEntry(EntryText(mat, w, codec), catalog, codec) == Success((mat, w))
  {
    assert mat in [mat];
    SplitEntry(mat.name, codec.show(w));
  }

  /** The map of the keys of `order`, restricted from `m`. */
  function Restrict(m: Weights, order: seq<Material>): (r: Weights)
    requires forall k :: k in order ==> k in m
    ensures forall k :: k in r <==> k in order
    ensures forall k :: k in r ==> r[k] == m[k]
  {
    map k | k in order :: m[k]
  }

  /** Listing one more key adds that key to the restricted map. */
  lemma RestrictSnoc(m: Weights, order: seq<Material>)
    requires forall k :: k in order ==> k in m
    requires order != []
    ensures var n := |order|;
      Restrict(m, order) == Restrict(m, order[..n - 1])[order[n - 1] := m[order[n - 1]]]
  {
    var n := |order|;
    assert forall k :: k in order <==> k in order[..n - 1] || k == order[n - 1];
  }

  /** Parse takes its last line after all the others. */
  lemma ParseSnoc(lines: seq<string>, catalog: Catalog, codec: DoubleText, before: Weights, mat: Material, w: real)
    requires lines != []
    requires Parse(lines[..|lines| - 1], catalog, codec) == Success(before)
    requires ParseEntry(lines[|lines| - 1], catalog, codec) == Success((mat, w))
    ensures Parse(lines, catalog, codec) == Success(before[mat := w])
  {
    EntriesPrefix(lines, |lines| - 1, catalog, codec);
  }

  /** Parsing encoded lines rebuilds the weights of the keys listed. */
  lemma {:induction false} ParseEncode(m: Weights, order: seq<Material>, catalog: Catalog, codec: DoubleText)
    requires forall k :: k in order ==> k in m
    requires Loadable(order, catalog) && forall k :: k in order ==> RoundTrips(codec, m[k])
    ensures Parse(Encode(m, order, codec), catalog, codec) == Success(Restrict(m, order))
    decreases |order|
  {
    var lines := Encode(m, order, codec);
    if order == [] {
      assert lines == [];
      assert Restrict(m, order) == map[];
    } else {
      var n := |order|;
      var init, last := order[..n - 1], order[n - 1];
      assert forall k :: k in init ==> k in order;
      ParseEncode(m, init, catalog, codec);
      EncodePrefix(m, order, codec);
      assert last in order;
      assert Loadable([last], catalog);
      ParseEntryText(last, m[last], catalog, codec);
      ParseSnoc(lines, catalog, codec, Restrict(m, init), last, m[last]);
      RestrictSnoc(m, order);
    }
  }

  /** Loading the output of parseToStringList gives back the same map. */
  lemma SaveLoadRoundTrip(m: Weights, order: seq<Material>, catalog: Catalog, codec: DoubleText)
    requires forall k :: k in order <==> k in m
    requires Loadable(order, catalog) && forall k :: k in order ==> RoundTrips(codec, m[k])
    ensures Parse(Encode(m, order, codec), catalog, codec) == Success(m)
  {
    ParseEncode(m, order, catalog, codec);
    assert Restrict(m, order) == m;
  }

  // ---------------------------------------------------------------------
  // The composition object

  class Composition {
    /** plugin.fillMaterial: the material that completes the composition. */
    const fill: Material
    /** materialMap */
    var materials: Weights
    /** compiledMaterials: None once the map changes, rebuilt on the next draw. */
    var compiled: Option<RandomCollection<Material>>

    ghost function CacheRepr(): set<object>
      reads this
    {
      if compiled.Some? then {compiled.value} else {}
    }

    /** A cached sampler is always the one the current map compiles to. */
    ghost predicate Valid()
      reads this, CacheRepr()
    {
      compiled.Some? ==>
        compiled.value.Valid() &&
        CompiledFrom(compiled.value.entries, compiled.value.total, materials, materials.Keys)
    }

    /** The material a draw `r` gives from the cached sampler. */
    function Sample(r: real): Option<Material>
      reads this, CacheRepr()
      requires Valid()
    {
      if compiled.None? then None else compiled.value.Next(r)
    }

    /** The initializer for a new composition: no materials, nothing compiled. */
    constructor (fill: Material)
      ensures this.fill == fill && materials == map[] && compiled == None
      ensures Valid()
    {
      this.fill := fill;
      materials := map[];
      compiled := None;
    }

    /** The end of the list initializer: the parsed map, compiled at once. */
    constructor Loaded(fill: Material, weights: Weights)
      ensures this.fill == fill && materials == weights && compiled.Some?
      ensures Valid()
    {
      this.fill := fill;
      materials := weights;
      compiled := None;
      new;
      CompileMaterials();
    }

    /** The list initializer: parse every NAME:weight line, then compile. */
    static method FromList(fill: Material, lines: seq<string>, catalog: Catalog, codec: DoubleText)
      returns (r: Result<Composition, LoadError>)
      ensures r.Success? <==> Parse(lines, catalog, codec).Success?
      ensures r.Failure? ==> r.error == Parse(lines, catalog, codec).error
      ensures r.Success? ==> fresh(r.value) && r.value.Valid() && r.value.fill == fill
      ensures r.Success? ==> r.value.materials == Parse(lines, catalog, codec).value && r.value.compiled.Some?
    {
      var weights: Weights := map[];
      for i := 0 to |lines|
        invariant Parse(lines[..i], catalog, codec) == Success(weights)
      {
        assert lines[..i + 1][..i] == lines[..i];
        EntriesPrefix(lines[..i + 1], i, catalog, codec);
        match ParseEntry(lines[i], catalog, codec)
        case Failure(e) =>
          assert Parse(lines[..i + 1], catalog, codec) == Failure(e);
          PrefixFailure(lines, i + 1, catalog, codec);
          return Failure(e);
        case Success(entry) =>
          weights := weights[entry.0 := entry.1];
      }
      assert lines[..|lines|] == lines;
      var c := new Composition.Loaded(fill, weights);
      return Success(c);
    }

    /** getTotalPercentage */
    method GetTotalPercentage() returns (d: real)
      ensures d == Total(materials)
    {
      d := 0.0;
      var rest := materials.Keys;
      while rest != {}
        invariant rest <= materials.Keys
        invariant d + SumOf(materials, rest, false) == Total(materials)
        decreases rest
      {
        var k :| k in rest;
        SumOfPick(materials, rest, k, false);
        d := d + materials[k];
        rest := rest - {k};
      }
    }

    /** getUnassignedPercentage */
    method GetUnassignedPercentage() returns (u: real)
      ensures u == 1.0 - Total(materials)
    {
      var d := GetTotalPercentage();
      u := 1.0 - d;
    }

    /** isValidComposition */
    method IsValidComposition() returns (b: bool)
      ensures b <==> Complete(materials)
    {
      var d := GetTotalPercentage();
      b := d == 1.0;
    }

    /** parseToStringList: one NAME:weight line per material, in the order
        the map's key set is walked. */
    method ToStringList(codec: DoubleText) returns (lines: seq<string>, ghost order: seq<Material>)
      ensures forall k :: k in order <==> k in materials
      ensures forall i, j :: 0 <= i < j < |order| ==> order[i] != order[j]
      ensures lines == Encode(materials, order, codec)
    {
      lines, order := [], [];
      var rest := materials.Keys;
      while rest != {}
        invariant rest <= materials.Keys
        invariant forall k :: k in order <==> k in materials && k !in rest
        invariant forall i, j :: 0 <= i < j < |order| ==> order[i] != order[j]
        invariant lines == Encode(materials, order, codec)
        decreases rest
      {
        var k :| k in rest;
        lines := lines + [EntryText(k, materials[k], codec)];
        order := order + [k];
        rest := rest - {k};
      }
    }

    /** setMaterial: store `p` for `mat` if it fits, else steal room from the
        fill material, else refuse. A change clears the compiled sampler. */
    method SetMaterial(mat: Material, p: real) returns (outcome: SetOutcome)
      modifies this
      ensures (outcome, materials) == SetWeight(old(materials), fill, mat, p)
      ensures outcome == Stored ==> compiled == None
      ensures outcome != Stored ==> compiled == old(compiled)
      ensures old(Valid()) ==> Valid()
      decreases if Total(materials) + p > 1.0 then 2 else 0
    {
      var total := GetTotalPercentage();
      if total + p > 1.0 {
        if fill !in materials {
          // unboxing the missing fill weight throws
          return FillMissing;
        }
        var fillWeight := materials[fill];
        if fillWeight >= p {
          materials := materials - {fill};
          materials := materials[mat := p];
          FillMaterial(fill);
          compiled := None;
          return Stored;
        } else {
          return OverCapacity;
        }
      } else {
        materials := materials[mat := p];
        compiled := None;
        return Stored;
      }
    }

    /** removeMaterial */
    method RemoveMaterial(mat: Material) returns (removed: bool)
      modifies this
      ensures removed <==> mat in old(materials)
      ensures materials == old(materials) - {mat}
      ensures removed ==> compiled == None
      ensures !removed ==> compiled == old(compiled)
      ensures old(Valid()) ==> Valid()
    {
      if mat !in materials {
        assert materials - {mat} == materials;
        return false;
      }
      materials := materials - {mat};
      compiled := None;
      return true;
    }

    /** fillMaterial: remove `mat`, then set it to whatever is unassigned. */
    method FillMaterial(mat: Material)
      modifies this
      ensures materials == Fill(old(materials), mat)
      ensures compiled == None && Valid()
      decreases 1
    {
      var _ := RemoveMaterial(mat);
      var total := GetTotalPercentage();
      var _ := SetMaterial(mat, 1.0 - total);
    }

    /** compileMaterials: a fresh sampler fed with every weight of the map. */
    method CompileMaterials()
      modifies this
      ensures materials == old(materials)
      ensures compiled.Some? && fresh(compiled.value)
      ensures Valid()
    {
      var rc := new RandomCollection<Material>();
      var rest := materials.Keys;
      while rest != {}
        invariant materials == old(materials) && fresh(rc)
        invariant rest <= materials.Keys
        invariant rc.Valid()
        invariant CompiledFrom(rc.entries, rc.total, materials, materials.Keys - rest)
        decreases rest
      {
        var k :| k in rest;
        ghost var done := materials.Keys - rest;
        ghost var es, t := rc.entries, rc.total;
        rc.Add(materials[k], k);
        CompileStep(es, t, materials, done, k, rc.entries, rc.total);
        rest := rest - {k};
        assert materials.Keys - rest == done + {k};
      }
      assert materials.Keys - rest == materials.Keys;
      compiled := Some(rc);
    }

    /** getNextMaterial: complete the map with the fill material if it does
        not add up to 1, compile if needed, then draw. Every draw comes from
        a complete composition and gives a material of positive weight. */
    method GetNextMaterial(r: real) returns (mat: Material)
      requires Valid() && 0.0 <= r < 1.0
      modifies this
      ensures Valid()
      ensures Complete(old(materials)) ==> materials == old(materials)
      ensures !Complete(old(materials)) ==> materials == Fill(old(materials), fill)
      ensures Complete(materials)
      ensures Sample(r) == Some(mat)
      ensures mat in materials && materials[mat] > 0.0
      ensures old(compiled).Some? && Complete(old(materials)) ==> compiled == old(compiled)
    {
      var total := GetTotalPercentage();
      if total != 1.0 {
        FillMaterial(fill);
      }
      if compiled.None? {
        CompileMaterials();
      }
      var rc := compiled.value;
      PositiveTotalAtLeastTotal(materials);
      assert rc.total > 0.0;
      var e := rc.Next(r);
      mat := e.value;
      ghost var i :| IsHigherEntry(rc.entries, i, Scaled(r, rc.total)) && rc.entries[i].1 == mat;
      BandAt(rc.entries, materials, materials.Keys, i);
      if i > 0 {
        IncreasingPair(rc.entries, i - 1, i);
      }
    }
  }

  /** Once a prefix of the lines fails to parse, so does every longer prefix. */
  lemma {:induction false} PrefixFailure(lines: seq<string>, i: nat, catalog: Catalog, codec: DoubleText)
    requires i <= |lines| && Parse(lines[..i], catalog, codec).Failure?
    ensures Parse(lines, catalog, codec) == Parse(lines[..i], catalog, codec)
    decreases |lines| - i
  {
    if i < |lines| {
      assert lines[..i + 1][..i] == lines[..i];
      EntriesPrefix(lines[..i + 1], i, catalog, codec);
      PrefixFailure(lines, i + 1, catalog, codec);
    } else {
      assert lines[..i] == lines;
    }
  }
}
