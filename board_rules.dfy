/**
 * The per-tree rules shared by both enhanced round controllers: the game modes,
 * the resource pool, the tree record with its watering and fertilizing updates,
 * the four-band growth icon and the Grit forbidden-zone test.
 */
module BoardRules {

  /** The three rule sets a round is played under. */
  datatype Mode = Growth | Grit | Speed

  /** Grit and Speed track no missions and are shown as endless. */
  predicate IsEndless(mode: Mode)
    ensures IsEndless(mode) <==> mode != Growth
  {
    mode == Grit || mode == Speed
  }

  /** The action buttons; the board and tree click handlers read the selected one. */
  datatype Action = Plant | Water | Fertilize

  /** The key under which an action's cooldown is stored. */
  function ActionKey(a: Action): string
  {
    match a
    case Plant => "plant"
    case Water => "water"
    case Fertilize => "fertilize"
  }

  datatype Resources = Resources(water: int, fertilizer: int, seeds: int)

  /** Every round starts with 10 water, 5 fertilizer and 15 seeds. */
  const InitialResources := Resources(10, 5, 15)

  predicate ResourcesValid(r: Resources)
  {
    r.water >= 0 && r.fertilizer >= 0 && r.seeds >= 0
  }

  /** A planted tree; x and y are percentages of the board's width and height. */
  datatype Tree = Tree(id: nat, x: real, y: real, growth: int, watered: bool, fertilized: bool)

  const WaterGrowth := 25
  const FertilizeGrowth := 50
  const MaxGrowth := 100

  /** A freshly planted tree: no growth, neither watered nor fertilized. */
  function Seedling(id: nat, x: real, y: real): Tree
  {
    Tree(id, x, y, 0, false, false)
  }

  function Min(a: int, b: int): int
  {
    if a <= b then a else b
  }

  /** The growth a tree has is exactly the sum of the treatments it received. */
  predicate GrowthConsistent(t: Tree)
  {
    t.growth == (if t.watered then WaterGrowth else 0) + (if t.fertilized then FertilizeGrowth else 0)
  }

  /** Water the tree with the given id, once: a watered tree is left as it is. */
  function WaterTree(t: Tree, id: nat): (r: Tree)
    ensures r.id == t.id && r.x == t.x && r.y == t.y && r.fertilized == t.fertilized
    ensures r.watered == (t.watered || t.id == id)
    ensures t.id != id || t.watered ==> r == t
    ensures GrowthConsistent(t) ==> GrowthConsistent(r)
  {
    if t.id == id && !t.watered then t.(watered := true, growth := Min(t.growth + WaterGrowth, MaxGrowth))
    else t
  }

  /** Fertilize the tree with the given id, once: a fertilized tree is left as it is. */
  function FertilizeTree(t: Tree, id: nat): (r: Tree)
    ensures r.id == t.id && r.x == t.x && r.y == t.y && r.watered == t.watered
    ensures r.fertilized == (t.fertilized || t.id == id)
    ensures t.id != id || t.fertilized ==> r == t
    ensures GrowthConsistent(t) ==> GrowthConsistent(r)
  {
    if t.id == id && !t.fertilized then t.(fertilized := true, growth := Min(t.growth + FertilizeGrowth, MaxGrowth))
    else t
  }

  /** The board's `trees.map(...)` for a water click: every tree is offered the watering. */
  function WaterTrees(ts: seq<Tree>, id: nat): (r: seq<Tree>)
    ensures |r| == |ts|
    ensures forall i :: 0 <= i < |ts| ==> r[i] == WaterTree(ts[i], id)
  {
    if ts == [] then [] else [WaterTree(ts[0], id)] + WaterTrees(ts[1..], id)
  }

  /** The board's `trees.map(...)` for a fertilize click. */
  function FertilizeTrees(ts: seq<Tree>, id: nat): (r: seq<Tree>)
    ensures |r| == |ts|
    ensures forall i :: 0 <= i < |ts| ==> r[i] == FertilizeTree(ts[i], id)
  {
    if ts == [] then [] else [FertilizeTree(ts[0], id)] + FertilizeTrees(ts[1..], id)
  }

  /** The board invariant on trees: growth matches treatments, ids are below the next fresh id and distinct. */
  predicate TreesValid(ts: seq<Tree>, nextId: nat)
  {
    && (forall i :: 0 <= i < |ts| ==> GrowthConsistent(ts[i]) && ts[i].id < nextId)
    && (forall i, j :: 0 <= i < j < |ts| ==> ts[i].id != ts[j].id)
  }

  /** Growth only takes the values 0, 25, 50 and 75, so the clamp at 100 never applies. */
  lemma GrowthBands(t: Tree)
    requires GrowthConsistent(t)
    ensures t.growth == 0 || t.growth == 25 || t.growth == 50 || t.growth == 75
    ensures !t.watered ==> t.growth + WaterGrowth <= MaxGrowth
    ensures !t.fertilized ==> t.growth + FertilizeGrowth <= MaxGrowth
  {
  }

  lemma {:induction false} WaterTreesValid(ts: seq<Tree>, id: nat, nextId: nat)
    requires TreesValid(ts, nextId)
    ensures TreesValid(WaterTrees(ts, id), nextId)
  {
    var r := WaterTrees(ts, id);
    forall i | 0 <= i < |r| ensures GrowthConsistent(r[i]) && r[i].id < nextId {
      assert r[i] == WaterTree(ts[i], id);
    }
    forall i, j | 0 <= i < j < |r| ensures r[i].id != r[j].id {
      assert r[i].id == ts[i].id && r[j].id == ts[j].id;
    }
  }

  lemma {:induction false} FertilizeTreesValid(ts: seq<Tree>, id: nat, nextId: nat)
    requires TreesValid(ts, nextId)
    ensures TreesValid(FertilizeTrees(ts, id), nextId)
  {
    var r := FertilizeTrees(ts, id);
    forall i | 0 <= i < |r| ensures GrowthConsistent(r[i]) && r[i].id < nextId {
      assert r[i] == FertilizeTree(ts[i], id);
    }
    forall i, j | 0 <= i < j < |r| ensures r[i].id != r[j].id {
      assert r[i].id == ts[i].id && r[j].id == ts[j].id;
    }
  }

  /** Planting appends a seedling with the next fresh id; the board invariant survives for the incremented counter. */
  lemma PlantValid(ts: seq<Tree>, nextId: nat, x: real, y: real)
    requires TreesValid(ts, nextId)
    ensures TreesValid(ts + [Seedling(nextId, x, y)], nextId + 1)
  {
  }

  /**
   * Watering where no tree has the id, or where that tree is already watered,
   * leaves the board as it was (the click still costs water: see the handlers).
   */
  lemma {:induction false} WaterTreesNoEffect(ts: seq<Tree>, id: nat)
    requires forall i :: 0 <= i < |ts| && ts[i].id == id ==> ts[i].watered
    ensures WaterTrees(ts, id) == ts
  {
    var r := WaterTrees(ts, id);
    assert forall i :: 0 <= i < |ts| ==> r[i] == ts[i];
  }

  lemma {:induction false} FertilizeTreesNoEffect(ts: seq<Tree>, id: nat)
    requires forall i :: 0 <= i < |ts| && ts[i].id == id ==> ts[i].fertilized
    ensures FertilizeTrees(ts, id) == ts
  {
    var r := FertilizeTrees(ts, id);
    assert forall i :: 0 <= i < |ts| ==> r[i] == ts[i];
  }

  /** Watering the same tree twice has the effect of watering it once. */
  lemma WaterTreesIdempotent(ts: seq<Tree>, id: nat)
    ensures WaterTrees(WaterTrees(ts, id), id) == WaterTrees(ts, id)
  {
    WaterTreesNoEffect(WaterTrees(ts, id), id);
  }

  lemma FertilizeTreesIdempotent(ts: seq<Tree>, id: nat)
    ensures FertilizeTrees(FertilizeTrees(ts, id), id) == FertilizeTrees(ts, id)
  {
    FertilizeTreesNoEffect(FertilizeTrees(ts, id), id);
  }

  /**
   * With distinct ids, a water click changes at most the one tree that carries
   * the id: it becomes watered and gains 25 growth.
   */
  lemma WaterTreesAtMostOne(ts: seq<Tree>, id: nat, k: nat, nextId: nat)
    requires TreesValid(ts, nextId)
    requires k < |ts| && ts[k].id == id && !ts[k].watered
    ensures WaterTrees(ts, id) == ts[k := ts[k].(watered := true, growth := ts[k].growth + WaterGrowth)]
  {
    GrowthBands(ts[k]);
  }

  /**
   * With distinct ids, a fertilize click changes at most the one tree that
   * carries the id: it becomes fertilized and gains 50 growth.
   */
  lemma FertilizeTreesAtMostOne(ts: seq<Tree>, id: nat, k: nat, nextId: nat)
    requires TreesValid(ts, nextId)
    requires k < |ts| && ts[k].id == id && !ts[k].fertilized
    ensures FertilizeTrees(ts, id) == ts[k := ts[k].(fertilized := true, growth := ts[k].growth + FertilizeGrowth)]
  {
    GrowthBands(ts[k]);
  }

  /** The icon the board shows for a tree. */
  datatype Stage = SeedIcon | SproutIcon | SaplingIcon | MatureIcon

  /** Four bands on growth: below 25, below 50, below 75, and the rest. */
  function TreeIcon(t: Tree): (s: Stage)
    ensures s == SeedIcon <==> t.growth < 25
    ensures s == SproutIcon <==> 25 <= t.growth < 50
    ensures s == SaplingIcon <==> 50 <= t.growth < 75
    ensures s == MatureIcon <==> t.growth >= 75
  {
    if t.growth < 25 then SeedIcon
    else if t.growth < 50 then SproutIcon
    else if t.growth < 75 then SaplingIcon
    else MatureIcon
  }

  /**
   * On a consistent tree the icon tells its treatments apart: mature exactly
   * when both watered and fertilized, sapling when only fertilized, sprout when
   * only watered.
   */
  lemma IconOfTreatments(t: Tree)
    requires GrowthConsistent(t)
    ensures TreeIcon(t) == MatureIcon <==> t.watered && t.fertilized
    ensures TreeIcon(t) == SaplingIcon <==> !t.watered && t.fertilized
    ensures TreeIcon(t) == SproutIcon <==> t.watered && !t.fertilized
    ensures TreeIcon(t) == SeedIcon <==> !t.watered && !t.fertilized
  {
  }

  /** The Grit forbidden rectangle, in board percentages. */
  datatype Zone = Zone(x: real, y: real, width: real, height: real)

  /** The rectangle lies on the board. */
  predicate ZoneOnBoard(z: Zone)
  {
    0.0 <= z.x && 0.0 <= z.width && z.x + z.width <= 100.0 &&
    0.0 <= z.y && 0.0 <= z.height && z.y + z.height <= 100.0
  }

  /** The closed-rectangle test: the edges belong to the zone. */
  predicate InZone(z: Zone, x: real, y: real)
    ensures ZoneOnBoard(z) && InZone(z, x, y) ==> 0.0 <= x <= 100.0 && 0.0 <= y <= 100.0
  {
    x >= z.x && x <= z.x + z.width && y >= z.y && y <= z.y + z.height
  }

  /** All four corners of an on-board zone are forbidden, and nothing off its edges is. */
  lemma ZoneIsClosed(z: Zone, x: real, y: real)
    requires ZoneOnBoard(z)
    ensures InZone(z, z.x, z.y) && InZone(z, z.x + z.width, z.y + z.height)
    ensures InZone(z, z.x, z.y + z.height) && InZone(z, z.x + z.width, z.y)
    ensures x < z.x || x > z.x + z.width || y < z.y || y > z.y + z.height ==> !InZone(z, x, y)
  {
  }
}
