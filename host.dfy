/**
 * The host server's types as the mine plugin sees them: materials, block
 * coordinates, locations and a world whose blocks can be read and written.
 */
module Host {

  import opened Wrappers

  /** A material of the host. `isBlock` and `isAir` are what Material.isBlock
      and Material.isAir report; the host counts AIR, CAVE_AIR and VOID_AIR as air. */
  datatype Material = Material(name: string, isBlock: bool, isAir: bool)

  /** The plain air material, Material.AIR. */
  const Air: Material := Material("AIR", true, true)

  /** Material.isAir. */
  predicate IsAir(m: Material)
  {
    m.isAir
  }

  /** Material.getMaterial: the materials the host knows, by name. */
  type Catalog = map<string, Material>

  /** A catalog in which every material is filed under its own name. */
  predicate CatalogAgrees(catalog: Catalog)
  {
    forall n :: n in catalog ==> catalog[n].name == n
  }

  /** Lookup by name; a name the host does not know gives no material. */
  function MaterialNamed(catalog: Catalog, name: string): (r: Option<Material>)
    ensures r.Some? <==> name in catalog
    ensures CatalogAgrees(catalog) && r.Some? ==> r.value.name == name
  {
    if name in catalog then Some(catalog[name]) else None
  }

  /** Integer block coordinates. */
  datatype Point = Point(x: int, y: int, z: int)

  /** The block at `p` of a world whose placed blocks are `cells`: air where nothing was placed. */
  function BlockIn(cells: map<Point, Material>, p: Point): Material
  {
    if p in cells then cells[p] else Air
  }

  /** A world: the material of every block. */
  class World {
    var cells: map<Point, Material>

    function BlockAt(p: Point): Material
      reads this
    {
      BlockIn(cells, p)
    }

    /** Block.setType: only the block at `p` changes. */
    method SetType(p: Point, m: Material)
      modifies this
      ensures cells == old(cells)[p := m]
      ensures BlockAt(p) == m
      ensures forall q :: q != p ==> BlockAt(q) == old(BlockAt(q))
    {
      cells := cells[p := m];
    }
  }

  /** A location: a world (possibly missing) and coordinates. */
  datatype Location = Location(world: World?, x: real, y: real, z: real)
  {
    /** getBlockX/Y/Z: the coordinates of the block that holds the location. */
    function Block(): Point
    {
      Point(x.Floor, y.Floor, z.Floor)
    }
  }
}
