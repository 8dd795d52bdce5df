/**
 * Mine: one mine of the plugin. Its region is the box between two corner
 * locations; a reset refills the box from the mine's composition, with an
 * optional surface layer on top, optionally touching only air blocks.
 *
 * The world is the host's World class, the random draws a parameter
 * `rand`, and the text forms of locations a codec parameter.
 */
module Mines {

  import opened Wrappers
  import opened Host
  import opened Bounds
  import opened Compositions
  import opened Regeneration

  // ---------------------------------------------------------------------
  // Timers

  const TicksPerSecond: int := 20
  /** resetFrequency * 20 * 60: the reset period in ticks per minute of frequency. */
  const TicksPerMinute: int := 1200
  const Int32Min: int := -0x8000_0000
  const Int32Max: int := 0x7fff_ffff

  /** The delays restartResetTimer and resetWarningTasks schedule, in ticks:
      the reset period, and the warning and countdown delays when enabled. */
  datatype Schedule = Schedule(period: int, warning: Option<int>, countdown: Option<int>)

  /** A delay `seconds` before the reset; a lead time of zero ticks leaves the
      delay equal to the reset delay, which the source reads as disabled. */
  function LeadDelay(resetDelay: int, seconds: int): Option<int>
  {
    var delay := resetDelay - seconds * TicksPerSecond;
    if delay != resetDelay then Some(delay) else None
  }

  /** The timers of a mine reset every `frequency` minutes, given the
      WarningTime and CountdownTime settings in seconds. The period is an
      int product in the source, so it must fit in 32 bits. */
  function ResetSchedule(frequency: int, warningTime: int, countdownTime: int): (s: Schedule)
    requires Int32Min <= frequency * TicksPerMinute <= Int32Max
    ensures s.period == frequency * 1200
    ensures s.warning.Some? <==> warningTime != 0
    ensures s.warning.Some? ==> s.period - s.warning.value == 20 * warningTime
    ensures s.countdown.Some? <==> countdownTime != 0
    ensures s.countdown.Some? ==> s.period - s.countdown.value == 20 * countdownTime
  {
    var resetDelay := frequency * TicksPerMinute;
    Schedule(resetDelay, LeadDelay(resetDelay, warningTime), LeadDelay(resetDelay, countdownTime))
  }

  // ---------------------------------------------------------------------
  // The default teleport point

  /** The constructor's teleport point: the middle of the x blocks, two above
      l1, the middle of the z coordinates, in l1's world. */
  function DefaultTeleport(l1: Location, l2: Location): (t: Location)
    ensures t.world == l1.world && t.y == l1.y + 2.0
    ensures Min(l1.Block().x, l2.Block().x) as real <= t.x <= Max(l1.Block().x, l2.Block().x) as real
    ensures (l1.z <= t.z <= l2.z) || (l2.z <= t.z <= l1.z)
  {
    Location(l1.world, (l1.Block().x + l2.Block().x) as real / 2.0, l1.y + 2.0, (l1.z + l2.z) / 2.0)
  }

  // ---------------------------------------------------------------------
  // The configuration record

  /** A value of a YAML configuration. */
  datatype ConfigValue = Text(text: string) | Number(number: int) | Flag(flag: bool) | TextList(lines: seq<string>)

  /** A flat view of a YAML configuration: dotted key to value. */
  type Config = map<string, ConfigValue>

  /** The decimal digit `d`. */
  function Digit(d: nat): char
    requires d < 10
  {
    ('0' as int + d) as char
  }

  /** The decimal digits of `n`, most significant first, without leading zeros. */
  function NatText(n: nat): (s: string)
    ensures |s| >= 1 && forall i :: 0 <= i < |s| ==> '0' <= s[i] <= '9'
    ensures |s| > 1 ==> s[0] != '0'
  {
    if n < 10 then [Digit(n)] else NatText(n / 10) + [Digit(n % 10)]
  }

  /** The number a string of decimal digits stands for. */
  function DigitsValue(s: string): nat
  {
    if s == [] then 0
    else DigitsValue(s[..|s| - 1]) * 10 + (if '0' <= s[|s| - 1] <= '9' then s[|s| - 1] as int - '0' as int else 0)
  }

  /** Decimal digits read back as the number they were written from. */
  lemma {:induction false} NatTextValue(n: nat)
    ensures DigitsValue(NatText(n)) == n
    decreases n
  {
    if n >= 10 {
      NatTextValue(n / 10);
      var s := NatText(n);
      assert s[..|s| - 1] == NatText(n / 10);
    }
  }

  /** Integer.toString: a minus sign before the digits of a negative number. */
  function IntText(n: int): (s: string)
    ensures |s| >= 1 && ((n < 0) <==> (s[0] == '-'))
    ensures (if n < 0 then DigitsValue(s[1..]) == -n else DigitsValue(s) == n)
  {
    NatTextValue(if n < 0 then -n else n);
    if n < 0 then "-" + NatText(-n) else NatText(n)
  }

  /** The items of a list, separated by ", ". */
  function JoinText(items: seq<string>): string
  {
    if items == [] then ""
    else if |items| == 1 then items[0]
    else JoinText(items[..|items| - 1]) + ", " + items[|items| - 1]
  }

  /** toString of a value YAML loaded: text as itself, numbers in decimal,
      booleans as true or false, a list as [a, b]. */
  function ValueText(v: ConfigValue): string
  {
    match v
    case Text(t) => t
    case Number(n) => IntText(n)
    case Flag(b) => if b then "true" else "false"
    case TextList(items) => "[" + JoinText(items) + "]"
  }

  /** LocationUtils' text form of a location, to the string and back. */
  datatype LocationText = LocationText(show: Location -> string, read: string -> Option<Location>)

  /** The text of `l` reads back as `l`. */
  predicate ReadsBack(places: LocationText, l: Location)
  {
    places.read(places.show(l)) == Some(l)
  }

  /** The fields of a saved mine, the composition as its lines. */
  datatype MineRecord = MineRecord(name: string, teleport: Location, l1: Location, l2: Location,
                                   surface: Option<Material>, composition: seq<string>,
                                   resetFrequency: int, replaceOnlyAir: bool)

  /** The keys saveMine sets. */
  const SavedKeys: set<string> :=
    {"Name", "Locations.teleport", "Locations.l1", "Locations.l2", "Surface", "Composition", "ResetFrequency"}

  /** saveMine's config.set calls in order; setting Surface to null removes it. */
  function WriteRecord(config: Config, r: MineRecord, places: LocationText): (c: Config)
    ensures "Name" in c && "Locations.teleport" in c && "Locations.l1" in c && "Locations.l2" in c
    ensures "Composition" in c && "ResetFrequency" in c
    ensures c["Name"] == Text(r.name)
    ensures c["Locations.teleport"] == Text(places.show(r.teleport))
    ensures c["Locations.l1"] == Text(places.show(r.l1))
    ensures c["Locations.l2"] == Text(places.show(r.l2))
    ensures ("Surface" in c) <==> r.surface.Some?
    ensures r.surface.Some? ==> c["Surface"] == Text(r.surface.value.name)
    ensures c["Composition"] == TextList(r.composition)
    ensures c["ResetFrequency"] == Number(r.resetFrequency)
    ensures forall k :: k !in SavedKeys ==> (k in c <==> k in config) && (k in c ==> c[k] == config[k])
  {
    // the keys are distinct, so the Surface write may come first
    var withSurface := if r.surface.Some? then config["Surface" := Text(r.surface.value.name)] else config - {"Surface"};
    withSurface["Name" := Text(r.name)]
               ["Locations.teleport" := Text(places.show(r.teleport))]
               ["Locations.l1" := Text(places.show(r.l1))]
               ["Locations.l2" := Text(places.show(r.l2))]
               ["Composition" := TextList(r.composition)]
               ["ResetFrequency" := Number(r.resetFrequency)]
  }

  /** Why a saved mine does not load. */
  datatype MineLoadError =
    | NoName                         // there is no Name, so getString gives null
    | BadLocation(key: string)       // a location is missing or unreadable
    | BadComposition(error: LoadError)

  /** getString: the toString of whatever value is under `key`; null when
      there is none. */
  function GetString(config: Config, key: string): (r: Option<string>)
    ensures r.Some? <==> key in config
    ensures key in config && config[key].Text? ==> r == Some(config[key].text)
    ensures key in config && config[key].Number? ==> r == Some(IntText(config[key].number))
    ensures key in config && config[key].Flag? ==> r == Some(if config[key].flag then "true" else "false")
  {
    if key in config then Some(ValueText(config[key])) else None
  }

  /** A name YAML reads as a number is still a name: `Name: 42` gives "42". */
  lemma NumberNameIsText()
    ensures GetString(map["Name" := Number(42)], "Name") == Some("42")
  {
    assert NatText(4) == "4";
    assert NatText(42) == "42";
  }

  /** parseStringToLocation(getString(key)): a location exactly when the key
      holds a value whose text reads as one. */
  function GetLocation(config: Config, key: string, places: LocationText): (r: Result<Location, MineLoadError>)
    ensures r.Failure? ==> r.error == BadLocation(key)
    ensures r.Success? <==> GetString(config, key).Some? && places.read(GetString(config, key).value).Some?
    ensures r.Success? ==> key in config && places.read(ValueText(config[key])) == Some(r.value)
  {
    match GetString(config, key)
    case None => Failure(BadLocation(key))
    case Some(s) =>
      match places.read(s)
      case None => Failure(BadLocation(key))
      case Some(l) => Success(l)
  }

  /** The config constructor's reads, with YAML's defaults: no Surface is the
      empty name, no list an empty list, no number 0 and no flag false. */
  function ReadRecord(config: Config, catalog: Catalog, places: LocationText): (r: Result<MineRecord, MineLoadError>)
    ensures r.Success? ==> (r.value.replaceOnlyAir <==> "ReplaceOnlyAir" in config && config["ReplaceOnlyAir"] == Flag(true))
    ensures r.Success? ==> r.value.resetFrequency == (if "ResetFrequency" in config && config["ResetFrequency"].Number?
                                                        then config["ResetFrequency"].number else 0)
    ensures r.Failure? <==> GetString(config, "Name").None?
                            || GetLocation(config, "Locations.teleport", places).Failure?
                            || GetLocation(config, "Locations.l1", places).Failure?
                            || GetLocation(config, "Locations.l2", places).Failure?
  {
    match GetString(config, "Name")
    case None => Failure(NoName)
    case Some(name) =>
      match GetLocation(config, "Locations.teleport", places)
      case Failure(e) => Failure(e)
      case Success(teleport) =>
        match GetLocation(config, "Locations.l1", places)
        case Failure(e) => Failure(e)
        case Success(l1) =>
          match GetLocation(config, "Locations.l2", places)
          case Failure(e) => Failure(e)
          case Success(l2) =>
            var lines := if "Composition" in config && config["Composition"].TextList? then config["Composition"].lines else [];
            var surfaceName := match GetString(config, "Surface") case Some(s) => s case None => "";
            var frequency := if "ResetFrequency" in config && config["ResetFrequency"].Number?
                             then config["ResetFrequency"].number else 0;
            var replaceOnlyAir := "ReplaceOnlyAir" in config && config["ReplaceOnlyAir"] == Flag(true);
            Success(MineRecord(name, teleport, l1, l2, MaterialNamed(catalog, surfaceName), lines, frequency, replaceOnlyAir))
  }

  /** A saved record loads back with every field saveMine writes, while
      replaceOnlyAir comes back as whatever the file held before the save. */
  lemma SaveLoadRecord(config: Config, r: MineRecord, catalog: Catalog, places: LocationText)
    requires ReadsBack(places, r.teleport) && ReadsBack(places, r.l1) && ReadsBack(places, r.l2)
    requires r.surface.Some? ==> r.surface.value.name in catalog && catalog[r.surface.value.name] == r.surface.value
    requires r.surface.None? ==> "" !in catalog
    ensures ReadRecord(WriteRecord(config, r, places), catalog, places)
         == Success(r.(replaceOnlyAir := "ReplaceOnlyAir" in config && config["ReplaceOnlyAir"] == Flag(true)))
  {
    var c := WriteRecord(config, r, places);
    assert "ReplaceOnlyAir" !in SavedKeys;
    assert GetString(c, "Name") == Some(r.name);
    assert GetLocation(c, "Locations.teleport", places) == Success(r.teleport);
    assert GetLocation(c, "Locations.l1", places) == Success(r.l1);
    assert GetLocation(c, "Locations.l2", places) == Success(r.l2);
  }

  /** Saving into a fresh file and loading it back turns replaceOnlyAir off. */
  lemma ReplaceOnlyAirLost(r: MineRecord, catalog: Catalog, places: LocationText)
    requires ReadsBack(places, r.teleport) && ReadsBack(places, r.l1) && ReadsBack(places, r.l2)
    requires r.surface.Some? ==> r.surface.value.name in catalog && catalog[r.surface.value.name] == r.surface.value
    requires r.surface.None? ==> "" !in catalog
    requires r.replaceOnlyAir
    ensures ReadRecord(WriteRecord(map[], r, places), catalog, places).Success?
    ensures !ReadRecord(WriteRecord(map[], r, places), catalog, places).value.replaceOnlyAir
  {
    SaveLoadRecord(map[], r, catalog, places);
  }

  // ---------------------------------------------------------------------
  // The draws of a regeneration

  /** The draws `mats` are what a sampler with boundaries `es` and total
      `t` gives for rand(0), rand(1), ... */
  ghost predicate DrawsFrom(es: seq<(real, Material)>, t: real, rand: nat -> real, mats: seq<Material>)
  {
    && Increasing(es)
    && t == (if es == [] then 0.0 else es[|es| - 1].0)
    && forall i {:trigger rand(i)} :: 0 <= i < |mats| ==> HigherItem(es, t, Scaled(rand(i), t)) == Some(mats[i])
  }

  /** A further draw that the sampler gives for rand(|mats|) extends the draws. */
  lemma DrawsFromOneMore(es: seq<(real, Material)>, t: real, rand: nat -> real, mats: seq<Material>, mat: Material)
    requires DrawsFrom(es, t, rand, mats)
    requires HigherItem(es, t, Scaled(rand(|mats|), t)) == Some(mat)
    ensures DrawsFrom(es, t, rand, mats + [mat])
  {
    forall i | 0 <= i < |mats + [mat]|
      ensures HigherItem(es, t, Scaled(rand(i), t)) == Some((mats + [mat])[i])
    {
      if i < |mats| {
        assert (mats + [mat])[i] == mats[i];
      }
    }
  }

  // ---------------------------------------------------------------------
  // The mine object

  class Mine {
    const name: string
    const composition: Composition
    var teleport: Location
    /** The maximum corner, by the constructors' convention. */
    var l1: Location
    /** The minimum corner. */
    var l2: Location
    /** None: no surface layer. */
    var surface: Option<Material>
    /** Minutes between resets. */
    var resetFrequency: int
    var replaceOnlyAir: bool

    /** The full constructor; restartResetTimer's delays are ResetSchedule. */
    constructor (name: string, l1: Location, l2: Location, composition: Composition,
                 surface: Option<Material>, resetFrequency: int, replaceOnlyAir: bool)
      ensures this.name == name && this.l1 == l1 && this.l2 == l2 && this.composition == composition
      ensures this.surface == surface && this.resetFrequency == resetFrequency
      ensures this.replaceOnlyAir == replaceOnlyAir
      ensures teleport == DefaultTeleport(l1, l2)
    {
      this.name := name;
      teleport := DefaultTeleport(l1, l2);
      this.l1 := l1;
      this.l2 := l2;
      this.composition := composition;
      this.surface := surface;
      this.resetFrequency := resetFrequency;
      this.replaceOnlyAir := replaceOnlyAir;
    }

    /** The empty mine: a new composition, no surface, every 15 minutes, all blocks replaced. */
    constructor Empty(name: string, l1: Location, l2: Location, fill: Material)
      ensures this.name == name && this.l1 == l1 && this.l2 == l2
      ensures fresh(composition) && composition.materials == map[] && composition.fill == fill
      ensures composition.Valid()
      ensures surface == None && resetFrequency == 15 && !replaceOnlyAir
      ensures teleport == DefaultTeleport(l1, l2)
    {
      this.name := name;
      teleport := DefaultTeleport(l1, l2);
      this.l1 := l1;
      this.l2 := l2;
      composition := new Composition(fill);
      surface := None;
      resetFrequency := 15;
      replaceOnlyAir := false;
    }

    /** The fields of a record read from a config file, with its composition. */
    constructor Restore(r: MineRecord, composition: Composition)
      ensures name == r.name && teleport == r.teleport && l1 == r.l1 && l2 == r.l2
      ensures this.composition == composition && surface == r.surface
      ensures resetFrequency == r.resetFrequency && replaceOnlyAir == r.replaceOnlyAir
    {
      name := r.name;
      teleport := r.teleport;
      l1 := r.l1;
      l2 := r.l2;
      this.composition := composition;
      surface := r.surface;
      resetFrequency := r.resetFrequency;
      replaceOnlyAir := r.replaceOnlyAir;
    }

    /** The config constructor: read the record, then parse its composition. */
    static method Load(config: Config, fill: Material, catalog: Catalog, codec: DoubleText, places: LocationText)
      returns (r: Result<Mine, MineLoadError>)
      ensures ReadRecord(config, catalog, places).Failure? ==> r == Failure(ReadRecord(config, catalog, places).error)
      ensures ReadRecord(config, catalog, places).Success? ==>
        var rec := ReadRecord(config, catalog, places).value;
        && (r.Success? <==> Parse(rec.composition, catalog, codec).Success?)
        && (r.Failure? ==> r.error == BadComposition(Parse(rec.composition, catalog, codec).error))
        && (r.Success? ==>
              && fresh(r.value) && fresh(r.value.composition) && r.value.RecordWith(rec.composition) == rec
              && r.value.composition.materials == Parse(rec.composition, catalog, codec).value
              && r.value.composition.fill == fill && r.value.composition.Valid()
              && r.value.composition.compiled.Some?)
    {
      var read := ReadRecord(config, catalog, places);
      if read.Failure? {
        return Failure(read.error);
      }
      var rec := read.value;
      var parsed := Composition.FromList(fill, rec.composition, catalog, codec);
      if parsed.Failure? {
        return Failure(BadComposition(parsed.error));
      }
      var m := new Mine.Restore(rec, parsed.value);
      return Success(m);
    }

    /** The fields as a record, with `lines` for the composition. */
    function RecordWith(lines: seq<string>): MineRecord
      reads this
    {
      MineRecord(name, teleport, l1, l2, surface, lines, resetFrequency, replaceOnlyAir)
    }

    /** The fields as the config constructor left them. */
    function Record(): MineRecord
      reads this
    {
      RecordWith([])
    }

    /** new MineBounds(this) */
    function Region(): MineBounds
      reads this
    {
      FromCorners(l1.Block(), l2.Block())
    }

    /** isPlayerInMine: compare the player's block with the bounds, x, then z, then y. */
    function IsPlayerInMine(player: Location): (inside: bool)
      reads this
      ensures inside <==> Region().Contains(player.Block())
    {
      var bounds := Region();
      var pLoc := player.Block();
      if pLoc.x <= bounds.xMax && pLoc.x >= bounds.xMin then
        if pLoc.z <= bounds.zMax && pLoc.z >= bounds.zMin then
          pLoc.y <= bounds.yMax && pLoc.y >= bounds.yMin
        else false
      else false
    }

    /** getBlockAt: the block in l1's world, nothing when there is no world. */
    function GetBlockAt(p: Point): (b: Option<Material>)
      reads this, l1.world
      ensures b.None? <==> l1.world == null
      ensures b.Some? ==> b.value == l1.world.BlockAt(p)
    {
      if l1.world == null then None else Some(l1.world.BlockAt(p))
    }

    /** setBlock: change the block in l1's world, if there is one. */
    method SetBlock(p: Point, mat: Material)
      modifies l1.world
      ensures l1.world != null ==> l1.world.cells == old(l1.world.cells)[p := mat]
    {
      var w := l1.world;
      if w == null {
        return;
      }
      w.SetType(p, mat);
    }

    /** The blocks of l1's world, none without a world. */
    function Cells(): map<Point, Material>
      reads this, l1.world
    {
      if l1.world == null then map[] else l1.world.cells
    }

    /** The regeneration as it starts from the current state. */
    function CurrentJob(): Job
      reads this, l1.world
    {
      Job(Region(), replaceOnlyAir, surface, l1.world != null, Cells())
    }

    /** regenerateMine: every cell of the box, x outermost, then y, then z.
        `drawn` lists the cells that took a draw and `mats` what they drew:
        the i-th draw is what the sampler gives for rand(i). */
    method RegenerateMine(rand: nat -> real) returns (ghost drawn: seq<Point>, ghost mats: seq<Material>)
      requires composition.Valid() && Complete(composition.materials)
      requires forall k :: 0.0 <= rand(k) < 1.0
      modifies composition, l1.world
      ensures composition.Valid() && composition.materials == old(composition.materials)
      ensures Sweep(Cells(), drawn) == VisitAll(old(CurrentJob()), Start(old(CurrentJob())), LoopOrder(old(Region())), mats)
      ensures Regenerated(old(CurrentJob()), Cells(), drawn, mats)
      ensures forall i :: 0 <= i < |mats| ==> composition.Sample(rand(i)) == Some(mats[i])
    {
      ghost var job := CurrentJob();
      var bounds := Region();
      VisitedAtStart(bounds);
      ghost var es: seq<(real, Material)>, t := [], 0.0;
      drawn, mats := [], [];
      var d := 0;
      assert SweptTo(job, Visited(bounds, bounds.xMin, bounds.yMin, bounds.zMin), drawn, mats);
      d, drawn, mats, es, t := RegenerateSlices(bounds, rand, d, job, drawn, mats, es, t);
      VisitedAtEnd(bounds);
      RunRegenerates(job, Cells(), drawn, mats);
      forall i | 0 <= i < |mats|
        ensures composition.Sample(rand(i)) == Some(mats[i])
      {
      }
    }

    /** The state of the draws after `mats` were drawn: the composition is
        valid and complete, and once something was drawn the cached sampler
        has boundaries `es` and total `t`, from which the draws came. */
    ghost predicate Drawing(rand: nat -> real, mats: seq<Material>, es: seq<(real, Material)>, t: real)
      reads this, composition, composition.CacheRepr()
    {
      && composition.Valid() && Complete(composition.materials)
      && (forall k :: 0.0 <= rand(k) < 1.0)
      && (mats != [] ==> composition.compiled.Some? && composition.compiled.value.entries == es && composition.compiled.value.total == t)
      && DrawsFrom(es, t, rand, mats)
    }

    /** The world is what the job's run over `ps` leaves, drawing `mats`. */
    ghost predicate SweptTo(job: Job, ps: seq<Point>, drawn: seq<Point>, mats: seq<Material>)
      reads this, l1.world
    {
      Sweep(Cells(), drawn) == VisitAll(job, Start(job), ps, mats)
    }

    /** The end of a run of z is the start of the next layer. */
    lemma SweptNextY(job: Job, b: MineBounds, x: int, y: int, drawn: seq<Point>, mats: seq<Material>)
      requires b.yMin <= y && SweptTo(job, Visited(b, x, y, b.zMax + 1), drawn, mats)
      ensures SweptTo(job, Visited(b, x, y + 1, b.zMin), drawn, mats)
    {
      VisitedNextY(b, x, y);
    }

    /** The end of a slice is the start of the next one. */
    lemma SweptNextX(job: Job, b: MineBounds, x: int, drawn: seq<Point>, mats: seq<Material>)
      requires b.xMin <= x && b.yMin <= b.yMax + 1 && SweptTo(job, Visited(b, x, b.yMax + 1, b.zMin), drawn, mats)
      ensures SweptTo(job, Visited(b, x + 1, b.yMin, b.zMin), drawn, mats)
    {
      VisitedNextX(b, x);
    }

    /** The job describes this mine as it stands. */
    predicate Describes(job: Job, bounds: MineBounds)
      reads this
    {
      job.box == bounds && job.replaceOnlyAir == replaceOnlyAir && job.surface == surface && job.hasWorld == (l1.world != null)
    }

    /** The outer loop of regenerateMine: the slices x of the box. */
    method RegenerateSlices(bounds: MineBounds, rand: nat -> real, d: nat, ghost job: Job,
                            ghost drawn: seq<Point>, ghost mats: seq<Material>,
                            ghost es: seq<(real, Material)>, ghost t: real)
      returns (d': nat, ghost drawn': seq<Point>, ghost mats': seq<Material>,
               ghost es': seq<(real, Material)>, ghost t': real)
      requires Describes(job, bounds)
      requires bounds.xMin <= bounds.xMax && bounds.yMin <= bounds.yMax && bounds.zMin <= bounds.zMax
      requires d == |drawn| == |mats| && Drawing(rand, mats, es, t)
      requires SweptTo(job, Visited(bounds, bounds.xMin, bounds.yMin, bounds.zMin), drawn, mats)
      modifies composition, l1.world
      ensures composition.materials == old(composition.materials)
      ensures d' == |drawn'| == |mats'| && Drawing(rand, mats', es', t')
      ensures SweptTo(job, Visited(bounds, bounds.xMax + 1, bounds.yMin, bounds.zMin), drawn', mats')
    {
      d', drawn', mats', es', t' := d, drawn, mats, es, t;
      var x := bounds.xMin;
      while x <= bounds.xMax
        invariant bounds.xMin <= x <= bounds.xMax + 1
        invariant composition.materials == old(composition.materials)
        invariant d' == |drawn'| == |mats'| && Drawing(rand, mats', es', t')
        invariant SweptTo(job, Visited(bounds, x, bounds.yMin, bounds.zMin), drawn', mats')
        decreases bounds.xMax - x
      {
        d', drawn', mats', es', t' := RegenerateSlice(bounds, x, rand, d', job, drawn', mats', es', t');
        x := x + 1;
      }
      assert x == bounds.xMax + 1;
    }

    /** The middle loop of regenerateMine: the layers y of slice x, which
        leaves the sweep at the start of slice x + 1. */
    method RegenerateSlice(bounds: MineBounds, x: int, rand: nat -> real, d: nat, ghost job: Job,
                           ghost drawn: seq<Point>, ghost mats: seq<Material>,
                           ghost es: seq<(real, Material)>, ghost t: real)
      returns (d': nat, ghost drawn': seq<Point>, ghost mats': seq<Material>,
               ghost es': seq<(real, Material)>, ghost t': real)
      requires Describes(job, bounds)
      requires bounds.xMin <= x <= bounds.xMax && bounds.yMin <= bounds.yMax && bounds.zMin <= bounds.zMax
      requires d == |drawn| == |mats| && Drawing(rand, mats, es, t)
      requires SweptTo(job, Visited(bounds, x, bounds.yMin, bounds.zMin), drawn, mats)
      modifies composition, l1.world
      ensures composition.materials == old(composition.materials)
      ensures d' == |drawn'| == |mats'| && Drawing(rand, mats', es', t')
      ensures SweptTo(job, Visited(bounds, x + 1, bounds.yMin, bounds.zMin), drawn', mats')
    {
      d', drawn', mats', es', t' := d, drawn, mats, es, t;
      var y := bounds.yMin;
      while y <= bounds.yMax
        invariant bounds.yMin <= y <= bounds.yMax + 1
        invariant composition.materials == old(composition.materials)
        invariant d' == |drawn'| == |mats'| && Drawing(rand, mats', es', t')
        invariant SweptTo(job, Visited(bounds, x, y, bounds.zMin), drawn', mats')
        decreases bounds.yMax - y
      {
        d', drawn', mats', es', t' := RegenerateRow(bounds, x, y, rand, d', job, drawn', mats', es', t');
        y := y + 1;
      }
      assert y == bounds.yMax + 1;
      SweptNextX(job, bounds, x, drawn', mats');
    }

    /** The innermost loop of regenerateMine: the cells z of row (x, y), which
        leaves the sweep at the start of row y + 1. */
    method RegenerateRow(bounds: MineBounds, x: int, y: int, rand: nat -> real, d: nat, ghost job: Job,
                         ghost drawn: seq<Point>, ghost mats: seq<Material>,
                         ghost es: seq<(real, Material)>, ghost t: real)
      returns (d': nat, ghost drawn': seq<Point>, ghost mats': seq<Material>,
               ghost es': seq<(real, Material)>, ghost t': real)
      requires Describes(job, bounds)
      requires bounds.xMin <= x <= bounds.xMax && bounds.yMin <= y <= bounds.yMax && bounds.zMin <= bounds.zMax
      requires d == |drawn| == |mats| && Drawing(rand, mats, es, t)
      requires SweptTo(job, Visited(bounds, x, y, bounds.zMin), drawn, mats)
      modifies composition, l1.world
      ensures composition.materials == old(composition.materials)
      ensures d' == |drawn'| == |mats'| && Drawing(rand, mats', es', t')
      ensures SweptTo(job, Visited(bounds, x, y + 1, bounds.zMin), drawn', mats')
    {
      d', drawn', mats', es', t' := d, drawn, mats, es, t;
      var z := bounds.zMin;
      while z <= bounds.zMax
        invariant bounds.zMin <= z <= bounds.zMax + 1
        invariant composition.materials == old(composition.materials)
        invariant d' == |drawn'| == |mats'| && Drawing(rand, mats', es', t')
        invariant SweptTo(job, Visited(bounds, x, y, z), drawn', mats')
        decreases bounds.zMax - z
      {
        d', drawn', mats', es', t' := RegenerateStep(bounds, x, y, z, rand, d', job, drawn', mats', es', t');
        z := z + 1;
      }
      assert z == bounds.zMax + 1;
      SweptNextY(job, bounds, x, y, drawn', mats');
    }

    /** One turn of the innermost loop: cell (x, y, z) is regenerated. */
    method RegenerateStep(bounds: MineBounds, x: int, y: int, z: int, rand: nat -> real, d: nat, ghost job: Job,
                          ghost drawn: seq<Point>, ghost mats: seq<Material>,
                          ghost es: seq<(real, Material)>, ghost t: real)
      returns (d': nat, ghost drawn': seq<Point>, ghost mats': seq<Material>,
               ghost es': seq<(real, Material)>, ghost t': real)
      requires Describes(job, bounds)
      requires bounds.xMin <= x && bounds.yMin <= y && bounds.zMin <= z
      requires d == |drawn| == |mats| && Drawing(rand, mats, es, t)
      requires SweptTo(job, Visited(bounds, x, y, z), drawn, mats)
      modifies composition, l1.world
      ensures composition.materials == old(composition.materials)
      ensures d' == |drawn'| == |mats'| && Drawing(rand, mats', es', t')
      ensures SweptTo(job, Visited(bounds, x, y, z + 1), drawn', mats')
    {
      AheadUntouched(job, bounds, x, y, z, mats);
      d', drawn', mats', es', t' := RegenerateCell(bounds, Point(x, y, z), rand, d, job, drawn, mats, es, t);
      assert mats' == mats + mats'[|mats|..];
      RowStep(job, bounds, x, y, z, mats, mats'[|mats|..], Cells(), drawn');
    }

    /** The body of the innermost loop on cell `p`: with replaceOnlyAir a
        cell that is not air is skipped; the top layer takes the surface;
        every other cell takes the next draw. */
    method RegenerateCell(bounds: MineBounds, p: Point, rand: nat -> real, d: nat, ghost job: Job,
                          ghost drawn: seq<Point>, ghost mats: seq<Material>,
                          ghost es: seq<(real, Material)>, ghost t: real)
      returns (d': nat, ghost drawn': seq<Point>, ghost mats': seq<Material>,
               ghost es': seq<(real, Material)>, ghost t': real)
      requires Describes(job, bounds)
      requires job.hasWorld ==> BlockIn(Cells(), p) == BlockIn(job.before, p)
      requires d == |drawn| == |mats| && Drawing(rand, mats, es, t)
      modifies composition, l1.world
      ensures composition.materials == old(composition.materials)
      ensures d' == |drawn'| == |mats'| && Drawing(rand, mats', es', t')
      ensures |mats| <= |mats'| && mats'[..|mats|] == mats
      ensures job.Action(p) == Keep ==> Cells() == old(Cells()) && drawn' == drawn && mats' == mats
      ensures job.Action(p).PlaceSurface? ==> Cells() == Put(job, old(Cells()), p, job.Action(p).m) && drawn' == drawn && mats' == mats
      ensures job.Action(p) == Draw ==>
        |mats'| == |mats| + 1 && Cells() == Put(job, old(Cells()), p, mats'[|mats|]) && drawn' == drawn + [p]
    {
      d', drawn', mats', es', t' := d, drawn, mats, es, t;
      var skip := false;
      if replaceOnlyAir {
        var b := GetBlockAt(p);
        assert b == job.Found(p);
        skip := b.None? || !IsAir(b.value);
      }
      if skip {
        assert job.Action(p) == Keep;
        return;
      }
      d', drawn', mats', es', t' := FillCell(bounds, p, rand, d, job, drawn, mats, es, t);
    }

    /** A cell that is not skipped: the surface on the top layer, the next draw elsewhere. */
    method FillCell(bounds: MineBounds, p: Point, rand: nat -> real, d: nat, ghost job: Job,
                    ghost drawn: seq<Point>, ghost mats: seq<Material>,
                    ghost es: seq<(real, Material)>, ghost t: real)
      returns (d': nat, ghost drawn': seq<Point>, ghost mats': seq<Material>,
               ghost es': seq<(real, Material)>, ghost t': real)
      requires job.box == bounds && job.surface == surface
      requires job.Action(p) != Keep
      requires d == |drawn| == |mats| && Drawing(rand, mats, es, t)
      modifies composition, l1.world
      ensures composition.materials == old(composition.materials)
      ensures d' == |drawn'| == |mats'| && Drawing(rand, mats', es', t')
      ensures |mats| <= |mats'| && mats'[..|mats|] == mats
      ensures job.Action(p).PlaceSurface? ==>
        (l1.world != null ==> l1.world.cells == old(l1.world.cells)[p := job.Action(p).m]) && drawn' == drawn && mats' == mats
      ensures job.Action(p) == Draw ==>
        |mats'| == |mats| + 1 && (l1.world != null ==> l1.world.cells == old(l1.world.cells)[p := mats'[|mats|]]) && drawn' == drawn + [p]
    {
      d', drawn', mats', es', t' := d, drawn, mats, es, t;
      if p.y == bounds.yMax && surface.Some? && surface.value != Air {
        SetBlock(p, surface.value);
      } else {
        var mat;
        d', mat, es', t' := DrawCell(p, rand, d, mats, es, t);
        drawn', mats' := drawn + [p], mats + [mat];
      }
    }

    /** A drawn cell: the d-th draw, written to `p`. */
    method DrawCell(p: Point, rand: nat -> real, d: nat, ghost mats: seq<Material>,
                    ghost es: seq<(real, Material)>, ghost t: real)
      returns (d': nat, mat: Material, ghost es': seq<(real, Material)>, ghost t': real)
      requires d == |mats| && Drawing(rand, mats, es, t)
      modifies composition, l1.world
      ensures composition.materials == old(composition.materials)
      ensures d' == d + 1 && Drawing(rand, mats + [mat], es', t')
      ensures l1.world != null ==> l1.world.cells == old(l1.world.cells)[p := mat]
    {
      mat, es', t' := DrawNext(rand, d, mats, es, t);
      SetBlock(p, mat);
      d' := d + 1;
    }

    /** The d-th draw; the sampler is compiled on the first draw and reused after. */
    method DrawNext(rand: nat -> real, d: nat, ghost mats: seq<Material>,
                    ghost es: seq<(real, Material)>, ghost t: real)
      returns (mat: Material, ghost es': seq<(real, Material)>, ghost t': real)
      requires d == |mats| && Drawing(rand, mats, es, t)
      modifies composition
      ensures composition.materials == old(composition.materials)
      ensures Drawing(rand, mats + [mat], es', t')
    {
      ghost var cached := composition.compiled;
      mat := composition.GetNextMaterial(rand(d));
      var rc := composition.compiled.value;
      es', t' := rc.entries, rc.total;
      assert rc.Valid() && rc.Next(rand(d)) == Some(mat);
      if mats != [] {
        assert rc == cached.value;
      }
      DrawsFromOneMore(es', t', rand, mats, mat);
    }

    /** resetMine: nothing happens unless the composition is complete; then
        every player in the mine is sent to the teleport point (`placed` is
        where each player ends up) and the box is regenerated. */
    method ResetMine(rand: nat -> real, players: seq<Location>)
      returns (reset: bool, placed: seq<Location>, ghost drawn: seq<Point>, ghost mats: seq<Material>)
      requires composition.Valid()
      requires forall k :: 0.0 <= rand(k) < 1.0
      modifies composition, l1.world
      ensures reset <==> Complete(old(composition.materials))
      ensures |placed| == |players|
      ensures forall i :: 0 <= i < |players| ==>
        placed[i] == if reset && IsPlayerInMine(players[i]) then teleport else players[i]
      ensures !reset ==> composition.compiled == old(composition.compiled) && Cells() == old(Cells())
      ensures composition.Valid() && composition.materials == old(composition.materials)
      ensures reset ==> Regenerated(old(CurrentJob()), Cells(), drawn, mats)
      ensures reset ==> forall i :: 0 <= i < |mats| ==> composition.Sample(rand(i)) == Some(mats[i])
    {
      drawn, mats := [], [];
      reset := composition.IsValidComposition();
      if !reset {
        return reset, players, drawn, mats;
      }
      placed := [];
      for i := 0 to |players|
        invariant |placed| == i
        invariant forall j :: 0 <= j < i ==>
          placed[j] == if IsPlayerInMine(players[j]) then teleport else players[j]
      {
        placed := placed + [if IsPlayerInMine(players[i]) then teleport else players[i]];
      }
      drawn, mats := RegenerateMine(rand);
    }

    /** setSurface: null clears the surface, a material that is not a block is ignored. */
    method SetSurface(mat: Option<Material>)
      modifies this
      ensures mat.None? ==> surface == None
      ensures mat.Some? && !mat.value.isBlock ==> surface == old(surface)
      ensures mat.Some? && mat.value.isBlock ==> surface == mat
      ensures SurfaceIsBlock() || surface == old(surface)
      ensures teleport == old(teleport) && l1 == old(l1) && l2 == old(l2)
      ensures resetFrequency == old(resetFrequency) && replaceOnlyAir == old(replaceOnlyAir)
    {
      if mat.None? {
        surface := None;
        return;
      }
      if !mat.value.isBlock {
        return;
      }
      surface := mat;
    }

    /** No surface, or one that is a block: what setSurface lets through. */
    predicate SurfaceIsBlock()
      reads this
    {
      surface.None? || surface.value.isBlock
    }

    method SetResetFrequency(minutes: int)
      modifies this
      ensures resetFrequency == minutes
      ensures Record() == old(Record()).(resetFrequency := minutes)
    {
      resetFrequency := minutes;
    }

    method SetTeleport(loc: Location)
      modifies this
      ensures teleport == loc
      ensures Record() == old(Record()).(teleport := loc)
      ensures Region() == old(Region())
    {
      teleport := loc;
    }

    /** setL1: a new maximum corner moves the box and nothing else. */
    method SetL1(loc: Location)
      modifies this
      ensures Record() == old(Record()).(l1 := loc)
      ensures Region() == FromCorners(loc.Block(), old(l2).Block())
    {
      l1 := loc;
    }

    /** setL2: a new minimum corner moves the box and nothing else. */
    method SetL2(loc: Location)
      modifies this
      ensures Record() == old(Record()).(l2 := loc)
      ensures Region() == FromCorners(old(l1).Block(), loc.Block())
    {
      l2 := loc;
    }

    method SetReplaceOnlyAir(replaceOnlyAir: bool)
      modifies this
      ensures Record() == old(Record()).(replaceOnlyAir := replaceOnlyAir)
    {
      this.replaceOnlyAir := replaceOnlyAir;
    }

    /** saveMine: write the fields into `config`; the composition's lines
        follow the order its key set is walked in. Writing the file is left out. */
    method SaveMine(config: Config, codec: DoubleText, places: LocationText)
      returns (c: Config, ghost order: seq<Material>)
      ensures forall k :: k in order <==> k in composition.materials
      ensures forall i, j :: 0 <= i < j < |order| ==> order[i] != order[j]
      ensures c == WriteRecord(config, RecordWith(Encode(composition.materials, order, codec)), places)
    {
      var lines;
      lines, order := composition.ToStringList(codec);
      c := WriteRecord(config, RecordWith(lines), places);
    }
  }
}
