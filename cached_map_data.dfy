/**
 * The per-map snapshot: the player's pawns indexed by label, the humans and
 * owned animals among them, and a lazily filled resource cache per thing
 * name; the variable search that turns a dotted path into a count; and the
 * item lookup that applies a bill's filter settings.
 */
module CachedMap {
  import opened Wrappers
  import opened Text
  import opened World
  import opened PawnFilters

  // ---------------------------------------------------------------------------
  // Cancellation
  // ---------------------------------------------------------------------------

  /**
   * A cancellation token as seen by its readers. Every IsCancellationRequested
   * call is one read; cancellation is requested at some moment and stays
   * requested, so every read from number `cancelFrom` on reports it.
   */
  class CancellationToken {
    const cancelFrom: Option<nat>
    var readCount: nat

    constructor (cancelFrom: Option<nat>)
      ensures this.cancelFrom == cancelFrom && readCount == 0
    {
      this.cancelFrom := cancelFrom;
      readCount := 0;
    }

    /** Whether the read with the given number reports cancellation. */
    predicate RequestedAt(read: nat)
    {
      cancelFrom.Some? && read >= cancelFrom.value
    }

    method IsCancellationRequested() returns (b: bool)
      modifies this
      ensures readCount == old(readCount) + 1
      ensures b == RequestedAt(old(readCount))
    {
      b := RequestedAt(readCount);
      readCount := readCount + 1;
    }
  }

  // ---------------------------------------------------------------------------
  // Indexing the player's pawns
  // ---------------------------------------------------------------------------

  /** The pawns of the player's faction, in map order. */
  function PlayerPawns(ps: seq<Pawn>): (r: seq<Pawn>)
    ensures |r| <= |ps|
    ensures forall q :: q in r <==> q in ps && q.ofPlayer
  {
    if ps == [] then []
    else
      var init := ps[..|ps| - 1];
      assert ps == init + [ps[|ps| - 1]];
      PlayerPawns(init) + (if ps[|ps| - 1].ofPlayer then [ps[|ps| - 1]] else [])
  }

  datatype Kind = OwnedAnimal | Human | Excluded

  /**
   * How a player pawn enters the snapshot: animals always; humans only when
   * they are quest lodgers or hosted guests, prisoners or slaves of the colony.
   * Free colonists are not indexed.
   */
  function Classify(p: Pawn): Kind
  {
    if p.animalOrWildMan then OwnedAnimal
    else if p.questLodger || p.guestOfPlayer || p.isPrisonerOfColony || p.isSlaveOfColony then Human
    else Excluded
  }

  /** The three pawn collections of a snapshot. */
  datatype PawnIndex = PawnIndex(pawnsDict: map<string, Pawn>, humanPawns: seq<Pawn>, ownedAnimals: seq<Pawn>)

  /** One pass of the constructor's loop; a later pawn with the same label replaces an earlier one. */
  function Add(idx: PawnIndex, p: Pawn): PawnIndex
  {
    match Classify(p)
    case OwnedAnimal =>
      idx.(ownedAnimals := idx.ownedAnimals + [p], pawnsDict := idx.pawnsDict[p.labelShort := p])
    case Human =>
      idx.(humanPawns := idx.humanPawns + [p], pawnsDict := idx.pawnsDict[p.labelShort := p])
    case Excluded => idx
  }

  /** The index of a sequence of player pawns, visited in order. */
  function Index(ps: seq<Pawn>): PawnIndex
  {
    if ps == [] then PawnIndex(map[], [], [])
    else Add(Index(ps[..|ps| - 1]), ps[|ps| - 1])
  }

  /** The lists hold exactly the pawns of their kind. */
  lemma {:induction false} IndexLists(ps: seq<Pawn>)
    ensures forall q :: q in Index(ps).humanPawns <==> q in ps && Classify(q) == Human
    ensures forall q :: q in Index(ps).ownedAnimals <==> q in ps && Classify(q) == OwnedAnimal
  {
    if ps != [] {
      var init := ps[..|ps| - 1];
      assert ps == init + [ps[|ps| - 1]];
      IndexLists(init);
    }
  }

  /** The dictionary covers exactly the labels of indexed pawns, each mapped to an indexed pawn of that label. */
  lemma {:induction false} IndexDict(ps: seq<Pawn>)
    ensures forall l :: l in Index(ps).pawnsDict <==> exists q :: q in ps && Classify(q) != Excluded && q.labelShort == l
    ensures forall l :: l in Index(ps).pawnsDict ==>
      Index(ps).pawnsDict[l] in ps && Classify(Index(ps).pawnsDict[l]) != Excluded
      && Index(ps).pawnsDict[l].labelShort == l
  {
    if ps != [] {
      var init := ps[..|ps| - 1];
      var last := ps[|ps| - 1];
      assert ps == init + [last];
      IndexDict(init);
      if Classify(last) != Excluded {
        assert Index(ps).pawnsDict == Index(init).pawnsDict[last.labelShort := last];
      }
    }
  }

  /**
   * In a snapshot of game-consistent pawns (a prisoner or slave of the
   * colony is a prisoner or slave) no indexed pawn passes the filter's own
   * colonist test: free colonists are never indexed.
   */
  lemma NoIndexedColonists(ps: seq<Pawn>, reg: PawnRegistry)
    requires forall q :: q in ps ==> (q.isPrisonerOfColony ==> q.isPrisoner) && (q.isSlaveOfColony ==> q.isSlave)
    ensures forall l :: l in Index(ps).pawnsDict ==> !IsColonist(Index(ps).pawnsDict[l], reg)
  {
    IndexDict(ps);
  }

  /** The pawn dictionary as evidently intended: every player pawn is indexed, free colonists included. */
  function IndexIntended(ps: seq<Pawn>): map<string, Pawn>
  {
    if ps == [] then map[] else IndexIntended(ps[..|ps| - 1])[ps[|ps| - 1].labelShort := ps[|ps| - 1]]
  }

  /**
   * In the intended dictionary every player pawn whose label no later pawn
   * shares is found under its label, so the colonist filter sees every free
   * colonist.
   */
  lemma {:induction false} IntendedIndexesEveryPawn(ps: seq<Pawn>, j: nat, reg: PawnRegistry)
    requires j < |ps|
    requires forall k :: j < k < |ps| ==> ps[k].labelShort != ps[j].labelShort
    ensures ps[j].labelShort in IndexIntended(ps) && IndexIntended(ps)[ps[j].labelShort] == ps[j]
    ensures IsColonist(ps[j], reg) ==> IsColonist(IndexIntended(ps)[ps[j].labelShort], reg)
    decreases |ps|
  {
    if j < |ps| - 1 {
      IntendedIndexesEveryPawn(ps[..|ps| - 1], j, reg);
    }
  }

  /** Pawns sharing a label are counted once: the last indexed one wins. */
  lemma {:induction false} IndexLastWins(ps: seq<Pawn>, j: nat)
    requires j < |ps| && Classify(ps[j]) != Excluded
    requires forall k :: j < k < |ps| ==> Classify(ps[k]) == Excluded || ps[k].labelShort != ps[j].labelShort
    ensures ps[j].labelShort in Index(ps).pawnsDict && Index(ps).pawnsDict[ps[j].labelShort] == ps[j]
    decreases |ps|
  {
    if j < |ps| - 1 {
      var init := ps[..|ps| - 1];
      IndexLastWins(init, j);
    }
  }

  /** A scan cut short by cancellation holds a prefix of what the full scan holds. */
  lemma {:induction false} IndexPrefix(ps: seq<Pawn>, n: nat)
    requires n <= |ps|
    ensures Index(ps[..n]).humanPawns <= Index(ps).humanPawns
    ensures Index(ps[..n]).ownedAnimals <= Index(ps).ownedAnimals
    ensures Index(ps[..n]).pawnsDict.Keys <= Index(ps).pawnsDict.Keys
    decreases |ps|
  {
    if n < |ps| {
      var init := ps[..|ps| - 1];
      assert init[..n] == ps[..n];
      IndexPrefix(init, n);
    } else {
      assert ps[..n] == ps;
    }
  }

  /**
   * How many pawns a scan that starts at token read `start` gets through
   * before it sees the cancellation.
   */
  function Scanned(n: nat, start: nat, cancelFrom: Option<nat>): (k: nat)
    ensures k <= n
  {
    match cancelFrom
    case None => n
    case Some(c) => if c <= start then 0 else if c - start < n then c - start else n
  }

  // ---------------------------------------------------------------------------
  // Item lookup
  // ---------------------------------------------------------------------------

  /** The things of one definition, in order. */
  function OfDef(ts: seq<Thing>, def: string): (r: seq<Thing>)
    ensures |r| <= |ts|
    ensures forall t :: t in r <==> t in ts && t.def == def
  {
    if ts == [] then []
    else
      var init := ts[..|ts| - 1];
      assert ts == init + [ts[|ts| - 1]];
      OfDef(init, def) + (if ts[|ts| - 1].def == def then [ts[|ts| - 1]] else [])
  }

  /** What a pawn carries of one definition: equipment, then worn apparel, then inventory. */
  function HeldBy(p: Pawn, def: string): seq<Thing>
  {
    OfDef(p.equipment, def) + OfDef(p.apparel, def) + OfDef(p.inventory, def)
  }

  function HeldByAll(ps: seq<Pawn>, def: string): seq<Thing>
  {
    if ps == [] then [] else HeldByAll(ps[..|ps| - 1], def) + HeldBy(ps[|ps| - 1], def)
  }

  /** The free pawns hold, of one definition, exactly the things of that definition they carry. */
  lemma {:induction false} HeldByAllOfDef(ps: seq<Pawn>, def: string)
    ensures forall t :: t in HeldByAll(ps, def) <==>
      t.def == def && exists p: Pawn :: p in ps && (t in p.equipment || t in p.apparel || t in p.inventory)
  {
    if ps != [] {
      var init := ps[..|ps| - 1];
      var last := ps[|ps| - 1];
      HeldByAllOfDef(init, def);
      assert ps == init + [last];
      forall t: Thing | t.def == def && exists p :: p in ps && (t in p.equipment || t in p.apparel || t in p.inventory)
        ensures t in HeldByAll(ps, def)
      {
        var p :| p in ps && (t in p.equipment || t in p.apparel || t in p.inventory);
        if p != last {
          assert p in init;
        }
      }
    }
  }

  /** Everything the resource cache records for one definition. */
  function Gathered(m: Map, def: string, rimFactory: bool): seq<Thing>
  {
    OfDef(m.things, def) + HeldByAll(m.freeColonistsAndPrisonersSpawned, def)
    + (if rimFactory then OfDef(m.rimFactoryThings, def) else [])
  }

  /** Every cached thing has the definition it was gathered for. */
  lemma GatheredOfDef(m: Map, def: string, rimFactory: bool)
    ensures forall t :: t in Gathered(m, def, rimFactory) ==> t.def == def
  {
    HeldByAllOfDef(m.freeColonistsAndPrisonersSpawned, def);
  }

  /** Collects the things of one definition from a list, one at a time. */
  method CollectOfDef(ts: seq<Thing>, def: string) returns (r: seq<Thing>)
    ensures r == OfDef(ts, def)
  {
    r := [];
    var i := 0;
    while i < |ts|
      invariant i <= |ts|
      invariant r == OfDef(ts[..i], def)
    {
      assert ts[..i + 1][..i] == ts[..i];
      if ts[i].def == def {
        r := r + [ts[i]];
      }
      i := i + 1;
    }
    assert ts[..i] == ts;
  }

  /** The things of one definition a pawn holds, equips or carries. */
  method GetThingInPawn(p: Pawn, def: string) returns (things: seq<Thing>)
    ensures things == HeldBy(p, def)
    ensures forall t :: t in things <==> t.def == def && (t in p.equipment || t in p.apparel || t in p.inventory)
  {
    var equipment := CollectOfDef(p.equipment, def);
    var apparel := CollectOfDef(p.apparel, def);
    var held := CollectOfDef(p.inventory, def);
    things := equipment + apparel + held;
  }

  /** GetInnerIfMinified: the packed thing of a minified thing, the thing itself otherwise. */
  function Inner(t: Thing): Thing
  {
    match t.minifiedInner
    case Some(inner) => inner
    case None => t
  }

  /** The bill's hit-point range, in whole percent of the maximum. */
  predicate HpInRange(t: Thing, bill: BillSettings)
  {
    t.maxHitPoints > 0
    && bill.hpMinPercent * t.maxHitPoints <= 100 * t.hitPoints <= bill.hpMaxPercent * t.maxHitPoints
  }

  predicate CanChooseTainted(produced: ProducedThing)
  {
    produced.isApparel && produced.careIfWornByCorpse
  }

  /** Whether a (possibly unpacked) thing passes every filter of the bill. */
  predicate Admissible(t: Thing, bill: BillSettings, produced: ProducedThing)
  {
    (bill.includeGroup.None? || t.interactionCell in bill.includeGroup.value)
    && !t.forbidden
    && (!t.usesHitPoints || HpInRange(t, bill))
    && (t.quality.None? || bill.qualityMin <= t.quality.value <= bill.qualityMax)
    && !(CanChooseTainted(produced) && !bill.includeTainted && t.isApparel && t.wornByCorpse)
    && !(!bill.includeEquipped && t.heldByPawn)
  }

  /** The admissible unpacked things of a list, in order. */
  function Chosen(ts: seq<Thing>, bill: BillSettings, produced: ProducedThing): seq<Thing>
  {
    if ts == [] then []
    else
      var t := Inner(ts[|ts| - 1]);
      Chosen(ts[..|ts| - 1], bill, produced) + (if Admissible(t, bill, produced) then [t] else [])
  }

  /** A thing is chosen exactly when it is the unpacked form of a listed thing and passes the filters. */
  lemma {:induction false} ChosenIff(ts: seq<Thing>, bill: BillSettings, produced: ProducedThing, x: Thing)
    ensures x in Chosen(ts, bill, produced) <==> Admissible(x, bill, produced) && exists t :: t in ts && Inner(t) == x
  {
    if ts != [] {
      var init := ts[..|ts| - 1];
      assert ts == init + [ts[|ts| - 1]];
      ChosenIff(init, bill, produced, x);
    }
  }

  /** With the widest hit-point range every undamaged or damaged thing passes that check. */
  lemma FullHpRangeAdmitsAll(t: Thing, bill: BillSettings)
    requires bill.hpMinPercent == 0 && bill.hpMaxPercent == 100
    requires t.maxHitPoints > 0 && 0 <= t.hitPoints <= t.maxHitPoints
    ensures HpInRange(t, bill)
  {
  }

  /** What GetThings returns from a cached list: nothing when the recipe produces no thing. */
  function Select(ts: seq<Thing>, bill: BillSettings): seq<Thing>
  {
    match bill.producedThing
    case None => []
    case Some(produced) => Chosen(ts, bill, produced)
  }

  // ---------------------------------------------------------------------------
  // Variable search
  // ---------------------------------------------------------------------------

  /** The filters this model does not look inside (ThingFilter, ThingDefFilter, loadout filters). */
  datatype ExtFilter =
    | ThingFilterOf(thingName: string)
    | CategoryFilterOf(category: string)
    | ThingDefFilterOf(thingDef: string)
    | LoadoutFilterOf(tag: string)
    | Narrowed(id: nat)

  datatype ExtStep = ExtNull | ExtCount(value: int) | ExtNext(next: ExtFilter)

  /** The behaviour of the filters outside the model, given as functions. */
  datatype Externals = Externals(
    parse: (ExtFilter, string) -> ExtStep,
    canCount: ExtFilter -> bool,
    count: ExtFilter -> int,
    loadout: string -> Option<ExtFilter>)   // GetCompositableLoadoutFilter

  /** The filter a search holds between segments. */
  datatype Current = NoFilter | PawnStage(state: FilterState) | ExtStage(filter: ExtFilter)

  function Finish(cur: Current, ext: Externals): Option<int>
  {
    match cur
    case NoFilter => None
    case PawnStage(s) => if s.canCount then Some(|s.contains|) else None
    case ExtStage(f) => if ext.canCount(f) then Some(ext.count(f)) else None
  }

  /** How a search starts: it cannot resolve its first segment, or it holds `first` from segment `next` on. */
  datatype Start = Unresolved | Begin(next: nat, first: Current)

  /**
   * The filter chosen by the first segment of a search (segment i): a thing,
   * a category or a thing definition (the last two name their item in the
   * following segment), a pawn filter (which then reads that same segment),
   * or a loadout.
   */
  function Head(cmds: seq<string>, i: nat, pawnsDict: map<string, Pawn>, reg: Registry, ext: Externals): (h: Start)
    requires i < |cmds|
    ensures h.Begin? ==> i <= h.next <= |cmds| && !h.first.NoFilter?
    ensures h.Begin? && h.first.PawnStage? ==> h.next == i && h.first.state == Initial(pawnsDict)
    ensures h.Begin? && h.first.ExtStage? ==> i < h.next
    ensures cmds[i] !in reg.things && cmds[i] in reg.categoryNames ==>
      (h.Begin? <==> i + 1 < |cmds| && cmds[i + 1] in reg.categories)
      && (h.Begin? ==> h.next == i + 2 && h.first == ExtStage(CategoryFilterOf(reg.categories[cmds[i + 1]])))
    ensures cmds[i] !in reg.things && cmds[i] !in reg.categoryNames && cmds[i] in reg.thingDefNames ==>
      (h.Begin? <==> i + 1 < |cmds| && cmds[i + 1] in reg.things)
      && (h.Begin? ==> h.next == i + 2 && h.first == ExtStage(ThingDefFilterOf(reg.things[cmds[i + 1]])))
    ensures cmds[i] !in reg.things && cmds[i] !in reg.categoryNames && cmds[i] !in reg.thingDefNames
            && cmds[i] !in FilterMethods && cmds[i] !in pawnsDict && reg.loadoutsEnabled && cmds[i] in reg.loadoutNames ==>
      (h.Begin? <==> i + 1 < |cmds| && ext.loadout(cmds[i + 1]).Some?)
      && (h.Begin? ==> h.next == i + 2 && h.first == ExtStage(ext.loadout(cmds[i + 1]).value))
  {
    var command := cmds[i];
    if command in reg.things then Begin(i + 1, ExtStage(ThingFilterOf(command)))
    else if command in reg.categoryNames then
      if i + 1 < |cmds| && cmds[i + 1] in reg.categories then
        Begin(i + 2, ExtStage(CategoryFilterOf(reg.categories[cmds[i + 1]])))
      else Unresolved
    else if command in reg.thingDefNames then
      if i + 1 < |cmds| && cmds[i + 1] in reg.things then
        Begin(i + 2, ExtStage(ThingDefFilterOf(reg.things[cmds[i + 1]])))
      else Unresolved
    else if command in FilterMethods || command in pawnsDict then
      Begin(i, PawnStage(Initial(pawnsDict)))
    else if reg.loadoutsEnabled && command in reg.loadoutNames then
      if i + 1 < |cmds| && ext.loadout(cmds[i + 1]).Some? then
        Begin(i + 2, ExtStage(ext.loadout(cmds[i + 1]).value))
      else Unresolved
    else Unresolved
  }

  /** The search from segment i on, holding filter `cur`. */
  ghost function Walk(cmds: seq<string>, i: nat, cur: Current, pawnsDict: map<string, Pawn>,
                      reg: Registry, ext: Externals): Option<int>
    requires i <= |cmds|
    decreases |cmds| - i, if cur.NoFilter? then 1 else 0
  {
    if i == |cmds| then Finish(cur, ext)
    else
      var command := cmds[i];
      match cur
      case NoFilter =>
        (match Head(cmds, i, pawnsDict, reg, ext)
         case Unresolved => None
         case Begin(next, first) => Walk(cmds, next, first, pawnsDict, reg, ext))
      case PawnStage(s) =>
        var (next, r) := Step(s, command, reg.pawns);
        (match r
         case Null => None
         case Count(v) => Some(v)
         case Filter => Walk(cmds, i + 1, PawnStage(next), pawnsDict, reg, ext))
      case ExtStage(f) =>
        match ext.parse(f, command)
        case ExtNull => None
        case ExtCount(v) => Some(v)
        case ExtNext(g) => Walk(cmds, i + 1, ExtStage(g), pawnsDict, reg, ext)
  }

  /** The value of a dotted variable path, or None when it does not resolve. */
  ghost function Search(input: string, pawnsDict: map<string, Pawn>, reg: Registry, ext: Externals): Option<int>
  {
    Walk(Split(input, '.'), 0, NoFilter, pawnsDict, reg, ext)
  }

  /**
   * The readings of a first segment are tried in a fixed order: a thing name
   * wins over every other reading, and a pawn filter is chosen exactly for a
   * filter name or pawn label that names no thing, category or definition.
   */
  lemma HeadOrder(cmds: seq<string>, i: nat, pawnsDict: map<string, Pawn>, reg: Registry, ext: Externals)
    requires i < |cmds|
    ensures cmds[i] in reg.things ==> Head(cmds, i, pawnsDict, reg, ext) == Begin(i + 1, ExtStage(ThingFilterOf(cmds[i])))
    ensures var h := Head(cmds, i, pawnsDict, reg, ext);
      h.Begin? && h.first.PawnStage?
      <==> cmds[i] !in reg.things && cmds[i] !in reg.categoryNames && cmds[i] !in reg.thingDefNames
           && (cmds[i] in FilterMethods || cmds[i] in pawnsDict)
  {
  }

  /** A pawn-filter segment that counts ends the search: the segments after it are never read. */
  lemma CountEndsWalk(cmds: seq<string>, rest: seq<string>, i: nat, s: FilterState,
                      pawnsDict: map<string, Pawn>, reg: Registry, ext: Externals)
    requires i < |cmds| && Step(s, cmds[i], reg.pawns).1.Count?
    ensures Walk(cmds, i, PawnStage(s), pawnsDict, reg, ext) == Some(Step(s, cmds[i], reg.pawns).1.value)
    ensures Walk(cmds[..i + 1] + rest, i, PawnStage(s), pawnsDict, reg, ext) == Some(Step(s, cmds[i], reg.pawns).1.value)
  {
  }

  /** A first segment that names nothing fails the whole path. */
  lemma UnknownHeadFails(cmds: seq<string>, pawnsDict: map<string, Pawn>, reg: Registry, ext: Externals)
    requires |cmds| >= 1
    requires cmds[0] !in reg.things && cmds[0] !in reg.categoryNames && cmds[0] !in reg.thingDefNames
    requires cmds[0] !in FilterMethods && cmds[0] !in pawnsDict
    requires !reg.loadoutsEnabled || cmds[0] !in reg.loadoutNames
    ensures Walk(cmds, 0, NoFilter, pawnsDict, reg, ext) == None
  {
  }

  /** "colonists" on its own counts the colonists of the snapshot's dictionary. */
  lemma ColonistsCount(pawnsDict: map<string, Pawn>, reg: Registry, ext: Externals)
    requires "colonists" !in reg.things && "colonists" !in reg.categoryNames && "colonists" !in reg.thingDefNames
    requires "colonists" !in pawnsDict
    ensures Walk(["colonists"], 0, NoFilter, pawnsDict, reg, ext)
            == Some(|Keep(pawnsDict, Named(Colonists), reg.pawns)|)
  {
    UnprimedPrecedence(Initial(pawnsDict), "colonists", reg.pawns);
  }

  /** A bare thing name is not parsed by its own filter: the path just counts that thing. */
  lemma BareThingCounts(t: string, pawnsDict: map<string, Pawn>, reg: Registry, ext: Externals)
    requires t in reg.things
    ensures Walk([t], 0, NoFilter, pawnsDict, reg, ext) == Finish(ExtStage(ThingFilterOf(t)), ext)
  {
  }

  /**
   * A skill comparison has to sit in the segment right after "skill": a
   * segment without a comparator there fails the path, whatever follows.
   */
  lemma SkillNeedsComparatorInSameSegment(head: string, sk: string, rest: seq<string>,
                                          pawnsDict: map<string, Pawn>, reg: Registry, ext: Externals)
    requires head in FilterMethods && head !in PrimingKeywords
    requires head !in reg.things && head !in reg.categoryNames && head !in reg.thingDefNames
    requires FindComparator(sk).None?
    ensures Walk([head, "skill", sk] + rest, 0, NoFilter, pawnsDict, reg, ext) == None
  {
    var cmds := [head, "skill", sk] + rest;
    assert cmds[0] == head && cmds[1] == "skill" && cmds[2] == sk;
    var s0 := Initial(pawnsDict);
    var s1 := Step(s0, head, reg.pawns).0;
    UnprimedPrecedence(s0, head, reg.pawns);
    assert Step(s0, head, reg.pawns).1 == Filter && !Primed(s1);
    var s2 := Step(s1, "skill", reg.pawns).0;
    assert Step(s1, "skill", reg.pawns).1 == Filter;
    assert s2.primedForSkill && !s2.primedForTrait;
    assert Step(s2, sk, reg.pawns).1 == Null;
    calc {
      Walk(cmds, 0, NoFilter, pawnsDict, reg, ext);
      Walk(cmds, 0, PawnStage(s0), pawnsDict, reg, ext);
      Walk(cmds, 1, PawnStage(s1), pawnsDict, reg, ext);
      Walk(cmds, 2, PawnStage(s2), pawnsDict, reg, ext);
      None;
    }
  }

  /** A path that ends while the pawn filter waits for its argument does not count. */
  lemma DanglingKeywordFails(head: string, keyword: string, pawnsDict: map<string, Pawn>, reg: Registry, ext: Externals)
    requires head in FilterMethods && head !in PrimingKeywords && keyword in PrimingKeywords
    requires head !in reg.things && head !in reg.categoryNames && head !in reg.thingDefNames
    ensures Walk([head, keyword], 0, NoFilter, pawnsDict, reg, ext) == None
  {
    var cmds := [head, keyword];
    var s0 := Initial(pawnsDict);
    UnprimedPrecedence(s0, head, reg.pawns);
    var s1 := Step(s0, head, reg.pawns).0;
    assert Step(s0, head, reg.pawns).1 == Filter && !Primed(s1);
    UnprimedPrecedence(s1, keyword, reg.pawns);
    var s2 := Step(s1, keyword, reg.pawns).0;
    assert Step(s1, keyword, reg.pawns).1 == Filter && Primed(s2);
    assert Consistent(s0) && Consistent(s1) && Consistent(s2);
    calc {
      Walk(cmds, 0, NoFilter, pawnsDict, reg, ext);
      Walk(cmds, 0, PawnStage(s0), pawnsDict, reg, ext);
      Walk(cmds, 1, PawnStage(s1), pawnsDict, reg, ext);
      Walk(cmds, 2, PawnStage(s2), pawnsDict, reg, ext);
      None;
    }
  }

  // ---------------------------------------------------------------------------
  // The snapshot
  // ---------------------------------------------------------------------------

  /** What the refresh hands to its callback: nothing, null (the map was destroyed), or a new snapshot. */
  datatype UpdateOutcome = NotInvoked | InvokedWithNull | InvokedWith(data: CachedMapData)

  class CachedMapData {
    const gameMap: Map
    var pawnsDict: map<string, Pawn>
    var humanPawns: seq<Pawn>
    var ownedAnimals: seq<Pawn>
    var resources: map<string, seq<Thing>>
    var updateRequested: bool

    function Contents(): PawnIndex
      reads this
    {
      PawnIndex(pawnsDict, humanPawns, ownedAnimals)
    }

    /**
     * Scans the map's player pawns, reading the token before each one and
     * keeping what was indexed so far when it reports cancellation. A
     * destroyed map makes the scan throw; callers handle that case.
     */
    constructor (m: Map, ct: CancellationToken)
      requires !m.destroyed
      modifies ct
      ensures gameMap == m && resources == map[] && !updateRequested
      ensures var players := PlayerPawns(m.allPawns);
              var n := Scanned(|players|, old(ct.readCount), ct.cancelFrom);
              Contents() == Index(players[..n])
              && ct.readCount == old(ct.readCount) + n + (if n < |players| then 1 else 0)
    {
      var players := PlayerPawns(m.allPawns);
      ghost var start := ct.readCount;
      ghost var n := Scanned(|players|, start, ct.cancelFrom);
      var idx := PawnIndex(map[], [], []);
      var i := 0;
      while i < |players|
        invariant i <= n
        invariant ct.readCount == start + i
        invariant idx == Index(players[..i])
      {
        var cancelled := ct.IsCancellationRequested();
        if cancelled {
          assert n == i;
          break;
        }
        assert players[..i + 1][..i] == players[..i];
        idx := Add(idx, players[i]);
        i := i + 1;
      }
      assert i == |players| ==> players[..i] == players;
      assert i == n;
      gameMap := m;
      pawnsDict := idx.pawnsDict;
      humanPawns := idx.humanPawns;
      ownedAnimals := idx.ownedAnimals;
      resources := map[];
      updateRequested := false;
    }

    /**
     * Builds a fresh snapshot of the same map (`now` is that map's current
     * state) and hands it on unless the token was cancelled meanwhile.
     */
    method PerformUpdate(now: Map, ct: CancellationToken) returns (outcome: UpdateOutcome)
      requires now.id == gameMap.id
      modifies ct
      ensures now.destroyed ==>
        outcome == (if ct.RequestedAt(old(ct.readCount)) then NotInvoked else InvokedWithNull)
      ensures !now.destroyed ==>
        outcome != InvokedWithNull
        && (outcome.InvokedWith? <==> !ct.RequestedAt(old(ct.readCount) + |PlayerPawns(now.allPawns)| + 1))
      ensures outcome.InvokedWith? ==>
        fresh(outcome.data) && outcome.data.gameMap == now
        && outcome.data.Contents() == Index(PlayerPawns(now.allPawns))
        && outcome.data.resources == map[] && !outcome.data.updateRequested
    {
      if now.destroyed {
        var cancelled := ct.IsCancellationRequested();
        if cancelled {
          return NotInvoked;
        }
        return InvokedWithNull;
      }
      ghost var start := ct.readCount;
      ghost var n := |PlayerPawns(now.allPawns)|;
      var data := new CachedMapData(now, ct);
      var cancelled := ct.IsCancellationRequested();
      if cancelled {
        return NotInvoked;
      }
      cancelled := ct.IsCancellationRequested();
      if cancelled {
        return NotInvoked;
      }
      assert Scanned(n, start, ct.cancelFrom) == n;
      assert PlayerPawns(now.allPawns)[..n] == PlayerPawns(now.allPawns);
      return InvokedWith(data);
    }

    /** Starts at most one refresh per snapshot. */
    method RequestUpdate(now: Map, ct: CancellationToken) returns (outcome: UpdateOutcome)
      requires now.id == gameMap.id
      modifies this, ct
      ensures updateRequested
      ensures pawnsDict == old(pawnsDict) && humanPawns == old(humanPawns)
      ensures ownedAnimals == old(ownedAnimals) && resources == old(resources)
      ensures old(updateRequested) ==> outcome == NotInvoked && ct.readCount == old(ct.readCount)
      ensures !old(updateRequested) && now.destroyed ==>
        outcome == (if ct.RequestedAt(old(ct.readCount)) then NotInvoked else InvokedWithNull)
      ensures !old(updateRequested) && !now.destroyed ==>
        (outcome.InvokedWith? <==> !ct.RequestedAt(old(ct.readCount) + |PlayerPawns(now.allPawns)| + 1))
      ensures outcome.InvokedWith? ==>
        fresh(outcome.data) && outcome.data.Contents() == Index(PlayerPawns(now.allPawns))
    {
      if updateRequested {
        return NotInvoked;
      }
      updateRequested := true;
      outcome := PerformUpdate(now, ct);
    }

    /**
     * Resolves a dotted variable path against this snapshot: Some count when
     * it resolves, None (reported as false with count 0) otherwise.
     */
    method SearchVariable(input: string, reg: Registry, ext: Externals) returns (found: bool, count: int)
      ensures found <==> Search(input, pawnsDict, reg, ext).Some?
      ensures found ==> count == Search(input, pawnsDict, reg, ext).value
      ensures !found ==> count == 0
    {
      count := 0;
      var commands := Split(input, '.');
      var pf: PawnFilter? := null;
      var xf: Option<ExtFilter> := None;
      ghost var cur := NoFilter;
      var i := 0;
      while i < |commands|
        invariant i <= |commands|
        invariant Walk(commands, i, cur, pawnsDict, reg, ext) == Search(input, pawnsDict, reg, ext)
        invariant cur.NoFilter? ==> pf == null && xf.None?
        invariant cur.PawnStage? ==> pf != null && fresh(pf) && pf.State() == cur.state && xf.None?
        invariant cur.ExtStage? ==> pf == null && xf == Some(cur.filter)
        invariant count == 0
        decreases |commands| - i
      {
        var command := commands[i];
        if pf == null && xf.None? {
          var h := Head(commands, i, pawnsDict, reg, ext);
          if h.Unresolved? {
            return false, 0;
          }
          cur := h.first;
          if h.first.PawnStage? {
            pf := new PawnFilter(pawnsDict);
          } else {
            xf := Some(h.first.filter);
            i := h.next;
            continue;
          }
        }
        if pf != null {
          var r := pf.Parse(command, reg.pawns);
          match r {
            case Null => return false, 0;
            case Count(v) => return true, v;
            case Filter => cur := PawnStage(pf.State());
          }
        } else {
          match ext.parse(xf.value, command) {
            case ExtNull => return false, 0;
            case ExtCount(v) => return true, v;
            case ExtNext(g) =>
              xf := Some(g);
              cur := ExtStage(g);
          }
        }
        i := i + 1;
      }
      if pf != null {
        if pf.canCount {
          return true, pf.Count();
        }
        return false, 0;
      }
      if xf.Some? && ext.canCount(xf.value) {
        return true, ext.count(xf.value);
      }
      return false, 0;
    }

    /**
     * The things of one name that the bill may count. The first call for a
     * name fills its cache entry; later calls reuse it.
     */
    method GetThings(thingName: string, bill: BillSettings, reg: Registry) returns (found: seq<Thing>)
      requires thingName in resources || thingName in reg.things
      modifies this`resources
      ensures thingName in old(resources) ==> resources == old(resources)
      ensures thingName !in old(resources) ==>
        resources == old(resources)[thingName := Gathered(gameMap, reg.things[thingName], reg.rimFactoryEnabled)]
      ensures found == Select(resources[thingName], bill)
    {
      if thingName !in resources {
        var all := Gather(gameMap, reg.things[thingName], reg.rimFactoryEnabled);
        resources := resources[thingName := all];
      }
      found := SelectThings(resources[thingName], bill);
    }
  }

  /**
   * Fills a resource cache entry: the map's things of the definition, what
   * the free colonists and prisoners hold, and, with Project RimFactory
   * loaded, what its storage holds.
   */
  method Gather(m: Map, def: string, rimFactory: bool) returns (all: seq<Thing>)
    ensures all == Gathered(m, def, rimFactory)
  {
    all := CollectOfDef(m.things, def);
    var fromPawns := CollectHeld(m.freeColonistsAndPrisonersSpawned, def);
    all := all + fromPawns;
    if rimFactory {
      var fromStorage := CollectOfDef(m.rimFactoryThings, def);
      all := all + fromStorage;
    }
    assert all == Gathered(m, def, rimFactory);
  }

  /** What the given pawns carry of one definition, pawn by pawn. */
  method CollectHeld(ps: seq<Pawn>, def: string) returns (held: seq<Thing>)
    ensures held == HeldByAll(ps, def)
  {
    held := [];
    var j := 0;
    while j < |ps|
      invariant j <= |ps|
      invariant held == HeldByAll(ps[..j], def)
    {
      assert ps[..j + 1][..j] == ps[..j];
      var things := GetThingInPawn(ps[j], def);
      held := held + things;
      j := j + 1;
    }
    assert ps[..j] == ps;
  }

  /** Unpacks the cached things and keeps those the bill admits. */
  method SelectThings(ts: seq<Thing>, bill: BillSettings) returns (found: seq<Thing>)
    ensures found == Select(ts, bill)
  {
    found := [];
    if bill.producedThing.None? {
      return;
    }
    var produced := bill.producedThing.value;
    var i := 0;
    while i < |ts|
      invariant i <= |ts|
      invariant found == Chosen(ts[..i], bill, produced)
    {
      assert ts[..i + 1][..i] == ts[..i];
      var t := Inner(ts[i]);
      if Admissible(t, bill, produced) {
        found := found + [t];
      }
      i := i + 1;
    }
    assert ts[..i] == ts;
  }
}
