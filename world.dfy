/**
 * The read-only world the formula engine looks at: pawns, things, the map,
 * a production bill's filter settings, and the name registries the mod builds
 * at start-up. RimWorld's own classes are reduced to records of the attributes
 * the engine reads.
 */
module World {
  import opened Wrappers

  type SkillDef = string
  type WorkFlag = string
  /** A work-tag value of the flags enum WorkTags: the set of flags it holds (None is {}). */
  type WorkTags = set<WorkFlag>

  datatype DevelopmentalStage = Newborn | Baby | Child | Adult
  datatype Gender = NoGender | Male | Female

  /** A trait definition together with the degree a searchable trait label stands for. */
  datatype TraitKey = TraitKey(traitDef: string, degree: int)

  datatype Mechanitor = Mechanitor(totalBandwidth: int, usedBandwidth: int)

  /** A cell of the map grid. */
  datatype Cell = Cell(x: int, z: int)

  /**
   * An item. `minifiedInner` is the packed thing when this is a minified
   * thing. Hit points are integers; the quality category is its ordinal.
   */
  datatype Thing = Thing(
    def: string,
    interactionCell: Cell,
    forbidden: bool,          // IsForbidden(Faction.OfPlayer)
    usesHitPoints: bool,      // def.useHitPoints
    hitPoints: int,
    maxHitPoints: int,
    quality: Option<int>,     // TryGetQuality
    isApparel: bool,          // the runtime type is exactly Apparel
    wornByCorpse: bool,
    heldByPawn: bool,         // IsHeldByPawn()
    minifiedInner: Option<Thing>)

  /**
   * A pawn. `labelShort` is LabelShort.ToParameter(). `isColonist` is the game's
   * own Pawn.IsColonist, which the skill comparison reads; the stricter
   * colonist test of the pawn filter is PawnFilters.IsColonist. `vehicle`
   * says that the pawn carries a CompVehicleMovementController.
   */
  datatype Pawn = Pawn(
    labelShort: string,
    ofPlayer: bool,           // Faction == Faction.OfPlayer
    animalOrWildMan: bool,
    questLodger: bool,        // IsQuestLodger()
    guestOfPlayer: bool,      // guest?.HostFaction == Faction.OfPlayer
    isPrisoner: bool,
    isPrisonerOfColony: bool,
    isSlave: bool,
    isSlaveOfColony: bool,
    isColonyMech: bool,
    isGhoul: bool,
    isColonist: bool,
    vehicle: bool,
    mechanitor: Option<Mechanitor>,
    stage: DevelopmentalStage,
    gender: Gender,
    traits: set<TraitKey>,
    skills: map<SkillDef, int>,
    disabledWorkTags: WorkTags,   // CombinedDisabledWorkTags
    intake: Option<int>,          // NutritionEatenPerDay; None when the lookup fails
    stats: map<string, int>,      // GetStatValueForPawn per stat label
    equipment: seq<Thing>,
    apparel: seq<Thing>,
    inventory: seq<Thing>)

  /** A skill's level; a skill the record lacks reads as level 0. */
  function Level(p: Pawn, skill: SkillDef): int
  {
    if skill in p.skills then p.skills[skill] else 0
  }

  /**
   * A map as the engine sees it. `destroyed` stands for a map whose pawn and
   * thing listers are gone (any access throws NullReferenceException).
   */
  datatype Map = Map(
    id: nat,
    destroyed: bool,
    allPawns: seq<Pawn>,                          // mapPawns.AllPawns
    freeColonistsAndPrisonersSpawned: seq<Pawn>,
    things: seq<Thing>,                           // listerThings
    rimFactoryThings: seq<Thing>)                 // what the Project RimFactory support reports

  /** The filter settings of the production bill a formula belongs to. */
  datatype BillSettings = BillSettings(
    includeGroup: Option<set<Cell>>,   // the storage zone restriction, if any
    hpMinPercent: int,                 // hpRange, in percent
    hpMaxPercent: int,
    qualityMin: int,                   // qualityRange
    qualityMax: int,
    includeTainted: bool,
    includeEquipped: bool,
    producedThing: Option<ProducedThing>)

  /** The recipe's ProducedThingDef, reduced to what the tainted check reads. */
  datatype ProducedThing = ProducedThing(isApparel: bool, careIfWornByCorpse: bool)

  /** A per-pawn counter (PawnFilter.counterMethods). */
  datatype Counter = Bandwidth | Intake | Stat(statLabel: string)

  /** The registries the pawn filter consults. */
  datatype PawnRegistry = PawnRegistry(
    traits: map<string, TraitKey>,     // Math.searchableTraits
    skills: map<string, SkillDef>,     // Math.searchableSkills
    skillLabels: seq<string>,          // the skills' labels, in registry order
    workTags: map<string, WorkTags>,   // what Enum.TryParse(_, true, out WorkTags) accepts
    statLabels: set<string>,           // stat labels that became counters at start-up
    vehicleFramework: bool)            // the vehicle framework mod is loaded

  /** The registries SearchVariable dispatches on. */
  datatype Registry = Registry(
    things: map<string, string>,       // Math.searchableThings: name -> ThingDef
    categoryNames: set<string>,        // CategoryFilter.names
    categories: map<string, string>,   // CategoryFilter.searchableCategories
    thingDefNames: set<string>,        // ThingDefFilter.names
    loadoutsEnabled: bool,             // Compositable Loadouts support
    loadoutNames: set<string>,         // CompositableLoadoutTagsFilter.names
    rimFactoryEnabled: bool,
    pawns: PawnRegistry)
}
