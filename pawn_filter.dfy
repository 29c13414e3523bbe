/**
 * The pawn filter: a state machine that consumes one path segment at a time,
 * narrowing a working label -> pawn dictionary, entering one of four "primed"
 * modes that give the next segment a special meaning, or ending with the sum
 * of a per-pawn counter.
 *
 * The ghost function Step is the specification of one Parse call; the class
 * PawnFilter keeps the source's fields and is proved to follow Step.
 */
module PawnFilters {
  import opened Wrappers
  import opened Text
  import opened World

  // ---------------------------------------------------------------------------
  // Pawn predicates
  // ---------------------------------------------------------------------------

  /** Quest lodgers and visitors hosted by the player, but not slaves or prisoners. */
  predicate IsGuest(p: Pawn)
  {
    !p.isSlave && !p.isPrisoner && (p.questLodger || p.guestOfPlayer)
  }

  /**
   * The filter's own colonist test: stricter than the game's, it leaves out
   * animals, prisoners, slaves, guests, colony mechs, ghouls and (when the
   * vehicle framework is loaded) vehicles.
   */
  predicate IsColonist(p: Pawn, reg: PawnRegistry)
  {
    var originalColCheck := !p.animalOrWildMan && !p.isPrisoner && !p.isSlave && !IsGuest(p)
                            && !p.isColonyMech && !p.isGhoul;
    originalColCheck && !(reg.vehicleFramework && p.vehicle)
  }

  lemma ColonistsAreNeitherGuestsNorCaptives(p: Pawn, reg: PawnRegistry)
    ensures IsColonist(p, reg) ==> !IsGuest(p) && !p.isPrisoner && !p.isSlave
    ensures IsColonist(p, reg) ==> !p.animalOrWildMan && !p.isColonyMech && !p.isGhoul
    ensures IsGuest(p) ==> !p.isPrisoner && !p.isSlave
  {
  }

  /** The named predicates of PawnFilter.filterMethods. */
  datatype PawnPredicate =
    | NonAnimalPawns | Colonists | Ghouls | Mechanitors | Prisoners | Slaves | Guests
    | Animals | Adults | Kids | Babies | Mechanoids | Males | Females

  /** PawnFilter.filterMethods: keyword -> predicate, aliases included. */
  const FilterMethods: map<string, PawnPredicate> := map[
    "pawns" := NonAnimalPawns,
    "colonists" := Colonists, "col" := Colonists,
    "ghoul" := Ghouls, "gh" := Ghouls,
    "mechanitors" := Mechanitors, "mech" := Mechanitors,
    "prisoners" := Prisoners, "pri" := Prisoners,
    "slaves" := Slaves, "slv" := Slaves,
    "guests" := Guests,
    "animals" := Animals, "anim" := Animals,
    "adults" := Adults,
    "kids" := Kids,
    "babies" := Babies, "bab" := Babies,
    "mechanoids" := Mechanoids,
    "male" := Males,
    "female" := Females]

  predicate Holds(pred: PawnPredicate, p: Pawn, reg: PawnRegistry)
  {
    match pred
    case NonAnimalPawns => !p.animalOrWildMan && !p.isColonyMech
    case Colonists => IsColonist(p, reg)
    case Ghouls => p.isGhoul
    case Mechanitors => p.mechanitor.Some?
    case Prisoners => p.isPrisonerOfColony
    case Slaves => p.isSlaveOfColony
    case Guests => IsGuest(p)
    case Animals => p.animalOrWildMan
    case Adults => p.stage == Adult
    case Kids => p.stage == Child
    case Babies => p.stage == Baby || p.stage == Newborn
    case Mechanoids => p.isColonyMech
    case Males => p.gender == Male
    case Females => p.gender == Female
  }

  // ---------------------------------------------------------------------------
  // Counters
  // ---------------------------------------------------------------------------

  /**
   * PawnFilter.counterMethods after start-up: "bandwidth" and "intake", then
   * one counter per stat label, a stat label overwriting a built-in one.
   */
  function CounterMethods(reg: PawnRegistry): (m: map<string, Counter>)
    ensures m.Keys == {"bandwidth", "intake"} + reg.statLabels
    ensures forall l :: l in reg.statLabels ==> m[l] == Stat(l)
  {
    map["bandwidth" := Bandwidth, "intake" := Intake] + map l | l in reg.statLabels :: Stat(l)
  }

  /** Free bandwidth of a mechanitor; 0 for a pawn that is not one. */
  function GetBandwidth(p: Pawn): (b: int)
    ensures p.mechanitor.None? ==> b == 0
  {
    match p.mechanitor
    case Some(m) => m.totalBandwidth - m.usedBandwidth
    case None => 0
  }

  /** Nutrition eaten per day; 0 when the game cannot report it. */
  function GetIntake(p: Pawn): int
  {
    match p.intake
    case Some(v) => v
    case None => 0
  }

  function CounterValue(c: Counter, p: Pawn): int
  {
    match c
    case Bandwidth => GetBandwidth(p)
    case Intake => GetIntake(p)
    case Stat(l) => if l in p.stats then p.stats[l] else 0
  }

  /** The sum of a counter over every entry of a working set. */
  ghost function CounterSum(m: map<string, Pawn>, c: Counter): int
    decreases |m|
  {
    if m == map[] then 0
    else
      var k :| k in m;
      assert |m - {k}| < |m| by { assert (m - {k}).Keys == m.Keys - {k}; }
      CounterValue(c, m[k]) + CounterSum(m - {k}, c)
  }

  /** The sum does not depend on the order the entries are visited in. */
  lemma {:induction false} CounterSumRemove(m: map<string, Pawn>, c: Counter, k: string)
    requires k in m
    ensures CounterSum(m, c) == CounterValue(c, m[k]) + CounterSum(m - {k}, c)
    decreases |m|
  {
    var k' :| k' in m && CounterSum(m, c) == CounterValue(c, m[k']) + CounterSum(m - {k'}, c);
    if k' != k {
      assert (m - {k'}).Keys == m.Keys - {k'};
      assert (m - {k}).Keys == m.Keys - {k};
      CounterSumRemove(m - {k'}, c, k);
      CounterSumRemove(m - {k}, c, k');
      assert m - {k'} - {k} == m - {k} - {k'};
    }
  }

  /** Adds up a counter over a working set, entry by entry. */
  method SumCounter(m: map<string, Pawn>, c: Counter) returns (total: int)
    ensures total == CounterSum(m, c)
  {
    total := 0;
    var rest := m;
    while rest != map[]
      invariant total + CounterSum(rest, c) == CounterSum(m, c)
      decreases |rest|
    {
      var k :| k in rest;
      CounterSumRemove(rest, c, k);
      total := total + CounterValue(c, rest[k]);
      assert (rest - {k}).Keys == rest.Keys - {k};
      rest := rest - {k};
    }
  }

  // ---------------------------------------------------------------------------
  // Traits, work tags and skill comparisons
  // ---------------------------------------------------------------------------

  /** HasTrait: the pawn has the trait at the degree the label stands for. */
  predicate HasTrait(p: Pawn, key: TraitKey)
  {
    key in p.traits
  }

  /**
   * Whether a work tag is disabled for the pawn; for the tag None it means
   * that the pawn has no disabled work tags at all.
   */
  predicate IsIncapable(p: Pawn, tag: WorkTags)
  {
    if tag == {} then p.disabledWorkTags == {} else p.disabledWorkTags * tag != {}
  }

  datatype Comparator = Gt | Lt | Gte | Lte | Eq
  datatype Operand = AtLevel(level: nat) | OtherSkill(skill: SkillDef)
  /** A parsed skill comparison: skill `skill` compared by `cmp` with `rhs`. */
  datatype SkillQuery = SkillQuery(cmp: Comparator, skill: SkillDef, rhs: Operand)

  /** The alternatives of the inclusive comparison pattern, in pattern order. */
  const InclusiveTokens: seq<string> := [">=", "gte", "<=", "lte"]
  /** The alternatives of the strict comparison pattern, in pattern order. */
  const StrictTokens: seq<string> := [">", "gt", "<", "lt", "==", "eq"]

  /**
   * The comparator a matched (lower-cased) comparison text stands for, as the
   * filter's tests `comparison == "gt" || comparison == ">"` and so on read it.
   */
  function TokenComparator(t: string): (r: Option<Comparator>)
    ensures r.Some? <==> t in InclusiveTokens || t in StrictTokens
    ensures r == Some(Gte) || r == Some(Lte) <==> t in InclusiveTokens
  {
    if t == ">" || t == "gt" then Some(Gt)
    else if t == "<" || t == "lt" then Some(Lt)
    else if t == ">=" || t == "gte" then Some(Gte)
    else if t == "<=" || t == "lte" then Some(Lte)
    else if t == "==" || t == "eq" then Some(Eq)
    else None
  }

  /**
   * The comparison in a segment: the inclusive pattern is matched first, on
   * the lower-cased text, and the strict one only when it fails; the
   * comparator is the one the matched text stands for.
   */
  function FindComparator(command: string): (r: Option<Comparator>)
    ensures (exists p :: OccursAt(">=", Lower(command), p)) ==> r == Some(Gte) || r == Some(Lte)
    ensures r.None? ==> forall p, j :: 0 <= p <= |command| && 0 <= j < |StrictTokens| ==> !OccursAt(StrictTokens[j], Lower(command), p)
    ensures AnyOccurs(Lower(command), InclusiveTokens) ==>
      exists p, j :: 0 <= p && 0 <= j && LeftmostAt(Lower(command), InclusiveTokens, p, j) && r == TokenComparator(InclusiveTokens[j])
    ensures !AnyOccurs(Lower(command), InclusiveTokens) && AnyOccurs(Lower(command), StrictTokens) ==>
      exists p, j :: 0 <= p && 0 <= j && LeftmostAt(Lower(command), StrictTokens, p, j) && r == TokenComparator(StrictTokens[j])
    ensures r.None? <==> !AnyOccurs(Lower(command), InclusiveTokens) && !AnyOccurs(Lower(command), StrictTokens)
  {
    var low := Lower(command);
    match FindFirstOf(low, InclusiveTokens, 0)
    case Some(h) =>
      assert LeftmostAt(low, InclusiveTokens, h.pos, h.alt);
      TokenComparator(InclusiveTokens[h.alt])
    case None =>
      assert forall p :: 0 <= p <= |low| ==> !OccursAt(InclusiveTokens[0], low, p);
      match FindFirstOf(low, StrictTokens, 0)
      case Some(h) =>
        assert LeftmostAt(low, StrictTokens, h.pos, h.alt);
        TokenComparator(StrictTokens[h.alt])
      case None => None
  }

  /**
   * The text the skill alternation `(?i)(l1|...|ln)` matches first: the
   * leftmost occurrence of a label, ignoring case, as written in the command.
   */
  function SkillHit(command: string, labels: seq<string>): (m: Option<string>)
    ensures m.None? <==> FindFirstOfIgnoringCase(command, labels).None?
    ensures m.Some? ==> exists j :: 0 <= j < |labels| && Lower(m.value) == Lower(labels[j])
    ensures m.Some? ==>
      exists p, j :: 0 <= p && 0 <= j && LeftmostAt(Lower(command), LowerAll(labels), p, j)
        && j < |labels| && p + |labels[j]| <= |command| && m.value == command[p..p + |labels[j]|]
    ensures m.None? <==> !AnyOccurs(Lower(command), LowerAll(labels))
  {
    match FindFirstOfIgnoringCase(command, labels)
    case None => None
    case Some(h) =>
      assert LeftmostAt(Lower(command), LowerAll(labels), h.pos, h.alt);
      Some(command[h.pos..h.pos + |labels[h.alt]|])
  }

  /**
   * The alternatives left after removing `matched` followed by '|' from the
   * text of the alternation, as `Replace(matched + "|", "")` does: every
   * occurrence goes, and the last label, which no '|' follows, never does.
   */
  function SecondSkillLabels(labels: seq<string>, matched: string): seq<string>
    requires |labels| >= 1
  {
    Split(RemoveAll(Join(labels, '|'), matched + "|"), '|')
  }

  /** The text the second skill pattern matches, built from the first match. */
  function SecondSkillHit(command: string, labels: seq<string>): Option<string>
  {
    match SkillHit(command, labels)
    case None => None
    case Some(first) => SkillHit(command, SecondSkillLabels(labels, first))
  }

  /**
   * The comparison once the first and second skill texts are known: the
   * checks run in the source's order, and a second skill wins over a level.
   */
  function SkillComparisonOf(command: string, reg: PawnRegistry, second: Option<string>): Option<SkillQuery>
  {
    var cmp := FindComparator(command);
    var level := FirstDigitRun(command, 0);
    var skill := SkillHit(command, reg.skillLabels);
    if cmp.None? || skill.None? then None
    else if level.None? && second.None? then None
    else if skill.value !in reg.skills then None
    else if second.Some? then
      if second.value !in reg.skills then None
      else Some(SkillQuery(cmp.value, reg.skills[skill.value], OtherSkill(reg.skills[second.value])))
    else Some(SkillQuery(cmp.value, reg.skills[skill.value], AtLevel(DigitsValue(level.value))))
  }

  /**
   * Parses a skill comparison such as "cooking>10", "shooting>=melee" or
   * "crafting eq 5": a comparator, a registered skill, and either a second
   * registered skill (which wins) or a literal level. None for anything else.
   */
  function ParseSkillComparison(command: string, reg: PawnRegistry): (r: Option<SkillQuery>)
    ensures r.Some? ==> FindComparator(command) == Some(r.value.cmp)
    ensures r.Some? ==> var skill := SkillHit(command, reg.skillLabels);
      skill.Some? && skill.value in reg.skills && r.value.skill == reg.skills[skill.value]
    ensures r.Some? ==> (r.value.rhs.OtherSkill? <==> SecondSkillHit(command, reg.skillLabels).Some?)
    ensures r.Some? && r.value.rhs.OtherSkill? ==> var second := SecondSkillHit(command, reg.skillLabels).value;
      second in reg.skills && r.value.rhs.skill == reg.skills[second]
    ensures r.Some? && r.value.rhs.AtLevel? ==> var level := FirstDigitRun(command, 0);
      level.Some? && r.value.rhs.level == DigitsValue(level.value)
    ensures r.None? <==>
      FindComparator(command).None? || SkillHit(command, reg.skillLabels).None?
      || (FirstDigitRun(command, 0).None? && SecondSkillHit(command, reg.skillLabels).None?)
      || SkillHit(command, reg.skillLabels).value !in reg.skills
      || (SecondSkillHit(command, reg.skillLabels).Some? && SecondSkillHit(command, reg.skillLabels).value !in reg.skills)
  {
    SkillComparisonOf(command, reg, SecondSkillHit(command, reg.skillLabels))
  }

  /**
   * When the first skill found is the last-registered label, written as
   * registered, and no other label ends in it, nothing is removed from the
   * alternation: the second search finds the same skill again, the skill is
   * compared with itself and the level in the command is ignored. Strict
   * comparisons then keep no pawn, and the others keep every colonist.
   */
  lemma LastLabelComparedWithItself(command: string, reg: PawnRegistry)
    requires |reg.skillLabels| >= 1 && forall k :: 0 <= k < |reg.skillLabels| ==> '|' !in reg.skillLabels[k]
    requires var last := reg.skillLabels[|reg.skillLabels| - 1];
      SkillHit(command, reg.skillLabels) == Some(last) && last in reg.skills
      && forall j :: 0 <= j < |reg.skillLabels| - 1 ==> !EndsWith(reg.skillLabels[j], last)
    requires FindComparator(command).Some?
    ensures var last := reg.skillLabels[|reg.skillLabels| - 1];
      ParseSkillComparison(command, reg)
      == Some(SkillQuery(FindComparator(command).value, reg.skills[last], OtherSkill(reg.skills[last])))
    ensures forall p :: PassesSkillQuery(p, ParseSkillComparison(command, reg).value)
                        <==> p.isColonist && FindComparator(command).value !in {Gt, Lt}
  {
    var labels := reg.skillLabels;
    var last := labels[|labels| - 1];
    RemoveAllJoinKeeps(labels, last, '|');
    SplitJoin(labels, '|');
    assert SecondSkillLabels(labels, last) == labels;
  }

  /** The alternatives without number i. */
  function Without(labels: seq<string>, i: nat): (r: seq<string>)
    requires i < |labels|
    ensures |r| == |labels| - 1
    ensures forall k :: 0 <= k < |r| ==> r[k] == labels[if k < i then k else k + 1]
  {
    labels[..i] + labels[i + 1..]
  }

  /** The second skill pattern as evidently intended: the first label found is taken out. */
  function SecondSkillHitIntended(command: string, labels: seq<string>): Option<string>
  {
    match FindFirstOfIgnoringCase(command, labels)
    case None => None
    case Some(h) => SkillHit(command, Without(labels, h.alt))
  }

  /** The skill comparison with the second pattern as evidently intended. */
  function ParseSkillComparisonIntended(command: string, reg: PawnRegistry): Option<SkillQuery>
  {
    SkillComparisonOf(command, reg, SecondSkillHitIntended(command, reg.skillLabels))
  }

  /**
   * For a first label other than the last one, written as registered and
   * ending no other label, the source's textual removal takes out exactly
   * that label, and the parse is the intended one.
   */
  lemma InnerLabelIsDropped(command: string, reg: PawnRegistry)
    requires forall k :: 0 <= k < |reg.skillLabels| ==> '|' !in reg.skillLabels[k]
    requires FindFirstOfIgnoringCase(command, reg.skillLabels).Some?
    requires var i := FindFirstOfIgnoringCase(command, reg.skillLabels).value.alt;
      i < |reg.skillLabels| - 1 && SkillHit(command, reg.skillLabels) == Some(reg.skillLabels[i])
      && forall j :: 0 <= j < |reg.skillLabels| - 1 && j != i ==> !EndsWith(reg.skillLabels[j], reg.skillLabels[i])
    ensures ParseSkillComparison(command, reg) == ParseSkillComparisonIntended(command, reg)
  {
    var labels := reg.skillLabels;
    var i := FindFirstOfIgnoringCase(command, labels).value.alt;
    RemoveAllJoinDrops(labels, i, '|');
    SplitJoin(Without(labels, i), '|');
    assert SecondSkillLabels(labels, labels[i]) == Without(labels, i);
  }

  /**
   * With labels that differ ignoring case and a registry that gives distinct
   * names distinct skills, the intended parse never compares a skill with
   * itself.
   */
  lemma IntendedNeverSelfCompares(command: string, reg: PawnRegistry)
    requires forall i, j :: 0 <= i < j < |reg.skillLabels| ==> Lower(reg.skillLabels[i]) != Lower(reg.skillLabels[j])
    requires forall a, b :: a in reg.skills && b in reg.skills && a != b ==> reg.skills[a] != reg.skills[b]
    ensures var r := ParseSkillComparisonIntended(command, reg);
      r.Some? && r.value.rhs.OtherSkill? ==> r.value.rhs.skill != r.value.skill
  {
  }

  predicate Compare(cmp: Comparator, a: int, b: int)
  {
    match cmp
    case Gt => a > b
    case Lt => a < b
    case Gte => a >= b
    case Lte => a <= b
    case Eq => a == b
  }

  function OperandValue(p: Pawn, rhs: Operand): int
  {
    match rhs
    case AtLevel(n) => n
    case OtherSkill(s) => Level(p, s)
  }

  /** A pawn passes a skill comparison only if the game counts it as a colonist. */
  predicate PassesSkillQuery(p: Pawn, q: SkillQuery)
  {
    p.isColonist && Compare(q.cmp, Level(p, q.skill), OperandValue(p, q.rhs))
  }

  lemma StrictComparisonsExcludeTheBoundary(p: Pawn, skill: SkillDef, n: nat)
    requires Level(p, skill) == n
    ensures !PassesSkillQuery(p, SkillQuery(Gt, skill, AtLevel(n)))
    ensures !PassesSkillQuery(p, SkillQuery(Lt, skill, AtLevel(n)))
    ensures PassesSkillQuery(p, SkillQuery(Gte, skill, AtLevel(n))) <==> p.isColonist
    ensures PassesSkillQuery(p, SkillQuery(Lte, skill, AtLevel(n))) <==> p.isColonist
    ensures PassesSkillQuery(p, SkillQuery(Eq, skill, AtLevel(n))) <==> p.isColonist
  {
  }

  // ---------------------------------------------------------------------------
  // Narrowing the working set
  // ---------------------------------------------------------------------------

  /** What a narrowing step keeps. */
  datatype Criterion =
    | WithTrait(key: TraitKey)
    | WithSkill(query: SkillQuery)
    | WithWorkTag(tag: WorkTags, incapable: bool, capable: bool)
    | Named(pred: PawnPredicate)

  predicate Satisfies(p: Pawn, c: Criterion, reg: PawnRegistry)
  {
    match c
    case WithTrait(key) => HasTrait(p, key)
    case WithSkill(q) => PassesSkillQuery(p, q)
    case WithWorkTag(tag, incapable, capable) =>
      (incapable && IsIncapable(p, tag)) || (capable && !IsIncapable(p, tag))
    case Named(pred) => Holds(pred, p, reg)
  }

  /** The entries of a working set whose pawn satisfies a criterion. */
  ghost function Keep(m: map<string, Pawn>, c: Criterion, reg: PawnRegistry): map<string, Pawn>
  {
    map k | k in m && Satisfies(m[k], c, reg) :: m[k]
  }

  /** One of Parse's foreach loops: builds a fresh dictionary of the entries that pass. */
  method FilterPawns(m: map<string, Pawn>, c: Criterion, reg: PawnRegistry) returns (r: map<string, Pawn>)
    ensures r == Keep(m, c, reg)
  {
    r := map[];
    var rest := m.Keys;
    while rest != {}
      invariant rest <= m.Keys
      invariant r == map k | k in m.Keys - rest && Satisfies(m[k], c, reg) :: m[k]
      decreases rest
    {
      var k :| k in rest;
      if Satisfies(m[k], c, reg) {
        r := r[k := m[k]];
      }
      rest := rest - {k};
    }
  }

  // ---------------------------------------------------------------------------
  // The state machine
  // ---------------------------------------------------------------------------

  /** What Parse reports: no match, "continue with this filter", or a final count. */
  datatype ReturnType = Null | Filter | Count(value: int)

  /** The fields of a pawn filter. */
  datatype FilterState = FilterState(
    contains: map<string, Pawn>,
    primedForTrait: bool,
    primedIncapable: bool,
    primedCapable: bool,
    primedForSkill: bool,
    canCount: bool)

  function Initial(pawnsDict: map<string, Pawn>): FilterState
  {
    FilterState(pawnsDict, false, false, false, false, true)
  }

  function PrimedCount(s: FilterState): nat
  {
    (if s.primedForTrait then 1 else 0) + (if s.primedIncapable then 1 else 0)
    + (if s.primedCapable then 1 else 0) + (if s.primedForSkill then 1 else 0)
  }

  /** At most one primed mode, and the filter can count exactly when none is set. */
  predicate Consistent(s: FilterState)
  {
    PrimedCount(s) <= 1 && (s.canCount <==> PrimedCount(s) == 0)
  }

  predicate IsSubMap(small: map<string, Pawn>, big: map<string, Pawn>)
  {
    forall k :: k in small ==> k in big && small[k] == big[k]
  }

  const PrimingKeywords: set<string> := {"traits", "incapable", "capable", "skill"}

  /** The specification of PawnFilter.Parse: the new fields and the answer. */
  ghost function Step(s: FilterState, command: string, reg: PawnRegistry): (r: (FilterState, ReturnType))
    ensures Consistent(s) ==> Consistent(r.0)
    ensures r.1 != Filter ==> r.0 == s
    ensures IsSubMap(r.0.contains, s.contains)
  {
    if s.primedForTrait then
      if command !in reg.traits then (s, Null)
      else
        (s.(contains := Keep(s.contains, WithTrait(reg.traits[command]), reg),
            primedForTrait := false, canCount := true), Filter)
    else if s.primedForSkill then
      match ParseSkillComparison(command, reg)
      case None => (s, Null)
      case Some(q) =>
        (s.(contains := Keep(s.contains, WithSkill(q), reg), primedForSkill := false, canCount := true), Filter)
    else if s.primedIncapable || s.primedCapable then
      if command !in reg.workTags then (s, Null)
      else
        var c := WithWorkTag(reg.workTags[command], s.primedIncapable, s.primedCapable);
        (s.(contains := Keep(s.contains, c, reg), primedIncapable := false, primedCapable := false,
            canCount := true), Filter)
    else if command == "traits" then (s.(primedForTrait := true, canCount := false), Filter)
    else if command == "incapable" then (s.(primedIncapable := true, canCount := false), Filter)
    else if command == "capable" then (s.(primedCapable := true, canCount := false), Filter)
    else if command == "skill" then (s.(primedForSkill := true, canCount := false), Filter)
    else if command in s.contains then (s.(contains := map[command := s.contains[command]]), Filter)
    else if command in FilterMethods then
      (s.(contains := Keep(s.contains, Named(FilterMethods[command]), reg)), Filter)
    else if command in CounterMethods(reg) then (s, Count(CounterSum(s.contains, CounterMethods(reg)[command])))
    else (s, Null)
  }

  function Primed(s: FilterState): bool
  {
    s.primedForTrait || s.primedIncapable || s.primedCapable || s.primedForSkill
  }

  /** Whether the segment is valid for the primed mode the filter is in. */
  ghost predicate PrimedAccepts(s: FilterState, command: string, reg: PawnRegistry)
  {
    if s.primedForTrait then command in reg.traits
    else if s.primedForSkill then ParseSkillComparison(command, reg).Some?
    else command in reg.workTags
  }

  /**
   * In a primed mode an invalid segment is rejected and changes nothing; a
   * valid one narrows the set and leaves every primed mode.
   */
  lemma PrimedSegment(s: FilterState, command: string, reg: PawnRegistry)
    requires Consistent(s) && Primed(s)
    ensures !PrimedAccepts(s, command, reg) ==> Step(s, command, reg) == (s, Null)
    ensures PrimedAccepts(s, command, reg) ==>
      var r := Step(s, command, reg).0;
      Step(s, command, reg).1 == Filter && !Primed(r) && r.canCount
  {
  }

  /** Outside primed modes: keywords, then pawn labels, then filters, then counters. */
  lemma UnprimedPrecedence(s: FilterState, command: string, reg: PawnRegistry)
    requires !Primed(s)
    ensures command in PrimingKeywords ==> Step(s, command, reg).1 == Filter && Primed(Step(s, command, reg).0)
    ensures command !in PrimingKeywords && command in s.contains ==>
      Step(s, command, reg) == (s.(contains := map[command := s.contains[command]]), Filter)
    ensures command !in PrimingKeywords && command !in s.contains && command in FilterMethods ==>
      Step(s, command, reg).0.contains == Keep(s.contains, Named(FilterMethods[command]), reg)
    ensures (command !in PrimingKeywords && command !in s.contains && command !in FilterMethods
             && command in CounterMethods(reg)) ==>
      Step(s, command, reg) == (s, Count(CounterSum(s.contains, CounterMethods(reg)[command])))
    ensures (command !in PrimingKeywords && command !in s.contains && command !in FilterMethods
             && command !in CounterMethods(reg)) ==> Step(s, command, reg) == (s, Null)
  {
    if command in PrimingKeywords {
      assert command == "traits" || command == "incapable" || command == "capable" || command == "skill";
    } else {
      assert command != "traits" && command != "incapable" && command != "capable" && command != "skill";
    }
  }

  /** The shared snapshot dictionary is only read: Step never adds or changes an entry. */
  lemma StepNarrows(s: FilterState, commands: seq<string>, reg: PawnRegistry)
    ensures IsSubMap(Steps(s, commands, reg).contains, s.contains)
    decreases |commands|
  {
    if commands != [] {
      var next := Step(s, commands[0], reg).0;
      StepNarrows(next, commands[1..], reg);
    }
  }

  /** The fields after feeding a filter several segments in a row. */
  ghost function Steps(s: FilterState, commands: seq<string>, reg: PawnRegistry): FilterState
    decreases |commands|
  {
    if commands == [] then s else Steps(Step(s, commands[0], reg).0, commands[1..], reg)
  }

  // ---------------------------------------------------------------------------
  // The class
  // ---------------------------------------------------------------------------

  class PawnFilter {
    var contains: map<string, Pawn>
    var primedForTrait: bool
    var primedIncapable: bool
    var primedCapable: bool
    var primedForSkill: bool
    var canCount: bool

    ghost function State(): FilterState
      reads this
    {
      FilterState(contains, primedForTrait, primedIncapable, primedCapable, primedForSkill, canCount)
    }

    /** Seeded with the snapshot's label -> pawn dictionary, shared, not copied. */
    constructor (pawnsDict: map<string, Pawn>)
      ensures State() == Initial(pawnsDict)
    {
      contains := pawnsDict;
      primedForTrait, primedIncapable, primedCapable, primedForSkill := false, false, false, false;
      canCount := true;
    }

    function CanCount(): bool
      reads this
    {
      canCount
    }

    /** The size of the working set. */
    function Count(): nat
      reads this
    {
      |contains|
    }

    method Parse(command: string, reg: PawnRegistry) returns (r: ReturnType)
      modifies this
      ensures (State(), r) == Step(old(State()), command, reg)
    {
      if primedForTrait {
        if command !in reg.traits {
          return Null;
        }
        primedForTrait := false;
        canCount := true;
        contains := FilterPawns(contains, WithTrait(reg.traits[command]), reg);
        return Filter;
      }
      if primedForSkill {
        var q := ParseSkillComparison(command, reg);
        if q.None? {
          return Null;
        }
        primedForSkill := false;
        canCount := true;
        contains := FilterPawns(contains, WithSkill(q.value), reg);
        return Filter;
      }
      if primedIncapable || primedCapable {
        if command !in reg.workTags {
          return Null;
        }
        contains := FilterPawns(contains, WithWorkTag(reg.workTags[command], primedIncapable, primedCapable), reg);
        primedIncapable := false;
        primedCapable := false;
        canCount := true;
        return Filter;
      }
      if command == "traits" {
        primedForTrait := true;
        canCount := false;
        return Filter;
      }
      if command == "incapable" {
        primedIncapable := true;
        canCount := false;
        return Filter;
      }
      if command == "capable" {
        primedCapable := true;
        canCount := false;
        return Filter;
      }
      if command == "skill" {
        primedForSkill := true;
        canCount := false;
        return Filter;
      }
      if command in contains {
        contains := map[command := contains[command]];
        return Filter;
      }
      if command in FilterMethods {
        contains := FilterPawns(contains, Named(FilterMethods[command]), reg);
        return Filter;
      }
      var counters := CounterMethods(reg);
      if command in counters {
        var total := SumCounter(contains, counters[command]);
        return ReturnType.Count(total);
      }
      return Null;
    }
  }
}
