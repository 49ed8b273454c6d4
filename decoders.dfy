/** The tuple decoders: positional contract tuples to typed records. Contract integers are
    unsigned words; `toNumber()` turns one into a JavaScript number and fields that carry a
    fixed-point quantity are divided by the contract precision, which is exact in `real`. */
module Decoders {
  import opened Wrappers
  import opened Numerals
  import opened Identifiers

  /** Fixed-point quantities are stored on chain multiplied by this. */
  const CONTRACT_PRECISION: nat := 1000

  /** 2^53 - 1, the largest integer a JavaScript number holds exactly. */
  const MAX_SAFE_INTEGER: nat := 9007199254740991

  /** `BigNumber.toNumber()`: throws when the word does not fit a JavaScript number. */
  function ToNumber(n: nat): (r: Result<nat, DecodeError>)
    ensures r.Ok? <==> n <= MAX_SAFE_INTEGER
    ensures r.Ok? ==> r.value == n
    ensures r.Err? ==> r.error == NumberOverflow
  {
    if n <= MAX_SAFE_INTEGER then Ok(n) else Err(NumberOverflow)
  }

  /** A word divided by the contract precision. */
  function Scale(n: nat): real {
    n as real / CONTRACT_PRECISION as real
  }

  /** The word a scaled quantity came from: multiply back by the precision. */
  function Unscale(x: real): nat {
    if x < 0.0 then 0 else (x * CONTRACT_PRECISION as real).Floor
  }

  /** Dividing by the precision loses nothing: the word is recovered exactly. */
  lemma ScaleLossless(n: nat)
    ensures Scale(n) >= 0.0 && Unscale(Scale(n)) == n
  {
    assert Scale(n) * 1000.0 == n as real;
  }

  /** `toNumber() / contractPrecision`. */
  function ToScaled(n: nat): (r: Result<real, DecodeError>)
    ensures r.Ok? <==> n <= MAX_SAFE_INTEGER
    ensures r.Ok? ==> r.value == Scale(n)
    ensures r.Err? ==> r.error == NumberOverflow
  {
    var v :- ToNumber(n);
    Ok(Scale(v))
  }

  /** The decimal text of a word, as `BigNumber.toString()` writes it. */
  function DecText(n: nat): string {
    Render(n, 10)
  }

  // ----------------------------------------------------------------- arrivals

  /** `RawArrivalData`, indices 0 to 7. */
  datatype RawArrival = RawArrival(
    id: nat,            // 0
    player: string,     // 1
    fromPlanet: nat,    // 2
    toPlanet: nat,      // 3
    popArriving: nat,   // 4
    silverMoved: nat,   // 5
    departureTime: nat, // 6
    arrivalTime: nat)   // 7

  /** A queued arrival, with the fields `rawArrivalToObject` sets. */
  datatype QueuedArrival = QueuedArrival(
    eventId: string,
    player: EthAddress,
    fromPlanet: LocationId,
    toPlanet: LocationId,
    energyArriving: real,
    silverMoved: real,
    departureTime: nat,
    arrivalTime: nat)

  /** Every numeric field that goes through `toNumber()` fits. */
  predicate ArrivalWordsFit(raw: RawArrival) {
    raw.popArriving <= MAX_SAFE_INTEGER && raw.silverMoved <= MAX_SAFE_INTEGER &&
    raw.departureTime <= MAX_SAFE_INTEGER && raw.arrivalTime <= MAX_SAFE_INTEGER
  }

  /** `rawArrivalToObject`. The fields are computed in the order of the object literal, so the
      first field that throws decides the error. */
  function RawArrivalToObject(raw: RawArrival): (r: Result<QueuedArrival, DecodeError>)
    ensures r.Ok? <==>
              CanonicalAddress(raw.player).Ok? && raw.fromPlanet < LOCATION_ID_UB &&
              raw.toPlanet < LOCATION_ID_UB && ArrivalWordsFit(raw)
    ensures r.Err? ==>
              r.error == (if CanonicalAddress(raw.player).Err? then InvalidAddress
                          else if raw.fromPlanet >= LOCATION_ID_UB || raw.toPlanet >= LOCATION_ID_UB then InvalidLocation
                          else NumberOverflow)
    ensures r.Ok? ==>
              var a := r.value;
              IsCanonical(a.eventId, 10) && Value(a.eventId, 10) == raw.id &&
              a.player == CanonicalAddress(raw.player).value &&
              Value(a.fromPlanet, 16) == raw.fromPlanet && Value(a.toPlanet, 16) == raw.toPlanet &&
              a.energyArriving == Scale(raw.popArriving) && a.silverMoved == Scale(raw.silverMoved) &&
              a.departureTime == raw.departureTime && a.arrivalTime == raw.arrivalTime
  {
    LocationIdOfWord(raw.fromPlanet);
    LocationIdOfWord(raw.toPlanet);
    var player :- CanonicalAddress(raw.player);
    var fromPlanet :- LocationIdOfDecStr(DecText(raw.fromPlanet));
    var toPlanet :- LocationIdOfDecStr(DecText(raw.toPlanet));
    var energyArriving :- ToScaled(raw.popArriving);
    var silverMoved :- ToScaled(raw.silverMoved);
    var departureTime :- ToNumber(raw.departureTime);
    var arrivalTime :- ToNumber(raw.arrivalTime);
    Ok(QueuedArrival(DecText(raw.id), player, fromPlanet, toPlanet,
                     energyArriving, silverMoved, departureTime, arrivalTime))
  }

  /** The tuple an arrival record stands for. */
  function EncodeArrival(a: QueuedArrival): RawArrival
    requires IsNumeral(a.eventId, 10)
  {
    RawArrival(Value(a.eventId, 10), a.player, Value(a.fromPlanet, 16), Value(a.toPlanet, 16),
               Unscale(a.energyArriving), Unscale(a.silverMoved), a.departureTime, a.arrivalTime)
  }

  /** Decoding an arrival loses nothing but the letter case of the player's address. */
  lemma ArrivalLossless(raw: RawArrival)
    requires RawArrivalToObject(raw).Ok?
    ensures EncodeArrival(RawArrivalToObject(raw).value) ==
              raw.(player := CanonicalAddress(raw.player).value)
  {
    ScaleLossless(raw.popArriving);
    ScaleLossless(raw.silverMoved);
  }

  // ------------------------------------------------------------------ planets

  /** `RawPlanetData`, indices 0 to 11. */
  datatype RawPlanet = RawPlanet(
    owner: string,          // 0
    range: nat,             // 1
    speed: nat,             // 2
    defense: nat,           // 3
    population: nat,        // 4
    populationCap: nat,     // 5
    populationGrowth: nat,  // 6
    planetResource: nat,    // 7, already a JavaScript number
    silverCap: nat,         // 8
    silverGrowth: nat,      // 9
    silver: nat,            // 10
    planetLevel: nat)       // 11

  /** `RawPlanetExtendedInfo`, indices 0 to 8. */
  datatype RawPlanetExtendedInfo = RawPlanetExtendedInfo(
    isInitialized: bool,    // 0
    createdAt: nat,         // 1
    lastUpdated: nat,       // 2
    perlin: nat,            // 3
    spaceType: nat,         // 4, already a JavaScript number
    upgradeState0: nat,     // 5
    upgradeState1: nat,     // 6
    upgradeState2: nat,     // 7
    hatLevel: nat)          // 8

  type Triple = s: seq<nat> | |s| == 3 witness [0, 0, 0]

  /** A planet, with the fields `rawPlanetToObject` sets. */
  datatype Planet = Planet(
    locationId: LocationId,
    perlin: nat,
    spaceType: nat,
    owner: EthAddress,
    hatLevel: nat,
    planetLevel: nat,
    planetResource: nat,
    energyCap: real,
    energyGrowth: real,
    silverCap: real,
    silverGrowth: real,
    energy: real,
    silver: real,
    range: nat,
    speed: nat,
    defense: nat,
    isInitialized: bool,
    createdAt: nat,
    lastUpdated: nat,
    upgradeState: Triple,
    silverSpent: real,
    pulledFromContract: bool)

  /** Every numeric field that goes through `toNumber()` fits. */
  predicate PlanetWordsFit(raw: RawPlanet, ext: RawPlanetExtendedInfo) {
    ext.perlin <= MAX_SAFE_INTEGER && ext.hatLevel <= MAX_SAFE_INTEGER &&
    raw.planetLevel <= MAX_SAFE_INTEGER &&
    raw.populationCap <= MAX_SAFE_INTEGER && raw.populationGrowth <= MAX_SAFE_INTEGER &&
    raw.silverCap <= MAX_SAFE_INTEGER && raw.silverGrowth <= MAX_SAFE_INTEGER &&
    raw.population <= MAX_SAFE_INTEGER && raw.silver <= MAX_SAFE_INTEGER &&
    raw.range <= MAX_SAFE_INTEGER && raw.speed <= MAX_SAFE_INTEGER && raw.defense <= MAX_SAFE_INTEGER &&
    ext.createdAt <= MAX_SAFE_INTEGER && ext.lastUpdated <= MAX_SAFE_INTEGER &&
    ext.upgradeState0 <= MAX_SAFE_INTEGER && ext.upgradeState1 <= MAX_SAFE_INTEGER &&
    ext.upgradeState2 <= MAX_SAFE_INTEGER
  }

  /** `rawPlanetToObject`, fields in the order of the object literal: the id, then `perlin`,
      then the owner's address, then the remaining numbers. */
  function RawPlanetToObject(rawLocationId: string, raw: RawPlanet, ext: RawPlanetExtendedInfo)
    : (r: Result<Planet, DecodeError>)
    ensures r.Ok? <==>
              LocationIdOfDecStr(rawLocationId).Ok? && CanonicalAddress(raw.owner).Ok? && PlanetWordsFit(raw, ext)
    ensures r.Err? ==>
              r.error == (if LocationIdOfDecStr(rawLocationId).Err? then LocationIdOfDecStr(rawLocationId).error
                          else if ext.perlin > MAX_SAFE_INTEGER then NumberOverflow
                          else if CanonicalAddress(raw.owner).Err? then InvalidAddress
                          else NumberOverflow)
    ensures r.Ok? ==>
              var p := r.value;
              p.locationId == LocationIdOfDecStr(rawLocationId).value &&
              p.owner == CanonicalAddress(raw.owner).value &&
              p.energyCap == Scale(raw.populationCap) && p.energyGrowth == Scale(raw.populationGrowth) &&
              p.silverCap == Scale(raw.silverCap) && p.silverGrowth == Scale(raw.silverGrowth) &&
              p.energy == Scale(raw.population) && p.silver == Scale(raw.silver) &&
              p.range == raw.range && p.speed == raw.speed && p.defense == raw.defense &&
              p.planetLevel == raw.planetLevel && p.planetResource == raw.planetResource &&
              p.perlin == ext.perlin && p.spaceType == ext.spaceType && p.hatLevel == ext.hatLevel &&
              p.isInitialized == ext.isInitialized && p.createdAt == ext.createdAt &&
              p.lastUpdated == ext.lastUpdated &&
              p.upgradeState == [ext.upgradeState0, ext.upgradeState1, ext.upgradeState2] &&
              p.silverSpent == 0.0 && p.pulledFromContract
  {
    var locationId :- LocationIdOfDecStr(rawLocationId);
    var perlin :- ToNumber(ext.perlin);
    var owner :- CanonicalAddress(raw.owner);
    var hatLevel :- ToNumber(ext.hatLevel);
    var planetLevel :- ToNumber(raw.planetLevel);
    var energyCap :- ToScaled(raw.populationCap);
    var energyGrowth :- ToScaled(raw.populationGrowth);
    var silverCap :- ToScaled(raw.silverCap);
    var silverGrowth :- ToScaled(raw.silverGrowth);
    var energy :- ToScaled(raw.population);
    var silver :- ToScaled(raw.silver);
    var range :- ToNumber(raw.range);
    var speed :- ToNumber(raw.speed);
    var defense :- ToNumber(raw.defense);
    var createdAt :- ToNumber(ext.createdAt);
    var lastUpdated :- ToNumber(ext.lastUpdated);
    var u0 :- ToNumber(ext.upgradeState0);
    var u1 :- ToNumber(ext.upgradeState1);
    var u2 :- ToNumber(ext.upgradeState2);
    Ok(Planet(locationId, perlin, ext.spaceType, owner, hatLevel, planetLevel, raw.planetResource,
              energyCap, energyGrowth, silverCap, silverGrowth, energy, silver, range, speed, defense,
              ext.isInitialized, createdAt, lastUpdated, [u0, u1, u2],
              0.0, true))
  }

  /** The two tuples a planet record stands for. */
  function EncodePlanet(p: Planet): (RawPlanet, RawPlanetExtendedInfo) {
    (RawPlanet(p.owner, p.range, p.speed, p.defense, Unscale(p.energy), Unscale(p.energyCap),
               Unscale(p.energyGrowth), p.planetResource, Unscale(p.silverCap), Unscale(p.silverGrowth),
               Unscale(p.silver), p.planetLevel),
     RawPlanetExtendedInfo(p.isInitialized, p.createdAt, p.lastUpdated, p.perlin, p.spaceType,
                           p.upgradeState[0], p.upgradeState[1], p.upgradeState[2], p.hatLevel))
  }

  /** Decoding a planet loses nothing but the letter case of the owner's address, and its id
      keeps the value of the raw id. */
  lemma PlanetLossless(rawLocationId: string, raw: RawPlanet, ext: RawPlanetExtendedInfo)
    requires RawPlanetToObject(rawLocationId, raw, ext).Ok?
    ensures EncodePlanet(RawPlanetToObject(rawLocationId, raw, ext).value) ==
              (raw.(owner := CanonicalAddress(raw.owner).value), ext)
    ensures Value(RawPlanetToObject(rawLocationId, raw, ext).value.locationId, 16) == Value(rawLocationId, 10)
  {
    LocationIdFromDecStrSpec(rawLocationId);
    ScaleLossless(raw.population);
    ScaleLossless(raw.populationCap);
    ScaleLossless(raw.populationGrowth);
    ScaleLossless(raw.silverCap);
    ScaleLossless(raw.silverGrowth);
    ScaleLossless(raw.silver);
  }

  // ----------------------------------------------------------------- upgrades

  /** `RawUpgrade`, indices 0 to 4. */
  datatype RawUpgrade = RawUpgrade(
    popCapMultiplier: nat,   // 0
    popGroMultiplier: nat,   // 1
    rangeMultiplier: nat,    // 2
    speedMultiplier: nat,    // 3
    defMultiplier: nat)      // 4

  datatype Upgrade = Upgrade(
    energyCapMultiplier: nat,
    energyGroMultiplier: nat,
    rangeMultiplier: nat,
    speedMultiplier: nat,
    defMultiplier: nat)

  predicate UpgradeWordsFit(u: RawUpgrade) {
    u.popCapMultiplier <= MAX_SAFE_INTEGER && u.popGroMultiplier <= MAX_SAFE_INTEGER &&
    u.rangeMultiplier <= MAX_SAFE_INTEGER && u.speedMultiplier <= MAX_SAFE_INTEGER &&
    u.defMultiplier <= MAX_SAFE_INTEGER
  }

  /** `rawUpgradeToUpgrade`: five multipliers, unscaled. */
  function RawUpgradeToUpgrade(u: RawUpgrade): (r: Result<Upgrade, DecodeError>)
    ensures r.Ok? <==> UpgradeWordsFit(u)
    ensures r.Err? ==> r.error == NumberOverflow
    ensures r.Ok? ==> EncodeUpgrade(r.value) == u
  {
    var energyCapMultiplier :- ToNumber(u.popCapMultiplier);
    var energyGroMultiplier :- ToNumber(u.popGroMultiplier);
    var rangeMultiplier :- ToNumber(u.rangeMultiplier);
    var speedMultiplier :- ToNumber(u.speedMultiplier);
    var defMultiplier :- ToNumber(u.defMultiplier);
    Ok(Upgrade(energyCapMultiplier, energyGroMultiplier, rangeMultiplier, speedMultiplier, defMultiplier))
  }

  /** The tuple an upgrade stands for. */
  function EncodeUpgrade(u: Upgrade): RawUpgrade {
    RawUpgrade(u.energyCapMultiplier, u.energyGroMultiplier, u.rangeMultiplier, u.speedMultiplier,
               u.defMultiplier)
  }

  function RawBranchToBranch(branch: seq<RawUpgrade>): Result<seq<Upgrade>, DecodeError> {
    MapAll(branch, RawUpgradeToUpgrade)
  }

  /** `rawUpgradesInfoToUpgradesInfo`: the same map applied inside every branch. The shape
      (three branches of four) is not checked; the result has the shape of the input. */
  function RawUpgradesInfoToUpgradesInfo(info: seq<seq<RawUpgrade>>): (r: Result<seq<seq<Upgrade>>, DecodeError>)
    ensures r.Ok? <==> forall i, j :: 0 <= i < |info| && 0 <= j < |info[i]| ==> UpgradeWordsFit(info[i][j])
    ensures r.Err? ==> r.error == NumberOverflow
    ensures r.Ok? ==>
              |r.value| == |info| &&
              forall i :: 0 <= i < |info| ==>
                |r.value[i]| == |info[i]| &&
                forall j :: 0 <= j < |info[i]| ==> EncodeUpgrade(r.value[i][j]) == info[i][j]
  {
    var r := MapAll(info, RawBranchToBranch);
    if r.Err? then
      BranchErrorIsOverflow(info, r.error);
      r
    else
      r
  }

  /** Whatever branch fails, it fails on an upgrade that overflows. */
  lemma BranchErrorIsOverflow(info: seq<seq<RawUpgrade>>, e: DecodeError)
    requires exists i :: 0 <= i < |info| && RawBranchToBranch(info[i]) == Err(e)
    ensures e == NumberOverflow
  {
    var i :| 0 <= i < |info| && RawBranchToBranch(info[i]) == Err(e);
    var j :| 0 <= j < |info[i]| && RawUpgradeToUpgrade(info[i][j]) == Err(e);
  }

  // ---------------------------------------------------------------- constants

  /** One row of `getDefaultStats()`, indices 0 to 8: the defaults of one planet level. */
  datatype RawDefaults = RawDefaults(
    levelLabel: string,         // 0, `label`
    populationCap: nat,         // 1
    populationGrowth: nat,      // 2
    range: nat,                 // 3
    speed: nat,                 // 4
    defense: nat,               // 5
    silverGrowth: nat,          // 6
    silverCap: nat,             // 7
    barbarianPercentage: nat)   // 8

  /** What `getConstants` reads from the contract, in the order it reads it. */
  datatype RawConstants = RawConstants(
    timeFactorHundredths: nat,
    perlinThreshold1: nat,
    perlinThreshold2: nat,
    planetRarity: nat,
    silverRarity1: nat,
    silverRarity2: nat,
    silverRarity3: nat,
    upgrades: seq<seq<RawUpgrade>>,
    defaults: seq<RawDefaults>,
    planetLevelThresholds: seq<nat>,
    planetCumulativeRarities: seq<nat>)

  /** `ContractConstants`. The default tables are per planet level. */
  datatype ContractConstants = ContractConstants(
    timeFactorHundredths: nat,
    perlinThreshold1: nat,
    perlinThreshold2: nat,
    planetRarity: nat,
    silverRarity1: nat,
    silverRarity2: nat,
    silverRarity3: nat,
    defaultPopulationCap: seq<real>,
    defaultPopulationGrowth: seq<real>,
    defaultSilverCap: seq<real>,
    defaultSilverGrowth: seq<real>,
    defaultRange: seq<nat>,
    defaultSpeed: seq<nat>,
    defaultDefense: seq<nat>,
    defaultBarbarianPercentage: seq<nat>,
    planetLevelThresholds: seq<nat>,
    planetCumulativeRarities: seq<nat>,
    upgrades: seq<seq<Upgrade>>)

  predicate DefaultsWordsFit(d: RawDefaults) {
    d.populationCap <= MAX_SAFE_INTEGER && d.populationGrowth <= MAX_SAFE_INTEGER &&
    d.range <= MAX_SAFE_INTEGER && d.speed <= MAX_SAFE_INTEGER && d.defense <= MAX_SAFE_INTEGER &&
    d.silverGrowth <= MAX_SAFE_INTEGER && d.silverCap <= MAX_SAFE_INTEGER &&
    d.barbarianPercentage <= MAX_SAFE_INTEGER
  }

  /** Every word `getConstants` converts fits a JavaScript number. */
  predicate ConstantsWordsFit(raw: RawConstants) {
    raw.timeFactorHundredths <= MAX_SAFE_INTEGER && raw.perlinThreshold1 <= MAX_SAFE_INTEGER &&
    raw.perlinThreshold2 <= MAX_SAFE_INTEGER && raw.planetRarity <= MAX_SAFE_INTEGER &&
    raw.silverRarity1 <= MAX_SAFE_INTEGER && raw.silverRarity2 <= MAX_SAFE_INTEGER &&
    raw.silverRarity3 <= MAX_SAFE_INTEGER &&
    (forall i, j :: 0 <= i < |raw.upgrades| && 0 <= j < |raw.upgrades[i]| ==> UpgradeWordsFit(raw.upgrades[i][j])) &&
    (forall i :: 0 <= i < |raw.defaults| ==> DefaultsWordsFit(raw.defaults[i])) &&
    (forall i :: 0 <= i < |raw.planetLevelThresholds| ==> raw.planetLevelThresholds[i] <= MAX_SAFE_INTEGER) &&
    (forall i :: 0 <= i < |raw.planetCumulativeRarities| ==> raw.planetCumulativeRarities[i] <= MAX_SAFE_INTEGER)
  }

  function PopulationCapOf(d: RawDefaults): Result<real, DecodeError> { ToScaled(d.populationCap) }
  function PopulationGrowthOf(d: RawDefaults): Result<real, DecodeError> { ToScaled(d.populationGrowth) }
  function RangeOf(d: RawDefaults): Result<nat, DecodeError> { ToNumber(d.range) }
  function SpeedOf(d: RawDefaults): Result<nat, DecodeError> { ToNumber(d.speed) }
  function DefenseOf(d: RawDefaults): Result<nat, DecodeError> { ToNumber(d.defense) }
  function SilverGrowthOf(d: RawDefaults): Result<real, DecodeError> { ToScaled(d.silverGrowth) }
  function SilverCapOf(d: RawDefaults): Result<real, DecodeError> { ToScaled(d.silverCap) }
  function BarbarianPercentageOf(d: RawDefaults): Result<nat, DecodeError> { ToNumber(d.barbarianPercentage) }

  /** `xs.map((x) => x.toNumber())`. */
  function ToNumbers(xs: seq<nat>): (r: Result<seq<nat>, DecodeError>)
    ensures r.Ok? <==> forall i :: 0 <= i < |xs| ==> xs[i] <= MAX_SAFE_INTEGER
    ensures r.Ok? ==> r.value == xs
    ensures r.Err? ==> r.error == NumberOverflow
  {
    var r := MapAll(xs, ToNumber);
    if r.Ok? then
      assert r.value == xs;
      r
    else
      r
  }

  /** The eight per-level tables of the defaults, one `map` over the rows each. */
  datatype DefaultTables = DefaultTables(
    populationCap: seq<real>,
    populationGrowth: seq<real>,
    range: seq<nat>,
    speed: seq<nat>,
    defense: seq<nat>,
    silverGrowth: seq<real>,
    silverCap: seq<real>,
    barbarianPercentage: seq<nat>)

  /** Every table has one entry per level. */
  predicate TablesShaped(t: DefaultTables, levels: nat) {
    |t.populationCap| == levels && |t.populationGrowth| == levels &&
    |t.range| == levels && |t.speed| == levels && |t.defense| == levels &&
    |t.silverGrowth| == levels && |t.silverCap| == levels && |t.barbarianPercentage| == levels
  }

  /** The defaults row of one level that the tables stand for. */
  function RowOf(t: DefaultTables, level: nat, levelLabel: string): RawDefaults
    requires level < |t.range| && TablesShaped(t, |t.range|)
  {
    RawDefaults(levelLabel, Unscale(t.populationCap[level]), Unscale(t.populationGrowth[level]),
                t.range[level], t.speed[level], t.defense[level],
                Unscale(t.silverGrowth[level]), Unscale(t.silverCap[level]),
                t.barbarianPercentage[level])
  }

  /** The defaults mapping of `getConstants`: fields 1, 2, 6 and 7 divided by the precision,
      fields 3, 4, 5 and 8 as they are, field 0 dropped. */
  function DecodeDefaults(ds: seq<RawDefaults>): (r: Result<DefaultTables, DecodeError>)
    ensures r.Ok? <==> forall i :: 0 <= i < |ds| ==> DefaultsWordsFit(ds[i])
    ensures r.Err? ==> r.error == NumberOverflow
    ensures r.Ok? ==>
              TablesShaped(r.value, |ds|) &&
              forall level :: 0 <= level < |ds| ==> RowOf(r.value, level, ds[level].levelLabel) == ds[level]
    ensures r.Ok? ==>
              forall level :: 0 <= level < |ds| ==>
                r.value.populationCap[level] == Scale(ds[level].populationCap) &&
                r.value.populationGrowth[level] == Scale(ds[level].populationGrowth) &&
                r.value.silverGrowth[level] == Scale(ds[level].silverGrowth) &&
                r.value.silverCap[level] == Scale(ds[level].silverCap)
    ensures r.Ok? ==>
              forall level :: 0 <= level < |ds| ==>
                r.value.range[level] == ds[level].range && r.value.speed[level] == ds[level].speed &&
                r.value.defense[level] == ds[level].defense &&
                r.value.barbarianPercentage[level] == ds[level].barbarianPercentage
  {
    var populationCap :- MapAll(ds, PopulationCapOf);
    var populationGrowth :- MapAll(ds, PopulationGrowthOf);
    var range :- MapAll(ds, RangeOf);
    var speed :- MapAll(ds, SpeedOf);
    var defense :- MapAll(ds, DefenseOf);
    var silverGrowth :- MapAll(ds, SilverGrowthOf);
    var silverCap :- MapAll(ds, SilverCapOf);
    var barbarianPercentage :- MapAll(ds, BarbarianPercentageOf);
    var t := DefaultTables(populationCap, populationGrowth, range, speed, defense, silverGrowth, silverCap,
                           barbarianPercentage);
    DefaultRowsLossless(ds, t);
    Ok(t)
  }

  lemma DefaultRowsLossless(ds: seq<RawDefaults>, t: DefaultTables)
    requires TablesShaped(t, |ds|)
    requires forall i :: 0 <= i < |ds| ==>
               PopulationCapOf(ds[i]) == Ok(t.populationCap[i]) && PopulationGrowthOf(ds[i]) == Ok(t.populationGrowth[i]) &&
               RangeOf(ds[i]) == Ok(t.range[i]) && SpeedOf(ds[i]) == Ok(t.speed[i]) &&
               DefenseOf(ds[i]) == Ok(t.defense[i]) && SilverGrowthOf(ds[i]) == Ok(t.silverGrowth[i]) &&
               SilverCapOf(ds[i]) == Ok(t.silverCap[i]) && BarbarianPercentageOf(ds[i]) == Ok(t.barbarianPercentage[i])
    ensures forall level :: 0 <= level < |ds| ==> RowOf(t, level, ds[level].levelLabel) == ds[level]
  {
    forall level | 0 <= level < |ds|
      ensures RowOf(t, level, ds[level].levelLabel) == ds[level]
    {
      var d := ds[level];
      ScaleLossless(d.populationCap);
      ScaleLossless(d.populationGrowth);
      ScaleLossless(d.silverGrowth);
      ScaleLossless(d.silverCap);
    }
  }

  /** The constants object `getConstants` builds from what it read. */
  function GetConstants(raw: RawConstants): (r: Result<ContractConstants, DecodeError>)
    ensures r.Ok? <==> ConstantsWordsFit(raw)
    ensures r.Err? ==> r.error == NumberOverflow
  {
    var timeFactorHundredths :- ToNumber(raw.timeFactorHundredths);
    var perlinThreshold1 :- ToNumber(raw.perlinThreshold1);
    var perlinThreshold2 :- ToNumber(raw.perlinThreshold2);
    var planetRarity :- ToNumber(raw.planetRarity);
    var silverRarity1 :- ToNumber(raw.silverRarity1);
    var silverRarity2 :- ToNumber(raw.silverRarity2);
    var silverRarity3 :- ToNumber(raw.silverRarity3);
    var upgrades :- RawUpgradesInfoToUpgradesInfo(raw.upgrades);
    var t :- DecodeDefaults(raw.defaults);
    var planetLevelThresholds :- ToNumbers(raw.planetLevelThresholds);
    var planetCumulativeRarities :- ToNumbers(raw.planetCumulativeRarities);
    Ok(ContractConstants(timeFactorHundredths, perlinThreshold1, perlinThreshold2, planetRarity,
                         silverRarity1, silverRarity2, silverRarity3,
                         t.populationCap, t.populationGrowth, t.silverCap, t.silverGrowth,
                         t.range, t.speed, t.defense, t.barbarianPercentage,
                         planetLevelThresholds, planetCumulativeRarities, upgrades))
  }

  /** The per-level tables of a constants object. */
  function TablesOf(c: ContractConstants): DefaultTables {
    DefaultTables(c.defaultPopulationCap, c.defaultPopulationGrowth, c.defaultRange, c.defaultSpeed,
                  c.defaultDefense, c.defaultSilverGrowth, c.defaultSilverCap, c.defaultBarbarianPercentage)
  }

  /** When every word fits, each conversion succeeds and the constants are assembled from
      their values. */
  lemma ConstantsAssembled(raw: RawConstants)
    requires ConstantsWordsFit(raw)
    ensures RawUpgradesInfoToUpgradesInfo(raw.upgrades).Ok? && DecodeDefaults(raw.defaults).Ok?
    ensures var t := DecodeDefaults(raw.defaults).value;
            GetConstants(raw) ==
              Ok(ContractConstants(raw.timeFactorHundredths, raw.perlinThreshold1, raw.perlinThreshold2, raw.planetRarity,
                                   raw.silverRarity1, raw.silverRarity2, raw.silverRarity3,
                                   t.populationCap, t.populationGrowth, t.silverCap, t.silverGrowth,
                                   t.range, t.speed, t.defense, t.barbarianPercentage,
                                   raw.planetLevelThresholds, raw.planetCumulativeRarities,
                                   RawUpgradesInfoToUpgradesInfo(raw.upgrades).value))
  {
    assert ToNumber(raw.timeFactorHundredths) == Ok(raw.timeFactorHundredths);
    assert ToNumber(raw.perlinThreshold1) == Ok(raw.perlinThreshold1);
    assert ToNumber(raw.perlinThreshold2) == Ok(raw.perlinThreshold2);
    assert ToNumber(raw.planetRarity) == Ok(raw.planetRarity);
    assert ToNumber(raw.silverRarity1) == Ok(raw.silverRarity1);
    assert ToNumber(raw.silverRarity2) == Ok(raw.silverRarity2);
    assert ToNumber(raw.silverRarity3) == Ok(raw.silverRarity3);
    assert ToNumbers(raw.planetLevelThresholds) == Ok(raw.planetLevelThresholds);
    assert ToNumbers(raw.planetCumulativeRarities) == Ok(raw.planetCumulativeRarities);
  }

  /** `getConstants` keeps every scalar, every threshold and rarity, and every entry of the
      defaults table but its label, at the level it came from, with the four currency tables
      holding each word divided by the precision; the upgrade table keeps its shape and every
      multiplier. */
  lemma ConstantsLossless(raw: RawConstants)
    requires GetConstants(raw).Ok?
    ensures var c := GetConstants(raw).value;
            c.timeFactorHundredths == raw.timeFactorHundredths && c.perlinThreshold1 == raw.perlinThreshold1 &&
            c.perlinThreshold2 == raw.perlinThreshold2 && c.planetRarity == raw.planetRarity &&
            c.silverRarity1 == raw.silverRarity1 && c.silverRarity2 == raw.silverRarity2 &&
            c.silverRarity3 == raw.silverRarity3 &&
            c.planetLevelThresholds == raw.planetLevelThresholds &&
            c.planetCumulativeRarities == raw.planetCumulativeRarities &&
            TablesShaped(TablesOf(c), |raw.defaults|) &&
            (forall level :: 0 <= level < |raw.defaults| ==>
               RowOf(TablesOf(c), level, raw.defaults[level].levelLabel) == raw.defaults[level]) &&
            |c.upgrades| == |raw.upgrades| &&
            (forall i :: 0 <= i < |raw.upgrades| ==> |c.upgrades[i]| == |raw.upgrades[i]|) &&
            (forall i, j :: 0 <= i < |raw.upgrades| && 0 <= j < |raw.upgrades[i]| ==>
               j < |c.upgrades[i]| && EncodeUpgrade(c.upgrades[i][j]) == raw.upgrades[i][j])
    ensures var c := GetConstants(raw).value;
            forall level :: 0 <= level < |raw.defaults| ==>
              c.defaultPopulationCap[level] == Scale(raw.defaults[level].populationCap) &&
              c.defaultPopulationGrowth[level] == Scale(raw.defaults[level].populationGrowth) &&
              c.defaultSilverGrowth[level] == Scale(raw.defaults[level].silverGrowth) &&
              c.defaultSilverCap[level] == Scale(raw.defaults[level].silverCap)
  {
    ConstantsAssembled(raw);
  }

  /** The labels of the defaults table do not influence the constants. */
  lemma ConstantsIgnoreLabels(raw: RawConstants, labels: seq<string>)
    requires |labels| == |raw.defaults|
    ensures GetConstants(raw.(defaults := Relabel(raw.defaults, labels))) == GetConstants(raw)
  {
    var relabelled := raw.(defaults := Relabel(raw.defaults, labels));
    DefaultsIgnoreLabels(raw.defaults, labels);
    forall i | 0 <= i < |raw.defaults|
      ensures DefaultsWordsFit(relabelled.defaults[i]) == DefaultsWordsFit(raw.defaults[i])
    {
    }
    assert ConstantsWordsFit(relabelled) == ConstantsWordsFit(raw);
    if ConstantsWordsFit(raw) {
      ConstantsAssembled(raw);
      ConstantsAssembled(relabelled);
    }
  }

  function Relabel(ds: seq<RawDefaults>, labels: seq<string>): (r: seq<RawDefaults>)
    requires |labels| == |ds|
    ensures |r| == |ds| && forall i :: 0 <= i < |ds| ==> r[i] == ds[i].(levelLabel := labels[i])
  {
    seq(|ds|, i requires 0 <= i < |ds| => ds[i].(levelLabel := labels[i]))
  }

  lemma DefaultsIgnoreLabels(ds: seq<RawDefaults>, labels: seq<string>)
    requires |labels| == |ds|
    ensures DecodeDefaults(Relabel(ds, labels)) == DecodeDefaults(ds)
  {
    var es := Relabel(ds, labels);
    MapAllPointwise(ds, es, PopulationCapOf);
    MapAllPointwise(ds, es, PopulationGrowthOf);
    MapAllPointwise(ds, es, RangeOf);
    MapAllPointwise(ds, es, SpeedOf);
    MapAllPointwise(ds, es, DefenseOf);
    MapAllPointwise(ds, es, SilverGrowthOf);
    MapAllPointwise(ds, es, SilverCapOf);
    MapAllPointwise(ds, es, BarbarianPercentageOf);
  }

  lemma {:induction false} MapAllPointwise<B>(xs: seq<RawDefaults>, ys: seq<RawDefaults>, f: RawDefaults -> Result<B, DecodeError>)
    requires |xs| == |ys| && forall i :: 0 <= i < |xs| ==> f(xs[i]) == f(ys[i])
    ensures MapAll(xs, f) == MapAll(ys, f)
  {
    if |xs| > 0 {
      MapAllPointwise(xs[1..], ys[1..], f);
    }
  }
}
