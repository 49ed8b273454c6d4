/** The read side of the `Contract` facade: the bulk loaders `getPlayers`, `getPlanets` and
    `getAllArrivals` over paged contract calls, and the point reads at one block. */
module Facade {
  import opened Wrappers
  import opened Numerals
  import opened Identifiers
  import opened BulkGetter
  import opened Decoders

  /** How an asynchronous read ends: with a value, by throwing, or never. */
  datatype Completion<T> = Returns(value: T) | Throws(error: DecodeError) | NeverSettles

  /** Page sizes the loaders hand to the bulk getter. */
  const PLAYERS_PAGE: nat := 200
  const PLANET_IDS_PAGE: nat := 2000
  const EXTENDED_INFO_PAGE: nat := 1000
  const PLANETS_PAGE: nat := 1000
  const ARRIVALS_PAGE: nat := 1000

  /** A contract call post-processed inside the getter's own promise: if the processing
      throws, the promise rejects and the bulk getter sees a failed call. */
  function Through<A, B>(a: Attempt<A>, f: A -> Result<B, DecodeError>): (b: Attempt<B>)
    ensures a.Threw? ==> b.Threw?
    ensures a.Returned? ==> (b.Returned? <==> forall i :: 0 <= i < |a.items| ==> f(a.items[i]).Ok?)
    ensures b.Returned? ==>
              a.Returned? && |b.items| == |a.items| &&
              forall i :: 0 <= i < |a.items| ==> f(a.items[i]) == Ok(b.items[i])
  {
    match a
    case Threw => Threw
    case Returned(xs) =>
      match MapAll(xs, f)
      case Ok(ys) => Returned(ys)
      case Err(_) => Threw
  }

  function ThroughAll<A, B>(attempts: seq<Attempt<A>>, f: A -> Result<B, DecodeError>): (bs: seq<Attempt<B>>)
    ensures |bs| == |attempts| && forall k :: 0 <= k < |attempts| ==> bs[k] == Through(attempts[k], f)
  {
    seq(|attempts|, k requires 0 <= k < |attempts| => Through(attempts[k], f))
  }

  /** A page holding one entry the processing rejects counts as a failed call, and is retried. */
  lemma RejectedEntryRetries<A, B>(xs: seq<A>, f: A -> Result<B, DecodeError>, i: nat)
    requires i < |xs| && f(xs[i]).Err?
    ensures Yield(Through(Returned(xs), f)) == []
  {
  }

  // ------------------------------------------------------------------ players

  datatype Player = Player(address: EthAddress)

  /** The callback `getPlayers` hands to the bulk getter: `bulkGetPlayers(start, end)` with
      every entry passed through `address`. */
  function PlayerPages(bulkGetPlayers: (nat, nat) -> seq<Attempt<string>>): (nat, nat) -> seq<Attempt<EthAddress>> {
    (start: nat, end: nat) => ThroughAll(bulkGetPlayers(start, end), CanonicalAddress)
  }

  /** The loop of `getPlayers`: one entry per distinct address, keyed by its canonical form. */
  method BuildPlayerMap(playerIds: seq<EthAddress>) returns (playerMap: map<EthAddress, Player>)
    ensures playerMap.Keys == set a | a in playerIds
    ensures forall a :: a in playerMap ==> playerMap[a] == Player(a)
  {
    playerMap := map[];
    var i := 0;
    while i < |playerIds|
      invariant 0 <= i <= |playerIds|
      invariant playerMap.Keys == set a | a in playerIds[..i]
      invariant forall a :: a in playerMap ==> playerMap[a] == Player(a)
    {
      var key := Address(playerIds[i]);
      AddressFixedPoint(playerIds[i]);
      AddressAccepts(playerIds[i]);
      assert key == Ok(playerIds[i]);
      playerMap := playerMap[key.value := Player(key.value)];
      assert playerIds[..i + 1] == playerIds[..i] + [playerIds[i]];
      i := i + 1;
    }
    assert playerIds[..i] == playerIds;
  }

  /** `getPlayers`: page through the `nPlayers` addresses 200 at a time, then key each by
      itself. None when a page never yields. */
  method GetPlayers(nPlayers: nat, bulkGetPlayers: (nat, nat) -> seq<Attempt<string>>)
    returns (r: Option<map<EthAddress, Player>>)
    ensures r.Some? <==> Aggregate(nPlayers, PLAYERS_PAGE, PlayerPages(bulkGetPlayers)).Some?
    ensures r.Some? ==>
              var playerIds := Aggregate(nPlayers, PLAYERS_PAGE, PlayerPages(bulkGetPlayers)).value;
              r.value.Keys == (set a | a in playerIds) && forall a :: a in r.value ==> r.value[a] == Player(a)
  {
    var playerIds := AggregateBulkGetter(nPlayers, PLAYERS_PAGE, PlayerPages(bulkGetPlayers));
    if playerIds.None? {
      return None;
    }
    var playerMap := BuildPlayerMap(playerIds.value);
    return Some(playerMap);
  }

  /** When the pages list exactly the addresses `listed`, the map has one entry for each of
      them and no other. */
  lemma PlayersOfListing(nPlayers: nat, bulkGetPlayers: (nat, nat) -> seq<Attempt<string>>, listed: seq<EthAddress>)
    requires |listed| == nPlayers
    requires ServesExactly(PlayerPages(bulkGetPlayers), Ranges(nPlayers, PLAYERS_PAGE), listed)
    ensures Aggregate(nPlayers, PLAYERS_PAGE, PlayerPages(bulkGetPlayers)) == Some(listed)
  {
    AggregateExact(nPlayers, PLAYERS_PAGE, PlayerPages(bulkGetPlayers), listed);
  }

  // ------------------------------------------------------------------ planets

  /** Index `i` of the three parallel lists holds a planet: `!!rawPlanets[i] && !!rawPlanetsExtendedInfo[i]`. */
  predicate Present(raws: seq<RawPlanet>, exts: seq<RawPlanetExtendedInfo>, i: nat) {
    i < |raws| && i < |exts|
  }

  /** A planet decoder from the id word `planetIds[i]` and the two tuples. */
  type PlanetDecoder = (nat, RawPlanet, RawPlanetExtendedInfo) -> Result<Planet, DecodeError>

  /** The decoder `getPlanets` uses: `rawPlanetToObject(planetIds[i].toString(), ...)`. */
  function DecodePlanet(id: nat, raw: RawPlanet, ext: RawPlanetExtendedInfo): Result<Planet, DecodeError> {
    RawPlanetToObject(DecText(id), raw, ext)
  }

  /** The decoder files each planet it builds under the id it was given. */
  ghost predicate KeysById(decode: PlanetDecoder) {
    forall n: nat, raw: RawPlanet, ext: RawPlanetExtendedInfo ::
      decode(n, raw, ext).Ok? ==> Value(decode(n, raw, ext).value.locationId, 16) == n
  }

  lemma RawPlanetToObjectKeysById()
    ensures KeysById(DecodePlanet)
  {
    forall n: nat, raw: RawPlanet, ext: RawPlanetExtendedInfo | DecodePlanet(n, raw, ext).Ok?
      ensures Value(DecodePlanet(n, raw, ext).value.locationId, 16) == n
    {
      LocationIdOfWord(n);
    }
  }

  /** What iteration `i` of the `getPlanets` loop does: skip (None), throw, or build a
      planet from position `i` of all three lists. A missing id throws, as
      `planetIds[i].toString()` does on `undefined`. */
  function PlanetAt(decode: PlanetDecoder, ids: seq<nat>, raws: seq<RawPlanet>, exts: seq<RawPlanetExtendedInfo>, i: nat)
    : Option<Result<Planet, DecodeError>>
  {
    if !Present(raws, exts, i) then None
    else if i >= |ids| then Some(Err(UndefinedValue))
    else Some(decode(ids[i], raws[i], exts[i]))
  }

  /** The planet map after the first `k` iterations, or the error one of them threw. Later
      entries overwrite earlier ones with the same id, as `Map.set` does; every planet is filed
      under its own id. */
  function PlanetsUpTo(decode: PlanetDecoder, ids: seq<nat>, raws: seq<RawPlanet>, exts: seq<RawPlanetExtendedInfo>, k: nat)
    : (r: Result<map<LocationId, Planet>, DecodeError>)
    ensures r.Ok? ==> forall loc :: loc in r.value ==> r.value[loc].locationId == loc
  {
    if k == 0 then Ok(map[])
    else
      var planets :- PlanetsUpTo(decode, ids, raws, exts, k - 1);
      match PlanetAt(decode, ids, raws, exts, k - 1)
      case None => Ok(planets)
      case Some(Err(e)) => Err(e)
      case Some(Ok(planet)) => Ok(planets[planet.locationId := planet])
  }

  lemma {:induction false} PlanetsErrPersists(decode: PlanetDecoder, ids: seq<nat>, raws: seq<RawPlanet>,
                                              exts: seq<RawPlanetExtendedInfo>, k: nat, k': nat)
    requires k <= k' && PlanetsUpTo(decode, ids, raws, exts, k).Err?
    ensures PlanetsUpTo(decode, ids, raws, exts, k') == PlanetsUpTo(decode, ids, raws, exts, k)
    decreases k' - k
  {
    if k < k' {
      PlanetsErrPersists(decode, ids, raws, exts, k + 1, k');
    }
  }

  /** Iteration `n` of the fold from the map after `n` iterations. */
  lemma PlanetsNext(decode: PlanetDecoder, ids: seq<nat>, raws: seq<RawPlanet>, exts: seq<RawPlanetExtendedInfo>,
                    n: nat, planets: map<LocationId, Planet>)
    requires PlanetsUpTo(decode, ids, raws, exts, n) == Ok(planets)
    ensures !Present(raws, exts, n) ==> PlanetsUpTo(decode, ids, raws, exts, n + 1) == Ok(planets)
    ensures Present(raws, exts, n) && n >= |ids| ==> PlanetsUpTo(decode, ids, raws, exts, n + 1) == Err(UndefinedValue)
    ensures Present(raws, exts, n) && n < |ids| && decode(ids[n], raws[n], exts[n]).Err? ==>
              PlanetsUpTo(decode, ids, raws, exts, n + 1) == Err(decode(ids[n], raws[n], exts[n]).error)
    ensures Present(raws, exts, n) && n < |ids| && decode(ids[n], raws[n], exts[n]).Ok? ==>
              var planet := decode(ids[n], raws[n], exts[n]).value;
              PlanetsUpTo(decode, ids, raws, exts, n + 1) == Ok(planets[planet.locationId := planet])
  {
  }

  /** The loop of `getPlanets` over `nPlanets` indices. */
  method AssemblePlanets(decode: PlanetDecoder, nPlanets: nat, planetIds: seq<nat>, rawPlanets: seq<RawPlanet>,
                         rawPlanetsExtendedInfo: seq<RawPlanetExtendedInfo>)
    returns (r: Result<map<LocationId, Planet>, DecodeError>)
    ensures r == PlanetsUpTo(decode, planetIds, rawPlanets, rawPlanetsExtendedInfo, nPlanets)
  {
    var planets: map<LocationId, Planet> := map[];
    var i := 0;
    while i < nPlanets
      invariant 0 <= i <= nPlanets
      invariant PlanetsUpTo(decode, planetIds, rawPlanets, rawPlanetsExtendedInfo, i) == Ok(planets)
    {
      PlanetsNext(decode, planetIds, rawPlanets, rawPlanetsExtendedInfo, i, planets);
      if i < |rawPlanets| && i < |rawPlanetsExtendedInfo| {
        if i >= |planetIds| {
          PlanetsErrPersists(decode, planetIds, rawPlanets, rawPlanetsExtendedInfo, i + 1, nPlanets);
          return Err(UndefinedValue);
        }
        var planet := decode(planetIds[i], rawPlanets[i], rawPlanetsExtendedInfo[i]);
        if planet.Err? {
          PlanetsErrPersists(decode, planetIds, rawPlanets, rawPlanetsExtendedInfo, i + 1, nPlanets);
          return Err(planet.error);
        }
        planets := planets[planet.value.locationId := planet.value];
      }
      i := i + 1;
    }
    return Ok(planets);
  }

  /** What `getPlanets` settles to. It never settles exactly when one of its three bulk reads
      never resolves; a map it returns files every planet under its own id. */
  function PlanetsOutcome(nPlanets: nat, bulkGetPlanetIds: (nat, nat) -> seq<Attempt<nat>>,
                          bulkGetPlanetsExtendedInfo: (nat, nat) -> seq<Attempt<RawPlanetExtendedInfo>>,
                          bulkGetPlanets: (nat, nat) -> seq<Attempt<RawPlanet>>)
    : (r: Completion<map<LocationId, Planet>>)
    ensures r.NeverSettles? <==>
              Aggregate(nPlanets, PLANET_IDS_PAGE, bulkGetPlanetIds).None? ||
              Aggregate(nPlanets, EXTENDED_INFO_PAGE, bulkGetPlanetsExtendedInfo).None? ||
              Aggregate(nPlanets, PLANETS_PAGE, bulkGetPlanets).None?
    ensures r.Returns? ==> forall loc :: loc in r.value ==> r.value[loc].locationId == loc
  {
    match Aggregate(nPlanets, PLANET_IDS_PAGE, bulkGetPlanetIds)
    case None => NeverSettles
    case Some(ids) =>
      match Aggregate(nPlanets, EXTENDED_INFO_PAGE, bulkGetPlanetsExtendedInfo)
      case None => NeverSettles
      case Some(exts) =>
        match Aggregate(nPlanets, PLANETS_PAGE, bulkGetPlanets)
        case None => NeverSettles
        case Some(raws) => Settle(PlanetsUpTo(DecodePlanet, ids, raws, exts, nPlanets))
  }

  function Settle<T>(r: Result<T, DecodeError>): Completion<T> {
    match r
    case Ok(v) => Returns(v)
    case Err(e) => Throws(e)
  }

  /** `getPlanets`: the ids 2000 at a time, the extended infos and the planets 1000 at a
      time, then the loop over the three lists. */
  method GetPlanets(nPlanets: nat, bulkGetPlanetIds: (nat, nat) -> seq<Attempt<nat>>,
                    bulkGetPlanetsExtendedInfo: (nat, nat) -> seq<Attempt<RawPlanetExtendedInfo>>,
                    bulkGetPlanets: (nat, nat) -> seq<Attempt<RawPlanet>>)
    returns (r: Completion<map<LocationId, Planet>>)
    ensures r == PlanetsOutcome(nPlanets, bulkGetPlanetIds, bulkGetPlanetsExtendedInfo, bulkGetPlanets)
  {
    var planetIds := AggregateBulkGetter(nPlanets, PLANET_IDS_PAGE, bulkGetPlanetIds);
    if planetIds.None? {
      return NeverSettles;
    }
    var rawPlanetsExtendedInfo := AggregateBulkGetter(nPlanets, EXTENDED_INFO_PAGE, bulkGetPlanetsExtendedInfo);
    if rawPlanetsExtendedInfo.None? {
      return NeverSettles;
    }
    var rawPlanets := AggregateBulkGetter(nPlanets, PLANETS_PAGE, bulkGetPlanets);
    if rawPlanets.None? {
      return NeverSettles;
    }
    var planets := AssemblePlanets(DecodePlanet, nPlanets, planetIds.value, rawPlanets.value, rawPlanetsExtendedInfo.value);
    if planets.Err? {
      return Throws(planets.error);
    }
    return Returns(planets.value);
  }

  /** `getPlanets` throws exactly when some index within `k` holds a planet whose id is
      missing or whose decoding throws, and then with the error of the first such index. */
  lemma {:induction false} PlanetsThrowIff(decode: PlanetDecoder, ids: seq<nat>, raws: seq<RawPlanet>,
                                           exts: seq<RawPlanetExtendedInfo>, k: nat)
    ensures PlanetsUpTo(decode, ids, raws, exts, k).Err? <==>
              exists i :: 0 <= i < k && PlanetAt(decode, ids, raws, exts, i).Some? &&
                PlanetAt(decode, ids, raws, exts, i).value.Err?
    ensures PlanetsUpTo(decode, ids, raws, exts, k).Err? ==>
              exists i :: 0 <= i < k &&
                PlanetAt(decode, ids, raws, exts, i) == Some(Err(PlanetsUpTo(decode, ids, raws, exts, k).error)) &&
                forall j :: 0 <= j < i ==>
                  PlanetAt(decode, ids, raws, exts, j).None? || PlanetAt(decode, ids, raws, exts, j).value.Ok?
  {
    if k > 0 {
      var n := k - 1;
      PlanetsThrowIff(decode, ids, raws, exts, n);
      var prev := PlanetsUpTo(decode, ids, raws, exts, n);
      var at := PlanetAt(decode, ids, raws, exts, n);
      if prev.Err? {
        PlanetsErrPersists(decode, ids, raws, exts, n, k);
      } else {
        PlanetsNext(decode, ids, raws, exts, n, prev.value);
        if at.Some? && at.value.Err? {
          assert PlanetsUpTo(decode, ids, raws, exts, k) == Err(at.value.error);
          assert forall j :: 0 <= j < n ==>
                   PlanetAt(decode, ids, raws, exts, j).None? || PlanetAt(decode, ids, raws, exts, j).value.Ok?;
        } else {
          assert PlanetsUpTo(decode, ids, raws, exts, k).Ok?;
        }
      }
    }
  }

  /** The planet built at a present index whose id exists. */
  function PlanetBuiltAt(decode: PlanetDecoder, ids: seq<nat>, raws: seq<RawPlanet>, exts: seq<RawPlanetExtendedInfo>, i: nat)
    : Result<Planet, DecodeError>
    requires Present(raws, exts, i) && i < |ids|
  {
    decode(ids[i], raws[i], exts[i])
  }

  /** One iteration of the fold, when the map after it exists: a present index had an id and
      its planet decoded and was set under its own id; an absent one changed nothing. */
  lemma PlanetsStep(decode: PlanetDecoder, ids: seq<nat>, raws: seq<RawPlanet>, exts: seq<RawPlanetExtendedInfo>, n: nat)
    requires PlanetsUpTo(decode, ids, raws, exts, n + 1).Ok?
    ensures PlanetsUpTo(decode, ids, raws, exts, n).Ok?
    ensures Present(raws, exts, n) ==>
              n < |ids| && PlanetBuiltAt(decode, ids, raws, exts, n).Ok? &&
              var p := PlanetBuiltAt(decode, ids, raws, exts, n).value;
              PlanetsUpTo(decode, ids, raws, exts, n + 1).value == PlanetsUpTo(decode, ids, raws, exts, n).value[p.locationId := p]
    ensures !Present(raws, exts, n) ==>
              PlanetsUpTo(decode, ids, raws, exts, n + 1).value == PlanetsUpTo(decode, ids, raws, exts, n).value
  {
  }

  /** When `getPlanets` returns a map, every present index within `k` had an id and its
      planet decoded. */
  lemma {:induction false} PlanetsAllDecoded(decode: PlanetDecoder, ids: seq<nat>, raws: seq<RawPlanet>,
                                             exts: seq<RawPlanetExtendedInfo>, k: nat)
    requires PlanetsUpTo(decode, ids, raws, exts, k).Ok?
    ensures forall i :: 0 <= i < k && Present(raws, exts, i) ==>
              i < |ids| && PlanetBuiltAt(decode, ids, raws, exts, i).Ok?
  {
    if k > 0 {
      var n := k - 1;
      PlanetsStep(decode, ids, raws, exts, n);
      PlanetsAllDecoded(decode, ids, raws, exts, n);
      forall i | 0 <= i < k && Present(raws, exts, i)
        ensures i < |ids| && PlanetBuiltAt(decode, ids, raws, exts, i).Ok?
      {
        if i < n {
          assert i < |ids| && PlanetBuiltAt(decode, ids, raws, exts, i).Ok?;
        }
      }
    }
  }

  /** No present index after `i` and before `k` carries the id of index `i`. */
  predicate LastWithId(ids: seq<nat>, raws: seq<RawPlanet>, exts: seq<RawPlanetExtendedInfo>, i: nat, k: nat)
    requires i < |ids|
  {
    forall j :: i < j < k && Present(raws, exts, j) && j < |ids| ==> ids[j] != ids[i]
  }

  lemma BuiltKeyedById(decode: PlanetDecoder, ids: seq<nat>, raws: seq<RawPlanet>, exts: seq<RawPlanetExtendedInfo>, i: nat)
    requires KeysById(decode)
    requires Present(raws, exts, i) && i < |ids| && PlanetBuiltAt(decode, ids, raws, exts, i).Ok?
    ensures Value(PlanetBuiltAt(decode, ids, raws, exts, i).value.locationId, 16) == ids[i]
  {
  }

  /** Every planet built at a present index is in the map under its own id, and is the entry
      there unless a later present index has the same id. */
  lemma {:induction false} PlanetsComplete(decode: PlanetDecoder, ids: seq<nat>, raws: seq<RawPlanet>,
                                           exts: seq<RawPlanetExtendedInfo>, k: nat)
    requires KeysById(decode)
    requires PlanetsUpTo(decode, ids, raws, exts, k).Ok?
    ensures var planets := PlanetsUpTo(decode, ids, raws, exts, k).value;
            forall i :: 0 <= i < k && Present(raws, exts, i) && i < |ids| && PlanetBuiltAt(decode, ids, raws, exts, i).Ok? ==>
              var q := PlanetBuiltAt(decode, ids, raws, exts, i).value;
              q.locationId in planets && (LastWithId(ids, raws, exts, i, k) ==> planets[q.locationId] == q)
  {
    if k > 0 {
      var n := k - 1;
      PlanetsStep(decode, ids, raws, exts, n);
      PlanetsComplete(decode, ids, raws, exts, n);
      var prev := PlanetsUpTo(decode, ids, raws, exts, n).value;
      var planets := PlanetsUpTo(decode, ids, raws, exts, k).value;
      forall i | 0 <= i < k && Present(raws, exts, i) && i < |ids| && PlanetBuiltAt(decode, ids, raws, exts, i).Ok?
        ensures var q := PlanetBuiltAt(decode, ids, raws, exts, i).value;
                q.locationId in planets && (LastWithId(ids, raws, exts, i, k) ==> planets[q.locationId] == q)
      {
        var q := PlanetBuiltAt(decode, ids, raws, exts, i).value;
        if i == n {
        } else if Present(raws, exts, n) {
          var p := PlanetBuiltAt(decode, ids, raws, exts, n).value;
          if LastWithId(ids, raws, exts, i, k) {
            assert LastWithId(ids, raws, exts, i, n);
            BuiltKeyedById(decode, ids, raws, exts, i);
            BuiltKeyedById(decode, ids, raws, exts, n);
            assert p.locationId != q.locationId;
          }
        } else {
          if LastWithId(ids, raws, exts, i, k) {
            assert LastWithId(ids, raws, exts, i, n);
          }
        }
      }
    }
  }

  /** Every entry of the map is the planet built at some present index holding that id. */
  lemma {:induction false} PlanetsProvenance(decode: PlanetDecoder, ids: seq<nat>, raws: seq<RawPlanet>,
                                             exts: seq<RawPlanetExtendedInfo>, k: nat)
    requires KeysById(decode)
    requires PlanetsUpTo(decode, ids, raws, exts, k).Ok?
    ensures var planets := PlanetsUpTo(decode, ids, raws, exts, k).value;
            forall loc :: loc in planets ==>
              exists i :: 0 <= i < k && Present(raws, exts, i) && i < |ids| && Value(loc, 16) == ids[i] &&
                PlanetBuiltAt(decode, ids, raws, exts, i) == Ok(planets[loc]) && planets[loc].locationId == loc
  {
    if k > 0 {
      var n := k - 1;
      PlanetsStep(decode, ids, raws, exts, n);
      PlanetsProvenance(decode, ids, raws, exts, n);
      var prev := PlanetsUpTo(decode, ids, raws, exts, n).value;
      var planets := PlanetsUpTo(decode, ids, raws, exts, k).value;
      if Present(raws, exts, n) {
        var p := PlanetBuiltAt(decode, ids, raws, exts, n).value;
        BuiltKeyedById(decode, ids, raws, exts, n);
        forall loc | loc in planets
          ensures exists i :: 0 <= i < k && Present(raws, exts, i) && i < |ids| && Value(loc, 16) == ids[i] &&
                    PlanetBuiltAt(decode, ids, raws, exts, i) == Ok(planets[loc]) && planets[loc].locationId == loc
        {
          if loc != p.locationId {
            var i :| 0 <= i < n && Present(raws, exts, i) && i < |ids| && Value(loc, 16) == ids[i] &&
                     PlanetBuiltAt(decode, ids, raws, exts, i) == Ok(prev[loc]) && prev[loc].locationId == loc;
            assert planets[loc] == prev[loc];
          } else {
            assert planets[loc] == p;
          }
        }
      }
    }
  }

  /** Positional correlation: when the three loaders are served exactly the lists `ids`,
      `exts` and `raws` of `nPlanets` entries each, `getPlanets` settles to the fold over
      those lists, so the planet under an id is built from the tuples at that id's index. */
  lemma PlanetsOfListings(nPlanets: nat, bulkGetPlanetIds: (nat, nat) -> seq<Attempt<nat>>,
                          bulkGetPlanetsExtendedInfo: (nat, nat) -> seq<Attempt<RawPlanetExtendedInfo>>,
                          bulkGetPlanets: (nat, nat) -> seq<Attempt<RawPlanet>>,
                          ids: seq<nat>, exts: seq<RawPlanetExtendedInfo>, raws: seq<RawPlanet>)
    requires |ids| == nPlanets && |exts| == nPlanets && |raws| == nPlanets
    requires ServesExactly(bulkGetPlanetIds, Ranges(nPlanets, PLANET_IDS_PAGE), ids)
    requires ServesExactly(bulkGetPlanetsExtendedInfo, Ranges(nPlanets, EXTENDED_INFO_PAGE), exts)
    requires ServesExactly(bulkGetPlanets, Ranges(nPlanets, PLANETS_PAGE), raws)
    ensures PlanetsOutcome(nPlanets, bulkGetPlanetIds, bulkGetPlanetsExtendedInfo, bulkGetPlanets) ==
              Settle(PlanetsUpTo(DecodePlanet, ids, raws, exts, nPlanets))
  {
    AggregateExact(nPlanets, PLANET_IDS_PAGE, bulkGetPlanetIds, ids);
    AggregateExact(nPlanets, EXTENDED_INFO_PAGE, bulkGetPlanetsExtendedInfo, exts);
    AggregateExact(nPlanets, PLANETS_PAGE, bulkGetPlanets, raws);
  }

  // ----------------------------------------------------------------- arrivals

  /** `rawArrivals.map(rawArrivalToObject)`. */
  function DecodeArrivals(rawArrivals: seq<RawArrival>): (r: Result<seq<QueuedArrival>, DecodeError>)
    ensures r.Ok? <==> forall i :: 0 <= i < |rawArrivals| ==> RawArrivalToObject(rawArrivals[i]).Ok?
    ensures r.Ok? ==>
              |r.value| == |rawArrivals| &&
              forall i :: 0 <= i < |rawArrivals| ==> RawArrivalToObject(rawArrivals[i]) == Ok(r.value[i])
  {
    MapAll(rawArrivals, RawArrivalToObject)
  }

  /** The callback `getAllArrivals` hands to the bulk getter: one list of raw arrivals per
      planet, each decoded inside the promise. */
  function ArrivalPages(bulkGetPlanetArrivals: (nat, nat) -> seq<Attempt<seq<RawArrival>>>)
    : (nat, nat) -> seq<Attempt<seq<QueuedArrival>>>
  {
    (start: nat, end: nat) => ThroughAll(bulkGetPlanetArrivals(start, end), DecodeArrivals)
  }

  /** What `getAllArrivals` resolves to: the per-planet lists of all pages, concatenated. It
      resolves exactly when every page of 1000 planets eventually returns a non-empty list
      whose every entry decodes. */
  function AllArrivals(nPlanets: nat, bulkGetPlanetArrivals: (nat, nat) -> seq<Attempt<seq<RawArrival>>>)
    : (r: Option<seq<QueuedArrival>>)
    ensures var rs := Ranges(nPlanets, ARRIVALS_PAGE);
            r.Some? <==> forall i :: 0 <= i < |rs| ==> PageOutcome(ArrivalPages(bulkGetPlanetArrivals)(rs[i].0, rs[i].1)).Some?
  {
    AggregateResolves(nPlanets, ARRIVALS_PAGE, ArrivalPages(bulkGetPlanetArrivals));
    match Aggregate(nPlanets, ARRIVALS_PAGE, ArrivalPages(bulkGetPlanetArrivals))
    case None => None
    case Some(perPlanet) => Some(Flatten(perPlanet))
  }

  /** `getAllArrivals`: page through the planets 1000 at a time and flatten twice, once for
      the pages and once for the planets. */
  method GetAllArrivals(nPlanets: nat, bulkGetPlanetArrivals: (nat, nat) -> seq<Attempt<seq<RawArrival>>>)
    returns (r: Option<seq<QueuedArrival>>)
    ensures r == AllArrivals(nPlanets, bulkGetPlanetArrivals)
  {
    var arrivalsUnflattened := AggregateBulkGetter(nPlanets, ARRIVALS_PAGE, ArrivalPages(bulkGetPlanetArrivals));
    if arrivalsUnflattened.None? {
      return None;
    }
    return Some(Flatten(arrivalsUnflattened.value));
  }

  /** When the pages are served exactly one decoded list per planet, the result lists every
      planet's arrivals, planet by planet and in order. */
  lemma AllArrivalsOfListing(nPlanets: nat, bulkGetPlanetArrivals: (nat, nat) -> seq<Attempt<seq<RawArrival>>>,
                             perPlanet: seq<seq<QueuedArrival>>)
    requires |perPlanet| == nPlanets
    requires ServesExactly(ArrivalPages(bulkGetPlanetArrivals), Ranges(nPlanets, ARRIVALS_PAGE), perPlanet)
    ensures AllArrivals(nPlanets, bulkGetPlanetArrivals) == Some(Flatten(perPlanet))
  {
    AggregateExact(nPlanets, ARRIVALS_PAGE, ArrivalPages(bulkGetPlanetArrivals), perPlanet);
  }

  /** Concatenation keeps every list whole and in order: list `i` sits right after the lists
      before it. */
  lemma {:induction false} FlattenSlice<T>(xss: seq<seq<T>>, i: nat)
    requires i < |xss|
    ensures |Flatten(xss[..i])| + |xss[i]| <= |Flatten(xss)|
    ensures Flatten(xss)[|Flatten(xss[..i])|..|Flatten(xss[..i])| + |xss[i]|] == xss[i]
    decreases |xss|
  {
    var init := xss[..|xss| - 1];
    assert Flatten(xss) == Flatten(init) + xss[|xss| - 1];
    if i == |xss| - 1 {
      assert xss[..i] == init;
    } else {
      assert init[..i] == xss[..i];
      FlattenSlice(init, i);
      assert Flatten(xss)[..|Flatten(init)|] == Flatten(init);
    }
  }

  // -------------------------------------------------------------- point reads

  /** The contract's storage at one block, as the point reads see it. */
  datatype ChainView = ChainView(
    planets: nat -> RawPlanet,                           // `planets(rawLoc)`
    planetsExtendedInfo: nat -> RawPlanetExtendedInfo,   // `planetsExtendedInfo(rawLoc)`
    planetArrivals: nat -> RawArrival,                   // `planetArrivals(arrivalId)`
    getPlanetArrivals: string -> seq<RawArrival>)        // `getPlanetArrivals(decimal id)`

  /** `getPlanet`: both tuples of the location, decoded under its decimal text. */
  function GetPlanet(view: ChainView, rawLoc: nat): (r: Result<Planet, DecodeError>)
    ensures r.Ok? <==>
              rawLoc < LOCATION_ID_UB && CanonicalAddress(view.planets(rawLoc).owner).Ok? &&
              PlanetWordsFit(view.planets(rawLoc), view.planetsExtendedInfo(rawLoc))
    ensures rawLoc >= LOCATION_ID_UB ==> r == Err(InvalidLocation)
    ensures r.Ok? ==> LocationIdToBigNumber(r.value.locationId) == rawLoc
  {
    LocationIdOfWord(rawLoc);
    LocationIdFromDecStrSpec(DecText(rawLoc));
    RawPlanetToObject(DecText(rawLoc), view.planets(rawLoc), view.planetsExtendedInfo(rawLoc))
  }

  /** Reading a planet by `locationIdToBigNumber` of its id yields a planet with that id. */
  lemma PlanetReadKeepsId(view: ChainView, loc: LocationId)
    requires GetPlanet(view, LocationIdToBigNumber(loc)).Ok?
    ensures GetPlanet(view, LocationIdToBigNumber(loc)).value.locationId == loc
  {
    var n := LocationIdToBigNumber(loc);
    var p := GetPlanet(view, n).value;
    FixedWidthOfValue(p.locationId, 16);
    FixedWidthOfValue(loc, 16);
  }

  /** `getArrival`. Its declared result admits null, but `rawArrivalToObject` always builds an
      object or throws, so a read that returns never returns null. */
  function GetArrival(view: ChainView, arrivalId: nat): (r: Result<Option<QueuedArrival>, DecodeError>)
    ensures r.Ok? <==> RawArrivalToObject(view.planetArrivals(arrivalId)).Ok?
    ensures r.Ok? ==> r.value == Some(RawArrivalToObject(view.planetArrivals(arrivalId)).value)
  {
    var arrival :- RawArrivalToObject(view.planetArrivals(arrivalId));
    Ok(Some(arrival))
  }

  /** `getArrivalsForPlanet`: the arrivals the contract lists under the planet's decimal id. */
  function GetArrivalsForPlanet(view: ChainView, planet: Planet): (r: Result<seq<QueuedArrival>, DecodeError>)
    ensures var key := LocationIdToDecStr(planet.locationId);
            IsCanonical(key, 10) && Value(key, 10) == Value(planet.locationId, 16) &&
            (r.Ok? <==> forall i :: 0 <= i < |view.getPlanetArrivals(key)| ==> RawArrivalToObject(view.getPlanetArrivals(key)[i]).Ok?) &&
            (r.Ok? ==>
               |r.value| == |view.getPlanetArrivals(key)| &&
               forall i :: 0 <= i < |r.value| ==> RawArrivalToObject(view.getPlanetArrivals(key)[i]) == Ok(r.value[i]))
  {
    DecodeArrivals(view.getPlanetArrivals(LocationIdToDecStr(planet.locationId)))
  }
}
