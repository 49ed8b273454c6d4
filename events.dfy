/** The notification handlers `setupEventListeners` installs: each contract event makes point
    reads at the block it was mined in and re-emits typed API events in a fixed order. */
module EventBridge {
  import opened Wrappers
  import opened Identifiers
  import opened Decoders
  import opened Facade

  /** The API events the handlers emit (part of `ContractsAPIEvent`). */
  datatype ApiEvent =
    | PlayerInit(player: Player)
    | PlanetUpdate(planet: Planet, arrivals: seq<QueuedArrival>)
    | RadiusUpdated

  /** How a handler run ends: it ran to the end, returned early on a null arrival, or threw. */
  datatype Ending = Completed | Dropped | Failed(error: DecodeError)

  /** The events a handler emitted, in order, and how it ended. */
  datatype Emission = Emission(events: seq<ApiEvent>, ending: Ending)

  /** The point reads a handler makes at its event's block. */
  datatype Reads = Reads(
    arrival: nat -> Result<Option<QueuedArrival>, DecodeError>,      // `getArrival(id, block)`
    planet: nat -> Result<Planet, DecodeError>,                     // `getPlanet(rawLoc, block)`
    arrivalsFor: Planet -> Result<seq<QueuedArrival>, DecodeError>) // `getArrivalsForPlanet(planet, block)`

  /** The contract events the facade subscribes to, each with the block it was mined in. */
  datatype Notification =
    | PlayerInitialized(player: string, locRaw: nat, blockNumber: nat)
    | ArrivalQueued(arrivalId: nat, blockNumber: nat)
    | PlanetUpgraded(location: nat, blockNumber: nat)
    | BoughtHat(location: nat, blockNumber: nat)

  /** `PlayerInitialized`: announce the player, then the home planet with its arrivals, then
      the radius. A read that throws ends the run after what was already emitted. */
  function OnPlayerInitialized(player: string, locRaw: nat, chain: Reads): (e: Emission)
    ensures e.ending.Completed? <==>
              CanonicalAddress(player).Ok? && chain.planet(locRaw).Ok? &&
              chain.arrivalsFor(chain.planet(locRaw).value).Ok?
    ensures e.ending.Completed? ==>
              e.events == [PlayerInit(Player(CanonicalAddress(player).value)),
                           PlanetUpdate(chain.planet(locRaw).value, chain.arrivalsFor(chain.planet(locRaw).value).value),
                           RadiusUpdated]
    ensures e.ending.Failed? ==>
              if CanonicalAddress(player).Err? then e == Emission([], Failed(InvalidAddress))
              else e.events == [PlayerInit(Player(CanonicalAddress(player).value))]
    ensures !e.ending.Dropped?
  {
    match CanonicalAddress(player)
    case Err(err) => Emission([], Failed(err))
    case Ok(a) =>
      var announced := [PlayerInit(Player(a))];
      match chain.planet(locRaw)
      case Err(err) => Emission(announced, Failed(err))
      case Ok(newPlanet) =>
        match chain.arrivalsFor(newPlanet)
        case Err(err) => Emission(announced, Failed(err))
        case Ok(arrivals) => Emission(announced + [PlanetUpdate(newPlanet, arrivals), RadiusUpdated], Completed)
  }

  /** `ArrivalQueued`: read the arrival; on null emit nothing; otherwise read both endpoint
      planets (origin first), then update the destination, then the origin, then the radius. */
  function OnArrivalQueued(arrivalId: nat, chain: Reads): (e: Emission)
    ensures e.ending.Dropped? <==> arrivalId <= MAX_SAFE_INTEGER && chain.arrival(arrivalId) == Ok(None)
    ensures e.ending.Dropped? ==> e.events == []
    ensures !e.ending.Completed? ==> |e.events| <= 1
    ensures |e.events| == 1 ==> e.events[0].PlanetUpdate? && e.ending.Failed?
    ensures e.ending.Completed? ==>
              arrivalId <= MAX_SAFE_INTEGER && chain.arrival(arrivalId).Ok? && chain.arrival(arrivalId).value.Some? &&
              var arrival := chain.arrival(arrivalId).value.value;
              chain.planet(LocationIdToBigNumber(arrival.fromPlanet)).Ok? &&
              chain.planet(LocationIdToBigNumber(arrival.toPlanet)).Ok? &&
              var fromPlanet := chain.planet(LocationIdToBigNumber(arrival.fromPlanet)).value;
              var toPlanet := chain.planet(LocationIdToBigNumber(arrival.toPlanet)).value;
              chain.arrivalsFor(toPlanet).Ok? && chain.arrivalsFor(fromPlanet).Ok? &&
              e.events == [PlanetUpdate(toPlanet, chain.arrivalsFor(toPlanet).value),
                           PlanetUpdate(fromPlanet, chain.arrivalsFor(fromPlanet).value),
                           RadiusUpdated]
  {
    match ToNumber(arrivalId)
    case Err(err) => Emission([], Failed(err))
    case Ok(id) =>
      match chain.arrival(id)
      case Err(err) => Emission([], Failed(err))
      case Ok(None) => Emission([], Dropped)
      case Ok(Some(arrival)) =>
        match chain.planet(LocationIdToBigNumber(arrival.fromPlanet))
        case Err(err) => Emission([], Failed(err))
        case Ok(fromPlanet) =>
          match chain.planet(LocationIdToBigNumber(arrival.toPlanet))
          case Err(err) => Emission([], Failed(err))
          case Ok(toPlanet) =>
            match chain.arrivalsFor(toPlanet)
            case Err(err) => Emission([], Failed(err))
            case Ok(toArrivals) =>
              var first := [PlanetUpdate(toPlanet, toArrivals)];
              match chain.arrivalsFor(fromPlanet)
              case Err(err) => Emission(first, Failed(err))
              case Ok(fromArrivals) =>
                Emission(first + [PlanetUpdate(fromPlanet, fromArrivals), RadiusUpdated], Completed)
  }

  /** `PlanetUpgraded` and `BoughtHat` share one body: the planet with its arrivals, once. */
  function OnPlanetRefresh(location: nat, chain: Reads): (e: Emission)
    ensures e.ending.Completed? <==> chain.planet(location).Ok? && chain.arrivalsFor(chain.planet(location).value).Ok?
    ensures e.ending.Completed? ==>
              e.events == [PlanetUpdate(chain.planet(location).value, chain.arrivalsFor(chain.planet(location).value).value)]
    ensures !e.ending.Completed? ==> e.events == [] && e.ending.Failed?
  {
    match chain.planet(location)
    case Err(err) => Emission([], Failed(err))
    case Ok(planet) =>
      match chain.arrivalsFor(planet)
      case Err(err) => Emission([], Failed(err))
      case Ok(arrivals) => Emission([PlanetUpdate(planet, arrivals)], Completed)
  }

  /** The block a notification was mined in. */
  function BlockOf(n: Notification): nat {
    n.blockNumber
  }

  /** The listener a notification reaches, run against the reads at its block. A completed
      run emits three events for `PlayerInitialized` and `ArrivalQueued` and one for the
      refresh events; a run that throws leaves at most one; only `ArrivalQueued` drops, and
      then it emits nothing. */
  function Handle(n: Notification, ledger: nat -> Reads): (e: Emission)
    ensures e.ending.Completed? ==> |e.events| == (if n.PlanetUpgraded? || n.BoughtHat? then 1 else 3)
    ensures e.ending.Failed? ==> |e.events| <= 1
    ensures e.ending.Dropped? ==> n.ArrivalQueued? && e.events == []
  {
    var chain := ledger(BlockOf(n));
    match n
    case PlayerInitialized(player, locRaw, _) => OnPlayerInitialized(player, locRaw, chain)
    case ArrivalQueued(arrivalId, _) => OnArrivalQueued(arrivalId, chain)
    case PlanetUpgraded(location, _) => OnPlanetRefresh(location, chain)
    case BoughtHat(location, _) => OnPlanetRefresh(location, chain)
  }

  /** Every planet update among `events` carries the arrivals `chain` reads for that planet. */
  predicate CarriesOwnArrivals(events: seq<ApiEvent>, chain: Reads) {
    forall k :: 0 <= k < |events| && events[k].PlanetUpdate? ==>
      chain.arrivalsFor(events[k].planet) == Ok(events[k].arrivals)
  }

  lemma PlayerInitializedCarries(player: string, locRaw: nat, chain: Reads)
    ensures CarriesOwnArrivals(OnPlayerInitialized(player, locRaw, chain).events, chain)
  {
  }

  /** The first event an `ArrivalQueued` run emits, when it emits any, is the destination's
      update; only a completed run emits more. */
  lemma ArrivalQueuedFirst(arrivalId: nat, chain: Reads)
    requires OnArrivalQueued(arrivalId, chain).events != []
    ensures arrivalId <= MAX_SAFE_INTEGER && chain.arrival(arrivalId).Ok? && chain.arrival(arrivalId).value.Some?
    ensures var arrival := chain.arrival(arrivalId).value.value;
            chain.planet(LocationIdToBigNumber(arrival.toPlanet)).Ok? &&
            var toPlanet := chain.planet(LocationIdToBigNumber(arrival.toPlanet)).value;
            chain.arrivalsFor(toPlanet).Ok? &&
            OnArrivalQueued(arrivalId, chain).events[0] == PlanetUpdate(toPlanet, chain.arrivalsFor(toPlanet).value)
    ensures |OnArrivalQueued(arrivalId, chain).events| > 1 ==> OnArrivalQueued(arrivalId, chain).ending.Completed?
  {
    var e := OnArrivalQueued(arrivalId, chain);
    var arrival := chain.arrival(arrivalId).value.value;
    var fromRead := chain.planet(LocationIdToBigNumber(arrival.fromPlanet));
    var toRead := chain.planet(LocationIdToBigNumber(arrival.toPlanet));
    assert fromRead.Ok? && toRead.Ok? && chain.arrivalsFor(toRead.value).Ok?;
    assert e.events[0] == PlanetUpdate(toRead.value, chain.arrivalsFor(toRead.value).value);
  }

  lemma ArrivalQueuedCarries(arrivalId: nat, chain: Reads)
    ensures CarriesOwnArrivals(OnArrivalQueued(arrivalId, chain).events, chain)
  {
    if OnArrivalQueued(arrivalId, chain).events != [] {
      ArrivalQueuedFirst(arrivalId, chain);
    }
  }

  lemma PlanetRefreshCarries(location: nat, chain: Reads)
    ensures CarriesOwnArrivals(OnPlanetRefresh(location, chain).events, chain)
  {
  }

  /** Every planet update carries the arrivals read for that very planet at the event's block. */
  lemma UpdatesCarryOwnArrivals(n: Notification, ledger: nat -> Reads)
    ensures CarriesOwnArrivals(Handle(n, ledger).events, ledger(BlockOf(n)))
  {
    var chain := ledger(BlockOf(n));
    match n
    case PlayerInitialized(player, locRaw, _) => PlayerInitializedCarries(player, locRaw, chain);
    case ArrivalQueued(arrivalId, _) => ArrivalQueuedCarries(arrivalId, chain);
    case PlanetUpgraded(location, _) => PlanetRefreshCarries(location, chain);
    case BoughtHat(location, _) => PlanetRefreshCarries(location, chain);
  }

  /** Every planet update among `events` carries a planet that `chain` reads at some location. */
  ghost predicate UpdatesRead(events: seq<ApiEvent>, chain: Reads) {
    forall k :: 0 <= k < |events| && events[k].PlanetUpdate? ==>
      exists loc :: chain.planet(loc) == Ok(events[k].planet)
  }

  lemma PlayerInitializedReads(player: string, locRaw: nat, chain: Reads)
    ensures UpdatesRead(OnPlayerInitialized(player, locRaw, chain).events, chain)
  {
    var e := OnPlayerInitialized(player, locRaw, chain);
    if |e.events| > 1 {
      assert chain.planet(locRaw) == Ok(e.events[1].planet);
    }
  }

  lemma ArrivalQueuedReads(arrivalId: nat, chain: Reads)
    ensures UpdatesRead(OnArrivalQueued(arrivalId, chain).events, chain)
  {
    var e := OnArrivalQueued(arrivalId, chain);
    if e.events != [] {
      ArrivalQueuedFirst(arrivalId, chain);
      var arrival := chain.arrival(arrivalId).value.value;
      assert chain.planet(LocationIdToBigNumber(arrival.toPlanet)) == Ok(e.events[0].planet);
      if |e.events| > 1 {
        assert chain.planet(LocationIdToBigNumber(arrival.fromPlanet)) == Ok(e.events[1].planet);
      }
    }
  }

  lemma PlanetRefreshReads(location: nat, chain: Reads)
    ensures UpdatesRead(OnPlanetRefresh(location, chain).events, chain)
  {
    var e := OnPlanetRefresh(location, chain);
    if e.events != [] {
      assert chain.planet(location) == Ok(e.events[0].planet);
    }
  }

  /** Every updated planet is the result of a planet read at the event's block. */
  lemma UpdatesReadAtBlock(n: Notification, ledger: nat -> Reads)
    ensures UpdatesRead(Handle(n, ledger).events, ledger(BlockOf(n)))
  {
    var chain := ledger(BlockOf(n));
    match n
    case PlayerInitialized(player, locRaw, _) => PlayerInitializedReads(player, locRaw, chain);
    case ArrivalQueued(arrivalId, _) => ArrivalQueuedReads(arrivalId, chain);
    case PlanetUpgraded(location, _) => PlanetRefreshReads(location, chain);
    case BoughtHat(location, _) => PlanetRefreshReads(location, chain);
  }

  /** `RadiusUpdated` appears only as the last event of a completed run, and a completed run
      is three events ending with it. */
  predicate RadiusClosesRun(e: Emission) {
    (forall k :: 0 <= k < |e.events| && e.events[k] == RadiusUpdated ==> k == |e.events| - 1 && e.ending.Completed?) &&
    (e.ending.Completed? ==> |e.events| == 3 && e.events[2] == RadiusUpdated)
  }

  lemma PlayerInitializedRadius(player: string, locRaw: nat, chain: Reads)
    ensures RadiusClosesRun(OnPlayerInitialized(player, locRaw, chain))
  {
  }

  lemma ArrivalQueuedRadius(arrivalId: nat, chain: Reads)
    ensures RadiusClosesRun(OnArrivalQueued(arrivalId, chain))
  {
    var e := OnArrivalQueued(arrivalId, chain);
    if !e.ending.Completed? {
      assert |e.events| <= 1;
      assert |e.events| == 1 ==> e.events[0].PlanetUpdate?;
    }
  }

  lemma PlanetRefreshRadius(location: nat, chain: Reads)
    ensures forall k :: 0 <= k < |OnPlanetRefresh(location, chain).events| ==>
              OnPlanetRefresh(location, chain).events[k] != RadiusUpdated
  {
  }

  /** `RadiusUpdated` is emitted at most once, only as the last event of a completed
      `PlayerInitialized` or `ArrivalQueued` run, and always by such a run. */
  lemma RadiusUpdatedClosesRun(n: Notification, ledger: nat -> Reads)
    ensures var e := Handle(n, ledger);
            forall k :: 0 <= k < |e.events| && e.events[k] == RadiusUpdated ==>
              k == |e.events| - 1 && e.ending.Completed? && (n.PlayerInitialized? || n.ArrivalQueued?)
    ensures var e := Handle(n, ledger);
            e.ending.Completed? && (n.PlayerInitialized? || n.ArrivalQueued?) ==>
              |e.events| == 3 && e.events[2] == RadiusUpdated
  {
    var chain := ledger(BlockOf(n));
    match n
    case PlayerInitialized(player, locRaw, _) => PlayerInitializedRadius(player, locRaw, chain);
    case ArrivalQueued(arrivalId, _) => ArrivalQueuedRadius(arrivalId, chain);
    case PlanetUpgraded(location, _) => PlanetRefreshRadius(location, chain);
    case BoughtHat(location, _) => PlanetRefreshRadius(location, chain);
  }

  /** `PlayerInit` is only ever the first event, announcing the canonical address. */
  lemma PlayerInitializedAnnounces(player: string, locRaw: nat, chain: Reads)
    ensures var e := OnPlayerInitialized(player, locRaw, chain);
            forall k :: 0 <= k < |e.events| && e.events[k].PlayerInit? ==>
              k == 0 && CanonicalAddress(player) == Ok(e.events[k].player.address)
  {
  }

  lemma ArrivalQueuedSilent(arrivalId: nat, chain: Reads)
    ensures forall k :: 0 <= k < |OnArrivalQueued(arrivalId, chain).events| ==>
              !OnArrivalQueued(arrivalId, chain).events[k].PlayerInit?
  {
    var e := OnArrivalQueued(arrivalId, chain);
    if !e.ending.Completed? {
      assert |e.events| <= 1;
      assert |e.events| == 1 ==> e.events[0].PlanetUpdate?;
    }
  }

  lemma PlanetRefreshSilent(location: nat, chain: Reads)
    ensures forall k :: 0 <= k < |OnPlanetRefresh(location, chain).events| ==>
              !OnPlanetRefresh(location, chain).events[k].PlayerInit?
  {
  }

  /** A run emits at most three events, and a dropped run emits none. `PlayerInit` is emitted
      only by `PlayerInitialized`, only as the first event, and announces the canonical form
      of the notified address. */
  lemma EmissionBounds(n: Notification, ledger: nat -> Reads)
    ensures |Handle(n, ledger).events| <= 3
    ensures Handle(n, ledger).ending.Dropped? ==> n.ArrivalQueued? && Handle(n, ledger).events == []
    ensures var e := Handle(n, ledger);
            forall k :: 0 <= k < |e.events| && e.events[k].PlayerInit? ==>
              k == 0 && n.PlayerInitialized? && CanonicalAddress(n.player) == Ok(e.events[k].player.address)
  {
    var chain := ledger(BlockOf(n));
    match n
    case PlayerInitialized(player, locRaw, _) => PlayerInitializedAnnounces(player, locRaw, chain);
    case ArrivalQueued(arrivalId, _) => ArrivalQueuedSilent(arrivalId, chain);
    case PlanetUpgraded(location, _) => PlanetRefreshSilent(location, chain);
    case BoughtHat(location, _) => PlanetRefreshSilent(location, chain);
  }

  // ------------------------------------------------ the reads the facade makes

  /** The point reads of the facade over the contract's storage at one block. */
  function ReadsAt(view: ChainView): Reads {
    Reads((arrivalId: nat) => GetArrival(view, arrivalId),
          (rawLoc: nat) => GetPlanet(view, rawLoc),
          planet => GetArrivalsForPlanet(view, planet))
  }

  function ChainLedger(views: nat -> ChainView): nat -> Reads {
    (block: nat) => ReadsAt(views(block))
  }

  /** Over the facade's own reads the null guard of `ArrivalQueued` is never taken: a queued
      arrival either updates both endpoints or fails on a read that throws. */
  lemma ArrivalQueuedNeverDrops(arrivalId: nat, blockNumber: nat, views: nat -> ChainView)
    ensures !Handle(ArrivalQueued(arrivalId, blockNumber), ChainLedger(views)).ending.Dropped?
  {
    var chain := ChainLedger(views)(blockNumber);
    assert chain == ReadsAt(views(blockNumber));
  }

  /** Over the facade's chain, a completed `ArrivalQueued` run updates the arrival's
      destination and then its origin, each under its own id. */
  lemma ArrivalUpdatesEndpoints(arrivalId: nat, blockNumber: nat, views: nat -> ChainView)
    requires Handle(ArrivalQueued(arrivalId, blockNumber), ChainLedger(views)).ending.Completed?
    ensures var view := views(blockNumber);
            var arrival := GetArrival(view, arrivalId).value.value;
            var e := Handle(ArrivalQueued(arrivalId, blockNumber), ChainLedger(views));
            e.events[0].planet.locationId == arrival.toPlanet &&
            e.events[1].planet.locationId == arrival.fromPlanet
  {
    var view := views(blockNumber);
    var chain := ChainLedger(views)(blockNumber);
    assert chain == ReadsAt(view);
    ArrivalQueuedEndpointsRead(arrivalId, chain);
    var arrival := GetArrival(view, arrivalId).value.value;
    assert chain.arrival(arrivalId) == GetArrival(view, arrivalId);
    assert chain.planet(LocationIdToBigNumber(arrival.toPlanet)) == GetPlanet(view, LocationIdToBigNumber(arrival.toPlanet));
    assert chain.planet(LocationIdToBigNumber(arrival.fromPlanet)) == GetPlanet(view, LocationIdToBigNumber(arrival.fromPlanet));
    PlanetReadKeepsId(view, arrival.toPlanet);
    PlanetReadKeepsId(view, arrival.fromPlanet);
  }

  /** A completed `ArrivalQueued` run updates the planets read at the arrival's destination
      and origin, in that order. */
  lemma ArrivalQueuedEndpointsRead(arrivalId: nat, chain: Reads)
    requires OnArrivalQueued(arrivalId, chain).ending.Completed?
    ensures chain.arrival(arrivalId).Ok? && chain.arrival(arrivalId).value.Some?
    ensures var arrival := chain.arrival(arrivalId).value.value;
            var e := OnArrivalQueued(arrivalId, chain);
            |e.events| == 3 && e.events[0].PlanetUpdate? && e.events[1].PlanetUpdate? &&
            chain.planet(LocationIdToBigNumber(arrival.toPlanet)) == Ok(e.events[0].planet) &&
            chain.planet(LocationIdToBigNumber(arrival.fromPlanet)) == Ok(e.events[1].planet)
  {
  }

  /** Over the facade's chain, a completed `PlanetUpgraded` or `BoughtHat` run updates the
      planet at the notified location. */
  lemma RefreshUpdatesLocation(n: Notification, views: nat -> ChainView)
    requires n.PlanetUpgraded? || n.BoughtHat?
    requires Handle(n, ChainLedger(views)).ending.Completed?
    ensures LocationIdToBigNumber(Handle(n, ChainLedger(views)).events[0].planet.locationId) == n.location
  {
    var chain := ChainLedger(views)(BlockOf(n));
    assert chain == ReadsAt(views(BlockOf(n)));
  }
}
