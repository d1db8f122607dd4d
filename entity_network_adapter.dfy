/** `EntityNetworkAdapter`: the per-entity replication component. The engine's objects
    behind it are plain data here: the husk is an optional `Entity` record, the spawn
    registry a map, and remote procedure calls are direct method calls. */
module Networking {
  import opened Wrappers
  import opened Vectors
  import opened ServerResponses
  import opened PartStatuses
  import opened NetworkModes
  import opened PlayerIds
  import opened TractorQueues

  /** The entity core a response is sampled from and applied to: the husk on a server or
      a foreign client, or the local player's core. */
  datatype Entity = Entity(
    isShellCore: bool,
    dead: bool,
    parts: seq<Option<ShellPart>>,
    mainBullet: Option<AbilityId>,
    position: Vec3,
    velocity: Vec3,
    rotation: Vec3,
    faction: int,
    weaponGCDTimer: real,
    power: int,
    shell: real,
    core: real,
    energy: real)

  /** `TemporaryStateWrapper.CreateResponse`: a snapshot of `core`, stamped with the
      wrapper's session id; only shell cores report their power. */
  function CreateResponse(clientID: nat, core: Entity): (r: ServerResponse)
    ensures r.clientID == clientID && r.faction == core.faction
    ensures r.position == core.position && r.velocity == core.velocity && r.rotation == core.rotation
    ensures r.power == (if core.isShellCore then core.power else 0)
    ensures r.weaponGCDTimer == core.weaponGCDTimer
    ensures r.shell == core.shell && r.core == core.core && r.energy == core.energy
  {
    Make(core.position, core.velocity, core.rotation, clientID, core.faction, core.weaponGCDTimer,
         if core.isShellCore then core.power else 0, core.shell, core.core, core.energy)
  }

  /** `GetAbilityFromLocation(location, core)`: the main bullet for the origin, otherwise the
      ability of the first present part at `location` (which may have none), otherwise none. */
  function GetAbilityFromLocation(location: Vec2, core: Entity): (r: Option<AbilityId>)
    ensures location == Origin2 ==> r == core.mainBullet
    ensures location != Origin2 && (forall k :: 0 <= k < |core.parts| ==> !PartAt(core.parts[k], location)) ==>
              r == None
    ensures location != Origin2 ==>
              forall k :: (0 <= k < |core.parts| && PartAt(core.parts[k], location)
                           && forall j :: 0 <= j < k ==> !PartAt(core.parts[j], location)) ==>
                r == core.parts[k].value.ability
  {
    if location == Origin2 then core.mainBullet
    else match FindPart(core.parts, location)
      case None => None
      case Some(k) => core.parts[k].value.ability
  }

  /** Who a changed state record is applied to on a client. */
  datatype Recipient = LocalPlayer | Husk | Nobody

  /** The change handler `Start` installs: a record stamped with this client's own session id
      goes to the local player when this adapter is a player's; any other record goes to the
      husk when there is one. */
  function Route(current: ServerResponse, localClientId: nat, isPlayer: bool, huskPresent: bool): (r: Recipient)
    ensures r == LocalPlayer <==> current.clientID == localClientId && isPlayer
    ensures r == Husk <==> !(current.clientID == localClientId && isPlayer) && huskPresent
  {
    if current.clientID == localClientId && isPlayer then LocalPlayer
    else if huskPresent then Husk
    else Nobody
  }

  /** C#'s `%` on `int`, which truncates toward zero: the remainder takes the sign of the
      dividend and is smaller than the divisor in magnitude. Dafny's `%` is Euclidean, so it
      agrees with C#'s on a non-negative dividend only. */
  function CSharpRem(a: int, b: int): (r: int)
    requires b != 0
    ensures a >= 0 ==> 0 <= r < (if b > 0 then b else -b)
    ensures a <= 0 ==> -(if b > 0 then b else -b) < r <= 0
    ensures a >= 0 ==> r == a % b
    ensures a <= 0 ==> r == -((-a) % b)
  {
    if a >= 0 then a % b else -((-a) % b)
  }

  /** The publication rule of `AttemptCreateServerResponse` on a server. */
  predicate PublishGate(isPlayer: bool, serverReady: bool, dirty: bool, huskPresent: bool, shellCoreInRange: bool)
  {
    var closeToPlayer := isPlayer || !serverReady || (huskPresent && shellCoreInRange);
    (huskPresent && closeToPlayer) || !serverReady || dirty
  }

  /** The rule in closed form: publish on the first ticks before the server is ready, when
      an update was forced, or when there is a husk and it is a player's or some shell core
      is within pop-in distance of it. */
  lemma PublishGateClosedForm(isPlayer: bool, serverReady: bool, dirty: bool, huskPresent: bool, inRange: bool)
    ensures PublishGate(isPlayer, serverReady, dirty, huskPresent, inRange) <==>
              (huskPresent && (isPlayer || !serverReady || inRange)) || !serverReady || dirty
    ensures !serverReady || dirty ==> PublishGate(isPlayer, serverReady, dirty, huskPresent, inRange)
    ensures !huskPresent ==> (PublishGate(isPlayer, serverReady, dirty, huskPresent, inRange) <==> !serverReady || dirty)
  {
  }

  /** Some present shell core is in range. `shellCores` is `AIData.shellCores` as the range
      test sees them: None for a destroyed core, otherwise whether the core is within
      `POP_IN_DISTANCE` of this adapter's husk. */
  predicate SomeInRange(shellCores: seq<Option<bool>>)
  {
    exists i :: 0 <= i < |shellCores| && shellCores[i] == Some(true)
  }

  /** The loop of `AttemptCreateServerResponse` over the shell cores, which stops at the
      first one in range. */
  method AnyShellCoreInRange(shellCores: seq<Option<bool>>) returns (found: bool)
    ensures found <==> SomeInRange(shellCores)
  {
    found := false;
    var i := 0;
    while i < |shellCores|
      invariant 0 <= i <= |shellCores|
      invariant forall j :: 0 <= j < i ==> shellCores[j] != Some(true)
    {
      if shellCores[i].Some? && shellCores[i].value {
        found := true;
        break;
      }
      i := i + 1;
    }
  }

  /** One `SyncUpParts` on a pure client (`mode`), from the husk `husk` and the local player's
      core `playerCore` to `husk'` and `playerCore'`: the core it works on is the husk, or else
      the player's core for a player adapter; when that core is present and alive, exactly
      the part `PartToRemove` names is removed from it, and nothing else changes. */
  predicate PartsSynced(t: seq<PartStatus>, mode: NetworkMode, isPlayer: bool,
                        husk: Option<Entity>, playerCore: Option<Entity>,
                        husk': Option<Entity>, playerCore': Option<Entity>)
  {
    var target := if husk.Some? then husk else if isPlayer then playerCore else None;
    var acts := mode == Client && target.Some? && !target.value.dead;
    var k := if acts then PartToRemove(t, target.value.parts) else None;
    && husk'.Some? == husk.Some?
    && (if k.None? then husk' == husk && playerCore' == playerCore
        else if husk.Some?
        then husk' == Some(husk.value.(parts := RemoveAt(husk.value.parts, k.value))) && playerCore' == playerCore
        else husk' == husk && playerCore' == Some(playerCore.value.(parts := RemoveAt(playerCore.value.parts, k.value))))
  }

  class EntityNetworkAdapter {
    const mode: NetworkMode
    const ownerClientId: nat
    const localClientId: nat

    var isPlayer: bool
    var serverReady: bool
    var blueprintString: string
    /** The blueprint name, once `TryGettingEntityBlueprint` resolved it. */
    var blueprint: Option<string>
    var playerName: string
    var idToUse: string
    var state: ServerResponse
    var partStatuses: seq<PartStatus>
    var huskEntity: Option<Entity>
    var passedFaction: int
    var players: int
    var stateHandlerInstalled: bool

    var tractorID: Option<nat>
    var queuedTractor: bool
    /** The targets handed to the husk's `SetTractorTarget` by `HandleQueuedTractor`, in order. */
    var appliedTractorTargets: seq<Option<nat>>
    var dirty: bool
    /** The `clientID` of `wrapper`, or None while there is no wrapper. */
    var wrapperClientId: Option<nat>

    var stringsRequested: bool
    /** How many `RequestDataStringsServerRpc` / `RequestIDServerRpc` calls were sent. */
    var dataStringRequests: nat
    var idRequests: nat

    /** The request latch: the data-string and id requests go out together, once. */
    ghost predicate Valid()
      reads this
    {
      && dataStringRequests == (if stringsRequested then 1 else 0)
      && idRequests == dataStringRequests
    }

    predicate IsOwner()
    {
      ownerClientId == localClientId
    }

    /** The adapter as spawning leaves it. The part-status table and `serverReady` are given:
        `Awake` keeps a table that already exists, and the code that fills the table and sets
        `serverReady` is not part of this model. No wrapper exists yet. */
    constructor (mode: NetworkMode, ownerClientId: nat, localClientId: nat, isPlayer: bool,
                 serverReady: bool, blueprintString: string, partStatuses: seq<PartStatus>,
                 husk: Option<Entity>)
      ensures Valid()
      ensures this.mode == mode && this.ownerClientId == ownerClientId && this.localClientId == localClientId
      ensures this.isPlayer == isPlayer && this.serverReady == serverReady
      ensures this.blueprintString == blueprintString && this.blueprint == None
      ensures this.partStatuses == partStatuses && this.huskEntity == husk
      ensures state == DefaultResponse && passedFaction == 0 && players == 0 && !stateHandlerInstalled
      ensures tractorID == None && !queuedTractor && appliedTractorTargets == [] && !dirty
      ensures wrapperClientId == None
      ensures !stringsRequested && dataStringRequests == 0 && idRequests == 0
    {
      this.mode := mode;
      this.ownerClientId := ownerClientId;
      this.localClientId := localClientId;
      this.isPlayer := isPlayer;
      this.serverReady := serverReady;
      this.blueprintString := blueprintString;
      this.blueprint := None;
      this.playerName := "";
      this.idToUse := "";
      this.state := DefaultResponse;
      this.partStatuses := partStatuses;
      this.huskEntity := husk;
      this.passedFaction := 0;
      this.players := 0;
      this.stateHandlerInstalled := false;
      this.tractorID := None;
      this.queuedTractor := false;
      this.appliedTractorTargets := [];
      this.dirty := false;
      this.wrapperClientId := None;
      this.stringsRequested := false;
      this.dataStringRequests := 0;
      this.idRequests := 0;
    }

    /** `Start`. On a server: count a player, pick a faction for it, write the initial record
        and resolve the blueprint in `catalog`; on a client: install the change handler.
        With no factions the modulo throws (`threw`) and `Start` stops there. */
    method Start(factionCount: nat, catalog: set<string>) returns (threw: bool)
      modifies this`players, this`passedFaction, this`state, this`blueprint, this`stateHandlerInstalled
      ensures mode.IsServer() ==> players == old(players) + (if isPlayer then 1 else 0)
      ensures !mode.IsServer() ==> players == old(players)
      ensures threw <==> mode.IsServer() && old(passedFaction) == 0 && isPlayer && factionCount == 0
      ensures threw ==> passedFaction == old(passedFaction) && state == old(state) && blueprint == old(blueprint)
                        && stateHandlerInstalled == old(stateHandlerInstalled)
      ensures !threw && mode.IsServer() ==>
                passedFaction == (if IsOwner() && isPlayer then 0
                                  else if old(passedFaction) == 0 && isPlayer then CSharpRem(players, factionCount)
                                  else old(passedFaction))
                && state == InitialResponse(ownerClientId, passedFaction)
                && blueprint == (if blueprintString in catalog then Some(blueprintString) else None)
      ensures !threw && !mode.IsServer() ==>
                passedFaction == old(passedFaction) && state == old(state) && blueprint == old(blueprint)
      ensures !threw ==> stateHandlerInstalled == (old(stateHandlerInstalled) || mode.IsClient())
    {
      threw := false;
      if mode.IsServer() {
        if isPlayer {
          players := players + 1;
        }
        if passedFaction == 0 && isPlayer {
          if factionCount == 0 {
            threw := true;
            return;
          }
          passedFaction := CSharpRem(players, factionCount);
        }
        if IsOwner() && isPlayer {
          passedFaction := 0;
        }
        state := InitialResponse(ownerClientId, passedFaction);
        blueprint := if blueprintString in catalog then Some(blueprintString) else None;
      }
      if mode.IsClient() {
        stateHandlerInstalled := true;
      }
    }

    /** `OnNetworkSpawn`: the first wrapper is stamped with the owner's session id; a wrapper
        that already exists keeps its id. */
    method OnNetworkSpawn()
      modifies this`wrapperClientId
      ensures wrapperClientId == if old(wrapperClientId).None? then Some(ownerClientId) else old(wrapperClientId)
    {
      if wrapperClientId.None? {
        wrapperClientId := Some(ownerClientId);
      }
    }

    /** `ChangePositionWrapper`, as far as the wrapper's id goes: a wrapper it creates keeps
        the default `clientID` 0. */
    method ChangePositionWrapper()
      modifies this`wrapperClientId
      ensures wrapperClientId == if old(wrapperClientId).None? then Some(0) else old(wrapperClientId)
    {
      if wrapperClientId.None? {
        wrapperClientId := Some(0);
      }
    }

    /** The installed handler, run when `state` changes from `previous` to `current`. */
    method OnStateChanged(previous: ServerResponse, current: ServerResponse) returns (r: Option<Recipient>)
      ensures !stateHandlerInstalled ==> r == None
      ensures stateHandlerInstalled ==> r == Some(Route(current, localClientId, isPlayer, huskEntity.Some?))
    {
      if !stateHandlerInstalled {
        return None;
      }
      r := Some(Route(current, localClientId, isPlayer, huskEntity.Some?));
    }

    /** `OnNetworkDespawn`: a server (or a host, for a player) marks the owner as no longer
        spawned in `playerSpawned`; the husk is destroyed; a server or host forgets a player. */
    method OnNetworkDespawn(playerSpawned: map<nat, bool>) returns (spawned: map<nat, bool>)
      modifies this`huskEntity, this`players
      ensures spawned == if mode == Server || (mode == Host && isPlayer)
                         then playerSpawned[ownerClientId := false] else playerSpawned
      ensures huskEntity == None
      ensures players == old(players) - (if mode != Client && isPlayer then 1 else 0)
    {
      spawned := playerSpawned;
      if mode == Server || (mode == Host && isPlayer) {
        spawned := spawned[ownerClientId := false];
      }
      huskEntity := None;
      if mode != Client && isPlayer {
        players := players - 1;
      }
    }

    /** `GetDataStringsClientRpc`: the server's answer to the data-string request. */
    method GetDataStringsClientRpc(name: string, blueprintName: string, catalog: set<string>)
      modifies this`playerName, this`blueprintString, this`blueprint
      ensures playerName == name && blueprintString == blueprintName
      ensures blueprint == if blueprintName in catalog then Some(blueprintName) else None
    {
      playerName := name;
      blueprintString := blueprintName;
      blueprint := if blueprintName in catalog then Some(blueprintName) else None;
    }

    /** `GetIDClientRpc`: the server's answer to the id request. */
    method GetIDClientRpc(id: string)
      modifies this`idToUse
      ensures idToUse == ResolvedId(id, isPlayer, ownerClientId)
      ensures idToUse != "player"
      ensures id != "player" && !isPlayer ==> idToUse == id
    {
      idToUse := id;
      if idToUse == "player" || isPlayer {
        idToUse := PlayerName(ownerClientId);
      }
      ResolvedIdNotPlaceholder(id, isPlayer, ownerClientId);
    }

    /** `ForceNetworkVarUpdateServerRpc`: sets `dirty`, which opens the next server tick's gate;
        that tick publishes only if the rest of `PublishGate` holds and a husk and a wrapper exist. */
    method ForceNetworkVarUpdateServerRpc()
      modifies this`dirty
      ensures dirty
    {
      dirty := true;
    }

    /** `UpdateTractorClientRpc`: only a pure client queues the new target, replacing any
        target still queued. */
    method UpdateTractorClientRpc(id: nat, setNull: bool)
      modifies this`tractorID, this`queuedTractor
      ensures TractorQueue(tractorID, queuedTractor) == Receive(old(TractorQueue(tractorID, queuedTractor)), mode, id, setNull)
      ensures mode != Client ==> tractorID == old(tractorID) && queuedTractor == old(queuedTractor)
      ensures mode == Client ==> queuedTractor && tractorID == (if setNull then None else Some(id))
    {
      if mode != Client {
        return;
      }
      queuedTractor := true;
      tractorID := Some(id);
      if setNull {
        tractorID := None;
      }
    }

    /** `SetTractorID`: record the target and broadcast it to the clients (here: to this same
        adapter, which discards it unless it is a client's). */
    method SetTractorID(id: Option<nat>)
      modifies this`tractorID, this`queuedTractor
      ensures tractorID == id
      ensures queuedTractor == (old(queuedTractor) || mode == Client)
    {
      tractorID := id;
      var (wireId, setNull) := EncodeTarget(id);
      UpdateTractorClientRpc(wireId, setNull);
      TargetRoundTrip(id);
    }

    /** `HandleQueuedTractor`: resolve the queued target against the spawn registry. */
    method HandleQueuedTractor(registry: map<nat, SpawnedObject>)
      modifies this`tractorID, this`queuedTractor, this`appliedTractorTargets
      ensures var r := Resolve(old(TractorQueue(tractorID, queuedTractor)), mode,
                               huskEntity.Some? && huskEntity.value.isShellCore, registry);
              && TractorQueue(tractorID, queuedTractor) == r.queue
              && appliedTractorTargets == old(appliedTractorTargets) + (if r.applied.Some? then [r.applied.value] else [])
    {
      if queuedTractor && huskEntity.Some? && huskEntity.value.isShellCore && mode == Client {
        if tractorID.Some? && tractorID.value !in registry {
          queuedTractor := false;
          tractorID := None;
          return;
        }
        if tractorID.Some? && !HasHusk(registry[tractorID.value]) {
          return;
        }
        queuedTractor := false;
        appliedTractorTargets := appliedTractorTargets + [tractorID];
      }
    }

    /** `ServerDetachPart(part)`: mark the first entry at the part's location detached. */
    method ServerDetachPart(part: ShellPart)
      modifies this`partStatuses
      ensures partStatuses == Detach(old(partStatuses), part.location)
    {
      var i := 0;
      while i < |partStatuses|
        invariant 0 <= i <= |partStatuses|
        invariant partStatuses == old(partStatuses)
        invariant forall j :: 0 <= j < i ==> partStatuses[j].location != part.location
      {
        if partStatuses[i].location != part.location {
          i := i + 1;
          continue;
        }
        partStatuses := partStatuses[i := PartStatus(part.location, true)];
        break;
      }
    }

    /** `ServerResetParts()`: mark every entry detached. */
    method ServerResetParts()
      modifies this`partStatuses
      ensures partStatuses == ResetAll(old(partStatuses))
    {
      var i := 0;
      while i < |partStatuses|
        invariant 0 <= i <= |partStatuses| == |old(partStatuses)|
        invariant forall j :: 0 <= j < i ==> partStatuses[j] == PartStatus(old(partStatuses)[j].location, true)
        invariant forall j :: i <= j < |partStatuses| ==> partStatuses[j] == old(partStatuses)[j]
      {
        partStatuses := partStatuses[i := PartStatus(partStatuses[i].location, true)];
        i := i + 1;
      }
    }

    /** `PreliminaryStatusCheck`: ready once the blueprint is known; until then the data-string
        and id requests are sent, the first time only. */
    method PreliminaryStatusCheck() returns (ready: bool)
      requires Valid()
      modifies this`stringsRequested, this`dataStringRequests, this`idRequests
      ensures Valid()
      ensures ready <==> blueprint.Some?
      ensures stringsRequested == (old(stringsRequested) || blueprint.None?)
      ensures dataStringRequests <= 1 && idRequests <= 1
    {
      if blueprint.None? {
        if !stringsRequested {
          dataStringRequests := dataStringRequests + 1;
          idRequests := idRequests + 1;
          stringsRequested := true;
        }
        return false;
      }
      return true;
    }

    /** `AttemptCreateServerResponse`: on a server, publish a fresh record, stamped with the
        wrapper's id, when the gate is open, clearing `dirty`. With the gate open and no husk
        or no wrapper, the null dereference throws (`raised`) after `dirty` was cleared, and
        no record is written. */
    method AttemptCreateServerResponse(shellCores: seq<Option<bool>>) returns (raised: bool)
      modifies this`dirty, this`state
      ensures var inRange := SomeInRange(shellCores);
              var open := mode.IsServer() && PublishGate(isPlayer, serverReady, old(dirty), huskEntity.Some?, inRange);
              && dirty == (old(dirty) && !open)
              && raised == (open && (huskEntity.None? || wrapperClientId.None?))
              && state == (if open && !raised then CreateResponse(wrapperClientId.value, huskEntity.value)
                           else old(state))
      ensures !mode.IsServer() ==> state == old(state) && dirty == old(dirty) && !raised
    {
      raised := false;
      if mode.IsServer() {
        var closeToPlayer := isPlayer || !serverReady;
        if !closeToPlayer && huskEntity.Some? {
          closeToPlayer := AnyShellCoreInRange(shellCores);
        }
        if (huskEntity.Some? && closeToPlayer) || !serverReady || dirty {
          dirty := false;
          if wrapperClientId.None? || huskEntity.None? {
            raised := true;
            return;
          }
          state := CreateResponse(wrapperClientId.value, huskEntity.value);
        }
      }
    }

    /** `SyncUpParts`: on a pure client whose core (the husk, or else the local player's core
        for a player adapter) is present and alive, remove the part `PartToRemove` names. */
    method SyncUpParts(playerCore: Option<Entity>) returns (newPlayerCore: Option<Entity>)
      modifies this`huskEntity
      ensures PartsSynced(partStatuses, mode, isPlayer, old(huskEntity), playerCore, huskEntity, newPlayerCore)
    {
      newPlayerCore := playerCore;
      if mode != Client {
        return;
      }
      var core := if huskEntity.Some? then huskEntity else if isPlayer then playerCore else None;
      if core.None? || core.value.dead {
        return;
      }
      var parts := core.value.parts;
      var i := 0;
      while i < |partStatuses|
        invariant 0 <= i <= |partStatuses|
        invariant forall j :: 0 <= j < i ==> !HasPresentPart(parts, partStatuses[j])
      {
        var entry := partStatuses[i];
        if !entry.detached {
          i := i + 1;
          continue;
        }
        var found := FindPart(parts, entry.location);
        if found.None? {
          i := i + 1;
          continue;
        }
        var updated := core.value.(parts := RemoveAt(parts, found.value));
        if huskEntity.Some? {
          huskEntity := Some(updated);
        } else {
          newPlayerCore := Some(updated);
        }
        break;
      }
    }

    /** One `Update` tick, with the engine-bound steps (`SetUpHuskEntity`, player-name
        registration, craft movement) left out. A tick before the blueprint is known only
        works the request latch; otherwise it is a `ReadyTick`. */
    method Update(shellCores: seq<Option<bool>>, registry: map<nat, SpawnedObject>, playerCore: Option<Entity>)
      returns (newPlayerCore: Option<Entity>, raised: bool)
      requires Valid()
      modifies this`stringsRequested, this`dataStringRequests, this`idRequests, this`tractorID,
               this`queuedTractor, this`appliedTractorTargets, this`dirty, this`state, this`huskEntity
      ensures Valid()
      ensures stringsRequested == (old(stringsRequested) || blueprint.None?)
      ensures dataStringRequests <= 1 && idRequests <= 1
      ensures blueprint.None? ==>
                && tractorID == old(tractorID) && queuedTractor == old(queuedTractor)
                && appliedTractorTargets == old(appliedTractorTargets)
                && dirty == old(dirty) && state == old(state)
                && huskEntity == old(huskEntity) && newPlayerCore == playerCore && !raised
      ensures blueprint.Some? ==>
                ReadyTicked(shellCores, registry, playerCore,
                            old(TractorQueue(tractorID, queuedTractor)), old(appliedTractorTargets),
                            old(dirty), old(state), old(huskEntity), newPlayerCore, raised)
      ensures !mode.IsServer() ==> state == old(state)
    {
      newPlayerCore, raised := playerCore, false;
      var ready := PreliminaryStatusCheck();
      if !ready {
        return;
      }
      newPlayerCore, raised := ReadyTick(shellCores, registry, playerCore);
    }

    /** The new state after a `ReadyTick` from the given old values: the tractor queue is
        resolved as `Resolve` says; on a server the gate decides publication as in
        `AttemptCreateServerResponse`; unless publishing threw, one detached part is
        synchronised as `PartsSynced` says. */
    ghost predicate ReadyTicked(shellCores: seq<Option<bool>>, registry: map<nat, SpawnedObject>,
                                playerCore: Option<Entity>, queue0: TractorQueue,
                                applied0: seq<Option<nat>>, dirty0: bool, state0: ServerResponse,
                                husk0: Option<Entity>, newPlayerCore: Option<Entity>, raised: bool)
      reads this
    {
      var r := Resolve(queue0, mode, husk0.Some? && husk0.value.isShellCore, registry);
      var open := mode.IsServer() && PublishGate(isPlayer, serverReady, dirty0, husk0.Some?, SomeInRange(shellCores));
      && TractorQueue(tractorID, queuedTractor) == r.queue
      && appliedTractorTargets == applied0 + (if r.applied.Some? then [r.applied.value] else [])
      && dirty == (dirty0 && !open)
      && raised == (open && (husk0.None? || wrapperClientId.None?))
      && state == (if open && !raised then CreateResponse(wrapperClientId.value, husk0.value) else state0)
      && (raised ==> huskEntity == husk0 && newPlayerCore == playerCore)
      && (!raised ==> PartsSynced(partStatuses, mode, isPlayer, husk0, playerCore, huskEntity, newPlayerCore))
    }

    /** The steps of `Update` once the blueprint is known. */
    method ReadyTick(shellCores: seq<Option<bool>>, registry: map<nat, SpawnedObject>, playerCore: Option<Entity>)
      returns (newPlayerCore: Option<Entity>, raised: bool)
      modifies this`tractorID, this`queuedTractor, this`appliedTractorTargets, this`dirty, this`state,
               this`huskEntity
      ensures ReadyTicked(shellCores, registry, playerCore, old(TractorQueue(tractorID, queuedTractor)),
                          old(appliedTractorTargets), old(dirty), old(state), old(huskEntity),
                          newPlayerCore, raised)
    {
      newPlayerCore := playerCore;
      HandleQueuedTractor(registry);
      raised := AttemptCreateServerResponse(shellCores);
      if raised {
        return;
      }
      newPlayerCore := SyncUpParts(playerCore);
    }
  }
}
