/**
 Stored simulation definitions and the requests that change them (RESTAPI_simulation_handler).
 */
module Simulations {
  import opened Common
  import opened Naming
  import opened Tiling

  datatype Details = Details(
    name: string,
    gateway: string,
    macPrefix: string,
    deviceType: string,
    devices: nat,
    healthCheckInterval: nat,
    stateInterval: nat,
    minAssociations: nat,
    maxAssociations: nat,
    minClients: nat,
    maxClients: nat,
    simulationLength: nat,
    threads: nat,
    keepAlive: nat,
    reconnectInterval: nat,
    concurrentDevices: nat)

  /** A request body: which of the fields it carries. */
  datatype Body = Body(
    name: Option<string>,
    gateway: Option<string>,
    macPrefix: Option<string>,
    deviceType: Option<string>,
    devices: Option<nat>,
    healthCheckInterval: Option<nat>,
    stateInterval: Option<nat>,
    minAssociations: Option<nat>,
    maxAssociations: Option<nat>,
    minClients: Option<nat>,
    maxClients: Option<nat>,
    simulationLength: Option<nat>,
    threads: Option<nat>,
    keepAlive: Option<nat>,
    reconnectInterval: Option<nat>,
    concurrentDevices: Option<nat>)

  function Or<T>(field: Option<T>, otherwise: T): T
  {
    match field
    case None => otherwise
    case Some(v) => v
  }

  /** The present fields of a body over the fields of a record. */
  function Merge(d: Details, b: Body): Details
  {
    Details(Or(b.name, d.name), Or(b.gateway, d.gateway), Or(b.macPrefix, d.macPrefix), Or(b.deviceType, d.deviceType),
            Or(b.devices, d.devices), Or(b.healthCheckInterval, d.healthCheckInterval),
            Or(b.stateInterval, d.stateInterval), Or(b.minAssociations, d.minAssociations),
            Or(b.maxAssociations, d.maxAssociations), Or(b.minClients, d.minClients), Or(b.maxClients, d.maxClients),
            Or(b.simulationLength, d.simulationLength), Or(b.threads, d.threads), Or(b.keepAlive, d.keepAlive),
            Or(b.reconnectInterval, d.reconnectInterval), Or(b.concurrentDevices, d.concurrentDevices))
  }

  /** The member initialisers of SimulationDetails. */
  const DEFAULTS := Details("", "", "", "", 5, 60, 60, 1, 3, 1, 3, 3600, 16, 300, 30, 5)

  /** SimulationDetails::from_json on a fresh object. */
  function FromJson(b: Body): Details
  {
    Merge(DEFAULTS, b)
  }

  /** ValidateSimulation, condition by condition. */
  predicate Valid(d: Details, deviceTypes: set<string>)
  {
    && d.name != "" && d.gateway != "" && d.deviceType != "" && d.deviceType in deviceTypes
    && d.maxClients >= d.minClients
    && d.maxAssociations >= d.minAssociations
    && 1 <= d.devices <= 1000000
    && 30 <= d.healthCheckInterval <= 600
    && 30 <= d.stateInterval
    && d.minAssociations <= 4 && d.maxAssociations <= 64
    && d.minClients <= 4 && d.maxAssociations <= 16
    && 120 <= d.keepAlive <= 3000
    && 10 <= d.reconnectInterval <= 300
    && 1 <= d.concurrentDevices <= 1000
    && 4 <= d.threads <= 1024
    && |d.macPrefix| == 6
  }

  /** What the naming of devices needs of a definition. */
  predicate Nameable(d: Details)
  {
    1 <= d.devices <= DEVICE_SPACE && |d.macPrefix| == 6
  }

  datatype Request = Post(id: string, body: Body) | Put(id: string, body: Body) | Delete(id: string)

  type Store = map<string, Details>

  function Handled(store: Store, r: Request, deviceTypes: set<string>): Store
  {
    match r
    case Post(id, body) => if Valid(FromJson(body), deviceTypes) then store[id := FromJson(body)] else store
    case Put(id, body) =>
      if id in store && Valid(FromJson(body), deviceTypes) then store[id := Merge(store[id], body)] else store
    case Delete(id) => store - {id}
  }

  function AllHandled(store: Store, requests: seq<Request>, deviceTypes: set<string>): Store
  {
    if requests == [] then store
    else Handled(AllHandled(store, requests[..|requests| - 1], deviceTypes), requests[|requests| - 1], deviceTypes)
  }

  class SimulationHandler {
    const deviceTypes: set<string>
    var SimulationDB: Store

    constructor (deviceTypes: set<string>)
      ensures this.deviceTypes == deviceTypes && SimulationDB == map[]
    {
      this.deviceTypes := deviceTypes;
      SimulationDB := map[];
    }

    /** `id` is the identifier freshly made for the record. */
    method DoPost(id: string, body: Body) returns (ok: bool)
      modifies this
      ensures SimulationDB == Handled(old(SimulationDB), Post(id, body), deviceTypes)
      ensures ok <==> Valid(FromJson(body), deviceTypes)
    {
      var newSimulation := FromJson(body);
      if !Valid(newSimulation, deviceTypes) {
        return false;
      }
      SimulationDB := SimulationDB[id := newSimulation];
      return true;
    }

    /** Validates the body on its own, then stores the merge. */
    method DoPut(id: string, body: Body) returns (ok: bool)
      modifies this
      ensures SimulationDB == Handled(old(SimulationDB), Put(id, body), deviceTypes)
      ensures ok <==> id in old(SimulationDB) && Valid(FromJson(body), deviceTypes)
    {
      var newSimulation := FromJson(body);
      if id !in SimulationDB {
        return false;
      }
      var existing := Merge(SimulationDB[id], body);
      if !Valid(newSimulation, deviceTypes) {
        return false;
      }
      SimulationDB := SimulationDB[id := existing];
      return true;
    }
  }

  /** Whatever requests came in, every stored definition can be named without clashes. */
  lemma {:induction false} StoredAreNameable(requests: seq<Request>, deviceTypes: set<string>)
    ensures forall id <- AllHandled(map[], requests, deviceTypes) ::
      Nameable(AllHandled(map[], requests, deviceTypes)[id])
  {
    if requests != [] {
      StoredAreNameable(requests[..|requests| - 1], deviceTypes);
    }
  }

  /**
   PUT does not keep definitions valid. When the stored definition and the body are both valid, the
   stored result is valid iff the two min/max pairs of the merge are in order.
   */
  lemma PutKeepsValidIff(stored: Details, body: Body, deviceTypes: set<string>)
    requires Valid(stored, deviceTypes) && Valid(FromJson(body), deviceTypes)
    ensures Valid(Merge(stored, body), deviceTypes) <==>
      && Or(body.minClients, stored.minClients) <= Or(body.maxClients, stored.maxClients)
      && Or(body.minAssociations, stored.minAssociations) <= Or(body.maxAssociations, stored.maxAssociations)
  {
  }

  /** A stored minimum of 4 clients and a body that only lowers the maximum to 2. */
  lemma PutCanStoreInvalid() returns (stored: Details, body: Body)
    ensures Valid(stored, {"ap"}) && Valid(FromJson(body), {"ap"})
    ensures !Valid(Handled(map["id" := stored], Put("id", body), {"ap"})["id"], {"ap"})
  {
    stored := Details("sim", "https://gw", "aabbcc", "ap", 10, 60, 60, 1, 3, 4, 10, 3600, 16, 300, 30, 5);
    body := Body(Some("sim"), Some("https://gw"), Some("aabbcc"), Some("ap"),
                 None, None, None, None, None, None, Some(2), None, None, None, None, None);
    assert FromJson(body).minClients == 1 && Merge(stored, body).minClients == 4;
  }

  /** A definition can be valid and yet too small to be split: the padding divides by zero. */
  lemma ValidButUnsplittable(d: Details, deviceTypes: set<string>, services: nat)
    requires Valid(d, deviceTypes)
    ensures PadModulus(d.devices, services) == 0 <==> services >= d.devices
    ensures exists s: nat :: PadModulus(d.devices, s) == 0
  {
    ModulusIsZeroIff(d.devices, services);
    ModulusIsZeroIff(d.devices, d.devices);
  }

  // ---- Field by field ---------------------------------------------------------------------------

  /** A field that is absent stays as it was, one that is present is taken over. */
  predicate Says<T(==)>(field: Option<T>, was: T, now: T)
  {
    now == if field.None? then was else field.value
  }

  /** An accepted PUT changes exactly the fields its body names, each to what the body says. */
  lemma PutIsFieldwise(store: Store, id: string, b: Body, deviceTypes: set<string>)
    requires id in store && Handled(store, Put(id, b), deviceTypes) != store
    ensures Handled(store, Put(id, b), deviceTypes).Keys == store.Keys
    ensures forall other <- store :: other != id ==> Handled(store, Put(id, b), deviceTypes)[other] == store[other]
    ensures var d := store[id]; var s := Handled(store, Put(id, b), deviceTypes)[id];
      && Says(b.name, d.name, s.name)
      && Says(b.gateway, d.gateway, s.gateway)
      && Says(b.macPrefix, d.macPrefix, s.macPrefix)
      && Says(b.deviceType, d.deviceType, s.deviceType)
      && Says(b.devices, d.devices, s.devices)
      && Says(b.healthCheckInterval, d.healthCheckInterval, s.healthCheckInterval)
      && Says(b.stateInterval, d.stateInterval, s.stateInterval)
      && Says(b.minAssociations, d.minAssociations, s.minAssociations)
      && Says(b.maxAssociations, d.maxAssociations, s.maxAssociations)
      && Says(b.minClients, d.minClients, s.minClients)
      && Says(b.maxClients, d.maxClients, s.maxClients)
      && Says(b.simulationLength, d.simulationLength, s.simulationLength)
      && Says(b.threads, d.threads, s.threads)
      && Says(b.keepAlive, d.keepAlive, s.keepAlive)
      && Says(b.reconnectInterval, d.reconnectInterval, s.reconnectInterval)
      && Says(b.concurrentDevices, d.concurrentDevices, s.concurrentDevices)
  {
  }

  /** A POST with nothing but its four texts is stored with these numbers, if the texts are acceptable. */
  lemma PostDefaults(store: Store, id: string, name: string, gateway: string, macPrefix: string, deviceType: string,
                     deviceTypes: set<string>)
    ensures var b := Body(Some(name), Some(gateway), Some(macPrefix), Some(deviceType),
                          None, None, None, None, None, None, None, None, None, None, None, None);
      Handled(store, Post(id, b), deviceTypes) ==
        if name != "" && gateway != "" && deviceType != "" && deviceType in deviceTypes && |macPrefix| == 6
        then store[id := Details(name, gateway, macPrefix, deviceType, 5, 60, 60, 1, 3, 1, 3, 3600, 16, 300, 30, 5)]
        else store
  {
  }

  /** A definition that differs from the defaults only in its texts. */
  function Plain(deviceType: string): Details
  {
    DEFAULTS.(name := "sim", gateway := "gw", macPrefix := "aabbcc", deviceType := deviceType)
  }

  /**
   The bounds of every number, the others being as in the defaults. maxAssociations ends at 16, not 64, and
   maxClients and simulationLength have no upper bound.
   */
  lemma Bounds(deviceTypes: set<string>, deviceType: string, n: nat)
    requires deviceType in deviceTypes && deviceType != ""
    ensures var d := Plain(deviceType);
      && (Valid(d.(devices := n), deviceTypes) <==> 1 <= n <= 1000000)
      && (Valid(d.(healthCheckInterval := n), deviceTypes) <==> 30 <= n <= 600)
      && (Valid(d.(stateInterval := n), deviceTypes) <==> 30 <= n)
      && (Valid(d.(minAssociations := n), deviceTypes) <==> n <= 3)
      && (Valid(d.(minAssociations := n, maxAssociations := 16), deviceTypes) <==> n <= 4)
      && (Valid(d.(maxAssociations := n), deviceTypes) <==> 1 <= n <= 16)
      && (Valid(d.(minClients := n), deviceTypes) <==> n <= 3)
      && (Valid(d.(minClients := n, maxClients := 16), deviceTypes) <==> n <= 4)
      && (Valid(d.(maxClients := n), deviceTypes) <==> 1 <= n)
      && Valid(d.(simulationLength := n), deviceTypes)
      && (Valid(d.(threads := n), deviceTypes) <==> 4 <= n <= 1024)
      && (Valid(d.(keepAlive := n), deviceTypes) <==> 120 <= n <= 3000)
      && (Valid(d.(reconnectInterval := n), deviceTypes) <==> 10 <= n <= 300)
      && (Valid(d.(concurrentDevices := n), deviceTypes) <==> 1 <= n <= 1000)
  {
  }

  /** And of every text. */
  lemma TextBounds(deviceTypes: set<string>, deviceType: string, s: string)
    requires deviceType in deviceTypes && deviceType != ""
    ensures var d := Plain(deviceType);
      && (Valid(d.(name := s), deviceTypes) <==> s != "")
      && (Valid(d.(gateway := s), deviceTypes) <==> s != "")
      && (Valid(d.(macPrefix := s), deviceTypes) <==> |s| == 6)
      && (Valid(d.(deviceType := s), deviceTypes) <==> s != "" && s in deviceTypes)
  {
  }

  /** A DELETE forgets its definition and no other. */
  lemma DeleteForgets(store: Store, id: string, deviceTypes: set<string>)
    ensures id !in Handled(store, Delete(id), deviceTypes)
    ensures forall other :: other != id ==>
      (other in Handled(store, Delete(id), deviceTypes) <==> other in store)
      && (other in store ==> Handled(store, Delete(id), deviceTypes)[other] == store[other])
  {
  }
}
