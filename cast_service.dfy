/** The Cast device registry of the controller: the devices found by mDNS
    discovery (uid to host and port, in the order the uids were first
    seen), the cache file they are persisted to, and the connected clients.
    Discovery events, the cache file and the Cast connection itself are
    outside the model: their outcomes are parameters. */
module CastRegistry {
  import opened Text
  import opened Dict

  /** Where a device listens: `service.addresses[0]` (`undefined` when the
      service announced no address) and `service.port`. */
  datatype Endpoint = Endpoint(host: Option<string>, port: int)

  /** A discovery announcement: its instance name, the `id` of its TXT
      record, its addresses and port. */
  datatype Service = Service(name: string, uid: string, addresses: seq<string>, port: int)

  /** A connected castv2 client: a handle told apart by `id`, and the
      endpoint it connected to. */
  datatype Client = Client(id: nat, endpoint: Endpoint)

  /** Why `_getClient` can fail. */
  datatype ClientError = UnknownDevice(uid: string) | ConnectFailed

  function ErrorMessage(e: ClientError): string {
    match e
    case UnknownDevice(uid) => "Unknown device UID: " + uid
    case ConnectFailed => "connection failed"
  }

  /** The endpoint of an announcement. */
  function EndpointOf(s: Service): (e: Endpoint)
    ensures s.addresses != [] ==> e.host == Some(s.addresses[0])
    ensures s.addresses == [] ==> e.host.None?
    ensures e.port == s.port
  {
    Endpoint(if s.addresses == [] then None else Some(s.addresses[0]), s.port)
  }

  class CastService {
    /** `this.devices`: a JavaScript `Map`, which keeps insertion order and
        overwrites an existing key in place. */
    var devices: Dict<Endpoint>
    /** `this.clients`. */
    var clients: map<string, Client>
    /** Every snapshot `_persist` has written to the cache file, oldest
        first. */
    var written: seq<Dict<Endpoint>>
    /** The id the next client created gets. */
    var nextId: nat

    /** A `Map` never holds a key twice, and every cached client was
        created before the next one: no two cached clients share an id. */
    predicate Valid()
      reads this
    {
      UniqueKeys(devices) && forall u :: u in clients ==> clients[u].id < nextId
    }

    constructor()
      ensures Valid()
      ensures devices == [] && clients == map[] && written == []
    {
      devices := [];
      clients := map[];
      written := [];
      nextId := 0;
    }

    /** The cache-loading half of `init`: when the cache file reads and
        parses (`cache` is the parsed object's entries, in order), every
        entry is set into `devices`; when it does not, nothing changes and
        nothing is thrown. Starting discovery is not modelled. */
    method Init(cache: Option<Dict<Endpoint>>)
      requires Valid()
      modifies this
      ensures Valid()
      ensures cache.None? ==> devices == old(devices)
      ensures cache.Some? ==> devices == AssignAll(old(devices), cache.value)
      ensures clients == old(clients) && written == old(written) && nextId == old(nextId)
    {
      if cache.None? {
        return;
      }
      var obj := cache.value;
      var i := 0;
      while i < |obj|
        invariant 0 <= i <= |obj|
        invariant UniqueKeys(devices)
        invariant devices == AssignAll(old(devices), obj[..i])
        invariant clients == old(clients) && written == old(written) && nextId == old(nextId)
      {
        assert obj[..i + 1][..i] == obj[..i];
        AssignLookup(devices, obj[i].0, obj[i].1);
        devices := Assign(devices, obj[i].0, obj[i].1);
        i := i + 1;
      }
      assert obj[..i] == obj;
    }

    /** `_persist`: write the current devices to the cache. */
    method Persist()
      modifies this
      ensures written == old(written) + [devices]
      ensures devices == old(devices) && clients == old(clients) && nextId == old(nextId)
    {
      written := written + [devices];
    }

    /** `_addOrUpdate`: a device coming up is recorded under its uid,
        replacing what was recorded for that uid, and the devices are
        persisted. */
    method AddOrUpdate(service: Service)
      requires Valid()
      modifies this
      ensures Valid()
      ensures devices == Assign(old(devices), service.uid, EndpointOf(service))
      ensures written == old(written) + [devices]
      ensures clients == old(clients) && nextId == old(nextId)
    {
      var uid := service.uid;
      var host := if service.addresses == [] then None else Some(service.addresses[0]);
      AssignLookup(devices, uid, Endpoint(host, service.port));
      devices := Assign(devices, uid, Endpoint(host, service.port));
      Persist();
    }

    /** `_remove`: a device going down is forgotten, and the devices are
        persisted only if it was known. */
    method Remove(service: Service)
      requires Valid()
      modifies this
      ensures Valid()
      ensures devices == Delete(old(devices), service.uid)
      ensures Position(old(devices), service.uid).Some? ==> written == old(written) + [devices]
      ensures Position(old(devices), service.uid).None? ==> devices == old(devices) && written == old(written)
      ensures clients == old(clients) && nextId == old(nextId)
    {
      var uid := service.uid;
      var existed := Position(devices, uid).Some?;
      if !existed {
        DeleteAbsent(devices, uid);
      }
      DeleteUnique(devices, uid);
      devices := Delete(devices, uid);
      if existed {
        Persist();
      }
    }

    /** `listDevices`: the known uids, in the order they were first seen. */
    method ListDevices() returns (uids: seq<string>)
      ensures |uids| == |devices|
      ensures forall i :: 0 <= i < |devices| ==> uids[i] == devices[i].0
    {
      uids := [];
      var i := 0;
      while i < |devices|
        invariant 0 <= i <= |devices| && |uids| == i
        invariant forall j :: 0 <= j < i ==> uids[j] == devices[j].0
      {
        uids := uids + [devices[i].0];
        i := i + 1;
      }
    }

    /** `_getClient`: a cached client is returned as it is; otherwise the
        uid must be a known device, a new client connects to its endpoint
        (`connects` is whether connecting and launching the receiver
        succeed) and is cached. */
    method GetClient(uid: string, connects: bool) returns (r: Result<Client>, err: Option<ClientError>)
      requires Valid()
      modifies this
      ensures Valid()
      ensures uid in old(clients) ==> r == Ok(old(clients)[uid]) && err.None? && clients == old(clients)
      ensures uid !in old(clients) && Lookup(devices, uid).None? ==>
        err == Some(UnknownDevice(uid)) && r == Err("Unknown device UID: " + uid) && clients == old(clients)
      ensures nextId == if uid !in old(clients) && Lookup(devices, uid).Some? then old(nextId) + 1 else old(nextId)
      ensures uid !in old(clients) && Lookup(devices, uid).Some? && !connects ==>
        err == Some(ConnectFailed) && r.Err? && clients == old(clients)
      ensures uid !in old(clients) && Lookup(devices, uid).Some? && connects ==>
        err.None? && r.Ok? && r.value.endpoint == Lookup(devices, uid).value
        && r.value.id == old(nextId) && clients == old(clients)[uid := r.value]
        && forall u :: u in old(clients) ==> old(clients)[u].id != r.value.id
      ensures devices == old(devices) && written == old(written)
    {
      if uid in clients {
        return Ok(clients[uid]), None;
      }
      var info := Lookup(devices, uid);
      if info.None? {
        return Err(ErrorMessage(UnknownDevice(uid))), Some(UnknownDevice(uid));
      }
      var client := Client(nextId, info.value);
      nextId := nextId + 1;
      if !connects {
        return Err(ErrorMessage(ConnectFailed)), Some(ConnectFailed);
      }
      clients := clients[uid := client];
      r, err := Ok(client), None;
    }

    /** The `'error'` handler installed for the client of `uid`: it drops
        whatever client is cached under `uid` now. */
    method OnClientError(uid: string)
      requires Valid()
      modifies this
      ensures Valid()
      ensures clients == old(clients) - {uid}
      ensures devices == old(devices) && written == old(written) && nextId == old(nextId)
    {
      clients := clients - {uid};
    }

    /** `disconnect`: a cached client is closed and dropped; without one
        the call throws and nothing changes. */
    method Disconnect(uid: string) returns (r: Result<string>)
      requires Valid()
      modifies this
      ensures Valid()
      ensures uid in old(clients) ==> r == Ok("disconnected") && clients == old(clients) - {uid}
      ensures uid !in old(clients) ==> r == Err("No active client for UID " + uid) && clients == old(clients)
      ensures devices == old(devices) && written == old(written) && nextId == old(nextId)
    {
      if uid in clients {
        clients := clients - {uid};
        return Ok("disconnected");
      }
      return Err("No active client for UID " + uid);
    }
  }

  /** What a freshly constructed service loads from a cache file holding
      `snapshot`. */
  function Reload(snapshot: Dict<Endpoint>): Dict<Endpoint> {
    AssignAll([], snapshot)
  }

  /** A snapshot written by `_persist` reads back, into a new service, as
      the same devices; the order is the same as long as no uid is
      integer-like (JavaScript lists such keys of an object first). */
  lemma PersistReloads(snapshot: Dict<Endpoint>)
    requires UniqueKeys(snapshot)
    ensures Reload(snapshot) == snapshot
  {
    AssignAllFresh(snapshot);
  }

  /** After a device comes up, it is listed under its uid with its new
      endpoint: at the end of the list when it is new, in its old place
      otherwise; the other devices are untouched. */
  lemma AddOrUpdateListing(devices: Dict<Endpoint>, s: Service)
    ensures Lookup(Assign(devices, s.uid, EndpointOf(s)), s.uid) == Some(EndpointOf(s))
    ensures forall u :: u != s.uid ==> Lookup(Assign(devices, s.uid, EndpointOf(s)), u) == Lookup(devices, u)
    ensures Position(devices, s.uid).None? ==> Keys(Assign(devices, s.uid, EndpointOf(s))) == Keys(devices) + [s.uid]
    ensures Position(devices, s.uid).Some? ==> Keys(Assign(devices, s.uid, EndpointOf(s))) == Keys(devices)
  {
    AssignLookup(devices, s.uid, EndpointOf(s));
  }

  /** After a device goes down it is no longer listed or looked up; the
      other devices keep their endpoints and their order. */
  lemma RemoveListing(devices: Dict<Endpoint>, uid: string)
    ensures Lookup(Delete(devices, uid), uid).None?
    ensures forall u :: u != uid ==> Lookup(Delete(devices, uid), u) == Lookup(devices, u)
    ensures Keys(Delete(devices, uid)) == Remove(Keys(devices), uid)
  {
    DeleteLookup(devices, uid);
    DeleteKeys(devices, uid);
  }

  /** The options object `queueInsert` and `queueReorder` pass on:
      `Object.assign({}, JSON.parse(optionsJson), {insertBefore: id})`, or
      `None` where the options do not parse and `JSON.parse` throws. */
  function QueueOptions<V>(parsed: Option<Dict<V>>, id: V): (r: Option<Dict<V>>)
    ensures r.Some? <==> parsed.Some?
  {
    match parsed
    case None => None
    case Some(options) => Some(Assign(options, "insertBefore", id))
  }

  /** Whatever `insertBefore` the options carried, the one passed on is the
      id argument; every other option is passed on unchanged. */
  lemma QueueOptionsInsertBefore<V>(options: Dict<V>, id: V)
    ensures Lookup(QueueOptions(Some(options), id).value, "insertBefore") == Some(id)
    ensures forall k :: k != "insertBefore" ==> Lookup(QueueOptions(Some(options), id).value, k) == Lookup(options, k)
    ensures UniqueKeys(options) ==> UniqueKeys(QueueOptions(Some(options), id).value)
  {
    AssignLookup(options, "insertBefore", id);
  }
}
