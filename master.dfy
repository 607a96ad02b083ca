/** The gfs-lite master: a registry of chunk servers (a list of addresses whose
    1-based positions are the server IDs) and a map from URL to the address of
    the chunk server that reported holding it.

    The transitions are first given as functions on a `Registry` value, with a
    trace semantics (`Run`) over a sequence of RPC calls, each handled
    atomically. The class `GfsMaster` at the end holds the state the source
    updates in place, and each of its methods is tied to the matching function. */
module Master {
  import opened Wrappers

  /** A chunk server's socket address, as an opaque value: the master only
      stores addresses and compares them for equality. */
  datatype Addr = Addr(token: nat)

  /** A chunk-server ID as handed out by `register`: the 1-based position of
      the server in the list. 0 never names a server. */
  type ServerId = nat

  /** The conditions under which the source panics. */
  datatype MasterError =
    | UrlNotFound(url: string)
    | UnknownServer(sender: ServerId, url: string)

  /** The master's state: `chunk_servers` and `url_to_chunk`. */
  datatype Registry = Registry(servers: seq<Addr>, locations: map<string, Addr>)

  /** The derived default state of the master. */
  function EmptyRegistry(): Registry
  {
    Registry([], map[])
  }

  /** Registry invariant: every recorded location is a registered server. */
  predicate Consistent(r: Registry)
  {
    forall url :: url in r.locations ==> r.locations[url] in r.servers
  }

  /** The server named by `sender`: `chunk_servers.get(sender - 1)`. For
      `sender == 0` the subtraction underflows, so no server is found then
      either. */
  function Resolve(servers: seq<Addr>, sender: ServerId): (r: Option<Addr>)
    ensures r.Some? <==> 1 <= sender <= |servers|
    ensures r.Some? ==> r.value == servers[sender - 1] && r.value in servers
  {
    if sender == 0 then None
    else if sender - 1 < |servers| then Some(servers[sender - 1])
    else None
  }

  /** `register`: append the address and hand back the new length as its ID. */
  function Registered(r: Registry, addr: Addr): (res: (Registry, ServerId))
    ensures res.0.servers == r.servers + [addr]
    ensures res.0.locations == r.locations
    ensures res.1 == |r.servers| + 1
    ensures Resolve(res.0.servers, res.1) == Some(addr)
    ensures forall id :: 1 <= id <= |r.servers| ==>
              Resolve(res.0.servers, id) == Resolve(r.servers, id)
    ensures Consistent(r) ==> Consistent(res.0)
  {
    var servers := r.servers + [addr];
    (Registry(servers, r.locations), |servers|)
  }

  /** `insert`: record that server `sender` holds `url`, overwriting any
      previous location (last writer wins). An ID with no server fails and
      leaves the registry as it was. */
  function Inserted(r: Registry, sender: ServerId, url: string): (res: Result<Registry, MasterError>)
    ensures res.Ok? <==> 1 <= sender <= |r.servers|
    ensures res.Ok? ==>
              && res.value.servers == r.servers
              && res.value.locations.Keys == r.locations.Keys + {url}
              && res.value.locations[url] == r.servers[sender - 1]
              && forall u :: u in r.locations && u != url ==>
                   res.value.locations[u] == r.locations[u]
    ensures res.Err? ==> res.error == UnknownServer(sender, url)
    ensures Consistent(r) && res.Ok? ==> Consistent(res.value)
  {
    match Resolve(r.servers, sender)
    case Some(server) => Ok(Registry(r.servers, r.locations[url := server]))
    case None => Err(UnknownServer(sender, url))
  }

  /** `remove`: forget the location of `url`; a no-op when it has none. */
  function Removed(r: Registry, url: string): (r': Registry)
    ensures r'.servers == r.servers
    ensures r'.locations.Keys == r.locations.Keys - {url}
    ensures forall u :: u in r'.locations ==> r'.locations[u] == r.locations[u]
    ensures url !in r.locations ==> r' == r
    ensures Consistent(r) ==> Consistent(r')
  {
    Registry(r.servers, r.locations - {url})
  }

  /** `lookup`: the recorded location of `url`; a URL without one fails. */
  function Located(r: Registry, url: string): (res: Result<Addr, MasterError>)
    ensures res.Ok? <==> url in r.locations
    ensures res.Ok? ==> res.value == r.locations[url]
    ensures res.Err? ==> res.error == UrlNotFound(url)
    ensures Consistent(r) && res.Ok? ==> res.value in r.servers
  {
    if url in r.locations then Ok(r.locations[url]) else Err(UrlNotFound(url))
  }

  /** The RPCs the master serves. */
  datatype Call =
    | RegisterCall(addr: Addr)
    | InsertCall(sender: ServerId, url: string)
    | RemoveCall(url: string)
    | LookupCall(url: string)

  /** What the caller of each RPC gets back; `Failed` stands for the panic. */
  datatype Reply = Id(id: ServerId) | Done | Location(addr: Addr) | Failed(error: MasterError)

  /** Whether a call may change the location of `url`. */
  predicate Writes(c: Call, url: string)
  {
    (c.InsertCall? || c.RemoveCall?) && c.url == url
  }

  /** One RPC, handled atomically under the master's lock. A call that fails
      changes nothing. */
  function Step(r: Registry, c: Call): (res: (Registry, Reply))
    ensures !c.RegisterCall? ==> res.0.servers == r.servers
    ensures c.LookupCall? ==> res.0 == r
    ensures forall u :: !Writes(c, u) && u in r.locations ==>
              u in res.0.locations && res.0.locations[u] == r.locations[u]
    ensures forall u :: !Writes(c, u) && u !in r.locations ==>
              u !in res.0.locations
    ensures res.1.Failed? ==> res.0 == r
  {
    match c
    case RegisterCall(addr) =>
      var (r', id) := Registered(r, addr);
      (r', Id(id))
    case InsertCall(sender, url) =>
      (match Inserted(r, sender, url)
       case Ok(r') => (r', Done)
       case Err(e) => (r, Failed(e)))
    case RemoveCall(url) =>
      (Removed(r, url), Done)
    case LookupCall(url) =>
      (match Located(r, url)
       case Ok(addr) => (r, Location(addr))
       case Err(e) => (r, Failed(e)))
  }

  /** A sequence of RPCs applied one after the other: the final registry and
      the reply to each call. */
  function Run(r: Registry, calls: seq<Call>): (res: (Registry, seq<Reply>))
    ensures |res.1| == |calls|
    decreases calls
  {
    if calls == [] then (r, [])
    else
      var (r1, reply) := Step(r, calls[0]);
      var (rn, replies) := Run(r1, calls[1..]);
      (rn, [reply] + replies)
  }

  /** `register` called once per address, in order. */
  function RegisterCalls(addrs: seq<Addr>): (calls: seq<Call>)
    ensures |calls| == |addrs|
    ensures forall i :: 0 <= i < |addrs| ==> calls[i] == RegisterCall(addrs[i])
  {
    seq(|addrs|, i requires 0 <= i < |addrs| => RegisterCall(addrs[i]))
  }

  /** Running two traces one after the other is running their concatenation. */
  lemma {:induction false} RunAppend(r: Registry, a: seq<Call>, b: seq<Call>)
    ensures Run(r, a + b).0 == Run(Run(r, a).0, b).0
    ensures Run(r, a + b).1 == Run(r, a).1 + Run(Run(r, a).0, b).1
    decreases a
  {
    if a == [] {
      assert a + b == b;
    } else {
      assert (a + b)[0] == a[0];
      assert (a + b)[1..] == a[1..] + b;
      var r1 := Step(r, a[0]).0;
      RunAppend(r1, a[1..], b);
    }
  }

  /** The registry invariant holds after every sequence of calls. */
  lemma {:induction false} RunPreservesConsistency(r: Registry, calls: seq<Call>)
    requires Consistent(r)
    ensures Consistent(Run(r, calls).0)
    decreases calls
  {
    if calls != [] {
      var r1 := Step(r, calls[0]).0;
      assert Consistent(r1);
      RunPreservesConsistency(r1, calls[1..]);
    }
  }

  /** The server list only grows at its end, so an ID keeps naming the same
      server for the rest of the run. */
  lemma {:induction false} RunKeepsServerIds(r: Registry, calls: seq<Call>)
    ensures r.servers <= Run(r, calls).0.servers
    ensures forall id :: 1 <= id <= |r.servers| ==>
              Resolve(Run(r, calls).0.servers, id) == Some(r.servers[id - 1])
    decreases calls
  {
    if calls != [] {
      var r1 := Step(r, calls[0]).0;
      RunKeepsServerIds(r1, calls[1..]);
      assert r.servers <= r1.servers;
    }
  }

  /** Successive registrations: the server list grows by exactly the given
      addresses and the i-th call is answered with ID |servers| + i + 1. */
  lemma {:induction false} RegistrationIds(r: Registry, addrs: seq<Addr>)
    ensures Run(r, RegisterCalls(addrs)).0 == Registry(r.servers + addrs, r.locations)
    ensures forall i :: 0 <= i < |addrs| ==> Run(r, RegisterCalls(addrs)).1[i] == Id(|r.servers| + i + 1)
    decreases addrs
  {
    if addrs != [] {
      var calls := RegisterCalls(addrs);
      var r1 := Registry(r.servers + [addrs[0]], r.locations);
      assert Step(r, calls[0]) == (r1, Id(|r.servers| + 1));
      assert calls[1..] == RegisterCalls(addrs[1..]);
      RegistrationIds(r1, addrs[1..]);
      var tail := Run(r1, calls[1..]);
      assert Run(r, calls) == (tail.0, [Id(|r.servers| + 1)] + tail.1);
      assert r1.servers + addrs[1..] == r.servers + addrs;
      forall i | 0 < i < |addrs| ensures Run(r, calls).1[i] == Id(|r.servers| + i + 1) {
        assert Run(r, calls).1[i] == tail.1[i - 1];
      }
    }
  }

  /** From the initial state, registrations are answered with 1, 2, 3, ...:
      strictly increasing IDs, the k-th naming the k-th address. */
  lemma RegistrationFromEmpty(addrs: seq<Addr>)
    ensures forall i :: 0 <= i < |addrs| ==>
              Run(EmptyRegistry(), RegisterCalls(addrs)).1[i] == Id(i + 1)
    ensures forall i, j :: 0 <= i < j < |addrs| ==>
              Run(EmptyRegistry(), RegisterCalls(addrs)).1[i].id
                < Run(EmptyRegistry(), RegisterCalls(addrs)).1[j].id
    ensures Run(EmptyRegistry(), RegisterCalls(addrs)).0.servers == addrs
    ensures forall i :: 0 <= i < |addrs| ==>
              Resolve(Run(EmptyRegistry(), RegisterCalls(addrs)).0.servers, i + 1) == Some(addrs[i])
  {
    RegistrationIds(EmptyRegistry(), addrs);
    assert [] + addrs == addrs;
  }

  /** An ID returned by `register` is accepted by `insert` after any later
      calls, and the URL is then located at the registered address. */
  lemma ReturnedIdIsAccepted(r: Registry, addr: Addr, calls: seq<Call>, url: string)
    ensures Inserted(Run(Registered(r, addr).0, calls).0, Registered(r, addr).1, url).Ok?
    ensures Located(Inserted(Run(Registered(r, addr).0, calls).0, Registered(r, addr).1, url).value, url)
              == Ok(addr)
  {
    var (r1, id) := Registered(r, addr);
    RunKeepsServerIds(r1, calls);
  }

  /** Once `url` has a location, it keeps it through every call that neither
      inserts nor removes `url`. */
  lemma {:induction false} LocationPersists(r: Registry, calls: seq<Call>, url: string)
    requires url in r.locations
    requires forall i :: 0 <= i < |calls| ==> !Writes(calls[i], url)
    ensures url in Run(r, calls).0.locations
    ensures Run(r, calls).0.locations[url] == r.locations[url]
    decreases calls
  {
    if calls != [] {
      var r1 := Step(r, calls[0]).0;
      assert !Writes(calls[0], url);
      LocationPersists(r1, calls[1..], url);
    }
  }

  /** After a successful `insert(sender, url)`, a `lookup(url)` answers the
      address registered for `sender`, until another insert or a remove of
      `url` intervenes. */
  lemma InsertThenLookup(r: Registry, sender: ServerId, url: string, calls: seq<Call>)
    requires 1 <= sender <= |r.servers|
    requires forall i :: 0 <= i < |calls| ==> !Writes(calls[i], url)
    ensures Run(r, [InsertCall(sender, url)] + calls + [LookupCall(url)]).1[|calls| + 1]
              == Location(r.servers[sender - 1])
  {
    var r1 := Step(r, InsertCall(sender, url)).0;
    LocationPersists(r1, calls, url);
    RunAppend(r, [InsertCall(sender, url)], calls);
    var mid := Run(r, [InsertCall(sender, url)] + calls);
    RunAppend(r, [InsertCall(sender, url)] + calls, [LookupCall(url)]);
    assert Run(r, [InsertCall(sender, url)]).0 == r1;
  }

  /** A URL that no call inserts keeps having no location, so `lookup` of it
      fails with `UrlNotFound`. */
  lemma {:induction false} NeverInsertedNotFound(r: Registry, calls: seq<Call>, url: string)
    requires url !in r.locations
    requires forall i :: 0 <= i < |calls| ==> !(calls[i].InsertCall? && calls[i].url == url)
    ensures url !in Run(r, calls).0.locations
    ensures Located(Run(r, calls).0, url) == Err(UrlNotFound(url))
    decreases calls
  {
    if calls != [] {
      var r1 := Step(r, calls[0]).0;
      assert !(calls[0].InsertCall? && calls[0].url == url);
      NeverInsertedNotFound(r1, calls[1..], url);
    }
  }

  /** Two inserts of one URL by registered servers: the later one wins. */
  lemma LastWriterWins(r: Registry, first: ServerId, second: ServerId, url: string)
    requires 1 <= first <= |r.servers| && 1 <= second <= |r.servers|
    ensures Located(Run(r, [InsertCall(first, url), InsertCall(second, url)]).0, url)
              == Ok(r.servers[second - 1])
  {
    var calls := [InsertCall(first, url), InsertCall(second, url)];
    var r1 := Step(r, calls[0]).0;
    assert calls[1..] == [InsertCall(second, url)];
    assert Run(r, calls).0 == Run(r1, [InsertCall(second, url)]).0;
    assert Run(r1, [InsertCall(second, url)]).0 == Step(r1, InsertCall(second, url)).0;
  }

  /** The master's lock-guarded `Inner`, updated in place by the RPC handlers. */
  class GfsMaster {
    var chunkServers: seq<Addr>
    var urlToChunk: map<string, Addr>

    /** The state as a value, for the transition functions above. */
    function Snapshot(): Registry
      reads this
    {
      Registry(chunkServers, urlToChunk)
    }

    ghost predicate Valid()
      reads this
    {
      Consistent(Snapshot())
    }

    /** `GfsMaster::default()`: no servers, no locations. */
    constructor ()
      ensures chunkServers == [] && urlToChunk == map[]
      ensures Snapshot() == EmptyRegistry()
      ensures Valid()
    {
      chunkServers := [];
      urlToChunk := map[];
    }

    /** `lookup`: read-only; a URL with no location fails. */
    method Lookup(url: string) returns (res: Result<Addr, MasterError>)
      ensures res.Ok? <==> url in urlToChunk
      ensures res.Ok? ==> res.value == urlToChunk[url]
      ensures res.Err? ==> res.error == UrlNotFound(url)
      ensures Valid() && res.Ok? ==> res.value in chunkServers
      ensures (Snapshot(), if res.Ok? then Location(res.value) else Failed(res.error))
              == Step(Snapshot(), LookupCall(url))
    {
      if url in urlToChunk {
        res := Ok(urlToChunk[url]);
      } else {
        res := Err(UrlNotFound(url));
      }
    }

    /** `register`: push the address; its ID is the new length. */
    method Register(addr: Addr) returns (id: ServerId)
      requires Valid()
      modifies this`chunkServers
      ensures Valid()
      ensures chunkServers == old(chunkServers) + [addr]
      ensures id == |chunkServers| && chunkServers[id - 1] == addr
      ensures (Snapshot(), Id(id)) == Step(old(Snapshot()), RegisterCall(addr))
    {
      chunkServers := chunkServers + [addr];
      id := |chunkServers|;
    }

    /** `insert`: map `url` to the server named by `sender`; an unknown ID
        fails and changes nothing. */
    method Insert(sender: ServerId, url: string) returns (res: Result<(), MasterError>)
      requires Valid()
      modifies this`urlToChunk
      ensures Valid()
      ensures res.Ok? <==> 1 <= sender <= |chunkServers|
      ensures res.Ok? ==> urlToChunk == old(urlToChunk)[url := chunkServers[sender - 1]]
      ensures res.Err? ==> urlToChunk == old(urlToChunk) && res.error == UnknownServer(sender, url)
      ensures (Snapshot(), if res.Ok? then Done else Failed(res.error))
              == Step(old(Snapshot()), InsertCall(sender, url))
    {
      match Resolve(chunkServers, sender) {
        case Some(server) =>
          urlToChunk := urlToChunk[url := server];
          res := Ok(());
        case None =>
          res := Err(UnknownServer(sender, url));
      }
    }

    /** `remove`: drop the location of `url`, if any. */
    method Remove(url: string)
      requires Valid()
      modifies this`urlToChunk
      ensures Valid()
      ensures urlToChunk == old(urlToChunk) - {url}
      ensures (Snapshot(), Done) == Step(old(Snapshot()), RemoveCall(url))
    {
      urlToChunk := urlToChunk - {url};
    }
  }
}
