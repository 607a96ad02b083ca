# gfs-lite master and chunk server, modelled in Dafny

gfs-lite is a minimal Google-File-System-style coordinator. A single master
keeps the list of registered chunk servers (the 1-based position of a server
in that list is its ID) and a map from URL to the address of the chunk server
that last reported holding it. Each chunk server keeps its own map from URL
to chunk data, and the ID the master gave it.

Both are in-memory state machines behind a reader/writer lock. Every
operation runs under one guard, so the model treats each operation as one
atomic step.

- `wrappers.dfy`: `Option` and `Result`.
- `master.dfy` (module `Master`): the master's state as a `Registry` value,
  the four RPCs as transition functions (`Registered`, `Inserted`, `Removed`,
  `Located`), one call as `Step`, a sequence of calls as `Run`, and lemmas
  about traces: the registry invariant, stable and consecutive IDs, last
  writer wins, and persistence of a location. The class `GfsMaster` holds the
  two fields that the source updates in place. Each of its methods states its
  new state and is tied to `Step`.
- `chunk.dfy` (module `Chunk`): `Stored` (get) and `Store` (set) on the chunk
  map, a trace semantics `Apply`, and a reference definition `LastWrite`.
  Lemmas cover undoing a `set`, round trips, and per-server sequential
  consistency. The class `ChunkServer` holds `chunks` and `myId`.

Where the source panics (`lookup` of an unknown URL, `insert` from an ID
with no server), the model returns an `Err` and leaves the state unchanged.
The code panics there; the model follows what the caller of the RPC sees:
the call fails and nothing is recorded. `insert` computes `sender - 1` on an unsigned integer, so
`sender == 0` underflows. That case is a failure too, like an ID beyond the
end of the list.

## Model

| member | source | states |
|---|---|---|
| Master.Resolve | gfs-lite/src/master.rs:55-56 | an ID names a server exactly when 1 <= id <= number of servers, and then names `chunk_servers[id-1]`; ID 0 names none |
| Master.Registered | gfs-lite/src/master.rs:42-48 | register appends the address at the end, returns the new length as the ID, the ID resolves to that address, earlier IDs resolve as before, the URL map is untouched, the registry invariant is kept |
| Master.Inserted | gfs-lite/src/master.rs:50-62 | for a registered sender, insert maps the URL to the sender's address, overwriting any previous location, and keeps other URLs and the server list; otherwise it fails with UnknownServer; the invariant is kept |
| Master.Removed | gfs-lite/src/master.rs:64-69 | remove drops the URL's location, keeps the other URLs and the server list, does nothing when the URL is unmapped, and keeps the invariant |
| Master.Located | gfs-lite/src/master.rs:31-37 | lookup succeeds exactly when the URL is mapped, returns the stored address, fails with UrlNotFound otherwise, and under the invariant returns a registered server |
| Master.Step | gfs-lite/src/master.rs:30-70 | one RPC: only register changes the server list, lookup changes nothing, a call changes no URL it does not name, and a failed call changes nothing |
| Master.Run | gfs-lite/src/master.rs:30-70 | a sequence of RPCs yields one reply per call |
| Master.RunPreservesConsistency | gfs-lite/src/master.rs:24-27 | after any sequence of calls, every recorded location is a registered server |
| Master.RunKeepsServerIds | gfs-lite/src/master.rs:45 | the server list only grows at its end, so every ID keeps naming the same server |
| Master.RegistrationIds | gfs-lite/src/master.rs:44-47 | successive registrations append exactly their addresses, leave the URL map alone, and the i-th one is answered with the length before it plus i + 1 |
| Master.RegistrationFromEmpty | gfs-lite/src/master.rs:17-18 | from the default state, registrations are answered 1, 2, 3, ..., strictly increasing, the server list is the registered addresses in order, and ID k names the k-th address |
| Master.ReturnedIdIsAccepted | gfs-lite/src/master.rs:46-58 | an ID returned by register is accepted by a later insert, after any intervening calls, and the URL is then located at the registered address |
| Master.LocationPersists | gfs-lite/src/master.rs:58 | a URL's location survives every call that neither inserts nor removes that URL |
| Master.InsertThenLookup | gfs-lite/src/master.rs:31-36 | after a successful insert(sender, url), a lookup(url) answers the sender's address, however many calls that do not write that URL come between |
| Master.NeverInsertedNotFound | gfs-lite/src/master.rs:34-35 | a URL that no call inserts stays unmapped, and lookup of it fails with UrlNotFound |
| Master.LastWriterWins | gfs-lite/src/master.rs:58 | of two inserts of one URL by registered servers, the later one's address is the one looked up |
| Master.GfsMaster.constructor | gfs-lite/src/master.rs:17-27 | the default master has no servers and no locations, and satisfies the invariant |
| Master.GfsMaster.Lookup | gfs-lite/src/master.rs:31-37 | read-only lookup: succeeds exactly when the URL is mapped, with its address, else UrlNotFound; under the invariant the address is a registered server; agrees with Step |
| Master.GfsMaster.Register | gfs-lite/src/master.rs:42-48 | pushes the address, leaves the URL map alone, returns the new length, which indexes the address; keeps the invariant; agrees with Step |
| Master.GfsMaster.Insert | gfs-lite/src/master.rs:50-62 | touches only the URL map; success exactly for 1 <= sender <= len, with url mapped to `chunk_servers[sender-1]`; otherwise UnknownServer and no change; keeps the invariant |
| Master.GfsMaster.Remove | gfs-lite/src/master.rs:64-69 | touches only the URL map, removing the URL; keeps the invariant; agrees with Step |
| Chunk.Stored | gfs-lite/src/chunk.rs:39-42 | get returns Some exactly when the URL is stored, with its chunk, else None |
| Chunk.Store | gfs-lite/src/chunk.rs:44-50 | set returns the previous value, leaves `Some(d)` or nothing under the URL as asked, keeps every other URL, and its key set grows or shrinks by that URL only |
| Chunk.StoreUndo | gfs-lite/src/chunk.rs:44-50 | setting back the value that set returned restores the original store |
| Chunk.DeleteAbsentIsNoop | gfs-lite/src/chunk.rs:48 | deleting an absent URL returns None and changes nothing |
| Chunk.Handle | gfs-lite/src/chunk.rs:39-50 | both get and set answer the value stored before the call; get changes nothing |
| Chunk.Apply | gfs-lite/src/chunk.rs:39-50 | a sequence of calls yields one answer per call |
| Chunk.ApplyMatchesLastWrite | gfs-lite/src/chunk.rs:44-50 | after any sequence of calls, each URL holds what the last set of it wrote, or its old value when none did |
| Chunk.ReplyIsLastWrite | gfs-lite/src/chunk.rs:39-50 | every call's answer is the last write to its URL among the earlier calls (sequential consistency on one server) |
| Chunk.SetThenGet | gfs-lite/src/chunk.rs:39-50 | set(url, c) then get(url) answers c, which covers delete; set p1 then set p2 answers p1 as the previous value, then get answers p2 |
| Chunk.ChunkServer.constructor | gfs-lite/src/chunk.rs:29-35 | new gives an empty chunk map and the given ID |
| Chunk.ChunkServer.Get | gfs-lite/src/chunk.rs:39-42 | read-only get: Some exactly when the URL is stored, with its chunk |
| Chunk.ChunkServer.Set | gfs-lite/src/chunk.rs:44-50 | touches only the chunk map: Some(d) overwrites the URL, None removes it; returns the previous value; myId unchanged |

## Left out

- The `Arc<RwLock<..>>` wrappers and the `read()`/`write()` guards: each operation is one atomic step, so concurrent calls are modelled as some order of steps (`Run`, `Apply`).
- Lock poisoning: the source's `insert` panics while it holds the write guard, which poisons the lock. After that, every later `unwrap()` of a guard in the master would panic too. The model treats the failed insert as a returned error with nothing changed, and the master keeps serving.
- The tarpc `Context` parameters, and the chunk server's `master_client` handle: neither takes part in the logic.
- `SocketAddr` structure and parsing: an address is an opaque value, compared only for equality.
- Master.Inserted, Master.Resolve and Master.GfsMaster.Insert: a 64-bit `usize` is assumed. On a 32-bit target, `sender as usize` truncates the `u64` ID, so an ID of 2^32 or more would alias a registered one and its insert would succeed; the model reports `UnknownServer` for it.
- Master.GfsMaster.Register: the source casts the length to `u64`. The model's IDs are unbounded `nat`s, so wrap-around after 2^64 registrations is not modelled; a list that long cannot exist in memory.
- Periodic inventory sync, the chunk server's startup registration and deduplicated registration: the modelled code has none of them, so no behaviour is invented for them. The stale-until-forget scenario built on the sync is therefore not modelled either.
- gfs-lite/src/bin/chunk_server.rs and gfs-lite/src/bin/master_server.rs: process bootstrap, listeners, accept loops and Ctrl-C handling, which is I/O plumbing with no logic of its own.
