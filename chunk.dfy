/** The gfs-lite chunk server: a per-server map from URL to chunk data, and
    the server's own ID as handed out by the master.

    As for the master, the two operations are first given as functions on the
    map, with a trace semantics (`Apply`) over a sequence of calls; the class
    `ChunkServer` holds the state the source updates in place. */
module Chunk {
  import opened Wrappers
  import Master

  /** `get`: the chunk stored under `url`, if any. */
  function Stored(chunks: map<string, string>, url: string): (r: Option<string>)
    ensures r.Some? <==> url in chunks
    ensures r.Some? ==> r.value == chunks[url]
  {
    if url in chunks then Some(chunks[url]) else None
  }

  /** `set`: `Some(data)` stores or overwrites, `None` deletes; either way the
      value displaced from `url` is handed back, and no other URL changes. */
  function Store(chunks: map<string, string>, url: string, chunk: Option<string>)
    : (res: (map<string, string>, Option<string>))
    ensures res.1 == Stored(chunks, url)
    ensures Stored(res.0, url) == chunk
    ensures forall u :: u != url ==> Stored(res.0, u) == Stored(chunks, u)
    ensures res.0.Keys == if chunk.Some? then chunks.Keys + {url} else chunks.Keys - {url}
  {
    match chunk
    case Some(data) => (chunks[url := data], Stored(chunks, url))
    case None => (chunks - {url}, Stored(chunks, url))
  }

  /** Setting back the value that `set` returned restores the store exactly. */
  lemma StoreUndo(chunks: map<string, string>, url: string, chunk: Option<string>)
    ensures Store(Store(chunks, url, chunk).0, url, Store(chunks, url, chunk).1).0 == chunks
  {
  }

  /** Deleting a URL that is not stored is a no-op that returns `None`. */
  lemma DeleteAbsentIsNoop(chunks: map<string, string>, url: string)
    requires url !in chunks
    ensures Store(chunks, url, None) == (chunks, None)
  {
    assert chunks - {url} == chunks;
  }

  /** The calls a chunk server serves. */
  datatype ChunkCall = GetCall(url: string) | SetCall(url: string, chunk: Option<string>)

  /** One call, handled atomically under the server's lock; both calls answer
      the value stored under their URL before the call. */
  function Handle(chunks: map<string, string>, c: ChunkCall): (res: (map<string, string>, Option<string>))
    ensures res.1 == Stored(chunks, c.url)
    ensures c.GetCall? ==> res.0 == chunks
  {
    match c
    case GetCall(url) => (chunks, Stored(chunks, url))
    case SetCall(url, chunk) => Store(chunks, url, chunk)
  }

  /** A sequence of calls applied one after the other: the final store and the
      answer to each call. */
  function Apply(chunks: map<string, string>, calls: seq<ChunkCall>): (res: (map<string, string>, seq<Option<string>>))
    ensures |res.1| == |calls|
    decreases calls
  {
    if calls == [] then (chunks, [])
    else
      var (next, answer) := Handle(chunks, calls[0]);
      var (final, answers) := Apply(next, calls[1..]);
      (final, [answer] + answers)
  }

  /** Reference definition: the chunk written by the last `set` of `url` in
      `calls`, or `init` when no call sets `url`. */
  function LastWrite(calls: seq<ChunkCall>, url: string, init: Option<string>): Option<string>
    decreases |calls|
  {
    if calls == [] then init
    else
      var c := calls[|calls| - 1];
      if c.SetCall? && c.url == url then c.chunk
      else LastWrite(calls[..|calls| - 1], url, init)
  }

  /** Applying two traces one after the other is applying their concatenation. */
  lemma {:induction false} ApplyAppend(chunks: map<string, string>, a: seq<ChunkCall>, b: seq<ChunkCall>)
    ensures Apply(chunks, a + b).0 == Apply(Apply(chunks, a).0, b).0
    ensures Apply(chunks, a + b).1 == Apply(chunks, a).1 + Apply(Apply(chunks, a).0, b).1
    decreases a
  {
    if a == [] {
      assert a + b == b;
    } else {
      assert (a + b)[0] == a[0];
      assert (a + b)[1..] == a[1..] + b;
      ApplyAppend(Handle(chunks, a[0]).0, a[1..], b);
    }
  }

  /** After any sequence of calls, each URL holds what its last `set` wrote,
      or what it held before when no call set it. */
  lemma {:induction false} ApplyMatchesLastWrite(chunks: map<string, string>, calls: seq<ChunkCall>, url: string)
    ensures Stored(Apply(chunks, calls).0, url) == LastWrite(calls, url, Stored(chunks, url))
    decreases |calls|
  {
    if calls != [] {
      var prefix := calls[..|calls| - 1];
      var c := calls[|calls| - 1];
      assert calls == prefix + [c];
      ApplyAppend(chunks, prefix, [c]);
      ApplyMatchesLastWrite(chunks, prefix, url);
      var mid := Apply(chunks, prefix).0;
      assert Apply(mid, [c]).0 == Handle(mid, c).0;
    }
  }

  /** Sequential consistency on one server: the i-th call (a `get`, or the
      previous value returned by a `set`) observes the last write to its URL
      among the calls before it. */
  lemma ReplyIsLastWrite(chunks: map<string, string>, calls: seq<ChunkCall>, i: nat)
    requires i < |calls|
    ensures Apply(chunks, calls).1[i] == LastWrite(calls[..i], calls[i].url, Stored(chunks, calls[i].url))
  {
    assert calls == calls[..i] + calls[i..];
    ApplyAppend(chunks, calls[..i], calls[i..]);
    ApplyMatchesLastWrite(chunks, calls[..i], calls[i].url);
    var mid := Apply(chunks, calls[..i]).0;
    assert Apply(mid, calls[i..]).1[0] == Handle(mid, calls[i]).1;
  }

  /** Round trips: `set(url, c)` then `get(url)` answers `c`; storing `p1`
      then `p2` answers `p1` as the previous value and `p2` on the next get. */
  lemma SetThenGet(chunks: map<string, string>, url: string, c: Option<string>, p1: string, p2: string)
    ensures Apply(chunks, [SetCall(url, c), GetCall(url)]).1[1] == c
    ensures Apply(chunks, [SetCall(url, Some(p1)), SetCall(url, Some(p2)), GetCall(url)]).1[1..]
              == [Some(p1), Some(p2)]
  {
    var one := [SetCall(url, c), GetCall(url)];
    ReplyIsLastWrite(chunks, one, 1);
    assert one[..1] == [SetCall(url, c)];
    var two := [SetCall(url, Some(p1)), SetCall(url, Some(p2)), GetCall(url)];
    ReplyIsLastWrite(chunks, two, 1);
    ReplyIsLastWrite(chunks, two, 2);
    assert two[..1] == [SetCall(url, Some(p1))];
    assert two[..2] == [SetCall(url, Some(p1)), SetCall(url, Some(p2))];
  }

  /** The chunk server's lock-guarded `Inner`. The RPC handle to the master
      that the source keeps beside these fields is never used and is left out. */
  class ChunkServer {
    var chunks: map<string, string>
    var myId: Master.ServerId

    /** `ChunkServer::new`: an empty store and the given ID. */
    constructor (myId: Master.ServerId)
      ensures chunks == map[]
      ensures this.myId == myId
    {
      chunks := map[];
      this.myId := myId;
    }

    /** `get`: read-only. */
    method Get(url: string) returns (r: Option<string>)
      ensures r.Some? <==> url in chunks
      ensures r.Some? ==> r.value == chunks[url]
      ensures (chunks, r) == Handle(chunks, GetCall(url))
    {
      r := if url in chunks then Some(chunks[url]) else None;
    }

    /** `set`: `HashMap::insert` or `HashMap::remove`, returning the displaced
        value; `myId` and every other URL are left alone. */
    method Set(url: string, chunk: Option<string>) returns (previous: Option<string>)
      modifies this`chunks
      ensures previous == Stored(old(chunks), url)
      ensures chunk.Some? ==> chunks == old(chunks)[url := chunk.value]
      ensures chunk.None? ==> chunks == old(chunks) - {url}
      ensures myId == old(myId)
      ensures (chunks, previous) == Handle(old(chunks), SetCall(url, chunk))
    {
      previous := if url in chunks then Some(chunks[url]) else None;
      match chunk {
        case Some(data) => chunks := chunks[url := data];
        case None => chunks := chunks - {url};
      }
    }
  }
}
