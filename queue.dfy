/** The waiting queue of the matchmaking broker, as a value: its entries, the
    pure reads the broker performs on it (findIndex, some, find, filter) and the
    specification functions that the broker's mutating operations are proved
    against. */
module Queue {

  type SocketId = string
  type PeerId = string

  /** Milliseconds an entry may go without a heartbeat before the sweep evicts it. */
  const PLAYER_TIMEOUT: int := 120000

  /** One waiting participant: its transport connection, the opaque peer handle it
      supplied, and the time (ms) it joined or last sent a heartbeat. */
  datatype Player = Player(socketId: SocketId, peerId: PeerId, timestamp: int)

  /** Some entry of `q` belongs to connection `id`. */
  predicate HasSocket(q: seq<Player>, id: SocketId): (b: bool)
    ensures b <==> id in IdsOf(q)
  {
    exists i :: 0 <= i < |q| && q[i].socketId == id
  }

  /** No connection appears twice in `q`. */
  predicate Unique(q: seq<Player>)
  {
    forall i, j :: 0 <= i < j < |q| ==> q[i].socketId != q[j].socketId
  }

  /** The connections that have an entry in `q`. */
  function IdsOf(q: seq<Player>): set<SocketId>
  {
    set p | p in q :: p.socketId
  }

  /** Appending an entry adds its connection to the connections of the queue. */
  lemma IdsOfAppend(q: seq<Player>, p: Player)
    ensures IdsOf(q + [p]) == IdsOf(q) + {p.socketId}
  {
  }

  /** Index of the first entry of connection `id`, or -1 when there is none. */
  function FindIndex(q: seq<Player>, id: SocketId): (r: int)
    ensures -1 <= r < |q|
    ensures r == -1 <==> !HasSocket(q, id)
    ensures 0 <= r ==> q[r].socketId == id
    ensures forall j :: 0 <= j < r ==> q[j].socketId != id
  {
    if q == [] then -1
    else if q[0].socketId == id then 0
    else
      var k := FindIndex(q[1..], id);
      if k == -1 then -1 else k + 1
  }

  /** The queue after removing the first entry of connection `id`; a no-op when
      the connection has no entry. */
  function Removed(q: seq<Player>, id: SocketId): (r: seq<Player>)
    ensures !HasSocket(q, id) ==> r == q
    ensures HasSocket(q, id) ==> |r| == |q| - 1
    ensures forall p :: p in r ==> p in q
    ensures Unique(q) ==> Unique(r)
  {
    var i := FindIndex(q, id);
    if i == -1 then q else q[..i] + q[i + 1..]
  }

  /** The entries of `q` whose connection is not in `ids`, in their original order. */
  function Without(q: seq<Player>, ids: set<SocketId>): (r: seq<Player>)
    ensures forall p :: p in r <==> p in q && p.socketId !in ids
    ensures |r| <= |q|
  {
    if q == [] then []
    else if q[0].socketId in ids then Without(q[1..], ids)
    else [q[0]] + Without(q[1..], ids)
  }

  /** The queue after a heartbeat from `id` at time `now`: the first entry of that
      connection gets `now` as its timestamp; nothing else changes. */
  function Refreshed(q: seq<Player>, id: SocketId, now: int): (r: seq<Player>)
    ensures |r| == |q|
    ensures forall i :: 0 <= i < |q| ==>
              r[i].socketId == q[i].socketId && r[i].peerId == q[i].peerId
    ensures forall i :: 0 <= i < |q| && q[i].socketId != id ==> r[i] == q[i]
    ensures HasSocket(q, id) ==> r[FindIndex(q, id)].timestamp == now
    ensures !HasSocket(q, id) ==> r == q
    ensures Unique(q) ==> Unique(r)
  {
    var i := FindIndex(q, id);
    if i == -1 then q else q[i := q[i].(timestamp := now)]
  }

  /** An entry is stale at `now` when strictly more than PLAYER_TIMEOUT ms have
      passed since its timestamp. */
  predicate Stale(p: Player, now: int): (b: bool)
    ensures b ==> p.timestamp < now
    ensures b <==> p.timestamp < now - PLAYER_TIMEOUT
  {
    now - p.timestamp > PLAYER_TIMEOUT
  }

  /** The stale entries of `q`, in queue order. */
  function Expired(q: seq<Player>, now: int): (r: seq<Player>)
    ensures forall p :: p in r <==> p in q && Stale(p, now)
  {
    if q == [] then []
    else if Stale(q[0], now) then [q[0]] + Expired(q[1..], now)
    else Expired(q[1..], now)
  }

  /** The entries of `q` that are not stale at `now`, in queue order. */
  function Live(q: seq<Player>, now: int): (r: seq<Player>)
    ensures forall p :: p in r <==> p in q && !Stale(p, now)
    ensures |r| + |Expired(q, now)| == |q|
  {
    if q == [] then []
    else if Stale(q[0], now) then Live(q[1..], now)
    else [q[0]] + Live(q[1..], now)
  }

  // Removal

  /** On a queue without duplicate connections, removing `id` is the same as
      filtering out every entry of `id`: the other entries keep their order. */
  lemma {:induction false} RemovedIsWithout(q: seq<Player>, id: SocketId)
    requires Unique(q)
    ensures Removed(q, id) == Without(q, {id})
  {
    if q != [] {
      var t := q[1..];
      assert Unique(t);
      if q[0].socketId == id {
        forall p | p in t ensures p.socketId !in {id} {
          var m :| 0 <= m < |t| && t[m] == p;
          assert q[m + 1] == p;
        }
        WithoutAbsent(t, {id});
        DeleteAt(q, 0);
      } else {
        RemovedIsWithout(t, id);
        RemovedCons(q, id);
      }
    }
  }

  /** Removal of a connection other than the head's works on the tail. */
  lemma RemovedCons(q: seq<Player>, id: SocketId)
    requires q != [] && q[0].socketId != id
    ensures Removed(q, id) == [q[0]] + Removed(q[1..], id)
  {
    var t := q[1..];
    var k := FindIndex(t, id);
    assert FindIndex(q, id) == if k == -1 then -1 else k + 1;
    if k == -1 {
      assert q == [q[0]] + t;
    } else {
      DeleteAt(q, k + 1);
    }
  }

  /** Deleting position `i` of a sequence, seen from its head. */
  lemma DeleteAt<T>(q: seq<T>, i: nat)
    requires i < |q|
    ensures q[..i] + q[i + 1..] ==
              if i == 0 then q[1..] else [q[0]] + (q[1..][..i - 1] + q[1..][i..])
  {
    if i > 0 {
      assert q[..i] == [q[0]] + q[1..][..i - 1];
      assert q[i + 1..] == q[1..][i..];
    }
  }

  /** Filtering by a set that no connection of `q` is in leaves `q` as it was. */
  lemma {:induction false} WithoutAbsent(q: seq<Player>, ids: set<SocketId>)
    requires forall p :: p in q ==> p.socketId !in ids
    ensures Without(q, ids) == q
  {
    if q != [] {
      assert q[0] in q;
      assert forall p :: p in q[1..] ==> p in q;
      WithoutAbsent(q[1..], ids);
    }
  }

  /** After removal from a queue without duplicates, the connection is gone. */
  lemma RemovedDropsId(q: seq<Player>, id: SocketId)
    requires Unique(q)
    ensures !HasSocket(Removed(q, id), id)
  {
  }

  /** Removing the same connection twice has the effect of removing it once. */
  lemma RemoveIdempotent(q: seq<Player>, id: SocketId)
    requires Unique(q)
    ensures Removed(Removed(q, id), id) == Removed(q, id)
  {
  }

  // Heartbeat

  /** On a queue without duplicates, a heartbeat from `id` refreshes exactly the
      entry of `id` and leaves every other entry as it was. */
  lemma RefreshedEntries(q: seq<Player>, id: SocketId, now: int, i: int)
    requires Unique(q)
    requires 0 <= i < |q|
    ensures Refreshed(q, id, now)[i] ==
              if q[i].socketId == id then q[i].(timestamp := now) else q[i]
  {
  }

  /** An entry refreshed at `now` survives every sweep run within PLAYER_TIMEOUT
      ms of that heartbeat. */
  lemma RefreshedSurvivesSweep(q: seq<Player>, id: SocketId, now: int, later: int)
    requires HasSocket(q, id)
    requires later - now <= PLAYER_TIMEOUT
    ensures HasSocket(Live(Refreshed(q, id, now), later), id)
  {
    var r := Refreshed(q, id, now);
    var k := FindIndex(q, id);
    assert r[k] in r && !Stale(r[k], later);
    var l := Live(r, later);
    assert r[k] in l;
    var j :| 0 <= j < |l| && l[j] == r[k];
  }

  // Sweep

  /** Filtering twice is filtering once by the union of the two sets. */
  lemma {:induction false} WithoutWithout(q: seq<Player>, s: set<SocketId>, t: set<SocketId>)
    ensures Without(Without(q, s), t) == Without(q, s + t)
  {
    if q != [] {
      WithoutWithout(q[1..], s, t);
    }
  }

  /** Filtering a queue without duplicates keeps it without duplicates. */
  lemma {:induction false} WithoutUnique(q: seq<Player>, ids: set<SocketId>)
    requires Unique(q)
    ensures Unique(Without(q, ids))
  {
    if q != [] {
      var t := q[1..];
      WithoutUnique(t, ids);
      if q[0].socketId !in ids {
        var w := Without(t, ids);
        forall j | 0 <= j < |w| ensures w[j].socketId != q[0].socketId {
          assert w[j] in w;
          var m :| 0 <= m < |t| && t[m] == w[j];
          assert q[m + 1] == t[m];
        }
      }
    }
  }

  /** One sweep step: removing one more connection from a filtered queue extends
      the filter by that connection. */
  lemma RemovedAfterWithout(q: seq<Player>, ids: set<SocketId>, id: SocketId)
    requires Unique(q)
    ensures Removed(Without(q, ids), id) == Without(q, ids + {id})
  {
    WithoutUnique(q, ids);
    RemovedIsWithout(Without(q, ids), id);
    WithoutWithout(q, ids, {id});
  }

  /** Filtering by two sets that agree on every connection of `q` gives the same queue. */
  lemma {:induction false} WithoutAgree(q: seq<Player>, s: set<SocketId>, t: set<SocketId>)
    requires forall p :: p in q ==> (p.socketId in s <==> p.socketId in t)
    ensures Without(q, s) == Without(q, t)
  {
    if q != [] {
      assert q[0] in q;
      assert forall p :: p in q[1..] ==> p in q;
      WithoutAgree(q[1..], s, t);
    }
  }

  /** On a queue without duplicates, filtering out the connections of the stale
      entries leaves exactly the entries that are not stale: the sweep evicts the
      stale entries and nothing else. */
  lemma {:induction false} SweepLeavesLive(q: seq<Player>, now: int)
    requires Unique(q)
    ensures Without(q, IdsOf(Expired(q, now))) == Live(q, now)
  {
    if q != [] {
      var t := q[1..];
      assert Unique(t);
      SweepLeavesLive(t, now);
      var head := q[0];
      var e := IdsOf(Expired(q, now));
      var et := IdsOf(Expired(t, now));
      forall p | p in Expired(t, now) ensures p.socketId != head.socketId {
        var m :| 0 <= m < |t| && t[m] == p;
        assert q[m + 1] == p;
      }
      assert head.socketId !in et;
      assert e == if Stale(head, now) then {head.socketId} + et else et by {
        assert Expired(q, now) ==
          if Stale(head, now) then [head] + Expired(t, now) else Expired(t, now);
      }
      forall p | p in t ensures p.socketId in e <==> p.socketId in et {
        var m :| 0 <= m < |t| && t[m] == p;
        assert q[m + 1] == p;
      }
      WithoutAgree(t, e, et);
    }
  }
}
