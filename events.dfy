/** Outbound notifications of the matchmaking broker, as plain data. Delivery over
    the transport is not modelled: a handler returns the notifications it would
    emit, in emission order. */
module Events {
  import opened Queue

  /** Payloads of the `error` event. */
  const PEER_ID_REQUIRED: string := "Peer ID is required"
  const ALREADY_IN_QUEUE: string := "Already in queue"

  datatype Option<T> = None | Some(value: T)

  /** The `peerId` field of a `join_queue` payload passes the broker's truthiness
      test: it is present and not the empty string. */
  predicate PeerIdGiven(peerId: Option<PeerId>): (b: bool)
    ensures !b <==> peerId == None || peerId == Some("")
  {
    peerId.Some? && peerId.value != ""
  }

  datatype Role = Host | Guest

  /** The outbound event kinds with the payload fields the broker fills in; the
      constant human-readable `message` of each is left out. */
  datatype Notice =
    | QueueUpdate(position: nat)
    | MatchFound(role: Role, opponentId: PeerId)
    | QueueLeft
    | Timeout
    | Error(message: string)

  /** A notice addressed to one connection. */
  datatype Outbound = Outbound(target: SocketId, notice: Notice)

  /** What pairing `first` (the earlier arrival) with `second` announces: each
      learns its role and the other's peer handle, the host first. */
  function MatchNotices(first: Player, second: Player): (r: seq<Outbound>)
    ensures |r| == 2
    ensures r[0].target == first.socketId && r[0].notice.MatchFound?
    ensures r[0].notice.role == Host && r[0].notice.opponentId == second.peerId
    ensures r[1].target == second.socketId && r[1].notice.MatchFound?
    ensures r[1].notice.role == Guest && r[1].notice.opponentId == first.peerId
  {
    [ Outbound(first.socketId, MatchFound(Host, second.peerId)),
      Outbound(second.socketId, MatchFound(Guest, first.peerId)) ]
  }

  /** The timeout notices the sweep sends for the evicted entries `expired`, in
      order: one per evicted connection that is still in `connected`. */
  function TimeoutNotices(expired: seq<Player>, connected: set<SocketId>): (r: seq<Outbound>)
    ensures |r| <= |expired|
    ensures forall o :: o in r ==> o.notice == Timeout && o.target in connected
  {
    if expired == [] then []
    else
      var last := expired[|expired| - 1];
      var front := expired[..|expired| - 1];
      TimeoutNotices(front, connected)
        + (if last.socketId in connected then [Outbound(last.socketId, Timeout)] else [])
  }

  /** Notices for one more evicted entry extend the notices sent so far. */
  lemma TimeoutNoticesAppend(expired: seq<Player>, p: Player, connected: set<SocketId>)
    ensures TimeoutNotices(expired + [p], connected) ==
              TimeoutNotices(expired, connected)
                + (if p.socketId in connected then [Outbound(p.socketId, Timeout)] else [])
  {
  }

  /** A timeout notice goes to a connection exactly when it is reachable and one
      of the evicted entries is its own. */
  lemma {:induction false} TimeoutNoticesTargets(expired: seq<Player>, connected: set<SocketId>)
    ensures forall o :: o in TimeoutNotices(expired, connected) <==>
              o.notice == Timeout && o.target in connected && o.target in IdsOf(expired)
  {
    if expired != [] {
      var last := expired[|expired| - 1];
      var front := expired[..|expired| - 1];
      TimeoutNoticesTargets(front, connected);
      assert expired == front + [last];
      IdsOfAppend(front, last);
    }
  }

  /** The sweep notifies exactly the connected owners of the stale entries. */
  lemma TimeoutTargets(q: seq<Player>, now: int, connected: set<SocketId>, id: SocketId)
    ensures Outbound(id, Timeout) in TimeoutNotices(Expired(q, now), connected)
            <==> id in connected && exists p :: p in q && p.socketId == id && Stale(p, now)
  {
    var e := Expired(q, now);
    TimeoutNoticesTargets(e, connected);
    if id in IdsOf(e) {
      var p :| p in e && p.socketId == id;
      assert p in q && Stale(p, now);
    }
  }
}
