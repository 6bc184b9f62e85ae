/** The broker's single waiting queue and the handlers that change it: the
    `join_queue`, `leave_queue`, `disconnect` and `heartbeat` events of one
    connection, the pairing step run after every join, and the periodic sweep. */
module Broker {
  import opened Queue
  import opened Events

  class Matchmaker {
    /** Waiting participants, oldest first. */
    var waitingQueue: seq<Player>

    /** No connection waits twice. */
    ghost predicate Valid()
      reads this
    {
      Unique(waitingQueue)
    }

    /** Between events at most one participant waits: pairing runs after every
        join, so a second arrival is matched at once. */
    ghost predicate Settled()
      reads this
    {
      |waitingQueue| <= 1
    }

    constructor ()
      ensures Valid() && Settled()
      ensures waitingQueue == []
    {
      waitingQueue := [];
    }

    /** Removes the entry of `socketId` if there is one. */
    method RemoveFromQueue(socketId: SocketId)
      modifies this
      ensures waitingQueue == Removed(old(waitingQueue), socketId)
    {
      var index := FindIndex(waitingQueue, socketId);
      if index != -1 {
        waitingQueue := waitingQueue[..index] + waitingQueue[index + 1..];
      }
    }

    /** Pairs the two oldest entries, the first as host and the second as guest,
        when at least two are waiting; otherwise changes nothing. */
    method MatchPlayers() returns (out: seq<Outbound>)
      modifies this
      ensures |old(waitingQueue)| < 2 ==> waitingQueue == old(waitingQueue) && out == []
      ensures |old(waitingQueue)| >= 2 ==>
                waitingQueue == old(waitingQueue)[2..] &&
                out == MatchNotices(old(waitingQueue)[0], old(waitingQueue)[1])
      ensures old(Valid()) ==> Valid()
    {
      out := [];
      if |waitingQueue| >= 2 {
        var player1 := waitingQueue[0];
        waitingQueue := waitingQueue[1..];
        var player2 := waitingQueue[0];
        waitingQueue := waitingQueue[1..];
        out := out + [Outbound(player1.socketId, MatchFound(Host, player2.peerId))];
        out := out + [Outbound(player2.socketId, MatchFound(Guest, player1.peerId))];
      }
    }

    /** `join_queue` from `socketId` with payload field `peerId`, received at `now`. */
    method JoinQueue(socketId: SocketId, peerId: Option<PeerId>, now: int)
      returns (out: seq<Outbound>)
      requires Valid()
      modifies this
      ensures Valid()
      ensures old(Settled()) ==> Settled()
      ensures !PeerIdGiven(peerId) ==>
                waitingQueue == old(waitingQueue) &&
                out == [Outbound(socketId, Error(PEER_ID_REQUIRED))]
      ensures PeerIdGiven(peerId) && HasSocket(old(waitingQueue), socketId) ==>
                waitingQueue == old(waitingQueue) &&
                out == [Outbound(socketId, Error(ALREADY_IN_QUEUE))]
      ensures PeerIdGiven(peerId) && !HasSocket(old(waitingQueue), socketId) ==>
                var pushed := old(waitingQueue) + [Player(socketId, peerId.value, now)];
                |out| >= 1 && out[0] == Outbound(socketId, QueueUpdate(|pushed|)) &&
                if |pushed| >= 2 then
                  waitingQueue == pushed[2..] && out[1..] == MatchNotices(pushed[0], pushed[1])
                else
                  waitingQueue == pushed && out[1..] == []
    {
      if !PeerIdGiven(peerId) {
        return [Outbound(socketId, Error(PEER_ID_REQUIRED))];
      }
      var alreadyInQueue := HasSocket(waitingQueue, socketId);
      if alreadyInQueue {
        return [Outbound(socketId, Error(ALREADY_IN_QUEUE))];
      }
      waitingQueue := waitingQueue + [Player(socketId, peerId.value, now)];
      out := [Outbound(socketId, QueueUpdate(|waitingQueue|))];
      var matched := MatchPlayers();
      out := out + matched;
    }

    /** `leave_queue` from `socketId`: removes its entry if any and always confirms. */
    method LeaveQueue(socketId: SocketId) returns (out: seq<Outbound>)
      requires Valid()
      modifies this
      ensures Valid()
      ensures old(Settled()) ==> Settled()
      ensures waitingQueue == Removed(old(waitingQueue), socketId)
      ensures !HasSocket(waitingQueue, socketId)
      ensures out == [Outbound(socketId, QueueLeft)]
    {
      RemoveFromQueue(socketId);
      RemovedDropsId(old(waitingQueue), socketId);
      out := [Outbound(socketId, QueueLeft)];
    }

    /** `disconnect` of `socketId`: removes its entry if any, silently. */
    method Disconnect(socketId: SocketId)
      requires Valid()
      modifies this
      ensures Valid()
      ensures old(Settled()) ==> Settled()
      ensures waitingQueue == Removed(old(waitingQueue), socketId)
      ensures !HasSocket(waitingQueue, socketId)
    {
      RemoveFromQueue(socketId);
      RemovedDropsId(old(waitingQueue), socketId);
    }

    /** `heartbeat` from `socketId` at `now`: refreshes the timestamp of its entry
        if it has one. */
    method Heartbeat(socketId: SocketId, now: int)
      requires Valid()
      modifies this
      ensures Valid()
      ensures old(Settled()) ==> Settled()
      ensures waitingQueue == Refreshed(old(waitingQueue), socketId, now)
    {
      var index := FindIndex(waitingQueue, socketId);
      if index != -1 {
        waitingQueue := waitingQueue[index := waitingQueue[index].(timestamp := now)];
      }
    }

    /** One run of the periodic sweep at time `now`; `connected` holds the
        connections the transport can still reach. Every stale entry is removed,
        and each one whose connection is reachable is told it timed out. */
    method Tick(now: int, connected: set<SocketId>) returns (out: seq<Outbound>)
      requires Valid()
      modifies this
      ensures Valid()
      ensures old(Settled()) ==> Settled()
      ensures waitingQueue == Live(old(waitingQueue), now)
      ensures out == TimeoutNotices(Expired(old(waitingQueue), now), connected)
    {
      var expiredPlayers := Expired(waitingQueue, now);
      ghost var q0 := waitingQueue;
      out := [];
      var i := 0;
      assert IdsOf(expiredPlayers[..0]) == {};
      WithoutAbsent(q0, {});
      while i < |expiredPlayers|
        invariant 0 <= i <= |expiredPlayers|
        invariant waitingQueue == Without(q0, IdsOf(expiredPlayers[..i]))
        invariant out == TimeoutNotices(expiredPlayers[..i], connected)
      {
        var player := expiredPlayers[i];
        ghost var done := expiredPlayers[..i];
        PrefixAppend(expiredPlayers, i);
        RemovedAfterWithout(q0, IdsOf(done), player.socketId);
        RemoveFromQueue(player.socketId);
        if player.socketId in connected {
          out := out + [Outbound(player.socketId, Timeout)];
        }
        IdsOfAppend(done, player);
        TimeoutNoticesAppend(done, player, connected);
        i := i + 1;
      }
      assert expiredPlayers[..i] == expiredPlayers;
      SweepLeavesLive(q0, now);
      WithoutUnique(q0, IdsOf(expiredPlayers));
    }
  }

  /** Growing a prefix by one element appends that element. */
  lemma PrefixAppend<T>(s: seq<T>, i: nat)
    requires i < |s|
    ensures s[..i + 1] == s[..i] + [s[i]]
  {
  }
}
