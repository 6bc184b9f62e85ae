# Matchmaking broker queue, modelled in Dafny

A model of the in-memory matchmaking queue of a PeerJS matchmaking broker
(`matchmaker.js`). Clients connect, send `join_queue` with a peer id, and are
paired two at a time in arrival order: the earlier arrival becomes the host,
the later the guest, and each is sent the other's peer id. Clients may leave,
disconnect, or send heartbeats. A periodic sweep evicts entries that have not
been refreshed for more than `PLAYER_TIMEOUT` = 120000 ms.

The project has three modules and a client module:

- `Queue` (`queue.dfy`): a queue entry `Player(socketId, peerId, timestamp)`,
  the pure reads the broker performs on the queue (`findIndex`, `some`, `find`,
  `filter`) as functions over `seq<Player>`, the specification functions that the
  mutating operations are proved against (`Removed`, `Refreshed`, `Expired`,
  `Live`, with the order-preserving filter `Without` as reference), and the
  lemmas about them.
- `Events` (`events.dfy`): the outbound notifications as data. Each one is an
  `Outbound(target, notice)` addressed to one connection. This module also holds
  the notices a match announces and the notices a sweep sends.
- `Broker` (`broker.dfy`): class `Matchmaker`, which owns the mutable
  `waitingQueue`. It has one method per handler (`JoinQueue`, `LeaveQueue`,
  `Disconnect`, `Heartbeat`), the helpers `RemoveFromQueue` and `MatchPlayers`,
  and the sweep as an explicit `Tick(now, connected)`. Every handler returns the
  notifications it would emit, in emission order (`Disconnect` emits nothing
  and returns nothing). `now` replaces `Date.now()`.
  `connected` is the set of connections the transport can still reach, and
  replaces the lookup in the socket registry. The class invariant `Valid()` says
  that socket ids are unique. `Settled()` says at most one participant waits, and
  every handler preserves it.
- `Scenarios` (`scenarios.dfy`): client methods, verified against the
  handlers' contracts alone. Two arrivals get paired. A lone arrival times
  out, but not at exactly `PLAYER_TIMEOUT`. A heartbeat keeps an entry alive. Duplicate joins and empty
  peer ids are rejected, and `leave_queue` from a stranger is still confirmed.

The sweep handles expired entries in queue order, the order of the `filter`
at matchmaker.js:119. A heartbeat stores the `now` it is given, and the model
does not require `now` to be non-decreasing. The timeout is 120000 ms
(matchmaker.js:21), whatever the comment beside the constant says.

## Model

| member | source | states |
|---|---|---|
| Queue.HasSocket | matchmaker.js:70 | The `some` test holds exactly when the id is among the connections that have an entry. |
| Queue.Stale | matchmaker.js:119 | An entry is stale exactly when its timestamp is before the cutoff `now - PLAYER_TIMEOUT`, so a stale entry is always older than `now`. |
| Queue.FindIndex | matchmaker.js:25 | Returns -1 exactly when no entry has the socket id. Otherwise returns an index whose entry has that id, and no earlier entry has it. |
| Queue.Removed | matchmaker.js:24-30 | If the id is absent, the queue is unchanged. If it is present, the queue is one entry shorter and gains no new entries. Unique ids stay unique. |
| Queue.RemovedIsWithout | matchmaker.js:24-30 | On a queue with unique ids, removal equals filtering out that id. So all other entries are kept in their relative order. |
| Queue.RemovedDropsId | matchmaker.js:24-30 | On a queue with unique ids, the removed id no longer appears. |
| Queue.RemoveIdempotent | matchmaker.js:24-30 | Removing the same id twice has the same effect as removing it once. |
| Queue.Refreshed | matchmaker.js:107-113 | A heartbeat keeps the queue length, and every entry keeps its socket id and peer id in place. Entries of other connections are unchanged. The first entry of the id gets timestamp `now`. An absent id leaves the queue unchanged. Unique ids stay unique. |
| Queue.RefreshedEntries | matchmaker.js:107-113 | On a queue with unique ids, entry i after a heartbeat is entry i with timestamp `now` if it belongs to the sender. Otherwise it is unchanged. |
| Queue.RefreshedSurvivesSweep | matchmaker.js:107-131 | An entry refreshed at `now` is still in the queue after any sweep run at most PLAYER_TIMEOUT ms later. |
| Queue.Expired | matchmaker.js:119 | The expired entries are exactly the queue's entries with `now - timestamp > PLAYER_TIMEOUT`. |
| Queue.Live | matchmaker.js:117-130 | The surviving entries are exactly the queue's entries that are not stale. Survivors plus expired entries account for the whole queue. |
| Queue.RemovedAfterWithout | matchmaker.js:121-124 | One step of the sweep loop: removing one more id from a queue that is already filtered equals filtering by the larger set. |
| Queue.SweepLeavesLive | matchmaker.js:119-124 | On a queue with unique ids, removing the ids of all expired entries leaves exactly the non-stale entries, in order. |
| Events.PeerIdGiven | matchmaker.js:62-67 | A `join_queue` payload is rejected exactly when its `peerId` field is missing or the empty string. |
| Events.MatchNotices | matchmaker.js:41-51 | A match sends two notices. The first entry gets `match_found` as host with the second entry's peer id, and then the second entry gets it as guest with the first entry's peer id. |
| Events.TimeoutNotices | matchmaker.js:125-129 | The sweep sends at most one notice per evicted entry, and every notice is a timeout to a reachable connection. Which connections get one is stated by Events.TimeoutNoticesTargets. |
| Events.TimeoutNoticesTargets | matchmaker.js:125-129 | The sweep sends a timeout notice to a connection exactly when that connection is reachable and one of the evicted entries belongs to it. |
| Events.TimeoutTargets | matchmaker.js:117-130 | A sweep at `now` notifies connection `id` iff `id` is reachable and the queue held a stale entry of `id`. |
| Broker.Matchmaker.constructor | matchmaker.js:20 | The broker starts with an empty queue, which is valid and settled. |
| Broker.Matchmaker.RemoveFromQueue | matchmaker.js:24-30 | The new queue is `Removed(old queue, id)`. |
| Broker.Matchmaker.MatchPlayers | matchmaker.js:33-55 | With fewer than two entries, nothing changes and nothing is emitted. Otherwise the first two entries are removed and the rest stay in order. The first entry gets `match_found` as host with the second's peer id, and the second gets it as guest with the first's peer id. Unique ids stay unique. |
| Broker.Matchmaker.JoinQueue | matchmaker.js:61-92 | A missing or empty peer id gives only the error "Peer ID is required", and the queue is unchanged. An id already in the queue gives only "Already in queue", and the queue is unchanged. Otherwise the entry is appended with timestamp `now`, `queue_update` is sent with the new length, and then the match step runs. Ids stay unique, and a settled queue stays settled. |
| Broker.Matchmaker.LeaveQueue | matchmaker.js:95-98 | The entry is removed if present, and the id is then absent. `queue_left` is always sent to the caller. Ids stay unique, and a settled queue stays settled. |
| Broker.Matchmaker.Disconnect | matchmaker.js:101-104 | The entry is removed if present, the id is then absent, and nothing is emitted. |
| Broker.Matchmaker.Heartbeat | matchmaker.js:107-113 | The new queue is `Refreshed(old queue, id, now)`. Ids stay unique, and a settled queue stays settled. |
| Broker.Matchmaker.Tick | matchmaker.js:117-131 | The new queue is exactly the non-stale entries, in their old order. The notices are one timeout per expired entry whose connection is reachable, in queue order. Ids stay unique, and a settled queue stays settled. |

## Left out

- The HTTP server, the `/health` and `/` endpoints, `server.listen` and the port and environment handling (matchmaker.js:4-17, 133-161). They are plumbing and read-only reporting.
- The socket.io transport, its CORS settings and the delivery of emitted events. A handler returns its notifications as data, and delivery failures cannot roll back queue changes.
- `console.log` calls, which have no behaviour.
- `setInterval` scheduling and `Date.now()`. The sweep is the explicit `Tick`, and the clock is the `now` parameter.
- The constant human-readable `message` strings of `match_found`, `queue_update`, `queue_left` and `timeout`. The `error` messages are kept, because they are the payload that tells the two errors apart.
- JavaScript truthiness of `peerId` is modelled only for strings. A missing field or `""` is rejected. Other falsy values (`0`, `false`, `null`) and non-string peer ids are not modelled.
- A `join_queue` without any payload object throws in the destructuring on line 62. The model has no such input.
- Timestamps are unbounded integers in milliseconds, not double-precision numbers.
- Broker.Matchmaker.Tick: requires unique socket ids, which every handler maintains. On a queue with a duplicate id, the source's removal by id could evict the wrong entry.
- Queue.RemoveIdempotent: requires unique socket ids. On a queue with a duplicate id, a second removal would delete the duplicate.
