/** Client methods of the broker, verified against the handlers' contracts alone:
    two arrivals are paired host/guest, a lone arrival without heartbeats times
    out, and a second join from the same connection is rejected. */
module Scenarios {
  import opened Queue
  import opened Events
  import opened Broker

  method PairTwoArrivals(t: int)
  {
    var m := new Matchmaker();
    var out1 := m.JoinQueue("conn1", Some("peerA"), t);
    assert out1 == [Outbound("conn1", QueueUpdate(1))];
    var out2 := m.JoinQueue("conn2", Some("peerB"), t + 5);
    assert out2 == [ Outbound("conn2", QueueUpdate(2)),
                     Outbound("conn1", MatchFound(Host, "peerB")),
                     Outbound("conn2", MatchFound(Guest, "peerA")) ];
    assert m.waitingQueue == [];
  }

  method LoneArrivalTimesOut(t: int)
  {
    var m := new Matchmaker();
    var _ := m.JoinQueue("conn1", Some("peerA"), t);
    var early := m.Tick(t + PLAYER_TIMEOUT, {"conn1"});
    assert early == [] && |m.waitingQueue| == 1;
    var late := m.Tick(t + PLAYER_TIMEOUT + 10000, {"conn1"});
    assert late == [Outbound("conn1", Timeout)];
    assert m.waitingQueue == [];
  }

  method HeartbeatKeepsEntry(t: int)
  {
    var m := new Matchmaker();
    var _ := m.JoinQueue("conn1", Some("peerA"), t);
    m.Heartbeat("conn1", t + 100000);
    var swept := m.Tick(t + PLAYER_TIMEOUT + 10000, {"conn1"});
    assert swept == [] && m.waitingQueue == [Player("conn1", "peerA", t + 100000)];
  }

  method DuplicateJoinRejected(t: int)
  {
    var m := new Matchmaker();
    var _ := m.JoinQueue("conn1", Some("peerA"), t);
    var again := m.JoinQueue("conn1", Some("peerA"), t + 1);
    assert again == [Outbound("conn1", Error(ALREADY_IN_QUEUE))];
    assert m.waitingQueue == [Player("conn1", "peerA", t)];
    var empty := m.JoinQueue("conn2", Some(""), t + 2);
    assert empty == [Outbound("conn2", Error(PEER_ID_REQUIRED))];
    var left := m.LeaveQueue("conn3");
    assert left == [Outbound("conn3", QueueLeft)] && |m.waitingQueue| == 1;
  }
}
