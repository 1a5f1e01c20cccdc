// The two-party call of the README walked through on the coordinator:
// two clients connect and register, one calls the other, the call is
// accepted, and the caller's client disconnects.

module Scenario {
  import opened Signaling

  /** Clients c1 and c2 connected, with users u1 and u2 registered on them. */
  method TwoClients() returns (c: Coordinator)
    ensures fresh(c) && c.Valid()
    ensures c.sockets == {"c1", "c2"} && c.rooms == map[]
    ensures c.connectedUsers == map["u1" := "c1", "u2" := "c2"] && c.users == ["u1", "u2"]
    ensures c.activeRooms == map[] && c.roomOrder == []
  {
    c := new Coordinator();
    c.Connect("c1");
    c.Connect("c2");
    c.Register("c1", "u1");
    c.Register("c2", "u2");
  }

  /** What `disconnect` of c1 computes once u1 and u2 share call room1. */
  lemma CallerDropsOut(rooms: Rooms)
    ensures FirstOwner(["u1", "u2"], map["u1" := "c1", "u2" := "c2"], "c1") == 0
    ensures Remove(["u1", "u2"], "u1") == ["u2"]
    ensures map["u1" := "c1", "u2" := "c2"] - {"u1"} == map["u2" := "c2"]
    ensures DropParticipant(map["room1" := {"u1", "u2"}], "u1") == map[]
    ensures KeepRooms(["room1"], map["room1" := {"u1", "u2"}], "u1") == []
    ensures Notices(["room1"], map["room1" := {"u1", "u2"}], "u1", rooms)
            == [Emit(ToRoom("room1"), MembersOf(rooms, "room1"), PeerDisconnected("u1"))]
  {
    assert {"u1", "u2"} - {"u1"} == {"u2"};
    assert ["room1"][..0] == [];
    assert ["u1", "u2"][1..] == ["u2"] && ["u2"][1..] == [];
  }

  /** u1 calls u2 in room1 and u2 accepts from c2. */
  method InCall() returns (c: Coordinator, incoming: seq<Emit>, accepted: seq<Emit>)
    ensures fresh(c) && c.Valid()
    ensures c.sockets == {"c1", "c2"} && c.rooms == map["room1" := {"c1", "c2"}]
    ensures c.connectedUsers == map["u1" := "c1", "u2" := "c2"] && c.users == ["u1", "u2"]
    ensures c.activeRooms == map["room1" := {"u1", "u2"}] && c.roomOrder == ["room1"]
    ensures incoming == [Emit(ToSocket("c2"), {"c2"}, IncomingCall("u1", "room1"))]
    ensures accepted == [Emit(ToRoom("room1"), {"c1", "c2"}, CallAccepted("room1"))]
  {
    c := TwoClients();
    incoming := c.InitiateCall("u1", "u2", "room1");
    accepted := c.AcceptCall("c2", "u1", "u2", "room1");
    assert MembersOf(c.rooms, "room1") == {"c1", "c2"};
    forall q | q in c.rooms ensures q == "room1" {
      assert MembersOf(c.rooms, q) != {};
    }
    assert c.rooms == map["room1" := MembersOf(c.rooms, "room1")];
  }

  /**
   * c2 is told of the incoming call, both clients are told it was accepted,
   * c2 is told that u1 dropped out, and the call is over for the coordinator.
   */
  method CallScenario() returns (c: Coordinator, incoming: seq<Emit>, accepted: seq<Emit>, dropped: seq<Emit>)
    ensures c.activeRooms == map[] && c.roomOrder == []
    ensures c.connectedUsers == map["u2" := "c2"] && c.users == ["u2"]
    ensures MembersOf(c.rooms, "room1") == {"c2"}
    ensures incoming == [Emit(ToSocket("c2"), {"c2"}, IncomingCall("u1", "room1"))]
    ensures accepted == [Emit(ToRoom("room1"), {"c1", "c2"}, CallAccepted("room1"))]
    ensures dropped == [Emit(ToRoom("room1"), {"c2"}, PeerDisconnected("u1"))]
  {
    c, incoming, accepted := InCall();
    CallerDropsOut(LeaveAll(c.rooms, "c1"));
    dropped := c.Disconnect("c1");
  }
}
