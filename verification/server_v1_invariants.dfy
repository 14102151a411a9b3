/** Properties of `api-v1/index.js` that relate several requests: request
    sequences from fresh tables, idempotence, last-write-wins, and the
    consequence of no handler ever recording a room in a position row. */
module ServerV1Invariants {
  import opened Common
  import opened Membership
  import opened ServerV1

  predicate AllDrawsInRange(reqs: seq<Request>)
  {
    forall i :: 0 <= i < |reqs| ==> DrawInRange(reqs[i])
  }

  /** The tables after handling `reqs` in order. */
  function Run(s: State, reqs: seq<Request>): State
    requires AllDrawsInRange(reqs)
    decreases |reqs|
  {
    if |reqs| == 0 then s else Run(Step(s, reqs[0]).state, reqs[1..])
  }

  /** No position row names a room. */
  predicate Untagged(s: State)
  {
    forall p :: p in s.positions ==> s.positions[p].roomCode.None?
  }

  /** Since no handler writes a non-NULL room code, rows stay untagged. */
  lemma {:induction false} RunKeepsUntagged(s: State, reqs: seq<Request>)
    requires Untagged(s) && AllDrawsInRange(reqs)
    ensures Untagged(Run(s, reqs))
    decreases |reqs|
  {
    if |reqs| > 0 {
      var t := Step(s, reqs[0]).state;
      assert NoTagWritten(s, t);
      assert Untagged(t);
      RunKeepsUntagged(t, reqs[1..]);
    }
  }

  /** Starting from fresh tables, leave-room can never succeed: it answers
      403 without an id and 400 with one, and changes nothing. */
  lemma LeaveNeverSucceedsFromFresh(reqs: seq<Request>, playerId: Option<string>)
    requires AllDrawsInRange(reqs)
    ensures var s := Run(Fresh, reqs);
      Step(s, LeaveRoom(playerId)) ==
        Outcome(Failure(if LoggedIn(playerId) then BadRequest else Forbidden), s)
  {
    RunKeepsUntagged(Fresh, reqs);
  }

  /** The scenario that shows it: a player who has a position row creates
      and joins a room, is listed in it, and is still refused by leave-room. */
  lemma JoinThenLeaveRefused()
    ensures
      var alice := Some("alice");
      var s1 := Step(Fresh, SignalMovement(alice, Some(1.0), Some(2.0), Some(3.0))).state;
      var s2 := Step(s1, CreateRoom(Some("1234"), 0)).state;
      var s3 := Step(s2, JoinRoom(alice, Some("1234"))).state;
      && "alice" in Decode(s3.rooms["1234"])
      && Step(s3, LeaveRoom(alice)).reply == Failure(BadRequest)
  {
    var alice := Some("alice");
    var s1 := Step(Fresh, SignalMovement(alice, Some(1.0), Some(2.0), Some(3.0))).state;
    assert s1.positions == map["alice" := PositionRow(Some(1.0), Some(2.0), Some(3.0), None)];
    var s2 := Step(s1, CreateRoom(Some("1234"), 0)).state;
    assert s2.rooms == map["1234" := ""];
    var s3 := Step(s2, JoinRoom(alice, Some("1234"))).state;
    assert Decode(s3.rooms["1234"]) == [] + [ "alice" ];
    assert s3.positions == s1.positions;
  }

  /** The corrected join-room makes join followed by leave work: the player
      is removed from the room again and the row's room code is cleared. */
  lemma RecordingJoinThenLeave(s: State, id: string, code: string)
    requires id != "" && Comma !in id && code != ""
    requires code in s.rooms && id in s.positions
    requires Without(Decode(s.rooms[code]), id) != [""]
    ensures
      var joined := JoinRoomRecordingStep(s, Some(id), Some(code)).state;
      var left := LeaveRoomStep(joined, Some(id));
      && left.reply == Message
      && Decode(left.state.rooms[code]) == Without(Decode(s.rooms[code]), id)
      && left.state.positions[id] == s.positions[id].(roomCode := None)
  {
    var before := Decode(s.rooms[code]);
    var joined := JoinRoomRecordingStep(s, Some(id), Some(code)).state;
    assert Tagged(joined, id);
    if id !in before {
      assert Decode(joined.rooms[code]) == before + [id];
      WithoutAppended(before, id);
    }
  }

  // ---------------------------------------------------------------------
  // Room membership stays well formed

  /** Members are non-empty ids, each listed once. */
  predicate MembersOk(xs: seq<string>)
  {
    "" !in xs && Distinct(xs)
  }

  predicate RoomsOk(s: State)
  {
    forall c :: c in s.rooms ==> MembersOk(Decode(s.rooms[c]))
  }

  /** The request joins with an id free of commas, if it joins at all. */
  predicate CommaFreeJoin(req: Request)
  {
    req.JoinRoom? && req.playerId.Some? ==> Comma !in req.playerId.value
  }

  lemma StepKeepsRoomsOk(s: State, req: Request)
    requires RoomsOk(s) && DrawInRange(req) && CommaFreeJoin(req)
    ensures RoomsOk(Step(s, req).state)
  {
    var t := Step(s, req).state;
    match req
    case JoinRoom(p, c) =>
      if LoggedIn(p) && Truthy(c) && c.value in s.rooms && p.value !in Decode(s.rooms[c.value]) {
        var before := Decode(s.rooms[c.value]);
        var after := before + [p.value];
        assert Decode(t.rooms[c.value]) == after;
        forall i, j | 0 <= i < j < |after|
          ensures after[i] != after[j]
        {
          if j == |before| {
            assert after[i] == before[i];
          }
        }
      }
    case LeaveRoom(p) =>
      if LoggedIn(p) && Tagged(s, p.value) && s.positions[p.value].roomCode.value in s.rooms {
        var code := s.positions[p.value].roomCode.value;
        WithoutDistinct(Decode(s.rooms[code]), p.value);
      }
    case _ =>
  }

  /** With comma-free ids, every room's members stay distinct and non-empty. */
  lemma {:induction false} RunKeepsRoomsOk(s: State, reqs: seq<Request>)
    requires RoomsOk(s) && AllDrawsInRange(reqs)
    requires forall i :: 0 <= i < |reqs| ==> CommaFreeJoin(reqs[i])
    ensures RoomsOk(Run(s, reqs))
    decreases |reqs|
  {
    if |reqs| > 0 {
      StepKeepsRoomsOk(s, reqs[0]);
      RunKeepsRoomsOk(Step(s, reqs[0]).state, reqs[1..]);
    }
  }

  // ---------------------------------------------------------------------
  // Two-request properties

  /** A room just created under a supplied code can be joined, and then
      lists exactly the joining player. */
  lemma CreateThenJoin(s: State, code: string, id: string, draw: int)
    requires code != "" && code !in s.rooms && 0 <= draw < 9000
    requires id != "" && Comma !in id
    ensures
      var created := CreateRoomStep(s, Some(code), draw);
      var joined := JoinRoomStep(created.state, Some(id), Some(code));
      && created.reply == Created(code)
      && joined.reply == Message
      && Decode(joined.state.rooms[code]) == [id]
  {
  }

  /** Creating a room under a code already taken answers 500, and the room
      keeps its members. */
  lemma CreateTwiceFails(s: State, code: string, d1: int, d2: int)
    requires code != "" && 0 <= d1 < 9000 && 0 <= d2 < 9000
    ensures
      var first := CreateRoomStep(s, Some(code), d1).state;
      CreateRoomStep(first, Some(code), d2) == Outcome(Failure(ServerError), first)
  {
  }

  /** Joining the same room twice leaves the tables as joining once, for an
      id without commas. */
  lemma JoinIdempotent(s: State, playerId: Option<string>, roomCode: Option<string>)
    requires playerId.Some? ==> Comma !in playerId.value
    ensures
      var once := JoinRoomStep(s, playerId, roomCode).state;
      JoinRoomStep(once, playerId, roomCode).state == once
  {
  }

  /** An id holding a comma is stored as several members, so joining again
      appends it a second time. */
  lemma JoinWithCommaNotIdempotent()
    ensures
      var s := State(map["r" := ""], map[]);
      var once := JoinRoomStep(s, Some("a,b"), Some("r")).state;
      var twice := JoinRoomStep(once, Some("a,b"), Some("r")).state;
      && Decode(once.rooms["r"]) == ["a", "b"]
      && Decode(twice.rooms["r"]) == ["a", "b", "a", "b"]
  {
    assert Split("b") == ["b"] by { SplitNoComma("b"); }
    assert Split("a") == ["a"] by { SplitNoComma("a"); }
    assert Split("a,b") == ["a", "b"] by { SplitComma("a", "b"); assert "a,b" == "a" + [Comma] + "b"; }
  }

  /** Two movement signals leave the same tables as the second alone. */
  lemma SignalLastWriteWins(s: State, playerId: Option<string>, x1: Coord, y1: Coord, z1: Coord,
                            x2: Coord, y2: Coord, z2: Coord)
    ensures
      var first := SignalMovementStep(s, playerId, x1, y1, z1).state;
      SignalMovementStep(first, playerId, x2, y2, z2) == SignalMovementStep(s, playerId, x2, y2, z2)
  {
  }

  /** get-position after signal-movement returns the coordinates just sent
      and the room code the row already had. */
  lemma SignalThenGet(s: State, id: string, x: Coord, y: Coord, z: Coord)
    requires id != ""
    ensures
      var t := SignalMovementStep(s, Some(id), x, y, z).state;
      GetPositionStep(t, Some(id)).reply ==
        One(PositionRow(x, y, z, if id in s.positions then s.positions[id].roomCode else None))
  {
  }
}
