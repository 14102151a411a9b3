/** The SQLite-backed server (`api-v1/index.js`): two tables, `rooms`
    (room code to membership string) and `player_positions` (player id to
    coordinates and an optional room code), and one pure step function per
    request handler. Each request is one atomic step. */
module ServerV1 {
  import opened Common
  import opened Membership
  import Decimal

  /** A value of a REAL column; a coordinate missing from the request body
      is stored as NULL. Coordinates are opaque: no arithmetic is done. */
  type Coord = Option<real>

  /** A row of `player_positions`, keyed by player id. */
  datatype PositionRow = PositionRow(x: Coord, y: Coord, z: Coord, roomCode: Option<string>)

  /** Both tables; each map key is the table's primary key. */
  datatype State = State(rooms: map<string, string>, positions: map<string, PositionRow>)

  /** The tables as `CREATE TABLE IF NOT EXISTS` leaves them on a new database. */
  const Fresh: State := State(map[], map[])

  /** The body fields each route reads. `draw` stands for
      `Math.floor(Math.random() * 9000)`. */
  datatype Request =
    | Ping
    | LoginCustomId(playerId: Option<string>)
    | CreateRoom(code: Option<string>, draw: int)
    | JoinRoom(playerId: Option<string>, roomCode: Option<string>)
    | LeaveRoom(playerId: Option<string>)
    | SignalMovement(playerId: Option<string>, x: Coord, y: Coord, z: Coord)
    | GetPositionsAll
    | GetPosition(playerId: Option<string>)

  /** The random draw lies in the range `Math.random` can produce. */
  predicate DrawInRange(req: Request)
  {
    req.CreateRoom? ==> 0 <= req.draw < 9000
  }

  datatype Outcome = Outcome(reply: Reply<PositionRow>, state: State)

  /** The `checkLoggedIn` middleware lets a request through. */
  predicate LoggedIn(playerId: Option<string>)
  {
    Truthy(playerId)
  }

  /** The player's position row carries a (truthy) room code. */
  predicate Tagged(s: State, id: string)
  {
    id in s.positions && Truthy(s.positions[id].roomCode)
  }

  /** Every position row whose room code changed now has a NULL one. */
  predicate NoTagWritten(before: State, after: State)
  {
    forall p :: p in after.positions ==>
      after.positions[p].roomCode.None? ||
      (p in before.positions && after.positions[p].roomCode == before.positions[p].roomCode)
  }

  /** POST /login-custom-id: only checks that an id was sent. */
  function LoginCustomIdStep(s: State, playerId: Option<string>): (o: Outcome)
    ensures o.state == s
    ensures o.reply.Failure? <==> !Truthy(playerId)
    ensures o.reply.Failure? ==> o.reply.status == BadRequest
  {
    if !Truthy(playerId) then Outcome(Failure(BadRequest), s) else Outcome(Message, s)
  }

  /** POST /create-room: a supplied code is used verbatim, otherwise a
      four-digit code is drawn; the room is inserted with no members. The
      primary key on `room_code` makes inserting an existing code fail,
      which the error handler turns into a 500. No login is required. */
  function CreateRoomStep(s: State, code: Option<string>, draw: int): (o: Outcome)
    requires 0 <= draw < 9000
    ensures o.reply.Created? || o.reply == Failure(ServerError)
    ensures o.reply.Failure? ==> o.state == s
    ensures Truthy(code) ==> (o.reply.Created? <==> code.value !in s.rooms)
    ensures !Truthy(code) ==> (o.reply.Created? <==> Decimal.RoomCodeFromDraw(draw) !in s.rooms)
    ensures Truthy(code) && o.reply.Created? ==> o.reply.code == code.value
    ensures !Truthy(code) && o.reply.Created? ==>
      && |o.reply.code| == 4
      && Decimal.IsNumeral(o.reply.code)
      && Decimal.Value(o.reply.code) == 1000 + draw
    ensures o.reply.Created? ==>
      && o.reply.code !in s.rooms
      && o.state.rooms.Keys == s.rooms.Keys + {o.reply.code}
      && o.state.rooms[o.reply.code] == ""
      && (forall c :: c in s.rooms ==> o.state.rooms[c] == s.rooms[c])
      && o.state.positions == s.positions
  {
    var roomCode := if Truthy(code) then code.value else Decimal.RoomCodeFromDraw(draw);
    if roomCode in s.rooms then Outcome(Failure(ServerError), s)
    else Outcome(Created(roomCode), s.(rooms := s.rooms[roomCode := ""]))
  }

  /** POST /join-room: appends the player to the room's member list unless
      already listed. The position table is never touched. */
  function JoinRoomStep(s: State, playerId: Option<string>, roomCode: Option<string>): (o: Outcome)
    ensures o.state.positions == s.positions
    ensures o.state.rooms.Keys == s.rooms.Keys
    ensures forall c :: c in s.rooms && !(Truthy(roomCode) && c == roomCode.value) ==>
      o.state.rooms[c] == s.rooms[c]
    ensures !LoggedIn(playerId) ==> o == Outcome(Failure(Forbidden), s)
    ensures LoggedIn(playerId) && !Truthy(roomCode) ==> o == Outcome(Failure(BadRequest), s)
    ensures LoggedIn(playerId) && Truthy(roomCode) && roomCode.value !in s.rooms ==>
      o == Outcome(Failure(NotFound), s)
    ensures LoggedIn(playerId) && Truthy(roomCode) && roomCode.value in s.rooms ==>
      var before := Decode(s.rooms[roomCode.value]);
      var after := Decode(o.state.rooms[roomCode.value]);
      && o.reply == Message
      && (playerId.value in before ==> o.state == s)
      && (playerId.value !in before ==> after == before + Split(playerId.value))
      && (playerId.value !in before && Comma !in playerId.value ==> after == before + [playerId.value])
  {
    if !LoggedIn(playerId) then Outcome(Failure(Forbidden), s)
    else if !Truthy(roomCode) then Outcome(Failure(BadRequest), s)
    else if roomCode.value !in s.rooms then Outcome(Failure(NotFound), s)
    else
      var stored := s.rooms[roomCode.value];
      var players := Decode(stored);
      if playerId.value in players then Outcome(Message, s)
      else
        DecodeAppend(stored, playerId.value);
        assert Comma !in playerId.value ==> Split(playerId.value) == [playerId.value] by {
          if Comma !in playerId.value { SplitNoComma(playerId.value); }
        }
        Outcome(Message, s.(rooms := s.rooms[roomCode.value := Join(players + [playerId.value])]))
  }

  /** join-room as it is evidently meant to work with leave-room: the same
      membership update, and the room code is also recorded in the player's
      position row (when there is one), which is where leave-room looks
      for it. The handler as written never records it. */
  function JoinRoomRecordingStep(s: State, playerId: Option<string>, roomCode: Option<string>): (o: Outcome)
    ensures o.reply == JoinRoomStep(s, playerId, roomCode).reply
    ensures o.state.rooms == JoinRoomStep(s, playerId, roomCode).state.rooms
    ensures o.state.positions.Keys == s.positions.Keys
    ensures forall p :: p in s.positions && !(LoggedIn(playerId) && p == playerId.value) ==>
      o.state.positions[p] == s.positions[p]
    ensures o.reply.Failure? ==> o.state == s
    ensures o.reply == Message && playerId.value in s.positions ==>
      o.state.positions[playerId.value] == s.positions[playerId.value].(roomCode := roomCode)
  {
    var joined := JoinRoomStep(s, playerId, roomCode);
    if joined.reply.Failure? || playerId.value !in s.positions then joined
    else
      var id := playerId.value;
      Outcome(joined.reply, joined.state.(positions := s.positions[id := s.positions[id].(roomCode := roomCode)]))
  }

  /** POST /leave-room: the room is the one named in the player's position
      row; every occurrence of the player is filtered out of it (with a
      plain `split(',')`, no empty-string case) and the row's room code is
      set to NULL. */
  function LeaveRoomStep(s: State, playerId: Option<string>): (o: Outcome)
    ensures !LoggedIn(playerId) ==> o == Outcome(Failure(Forbidden), s)
    ensures LoggedIn(playerId) && !Tagged(s, playerId.value) ==> o == Outcome(Failure(BadRequest), s)
    ensures (LoggedIn(playerId) && Tagged(s, playerId.value) &&
             s.positions[playerId.value].roomCode.value !in s.rooms) ==>
      o == Outcome(Failure(NotFound), s)
    ensures (LoggedIn(playerId) && Tagged(s, playerId.value) &&
             s.positions[playerId.value].roomCode.value in s.rooms) ==>
      var id := playerId.value;
      var code := s.positions[id].roomCode.value;
      && o.reply == Message
      && o.state.rooms.Keys == s.rooms.Keys
      && (forall c :: c in s.rooms && c != code ==> o.state.rooms[c] == s.rooms[c])
      && id !in Decode(o.state.rooms[code])
      && (Without(Decode(s.rooms[code]), id) != [""] ==>
            Decode(o.state.rooms[code]) == Without(Decode(s.rooms[code]), id))
      && (Without(Decode(s.rooms[code]), id) == [""] ==> o.state.rooms[code] == "")
      && o.state.positions.Keys == s.positions.Keys
      && o.state.positions[id] == s.positions[id].(roomCode := None)
      && (forall p :: p in s.positions && p != id ==> o.state.positions[p] == s.positions[p])
  {
    if !LoggedIn(playerId) then Outcome(Failure(Forbidden), s)
    else if !Tagged(s, playerId.value) then Outcome(Failure(BadRequest), s)
    else
      var id := playerId.value;
      var row := s.positions[id];
      var code := row.roomCode.value;
      if code !in s.rooms then Outcome(Failure(NotFound), s)
      else
        var stored := s.rooms[code];
        var remaining := Without(Split(stored), id);
        LeftRoomMembers(stored, id);
        Outcome(Message, State(s.rooms[code := Join(remaining)],
                               s.positions[id := row.(roomCode := None)]))
  }

  /** What leave-room stores for the room, read back through `Decode`. */
  lemma LeftRoomMembers(stored: string, id: string)
    requires id != ""
    ensures id !in Decode(Join(Without(Split(stored), id)))
    ensures Without(Decode(stored), id) != [""] ==>
      Decode(Join(Without(Split(stored), id))) == Without(Decode(stored), id)
    ensures Without(Decode(stored), id) == [""] ==> Join(Without(Split(stored), id)) == ""
  {
    var w := Without(Split(stored), id);
    if w != [] && w != [""] {
      var parts := Split(stored);
      forall i | 0 <= i < |w|
        ensures Comma !in w[i]
      {
        assert w[i] in parts;
      }
      DecodeJoin(w);
    }
  }

  /** POST /signal-movement: an upsert keyed on player id. A new row has a
      NULL room code; an existing row gets the new coordinates and keeps
      its room code. */
  function SignalMovementStep(s: State, playerId: Option<string>, x: Coord, y: Coord, z: Coord): (o: Outcome)
    ensures o.state.rooms == s.rooms
    ensures !LoggedIn(playerId) ==> o == Outcome(Failure(Forbidden), s)
    ensures LoggedIn(playerId) ==>
      var id := playerId.value;
      && o.reply == Message
      && o.state.positions.Keys == s.positions.Keys + {id}
      && o.state.positions[id].x == x
      && o.state.positions[id].y == y
      && o.state.positions[id].z == z
      && (id in s.positions ==> o.state.positions[id].roomCode == s.positions[id].roomCode)
      && (id !in s.positions ==> o.state.positions[id].roomCode == None)
      && (forall p :: p in s.positions && p != id ==> o.state.positions[p] == s.positions[p])
  {
    if !LoggedIn(playerId) then Outcome(Failure(Forbidden), s)
    else
      var id := playerId.value;
      var tag := if id in s.positions then s.positions[id].roomCode else None;
      Outcome(Message, s.(positions := s.positions[id := PositionRow(x, y, z, tag)]))
  }

  /** GET /get-positions-all: every row. */
  function GetPositionsAllStep(s: State): (o: Outcome)
    ensures o.state == s
    ensures o.reply.All? && o.reply.rows == s.positions
  {
    Outcome(All(s.positions), s)
  }

  /** GET /get-position: the caller's own row, read from the body. */
  function GetPositionStep(s: State, playerId: Option<string>): (o: Outcome)
    ensures o.state == s
    ensures !LoggedIn(playerId) ==> o.reply == Failure(Forbidden)
    ensures LoggedIn(playerId) && playerId.value !in s.positions ==> o.reply == Failure(NotFound)
    ensures LoggedIn(playerId) && playerId.value in s.positions ==>
      o.reply == One(s.positions[playerId.value])
  {
    if !LoggedIn(playerId) then Outcome(Failure(Forbidden), s)
    else if playerId.value !in s.positions then Outcome(Failure(NotFound), s)
    else Outcome(One(s.positions[playerId.value]), s)
  }

  /** One request against the tables. */
  function Step(s: State, req: Request): (o: Outcome)
    requires DrawInRange(req)
    ensures req.Ping? ==> o.reply == Message
    ensures req.Ping? || req.LoginCustomId? || req.GetPositionsAll? || req.GetPosition? ==> o.state == s
    ensures o.reply.Failure? ==> o.state == s
    ensures NoTagWritten(s, o.state)
    ensures s.rooms.Keys <= o.state.rooms.Keys
    ensures s.positions.Keys <= o.state.positions.Keys
  {
    match req
    case Ping => Outcome(Message, s)
    case LoginCustomId(p) => LoginCustomIdStep(s, p)
    case CreateRoom(c, d) => CreateRoomStep(s, c, d)
    case JoinRoom(p, c) => JoinRoomStep(s, p, c)
    case LeaveRoom(p) => LeaveRoomStep(s, p)
    case SignalMovement(p, x, y, z) => SignalMovementStep(s, p, x, y, z)
    case GetPositionsAll => GetPositionsAllStep(s)
    case GetPosition(p) => GetPositionStep(s, p)
  }
}
