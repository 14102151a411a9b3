/** The smaller server (`api/index.js`): one table `player_positions` with
    a unique `custom_id` and an opaque `position`, and room routes that only
    validate their input. */
module ServerApi {
  import opened Common
  import Decimal

  /** A row of `player_positions`. */
  datatype Entry = Entry(customId: string, position: string)

  /** The table, keyed by its unique `custom_id`. */
  type Store = map<string, string>

  /** `customId` and `position` come from the body, except for get-position,
      which reads `customId` from the query string. `draw` stands for
      `Math.floor(Math.random() * 9000)`. */
  datatype Request =
    | Ping
    | SignalMovement(customId: Option<string>, position: Option<string>)
    | GetPositionsAll
    | GetPosition(customId: Option<string>)
    | LoginCustomId(customId: Option<string>)
    | JoinRoom(roomCode: Option<string>)
    | LeaveRoom
    | CreateRoom(roomCode: Option<string>, draw: int)

  /** The random draw lies in the range `Math.random` can produce. */
  predicate DrawInRange(req: Request)
  {
    req.CreateRoom? ==> 0 <= req.draw < 9000
  }

  datatype Outcome = Outcome(reply: Reply<Entry>, store: Store)

  /** The rows as the store lists them. */
  function Rows(store: Store): (rows: map<string, Entry>)
    ensures rows.Keys == store.Keys
    ensures forall id :: id in rows ==> rows[id] == Entry(id, store[id])
  {
    map id | id in store :: Entry(id, store[id])
  }

  /** POST /signal-movement: both fields are required; the row for the id is
      inserted or its position overwritten. */
  function SignalMovementStep(store: Store, customId: Option<string>, position: Option<string>): (o: Outcome)
    ensures !Truthy(customId) || !Truthy(position) ==> o == Outcome(Failure(BadRequest), store)
    ensures Truthy(customId) && Truthy(position) ==>
      && o.reply == Message
      && o.store.Keys == store.Keys + {customId.value}
      && o.store[customId.value] == position.value
      && (forall id :: id in store && id != customId.value ==> o.store[id] == store[id])
  {
    if !Truthy(customId) || !Truthy(position) then Outcome(Failure(BadRequest), store)
    else Outcome(Message, store[customId.value := position.value])
  }

  /** GET /get-positions-all: every row. */
  function GetPositionsAllStep(store: Store): (o: Outcome)
    ensures o.store == store
    ensures o.reply == All(Rows(store))
  {
    Outcome(All(Rows(store)), store)
  }

  /** GET /get-position: the row for the queried id. */
  function GetPositionStep(store: Store, customId: Option<string>): (o: Outcome)
    ensures o.store == store
    ensures !Truthy(customId) ==> o.reply == Failure(BadRequest)
    ensures Truthy(customId) && customId.value !in store ==> o.reply == Failure(NotFound)
    ensures Truthy(customId) && customId.value in store ==>
      o.reply == One(Entry(customId.value, store[customId.value]))
  {
    if !Truthy(customId) then Outcome(Failure(BadRequest), store)
    else if customId.value !in store then Outcome(Failure(NotFound), store)
    else Outcome(One(Entry(customId.value, store[customId.value])), store)
  }

  /** POST /login-custom-id and POST /join-room: a required field, nothing
      stored. */
  function RequireFieldStep(store: Store, field: Option<string>): (o: Outcome)
    ensures o.store == store
    ensures o.reply.Failure? <==> !Truthy(field)
    ensures o.reply.Failure? ==> o.reply.status == BadRequest
  {
    if !Truthy(field) then Outcome(Failure(BadRequest), store) else Outcome(Message, store)
  }

  /** POST /create-room: echoes a supplied code, otherwise draws one in
      [1000, 9999]; no room is stored. */
  function CreateRoomStep(store: Store, roomCode: Option<string>, draw: int): (o: Outcome)
    requires 0 <= draw < 9000
    ensures o.store == store
    ensures o.reply.Created?
    ensures Truthy(roomCode) ==> o.reply.code == roomCode.value
    ensures !Truthy(roomCode) ==>
      && |o.reply.code| == 4
      && Decimal.IsNumeral(o.reply.code)
      && Decimal.Value(o.reply.code) == 1000 + draw
      && 1000 <= Decimal.Value(o.reply.code) <= 9999
  {
    Outcome(Created(if Truthy(roomCode) then roomCode.value else Decimal.RoomCodeFromDraw(draw)), store)
  }

  function Step(store: Store, req: Request): (o: Outcome)
    requires DrawInRange(req)
    ensures !req.SignalMovement? ==> o.store == store
    ensures req.Ping? || req.LeaveRoom? ==> o.reply == Message
    ensures o.reply.Failure? ==> o.store == store
    ensures store.Keys <= o.store.Keys
  {
    match req
    case Ping => Outcome(Message, store)
    case SignalMovement(id, pos) => SignalMovementStep(store, id, pos)
    case GetPositionsAll => GetPositionsAllStep(store)
    case GetPosition(id) => GetPositionStep(store, id)
    case LoginCustomId(id) => RequireFieldStep(store, id)
    case JoinRoom(code) => RequireFieldStep(store, code)
    case LeaveRoom => Outcome(Message, store)
    case CreateRoom(code, draw) => CreateRoomStep(store, code, draw)
  }

  /** The store after handling `reqs` in order. */
  function Run(store: Store, reqs: seq<Request>): Store
    requires forall i :: 0 <= i < |reqs| ==> DrawInRange(reqs[i])
    decreases |reqs|
  {
    if |reqs| == 0 then store else Run(Step(store, reqs[0]).store, reqs[1..])
  }

  /** The last accepted movement signal for an id decides what get-position
      reports for it, whatever other requests come between. */
  lemma {:induction false} LatestSignalWins(store: Store, id: string, position: string, reqs: seq<Request>)
    requires id != "" && position != ""
    requires forall i :: 0 <= i < |reqs| ==> DrawInRange(reqs[i])
    requires forall i :: 0 <= i < |reqs| ==> !(reqs[i].SignalMovement? && reqs[i].customId == Some(id))
    ensures
      var t := Run(SignalMovementStep(store, Some(id), Some(position)).store, reqs);
      GetPositionStep(t, Some(id)).reply == One(Entry(id, position))
  {
    var s := SignalMovementStep(store, Some(id), Some(position)).store;
    RunKeepsEntry(s, id, reqs);
  }

  /** Requests that do not signal for `id` keep its row. */
  lemma {:induction false} RunKeepsEntry(store: Store, id: string, reqs: seq<Request>)
    requires id in store
    requires forall i :: 0 <= i < |reqs| ==> DrawInRange(reqs[i])
    requires forall i :: 0 <= i < |reqs| ==> !(reqs[i].SignalMovement? && reqs[i].customId == Some(id))
    ensures id in Run(store, reqs) && Run(store, reqs)[id] == store[id]
    decreases |reqs|
  {
    if |reqs| > 0 {
      var t := Step(store, reqs[0]).store;
      assert id in t && t[id] == store[id];
      RunKeepsEntry(t, id, reqs[1..]);
    }
  }

  /** Two signals for one id leave the store as the second alone, when the
      second is accepted. */
  lemma SignalLastWriteWins(store: Store, customId: Option<string>, p1: Option<string>, p2: Option<string>)
    requires Truthy(p2)
    ensures
      var first := SignalMovementStep(store, customId, p1).store;
      SignalMovementStep(first, customId, p2) == SignalMovementStep(store, customId, p2)
  {
  }
}
