# Mobi Multiplayer Service: room membership and player positions

A Dafny model of the request handlers of two small Express servers in the
Mobi Multiplayer Service repository.

- `api-v1/index.js` has two SQLite tables.
  - `rooms` maps a room code to a membership string: the player ids joined with `,`.
  - `player_positions` maps a player id to coordinates `x, y, z` and an optional `room_code`.

  The handlers are login-custom-id, create-room, join-room, leave-room,
  signal-movement, get-positions-all, get-position and ping. Join, leave,
  signal-movement and get-position sit behind the `checkLoggedIn` gate.
- `api/index.js` has one table, mapping `custom_id` to an opaque `position`.
  Its room routes only validate their input.

Each table is a Dafny `map` keyed by its primary key. Each handler is a pure
function from the tables and the request fields to a reply (a status, plus
any row or room code it returns) and the new tables. Each request is one
atomic step.

Files:

- `common.dfy`: optional body fields, JavaScript truthiness (`!field`) and the reply type.
- `decimal.dfy`: the four-digit room code `Math.floor(1000 + Math.random() * 9000).toString()`.
- `membership.dfy`: the membership codec. `split(',')`, `join(',')`, the `'' → []` reading used by join-room, and `filter` as used by leave-room.
- `server_v1.dfy`: the handlers of `api-v1/index.js` and the dispatcher `Step`.
- `server_v1_invariants.dfy`: request sequences (`Run`) and the properties that relate several requests.
- `server_api.dfy`: the handlers of `api/index.js`, `Step`, `Run` and their lemmas.

How inputs are modelled:

- A body field is `Option<string>`. `Truthy` is JavaScript's test `!field`: a missing field and `''` both fail it.
- Coordinates are `Option<real>`. A missing coordinate is stored as NULL. No arithmetic is done on coordinates.
- The value drawn from `Math.random` is passed in as an integer `draw` in [0, 9000).

Facts about the code that shape the model:

- There are no tenants, server keys or sessions.
- A duplicate room code makes the primary-key insert fail, which gives a 500.
- A player may be listed in several rooms at once.
- leave-room finds the player's room through the room code in the player's position row.

## Model

| member | source | states |
|---|---|---|
| Decimal.Numeral | api-v1/index.js:92 | the decimal numeral of a non-negative integer (what `toString` prints below 10^21, so for every room code) is a non-empty digit string with no leading zero; it has one digit exactly when the number is below 10 |
| Decimal.ValueOfNumeral | api-v1/index.js:92 | reading back the numeral of `n` gives `n` |
| Decimal.FourDigitNumeral | api-v1/index.js:92 | every number in [1000, 9999] is written with exactly four digits |
| Decimal.RoomCodeFromDraw | api-v1/index.js:92 | a generated room code is four digits, with no leading zero, and denotes 1000 + draw, which lies in [1000, 9999] |
| Membership.Split | api-v1/index.js:142 | `split(',')` always yields at least one piece, and no piece contains a comma |
| Membership.Decode | api-v1/index.js:114 | the member list read by join-room is empty exactly when the stored string is `''`, and no member contains a comma |
| Membership.Without | api-v1/index.js:143 | `filter(p => p !== id)` leaves no occurrence of `id` and keeps exactly the other ids; a list without `id` is returned unchanged |
| Membership.SplitNoComma | api-v1/index.js:117 | an id without a comma splits to itself |
| Membership.SplitComma | api-v1/index.js:117 | splitting `a + ',' + b` gives the pieces of `a` followed by the pieces of `b` |
| Membership.JoinSplit | api-v1/index.js:142-144 | joining the pieces of any string with `,` gives the string back |
| Membership.SplitJoin | api-v1/index.js:114-117 | splitting a joined non-empty list of comma-free ids gives the list back |
| Membership.DecodeJoin | api-v1/index.js:114-117 | codec round trip: decoding `join(xs, ',')` gives `xs` for every list of comma-free ids other than `[""]` |
| Membership.JoinDecode | api-v1/index.js:114-117 | codec round trip the other way: re-joining the decoded members reproduces every stored string |
| Membership.JoinAppend | api-v1/index.js:116-117 | for a non-empty list, after `push` the joined string is the old string, a comma, and the new id |
| Membership.DecodeAppend | api-v1/index.js:114-117 | reading back what join-room stores gives the old members followed by the new id's pieces |
| Membership.WithoutKeepsOrder | api-v1/index.js:143 | filtering keeps the remaining members in their original order |
| Membership.WithoutCounts | api-v1/index.js:143 | filtering removes every occurrence of the id and no other element, counted with multiplicity |
| Membership.WithoutDistinct | api-v1/index.js:143 | filtering a list without repeats gives a list without repeats |
| Membership.WithoutAppended | api-v1/index.js:143 | removing an id just appended gives the same result as removing it before the append |
| ServerV1.LoginCustomIdStep | api-v1/index.js:76-86 | login answers 400 exactly when `player_id` is missing or empty, and never changes the tables |
| ServerV1.CreateRoomStep | api-v1/index.js:89-98 | a supplied code is used verbatim; otherwise the code is a four-digit numeral worth 1000 + draw; the room is created exactly when that code is not taken yet, with empty membership `''`; a taken code gives 500 and no change; the position table is untouched |
| ServerV1.JoinRoomStep | api-v1/index.js:102-125 | 403 without `player_id`, 400 without `room_code`, 404 for an unknown room, each with no change; a member already listed leaves the tables unchanged; otherwise the player is appended after the existing members in order; other rooms and the position table are untouched |
| ServerV1.LeaveRoomStep | api-v1/index.js:128-151 | 403 without `player_id`; 400 when the player has no row or its room code is NULL or empty; 404 for a missing room; on success the player no longer appears in that room, and the other members keep their order, except that when filtering leaves exactly one empty member (a list the `''` encoding cannot hold) the room is stored as `''`; the row's room code becomes NULL with x, y and z kept, and other rooms and rows are unchanged |
| ServerV1.LeftRoomMembers | api-v1/index.js:142-144 | the string leave-room stores decodes to a list without the player, and equals the filtered members, except that a single empty member `[""]` is stored as `''` |
| ServerV1.SignalMovementStep | api-v1/index.js:154-165 | 403 without `player_id`; otherwise exactly one row for the player holds the new x, y, z; an existing row keeps its room code, a new one gets NULL; other rows and the rooms are untouched |
| ServerV1.GetPositionsAllStep | api-v1/index.js:168-175 | returns every position row and changes nothing |
| ServerV1.GetPositionStep | api-v1/index.js:178-191 | 403 without `player_id`, 404 when there is no row, otherwise the player's row; never changes the tables |
| ServerV1.Step | api-v1/index.js:71-191 | read-only routes and every failure leave the tables unchanged; no request writes a non-NULL room code; no room or position row is ever deleted |
| ServerV1.JoinRoomRecordingStep | api-v1/index.js:102-125 | corrected join-room: same reply and rooms as join-room; a failure changes nothing; on success the player's existing row records the joined room code; other rows unchanged |
| ServerV1Invariants.RunKeepsUntagged | api-v1/index.js:145-159 | if no row names a room, none does after any request sequence |
| ServerV1Invariants.LeaveNeverSucceedsFromFresh | api-v1/index.js:131-134 | after any request sequence from fresh tables, leave-room answers 400 (403 without an id) and changes nothing |
| ServerV1Invariants.JoinThenLeaveRefused | api-v1/index.js:102-151 | a player with a row who creates and joins room `1234` is listed in it, yet leave-room answers 400 |
| ServerV1Invariants.RecordingJoinThenLeave | api-v1/index.js:128-147 | with the corrected join, join followed by leave succeeds: the room's members are the old ones without the player, and the row's room code is NULL again |
| ServerV1Invariants.StepKeepsRoomsOk | api-v1/index.js:114-144 | one request with a comma-free joining id keeps every room's members non-empty and free of repeats |
| ServerV1Invariants.RunKeepsRoomsOk | api-v1/index.js:114-144 | the same holds after any sequence of such requests |
| ServerV1Invariants.CreateThenJoin | api-v1/index.js:89-121 | a room just created under a supplied code answers the creation with that code, and a comma-free player who then joins is its only member |
| ServerV1Invariants.CreateTwiceFails | api-v1/index.js:36-39 | creating a room under a code already taken answers 500 and changes nothing, because `room_code` is the primary key |
| ServerV1Invariants.JoinIdempotent | api-v1/index.js:114-121 | joining the same room twice with a comma-free id leaves the tables as joining once |
| ServerV1Invariants.JoinWithCommaNotIdempotent | api-v1/index.js:114-117 | an id holding a comma is stored as two members, and a second join appends it again |
| ServerV1Invariants.SignalLastWriteWins | api-v1/index.js:158-159 | two movement signals for one player leave the same tables as the second alone |
| ServerV1Invariants.SignalThenGet | api-v1/index.js:158-187 | get-position after signal-movement returns the coordinates just sent, with the row's earlier room code or NULL |
| ServerApi.Rows | api/index.js:39-47 | one row per stored id, carrying that id and its position |
| ServerApi.SignalMovementStep | api/index.js:21-37 | 400 with no change when `customId` or `position` is missing; otherwise exactly one row for the id holds the new position, and other rows are unchanged |
| ServerApi.GetPositionsAllStep | api/index.js:39-47 | returns exactly the stored rows, each with its own `custom_id` and position, and changes nothing |
| ServerApi.GetPositionStep | api/index.js:49-64 | 400 without `customId`, 404 for an unknown id, otherwise the stored row; never changes the store |
| ServerApi.RequireFieldStep | api/index.js:66-80 | login-custom-id and join-room answer 400 exactly when their field is missing or empty, and never change the store |
| ServerApi.CreateRoomStep | api/index.js:86-90 | echoes a supplied `roomCode`, else the four-digit numeral of 1000 + draw, in [1000, 9999]; never changes the store |
| ServerApi.Step | api/index.js:21-98 | only signal-movement changes the store; leave-room and ping always succeed; failures change nothing; no row is ever deleted |
| ServerApi.LatestSignalWins | api/index.js:26-63 | after a signal for an id, get-position returns that position, whatever later requests do, unless one of them signals for the same id |
| ServerApi.RunKeepsEntry | api/index.js:26-36 | requests that do not signal for an id leave its row as it was |
| ServerApi.SignalLastWriteWins | api/index.js:26-36 | two signals for one id leave the store as the second alone, when the second is accepted |

## Findings

| source | as written | input that shows it | evidently intended | confidence | as-written member | corrected member |
|---|---|---|---|---|---|---|
| api-v1/index.js:102-151 | join-room never writes `room_code` into the player's position row. No other handler writes a non-NULL one either. leave-room looks the room up in that column, so from fresh tables it always answers 400. | signal-movement `alice`, create-room `1234`, join-room `alice` `1234`, leave-room `alice` gives 400, while `alice` is listed in room `1234` | join-room records the joined room in the player's position row, so that leave-room can find it | high that leave-room cannot succeed; medium on the exact fix; not executed | ServerV1Invariants.JoinThenLeaveRefused | ServerV1.JoinRoomRecordingStep |

`ServerV1Invariants.LeaveNeverSucceedsFromFresh` states the general form of
the as-written behaviour. `ServerV1Invariants.RecordingJoinThenLeave` proves
that join followed by leave works with the corrected join-room. `ServerV1.Step`
keeps the join-room as written, because it models the code as it is.

## Left out

- Express wiring is not modelled: CORS, body parsers, `app.listen`, logging, the database bootstrap and `process.exit`, and the catch-all 404 routes.
- `checkMethod` is not modelled. Every route is already bound to its own HTTP verb, so its 405 branch cannot be reached.
- SQL text and the SQLite driver are replaced by maps. The only driver failure modelled is the primary-key violation on create-room, which gives 500. Other I/O failures (the 500 branches of `api/index.js`, errors passed to `next`) depend on the environment, not on the inputs.
- Body fields that are not strings are not modelled. This covers numbers, objects and arrays, for example a `position` object in `api/index.js`, which the model treats as an opaque non-empty string.
- The floating-point values of coordinates are not modelled. Coordinates are opaque and never computed with.
- Row order in get-positions-all is not modelled. The reply is a map from key to row.
- Concurrent interleaving is not modelled. Each request is one atomic step.
- Response message texts are not modelled. Only the status and any returned row or room code are.
- `Decimal.Numeral`: writes every number positionally; JavaScript's exponent form from 10^21 on is not modelled, since room codes stay below 10^4.
- `ServerApi.SignalMovementStep`: assumes `custom_id` is a unique key in `api/index.js`. The table is created outside that file, and `ON CONFLICT(custom_id)` needs a unique key to work.
- `ServerApi.CreateRoomStep`: the generated code is a number in the source and a string of digits here. The reply text is the same either way.
- `ServerV1Invariants.JoinIdempotent`: stated only for ids without commas. `ServerV1Invariants.JoinWithCommaNotIdempotent` shows why.
