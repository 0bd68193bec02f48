/**
 * The online game over a shared realtime database: creating and joining rooms,
 * leaving them, purging old ones, and the guarded online move, which updates the
 * local game state and then writes it to the room's record.
 */
module Online {
  import opened Wrappers
  import opened Board
  import opened LocalGame

  /** A player's entry under a room's `players`. */
  datatype PlayerSlot = PlayerSlot(id: string, connected: bool, joinedAt: int)

  /** A room record stored at `rooms/<roomCode>`. */
  datatype RoomData = RoomData(
    roomCode: string,
    matchName: string,
    color: string,
    status: RoomStatus,
    players: map<Color, PlayerSlot>,
    board: Grid,
    currentPlayer: Color,
    moveHistory: seq<string>,
    createdAt: int)

  /** What the room operations throw. */
  datatype RoomError = RoomNotFound | RoomFull | WriteFailed

  /** One day in milliseconds, the age after which a room is purged. */
  const DayMs := 24 * 60 * 60 * 1000

  /** The number a string of decimal digits denotes, most significant digit first. */
  function DecValue(s: string): nat {
    if s == [] then 0
    else 10 * DecValue(s[..|s| - 1]) + (if '0' <= s[|s| - 1] <= '9' then s[|s| - 1] as int - '0' as int else 0)
  }

  /**
   * The decimal digits of a timestamp, as `Date.now().toString()` writes them:
   * digits only, no leading zero unless the timestamp is 0, denoting `now`.
   */
  function TimestampId(now: nat): (id: string)
    ensures |id| > 0
    ensures forall i :: 0 <= i < |id| ==> '0' <= id[i] <= '9'
    ensures |id| > 1 ==> id[0] != '0'
    ensures DecValue(id) == now
  {
    var last := [('0' as int + now % 10) as char];
    if now < 10 then last
    else
      var prefix := TimestampId(now / 10);
      assert (prefix + last)[..|prefix + last| - 1] == prefix;
      prefix + last
  }

  /** Distinct timestamps give distinct player ids. */
  lemma TimestampIdInjective(a: nat, b: nat)
    requires TimestampId(a) == TimestampId(b)
    ensures a == b
  {
  }

  /** The record `createRoom` writes. */
  function NewRoom(code: string, matchName: string, color: string, playerId: string, now: int): (room: RoomData)
    ensures room.roomCode == code && room.matchName == matchName && room.color == color
    ensures room.status == Waiting && room.createdAt == now
    ensures room.players.Keys == {White} && room.players[White] == PlayerSlot(playerId, true, now)
    ensures room.board == InitialBoard && room.currentPlayer == White && room.moveHistory == []
  {
    RoomData(code, matchName, color, Waiting, map[White := PlayerSlot(playerId, true, now)],
             InitialBoard, White, [], now)
  }

  /** What `joinRoom` reads: the record, or why it refuses. */
  function JoinCheck(rooms: map<string, RoomData>, code: string): (r: Result<RoomData, RoomError>)
    ensures r == Failure(RoomNotFound) <==> code !in rooms
    ensures r == Failure(RoomFull) <==> code in rooms && Black in rooms[code].players
    ensures r.Success? <==> code in rooms && Black !in rooms[code].players
    ensures r.Success? ==> r.value == rooms[code]
  {
    if code !in rooms then Failure(RoomNotFound)
    else if Black in rooms[code].players then Failure(RoomFull)
    else Success(rooms[code])
  }

  /** A room just created can be joined, and once Black is seated it is full. */
  lemma NewRoomJoinableOnce(rooms: map<string, RoomData>, code: string, matchName: string, color: string,
                            hostId: string, guestId: string, now: int, later: int)
    ensures var room := NewRoom(code, matchName, color, hostId, now);
            && JoinCheck(rooms[code := room], code) == Success(room)
            && JoinCheck(rooms[code := room.(players := room.players[Black := PlayerSlot(guestId, true, later)])], code)
               == Failure(RoomFull)
  {
  }

  /** The rooms that survive the purge at time `now`: those created no earlier than one day before. */
  function Unexpired(rooms: map<string, RoomData>, now: int): (r: map<string, RoomData>)
    ensures forall code :: code in r <==> code in rooms && !(rooms[code].createdAt < now - DayMs)
    ensures forall code :: code in r ==> r[code] == rooms[code]
  {
    map code | code in rooms && !(rooms[code].createdAt < now - DayMs) :: rooms[code]
  }

  /** The database's `rooms` tree. */
  class Database {
    var rooms: map<string, RoomData>

    constructor ()
      ensures rooms == map[]
    {
      rooms := map[];
    }
  }

  class MultiplayerManager {
    var currentRoom: Option<string>
    var playerId: Option<string>
    var playerColor: Option<Color>
    var isOnline: bool

    constructor ()
      ensures currentRoom == None && playerId == None && playerColor == None && !isOnline
    {
      currentRoom, playerId, playerColor, isOnline := None, None, None, false;
    }

    /** A current room is set; an empty code counts as none. */
    predicate HasRoom()
      reads this
    {
      currentRoom.Some? && currentRoom.value != ""
    }

    /**
     * The gate of the online move: open exactly when the manager is online, in a
     * room, the side to move is this player's colour, and the board checks pass.
     * It never lets through a move from a square to itself, and it implies the
     * local move's checks.
     */
    function MoveGate(cells: Grid, current: Color, from: Square, to: Square): (ok: bool)
      reads this
      ensures ok ==> isOnline && HasRoom() && playerColor == Some(current)
      ensures ok ==> HoldsColor(cells[from.row][from.col], current)
      ensures ok ==> from != to && LocalMoveAllowed(cells, current, from, to)
      ensures (isOnline && HasRoom() && playerColor == Some(current) &&
               LocalMoveAllowed(cells, current, from, to) && HoldsColor(cells[from.row][from.col], current)) ==> ok
    {
      isOnline && HasRoom() && playerColor == Some(current) && OnlineMoveAllowed(cells, current, from, to)
    }

    /**
     * Creates room `code` (drawn by the caller) as White. The manager's identity
     * is set before the write; only a successful write stores the record, which
     * replaces any record already stored under that code, and enters the room.
     */
    method CreateRoom(db: Database, code: string, matchName: string, color: string, now: nat, writeOk: bool)
      returns (r: Result<string, RoomError>)
      modifies this, db
      ensures playerId == Some(TimestampId(now)) && playerColor == Some(White) && isOnline
      ensures r == if writeOk then Success(code) else Failure(WriteFailed)
      ensures currentRoom == if writeOk then Some(code) else old(currentRoom)
      ensures db.rooms == if writeOk then old(db.rooms)[code := NewRoom(code, matchName, color, TimestampId(now), now)]
                          else old(db.rooms)
    {
      playerId := Some(TimestampId(now));
      playerColor := Some(White);
      isOnline := true;
      var roomData := NewRoom(code, matchName, color, playerId.value, now);
      if !writeOk {
        return Failure(WriteFailed);
      }
      db.rooms := db.rooms[code := roomData];
      currentRoom := Some(code);
      r := Success(code);
    }

    /**
     * Joins room `code` as Black. Fails with RoomNotFound when there is no such
     * record and with RoomFull when Black is already seated, changing nothing.
     * Otherwise the manager enters the room, then Black's slot and then the
     * status `playing` are written; either write may fail, leaving the writes
     * before it in place. The result is the record as read before the writes.
     */
    method JoinRoom(db: Database, code: string, now: nat, seatWriteOk: bool, statusWriteOk: bool)
      returns (r: Result<RoomData, RoomError>)
      modifies this, db
      ensures JoinCheck(old(db.rooms), code).Failure? ==>
                r == JoinCheck(old(db.rooms), code) && db.rooms == old(db.rooms)
                && currentRoom == old(currentRoom) && playerId == old(playerId)
                && playerColor == old(playerColor) && isOnline == old(isOnline)
      ensures JoinCheck(old(db.rooms), code).Success? ==>
                var room := old(db.rooms)[code];
                var seated := room.(players := room.players[Black := PlayerSlot(TimestampId(now), true, now)]);
                && currentRoom == Some(code) && playerId == Some(TimestampId(now))
                && playerColor == Some(Black) && isOnline
                && r == (if seatWriteOk && statusWriteOk then Success(room) else Failure(WriteFailed))
                && db.rooms == (if !seatWriteOk then old(db.rooms)
                                else if !statusWriteOk then old(db.rooms)[code := seated]
                                else old(db.rooms)[code := seated.(status := Playing)])
    {
      if code !in db.rooms {
        return Failure(RoomNotFound);
      }
      var roomData := db.rooms[code];
      if Black in roomData.players {
        return Failure(RoomFull);
      }
      playerId := Some(TimestampId(now));
      playerColor := Some(Black);
      isOnline := true;
      currentRoom := Some(code);
      if !seatWriteOk {
        return Failure(WriteFailed);
      }
      var seated := roomData.(players := roomData.players[Black := PlayerSlot(playerId.value, true, now)]);
      db.rooms := db.rooms[code := seated];
      if !statusWriteOk {
        return Failure(WriteFailed);
      }
      db.rooms := db.rooms[code := seated.(status := Playing)];
      r := Success(roomData);
    }

    /**
     * The online move. Refused, with nothing changed, unless MoveGate holds. When
     * it holds, the local board and history are updated at once; the new board,
     * the next side and the history are then written to the room, and only a
     * successful write switches the local side to move and returns true. A failed
     * write returns false with the board and history already changed.
     */
    method MakeOnlineMove(game: Game, db: Database, from: Square, to: Square, writeOk: bool) returns (ok: bool)
      requires game.Valid()
      modifies game.board, game`moveHistory, game`currentPlayer, db
      ensures game.Valid() && game.board == old(game.board)
      ensures ok == (MoveGate(old(game.Cells()), old(game.currentPlayer), from, to) && writeOk)
      ensures game.Cells() == if MoveGate(old(game.Cells()), old(game.currentPlayer), from, to)
                              then Relocate(old(game.Cells()), from, to) else old(game.Cells())
      ensures game.moveHistory == if MoveGate(old(game.Cells()), old(game.currentPlayer), from, to)
                                  then old(game.moveHistory) + [MoveLabel(old(game.currentPlayer), OnlineBlackName, from, to)]
                                  else old(game.moveHistory)
      ensures game.currentPlayer == if ok then Opposite(old(game.currentPlayer)) else old(game.currentPlayer)
      ensures db.rooms == if ok then StoreMove(old(db.rooms), currentRoom.value, game.Cells(), game.currentPlayer, game.moveHistory)
                          else old(db.rooms)
    {
      if !isOnline || !HasRoom() {
        return false;
      }
      if Some(game.currentPlayer) != playerColor {
        return false;
      }
      var piece := game.board[from.row, from.col];
      var targetPiece := game.board[to.row, to.col];
      if piece == "" || GetPieceColor(piece) != Some(game.currentPlayer) {
        return false;
      }
      if targetPiece != "" && GetPieceColor(targetPiece) == Some(game.currentPlayer) {
        return false;
      }
      game.MovePiece(from, to, OnlineBlackName);
      var nextPlayer := if game.currentPlayer == White then Black else White;
      if !writeOk {
        return false;
      }
      db.rooms := StoreMove(db.rooms, currentRoom.value, game.Cells(), nextPlayer, game.moveHistory);
      game.currentPlayer := nextPlayer;
      ok := true;
    }

    /**
     * Leaves the current room: marks this player's slot disconnected and forgets
     * the room and the identity. Without a room it does nothing; when the write
     * fails the error is swallowed and nothing changes.
     */
    method LeaveRoom(db: Database, writeOk: bool)
      modifies this, db
      ensures !old(HasRoom()) || !writeOk ==>
                db.rooms == old(db.rooms) && currentRoom == old(currentRoom) && playerId == old(playerId)
                && playerColor == old(playerColor) && isOnline == old(isOnline)
      ensures old(HasRoom()) && writeOk ==>
                && db.rooms == MarkDisconnected(old(db.rooms), old(currentRoom).value, old(playerColor))
                && currentRoom == None && playerId == None && playerColor == None && !isOnline
    {
      if !HasRoom() || !writeOk {
        return;
      }
      db.rooms := MarkDisconnected(db.rooms, currentRoom.value, playerColor);
      currentRoom, playerId, playerColor, isOnline := None, None, None, false;
    }

    /**
     * Purges the rooms created more than a day before `now`, deleting them one by
     * one while walking a snapshot of the tree.
     */
    method CleanOldRooms(db: Database, now: int)
      modifies db
      ensures db.rooms == Unexpired(old(db.rooms), now)
    {
      var snapshot := db.rooms;
      var pending := snapshot.Keys;
      while pending != {}
        invariant pending <= snapshot.Keys
        invariant forall code :: code in db.rooms <==>
                    code in snapshot && (code in pending || !(snapshot[code].createdAt < now - DayMs))
        invariant forall code :: code in db.rooms ==> db.rooms[code] == snapshot[code]
        decreases pending
      {
        var code :| code in pending;
        if snapshot[code].createdAt < now - DayMs {
          db.rooms := db.rooms - {code};
        }
        pending := pending - {code};
      }
      assert db.rooms.Keys == Unexpired(snapshot, now).Keys;
    }
  }

  /**
   * Turns alternate: once the gate lets a player move for side `c`, and the side
   * to move has become the other one, the same player's next move is refused
   * whatever the board and squares.
   */
  lemma SecondMoveRefused(m: MultiplayerManager, cells: Grid, c: Color, from: Square, to: Square,
                          cells': Grid, from': Square, to': Square)
    requires m.MoveGate(cells, c, from, to)
    ensures !m.MoveGate(cells', Opposite(c), from', to')
  {
  }

  /** The write of an accepted move: board, side to move and history of room `code`, nothing else. */
  function StoreMove(rooms: map<string, RoomData>, code: string, cells: Grid, next: Color, history: seq<string>)
    : (r: map<string, RoomData>)
    ensures r.Keys == rooms.Keys
    ensures forall c :: c in rooms && c != code ==> r[c] == rooms[c]
    ensures code in rooms ==> r[code] == rooms[code].(board := cells, currentPlayer := next, moveHistory := history)
  {
    if code in rooms then rooms[code := rooms[code].(board := cells, currentPlayer := next, moveHistory := history)]
    else rooms
  }

  /** The write of `leaveRoom`: the `connected` flag of one player's slot in room `code` becomes false. */
  function MarkDisconnected(rooms: map<string, RoomData>, code: string, color: Option<Color>)
    : (r: map<string, RoomData>)
    ensures r.Keys == rooms.Keys
    ensures forall c :: c in rooms && c != code ==> r[c] == rooms[c]
    ensures code in rooms && color.Some? && color.value in rooms[code].players ==>
              var room := rooms[code];
              r[code] == room.(players := room.players[color.value := room.players[color.value].(connected := false)])
    ensures !(code in rooms && color.Some? && color.value in rooms[code].players) ==> r == rooms
  {
    if code in rooms && color.Some? && color.value in rooms[code].players then
      var room := rooms[code];
      rooms[code := room.(players := room.players[color.value := room.players[color.value].(connected := false)])]
    else rooms
  }
}
