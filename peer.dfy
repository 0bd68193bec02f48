/**
 * Peer-to-peer play with room discovery through browser storage: a directory of
 * room records kept alive by a heartbeat, purged by liveness when listed, and a
 * session whose role fields change on create, join, connection events and
 * disconnect.
 */
module Peer {
  import opened Wrappers
  import opened Board

  /** A listed room is one seen within the last 30 seconds. */
  const LivenessMs := 30000

  /** A record of the `availableChessRooms` list. */
  datatype RoomEntry = RoomEntry(
    roomCode: string,
    matchName: string,
    color: string,
    status: RoomStatus,
    lastSeen: int,
    createdAt: int)

  /** A record of the `myOnlineRooms` list; a guest's record carries no name and no colour. */
  datatype MyRoom = MyRoom(
    roomCode: string,
    matchName: Option<string>,
    color: Option<string>,
    playerId: Option<string>,
    playerColor: Color)

  /** The game state a player sends; its shape is the caller's. */
  datatype Snapshot = Snapshot(board: Grid, currentPlayer: Color, moveHistory: seq<string>)

  /** A message sent over the data connection. */
  datatype Message = MoveMessage(from: Square, to: Square) | StateMessage(state: Snapshot)

  /** The data connection to the other player's endpoint `peer`, open or not (yet or any more). */
  datatype Connection = Connection(peer: string, open: bool)

  /** The elements of `s` that `keep` accepts, in their original order. */
  function Filter<T(!new)>(s: seq<T>, keep: T -> bool): (r: seq<T>)
    ensures |r| <= |s|
    ensures forall x :: x in r <==> x in s && keep(x)
  {
    if s == [] then []
    else (if keep(s[0]) then [s[0]] else []) + Filter(s[1..], keep)
  }

  /** Filtering a concatenation filters each part: the kept elements keep their relative order. */
  lemma {:induction false} FilterAppend<T(!new)>(a: seq<T>, b: seq<T>, keep: T -> bool)
    ensures Filter(a + b, keep) == Filter(a, keep) + Filter(b, keep)
  {
    if a == [] {
      assert a + b == b;
    } else {
      assert (a + b)[1..] == a[1..] + b;
      FilterAppend(a[1..], b, keep);
    }
  }

  /** Filtering drops nothing exactly when every element is kept, and then it returns its input. */
  lemma {:induction false} FilterKeepsAll<T(!new)>(s: seq<T>, keep: T -> bool)
    ensures |Filter(s, keep)| == |s| <==> forall i :: 0 <= i < |s| ==> keep(s[i])
    ensures |Filter(s, keep)| == |s| ==> Filter(s, keep) == s
  {
    if s != [] {
      var t := s[1..];
      FilterKeepsAll(t, keep);
      assert s == [s[0]] + t;
      assert forall i :: 1 <= i < |s| ==> s[i] == t[i - 1];
      if keep(s[0]) {
        assert Filter(s, keep) == [s[0]] + Filter(t, keep);
      } else {
        assert Filter(s, keep) == Filter(t, keep);
        assert |Filter(t, keep)| <= |t| < |s|;
      }
    }
  }

  /** Filtering twice with the same test is filtering once. */
  lemma {:induction false} FilterIdempotent<T(!new)>(s: seq<T>, keep: T -> bool)
    ensures Filter(Filter(s, keep), keep) == Filter(s, keep)
  {
    var r := Filter(s, keep);
    forall i | 0 <= i < |r| ensures keep(r[i]) {
      assert r[i] in r;
    }
    FilterKeepsAll(r, keep);
  }

  /** The records whose code differs from `code`, in order. */
  function OtherRooms(rooms: seq<RoomEntry>, code: string): (r: seq<RoomEntry>)
    ensures forall e :: e in r <==> e in rooms && e.roomCode != code
  {
    Filter(rooms, (e: RoomEntry) => e.roomCode != code)
  }

  /** A record is listed while it was seen less than 30 seconds before `now` and is waiting. */
  predicate IsListed(e: RoomEntry, now: int)
  {
    now - e.lastSeen < LivenessMs && e.status == Waiting
  }

  /** The records `getAvailableRooms` returns at time `now`, in their stored order. */
  function Available(rooms: seq<RoomEntry>, now: int): (r: seq<RoomEntry>)
    ensures forall e :: e in r <==> e in rooms && now - e.lastSeen < LivenessMs && e.status == Waiting
  {
    Filter(rooms, (e: RoomEntry) => IsListed(e, now))
  }

  /**
   * A second listing at the same time returns the same records and, since it
   * drops none, writes nothing.
   */
  lemma SecondListingIsStable(rooms: seq<RoomEntry>, now: int)
    ensures Available(Available(rooms, now), now) == Available(rooms, now)
    ensures |Available(Available(rooms, now), now)| == |Available(rooms, now)|
  {
    FilterIdempotent(rooms, (e: RoomEntry) => IsListed(e, now));
  }

  /** The index of the first record with code `code`, as `find` locates it. */
  function FirstIndex(rooms: seq<RoomEntry>, code: string): (r: Option<nat>)
    ensures r.None? <==> forall i :: 0 <= i < |rooms| ==> rooms[i].roomCode != code
    ensures r.Some? ==> r.value < |rooms| && rooms[r.value].roomCode == code
                        && forall i :: 0 <= i < r.value ==> rooms[i].roomCode != code
  {
    if rooms == [] then None
    else if rooms[0].roomCode == code then Some(0)
    else match FirstIndex(rooms[1..], code)
         case None => None
         case Some(i) => Some(i + 1)
  }

  /**
   * The list after registering `entry`: every earlier record with its code is
   * dropped, and the new record is the only one with that code, placed last.
   */
  lemma RegisteredOnce(rooms: seq<RoomEntry>, entry: RoomEntry)
    ensures var r := OtherRooms(rooms, entry.roomCode) + [entry];
            && r[|r| - 1] == entry
            && forall i :: 0 <= i < |r| ==> (r[i].roomCode == entry.roomCode <==> i == |r| - 1)
  {
    var others := OtherRooms(rooms, entry.roomCode);
    forall i | 0 <= i < |others| ensures others[i].roomCode != entry.roomCode {
      assert others[i] in others;
    }
  }

  /**
   * Hosting then listing before any heartbeat: a waiting record registered at
   * `now` is listed at any time less than 30 seconds later.
   */
  lemma HostedRoomIsListed(rooms: seq<RoomEntry>, entry: RoomEntry, now: int)
    requires entry.status == Waiting && now - entry.lastSeen < LivenessMs
    ensures entry in Available(OtherRooms(rooms, entry.roomCode) + [entry], now)
  {
    assert entry in OtherRooms(rooms, entry.roomCode) + [entry];
  }

  /** The record a room becomes when its status and `lastSeen` are refreshed. */
  function Touched(e: RoomEntry, status: RoomStatus, now: int): (r: RoomEntry)
    ensures r.roomCode == e.roomCode && r.matchName == e.matchName && r.color == e.color && r.createdAt == e.createdAt
    ensures r.status == status && r.lastSeen == now
  {
    e.(status := status, lastSeen := now)
  }

  /**
   * A host whose guest has gone reverts its record to waiting with `lastSeen`
   * set to `now`; that record is listed again at `now`.
   */
  lemma ReopenedRoomIsListed(rooms: seq<RoomEntry>, i: nat, now: int)
    requires i < |rooms|
    ensures Touched(rooms[i], Waiting, now) in Available(rooms[i := Touched(rooms[i], Waiting, now)], now)
  {
    var r := rooms[i := Touched(rooms[i], Waiting, now)];
    assert r[i] in r;
  }

  /** The browser storage shared by every page of the same origin. */
  class Storage {
    /** The `availableChessRooms` list; a missing item reads as empty. */
    var rooms: seq<RoomEntry>
    /** The `myOnlineRooms` list. */
    var myRooms: seq<MyRoom>

    constructor ()
      ensures rooms == [] && myRooms == []
    {
      rooms, myRooms := [], [];
    }
  }

  /** What `createRoom` and a guest's opened connection report. */
  datatype Ticket = Ticket(roomCode: string, playerId: string, playerColor: Color)

  class PeerMultiplayerManager {
    /** Whether a peer endpoint exists (`this.peer` is not null). */
    var hasPeer: bool
    var peerId: Option<string>
    var connection: Option<Connection>
    var isHost: bool
    var isConnected: bool
    var playerColor: Option<Color>
    var roomCode: Option<string>
    /** Whether the heartbeat interval is set. */
    var heartbeatActive: bool
    /** The messages handed to the connection, oldest first. */
    var sent: seq<Message>

    /** An endpoint has an id, and the room code is always the endpoint's id. */
    ghost predicate Valid()
      reads this
    {
      (hasPeer ==> peerId.Some?) && roomCode == peerId
    }

    constructor ()
      ensures Valid()
      ensures !hasPeer && peerId == None && connection == None && !isHost && !isConnected
      ensures playerColor == None && roomCode == None && !heartbeatActive && sent == []
    {
      hasPeer, peerId, connection := false, None, None;
      isHost, isConnected, playerColor, roomCode := false, false, None, None;
      heartbeatActive, sent := false, [];
    }

    /** The endpoint opened with id `id`: both the peer id and the room code take it. */
    method OpenPeer(id: string)
      modifies this`hasPeer, this`peerId, this`roomCode
      ensures Valid()
      ensures hasPeer && peerId == Some(id) && roomCode == Some(id)
    {
      hasPeer := true;
      peerId := Some(id);
      roomCode := Some(id);
    }

    /**
     * Hosts a room: opens an endpoint with id `newId` if there is none, becomes
     * host playing White, registers a waiting record seen at `now`, notes the room
     * in `myOnlineRooms` and starts the heartbeat.
     */
    method CreateRoom(store: Storage, matchName: string, color: string, newId: string, now: int)
      returns (t: Ticket)
      requires Valid()
      modifies this, store
      ensures Valid() && hasPeer
      ensures peerId == (if old(hasPeer) then old(peerId) else Some(newId))
      ensures isHost && playerColor == Some(White) && heartbeatActive
      ensures connection == old(connection) && isConnected == old(isConnected) && sent == old(sent)
      ensures var entry := RoomEntry(peerId.value, matchName, color, Waiting, now, now);
              store.rooms == OtherRooms(old(store.rooms), peerId.value) + [entry]
      ensures store.myRooms == old(store.myRooms) + [MyRoom(peerId.value, Some(matchName), Some(color), peerId, White)]
      ensures t == Ticket(peerId.value, peerId.value, White)
    {
      if !hasPeer {
        OpenPeer(newId);
      }
      isHost := true;
      playerColor := Some(White);
      var roomData := RoomEntry(peerId.value, matchName, color, Waiting, now, now);
      RegisterRoom(store, roomData);
      store.myRooms := store.myRooms + [MyRoom(peerId.value, Some(matchName), Some(color), peerId, White)];
      StartHeartbeat();
      t := Ticket(peerId.value, peerId.value, White);
    }

    /** Replaces any record with `entry`'s code by `entry`, placed last. */
    method RegisterRoom(store: Storage, entry: RoomEntry)
      modifies store`rooms
      ensures store.rooms == OtherRooms(old(store.rooms), entry.roomCode) + [entry]
    {
      var filtered := OtherRooms(store.rooms, entry.roomCode);
      store.rooms := filtered + [entry];
    }

    /**
     * Sets the status and `lastSeen` of the first record with this manager's room
     * code; without such a record the list is left as it is.
     */
    method UpdateRoomStatus(store: Storage, status: RoomStatus, now: int)
      modifies store`rooms
      ensures roomCode.None? ==> store.rooms == old(store.rooms)
      ensures roomCode.Some? ==>
                match FirstIndex(old(store.rooms), roomCode.value)
                case None => store.rooms == old(store.rooms)
                case Some(i) => store.rooms == old(store.rooms)[i := Touched(old(store.rooms)[i], status, now)]
    {
      if roomCode.Some? {
        var found := FirstIndex(store.rooms, roomCode.value);
        if found.Some? {
          var i := found.value;
          store.rooms := store.rooms[i := Touched(store.rooms[i], status, now)];
        }
      }
    }

    /** Starts the heartbeat interval. */
    method StartHeartbeat()
      modifies this`heartbeatActive
      ensures heartbeatActive
    {
      heartbeatActive := true;
    }

    /** Clears the heartbeat interval, if one is set. */
    method StopHeartbeat()
      modifies this`heartbeatActive
      ensures !heartbeatActive
    {
      heartbeatActive := false;
    }

    /**
     * One firing of the heartbeat at time `now`: only `lastSeen` of the first
     * record with this manager's room code changes. No interval, no firing.
     */
    method HeartbeatTick(store: Storage, now: int)
      modifies store`rooms
      ensures !heartbeatActive || roomCode.None? ==> store.rooms == old(store.rooms)
      ensures heartbeatActive && roomCode.Some? ==>
                match FirstIndex(old(store.rooms), roomCode.value)
                case None => store.rooms == old(store.rooms)
                case Some(i) => store.rooms == old(store.rooms)[i := old(store.rooms)[i].(lastSeen := now)]
    {
      if heartbeatActive && roomCode.Some? {
        var found := FirstIndex(store.rooms, roomCode.value);
        if found.Some? {
          var i := found.value;
          store.rooms := store.rooms[i := store.rooms[i].(lastSeen := now)];
        }
      }
    }

    /** A room code is set; an empty code counts as none. */
    predicate HasRoomCode()
      reads this
    {
      roomCode.Some? && roomCode.value != ""
    }

    /**
     * Removes every record with this manager's room code, keeping the others in
     * order, and stops the heartbeat. Without a room code (or with an empty one)
     * it does nothing.
     */
    method UnregisterRoom(store: Storage)
      modifies store`rooms, this`heartbeatActive
      ensures !HasRoomCode() ==> store.rooms == old(store.rooms) && heartbeatActive == old(heartbeatActive)
      ensures HasRoomCode() ==> store.rooms == OtherRooms(old(store.rooms), roomCode.value) && !heartbeatActive
    {
      if roomCode.None? || roomCode.value == "" {
        return;
      }
      store.rooms := OtherRooms(store.rooms, roomCode.value);
      StopHeartbeat();
    }

    /**
     * Starts joining room `code` as guest: opens an endpoint with id `newId` if
     * there is none, becomes guest playing Black and dials the host's endpoint,
     * whose id is the room code; the connection is not open yet.
     */
    method JoinRoom(code: string, newId: string)
      requires Valid()
      modifies this
      ensures Valid() && hasPeer
      ensures peerId == (if old(hasPeer) then old(peerId) else Some(newId))
      ensures !isHost && playerColor == Some(Black) && connection == Some(Connection(code, false))
      ensures isConnected == old(isConnected) && heartbeatActive == old(heartbeatActive) && sent == old(sent)
    {
      if !hasPeer {
        OpenPeer(newId);
      }
      isHost := false;
      playerColor := Some(Black);
      connection := Some(Connection(code, false));
    }

    /**
     * The guest's dialled connection opened: the guest is connected and notes
     * the dialled room in `myOnlineRooms`.
     */
    method OnDialOpen(store: Storage) returns (t: Ticket)
      requires Valid() && hasPeer && connection.Some?
      modifies this`isConnected, this`connection, store`myRooms
      ensures isConnected && connection == Some(Connection(old(connection).value.peer, true))
      ensures store.myRooms == old(store.myRooms) + [MyRoom(old(connection).value.peer, None, None, peerId, Black)]
      ensures t == Ticket(old(connection).value.peer, peerId.value, Black)
    {
      var code := connection.value.peer;
      isConnected := true;
      connection := Some(Connection(code, true));
      store.myRooms := store.myRooms + [MyRoom(code, None, None, peerId, Black)];
      t := Ticket(code, peerId.value, Black);
    }

    /**
     * A guest with endpoint `guest` connected to this endpoint: this side becomes
     * host playing White and its record becomes `playing`.
     */
    method OnIncomingConnection(store: Storage, guest: string, now: int)
      modifies this`connection, this`isHost, this`playerColor, store`rooms
      ensures connection == Some(Connection(guest, true)) && isHost && playerColor == Some(White)
      ensures roomCode.None? ==> store.rooms == old(store.rooms)
      ensures roomCode.Some? ==>
                match FirstIndex(old(store.rooms), roomCode.value)
                case None => store.rooms == old(store.rooms)
                case Some(i) => store.rooms == old(store.rooms)[i := Touched(old(store.rooms)[i], Playing, now)]
    {
      connection := Some(Connection(guest, true));
      isHost := true;
      playerColor := Some(White);
      UpdateRoomStatus(store, Playing, now);
    }

    /**
     * The connection closed: this side is no longer connected, and a host's record
     * reverts to `waiting`.
     */
    method OnConnectionClose(store: Storage, now: int)
      modifies this`isConnected, this`connection, store`rooms
      ensures !isConnected
      ensures connection == if old(connection).Some? then Some(old(connection).value.(open := false)) else None
      ensures !isHost || roomCode.None? ==> store.rooms == old(store.rooms)
      ensures isHost && roomCode.Some? ==>
                match FirstIndex(old(store.rooms), roomCode.value)
                case None => store.rooms == old(store.rooms)
                case Some(i) => store.rooms == old(store.rooms)[i := Touched(old(store.rooms)[i], Waiting, now)]
    {
      isConnected := false;
      if connection.Some? {
        connection := Some(connection.value.(open := false));
      }
      if isHost {
        UpdateRoomStatus(store, Waiting, now);
      }
    }

    /** A message goes out only over an existing, open connection. */
    predicate CanSend()
      reads this
    {
      connection.Some? && connection.value.open
    }

    /** Sends a move to the other player, or nothing when the connection is missing or not open. */
    method SendMove(from: Square, to: Square)
      modifies this`sent
      ensures sent == if CanSend() then old(sent) + [MoveMessage(from, to)] else old(sent)
    {
      if connection.Some? && connection.value.open {
        sent := sent + [MoveMessage(from, to)];
      }
    }

    /** Sends the game state to the other player, or nothing when the connection is missing or not open. */
    method SendGameState(state: Snapshot)
      modifies this`sent
      ensures sent == if CanSend() then old(sent) + [StateMessage(state)] else old(sent)
    {
      if connection.Some? && connection.value.open {
        sent := sent + [StateMessage(state)];
      }
    }

    /**
     * Leaves: unregisters the room, closes the connection, destroys the endpoint
     * and drops the role. The peer id and room code are kept.
     */
    method Disconnect(store: Storage)
      requires Valid()
      modifies this, store`rooms
      ensures Valid()
      ensures roomCode == old(roomCode) && peerId == old(peerId) && sent == old(sent)
      ensures !HasRoomCode() ==> store.rooms == old(store.rooms) && heartbeatActive == old(heartbeatActive)
      ensures HasRoomCode() ==> store.rooms == OtherRooms(old(store.rooms), roomCode.value) && !heartbeatActive
      ensures connection == None && !hasPeer
      ensures !isConnected && !isHost && playerColor == None
    {
      UnregisterRoom(store);
      connection := None;
      hasPeer := false;
      isConnected := false;
      isHost := false;
      playerColor := None;
    }

    /**
     * The rooms open for joining at time `now`. The stored list is overwritten
     * with them only when some record was dropped.
     */
    static method GetAvailableRooms(store: Storage, now: int) returns (active: seq<RoomEntry>)
      modifies store`rooms
      ensures active == Available(old(store.rooms), now)
      ensures store.rooms == if |active| != |old(store.rooms)| then active else old(store.rooms)
    {
      var rooms := store.rooms;
      active := Available(rooms, now);
      if |active| != |rooms| {
        store.rooms := active;
      }
    }

    /** Empties the list of rooms. */
    static method ClearAllRooms(store: Storage)
      modifies store`rooms
      ensures store.rooms == []
    {
      store.rooms := [];
    }
  }
}
