# Browser chess: board engine, online rooms and peer room directory

A Dafny model of the core of a browser chess game. The game has three layers.

- **Local board engine** (`script.js`). The page keeps four globals: an 8×8 board of piece glyphs, the side to move, the selected square and a list of move-history lines. A move is refused in only two cases: the two squares coincide, or the target holds a piece of the side to move. The colour of the moving piece is checked earlier, when a square is selected. No chess rules are enforced.
- **Online rooms over a shared database** (`multiplayer.js`). A manager creates, joins, leaves and purges room records. It also makes the guarded online move, which changes the local board and history and then writes them to the room.
- **Peer-to-peer room directory and session** (`peer-multiplayer.js`). A list of room records sits in browser storage. It is kept alive by a heartbeat and filtered by liveness when listed. A session's role fields (`isHost`, `playerColor`, `isConnected`, `roomCode`) change on create, join, connection events and disconnect.

Modules, one per source file:

- `wrappers.dfy`: `Wrappers`, holding `Option` and `Result`.
- `board.dfy`: `Board`, the pure part of `script.js`.
- `local_game.dfy`: `LocalGame`, whose class `Game` models the page globals. The board is an `array2` updated in place.
- `online.dfy`: `Online`. Class `Database` holds the `rooms` tree as a `map<string, RoomData>`. Class `MultiplayerManager` models the manager.
- `peer.dfy`: `Peer`. Class `Storage` holds the two storage lists as sequences. Class `PeerMultiplayerManager` models the session.

Each operation is modelled in the source's own form. State that the source updates in place is a class field. Methods with `modifies` clauses state the whole new state in terms of the old one. The specification functions they are stated with carry their own contracts: `Relocate` (the effect of a move on the board), `Unexpired` (the purge), and `Filter`, `Available` and `FirstIndex` (the room list). Lemmas relate the list functions to each other: filtering keeps order, a second listing changes nothing, and a registered or reopened room is listed.

Facts about the code that the model keeps:

- A room record is listed while it was seen less than 30 seconds ago and is waiting (peer-multiplayer.js:283).
- The local move checks neither the source square nor the turn (script.js:113-123). The online move checks both (multiplayer.js:147-157).
- The move history holds display strings only (script.js:130, multiplayer.js:168).
- The heartbeat updates `lastSeen` only, every 5 seconds, and leaves the status alone (peer-multiplayer.js:126-134).
- The host never sets `isConnected` to true; only the guest's open handler does (peer-multiplayer.js:173).

## Model

| member | source | states |
|---|---|---|
| `Board.HoldsColor` | script.js:80 | A square holds a piece of White exactly when it holds one of the six white glyphs, and of Black exactly when it is non-empty and not a white glyph. |
| `Board.GetPieceColor` | script.js:57-61 | No colour exactly for the empty square. White exactly for the six white glyphs. Black for any other non-empty value. |
| `Board.GlyphTablesClassify` | script.js:2-19 | Every white glyph is classified White and every black glyph Black, so the two glyph tables are disjoint. |
| `Board.InitialBoardLayout` | script.js:22-31 | The starting position has Black's pieces on rows 0-1, White's on rows 6-7, and nothing on rows 2-5. |
| `Board.Opposite` | script.js:139 | Switching sides always gives the other colour. |
| `Board.OppositeInvolution` | script.js:138-140 | Switching twice restores the original side. |
| `Board.SquareName` | script.js:130 | A square name is two characters. Its letter is 'a' + col, in 'a'..'h'. Its digit is 8 - row, so rows 0..7 give ranks 8..1. |
| `Board.SquareNameParse` | script.js:130 | Parsing a string gives square `sq` exactly when the string is `sq`'s name, so names and squares correspond one to one. |
| `Board.SquareNameInjective` | script.js:130 | Distinct squares get distinct names. |
| `Board.MoveLabel` | script.js:130 | A history line is the side's name, ": ", the source's name, " → " and the target's name, each at a fixed offset. It is nine characters longer than the side's name. |
| `Board.MoveLabelInjective` | multiplayer.js:168 | When Black's name is not as long as White's (true in both files), a history line determines the mover, the source and the target. |
| `Board.Relocate` | script.js:126-127 | After a move the source is empty and the target holds the source's old content. Every other square is unchanged. |
| `Board.LocalMoveAllowed` | script.js:115-123 | A local move passes exactly when the squares differ and the target is empty or holds a piece of the other side. |
| `Board.OnlineMoveAllowed` | multiplayer.js:152-161 | The online board checks pass exactly when the local checks pass and the source holds a piece of the side to move. So a move from a square to itself is always refused online. |
| `Board.EmptySourceRefusedOnline` | multiplayer.js:155-157 | A move from an empty square is refused online, though the local checks pass it when the target is empty and distinct: the online checks are strictly stronger. |
| `LocalGame.Game.constructor` | script.js:33-36 | The page starts with a copy of the initial board, White to move, nothing selected and no history. |
| `LocalGame.Game.MakeMove` | script.js:113-135 | Succeeds exactly when the squares differ and the target does not hold a piece of the side to move. On success the board is relocated and one labelled line is appended. On failure neither board nor history changes. The side to move never changes here. |
| `LocalGame.Game.MovePiece` | script.js:126-131 | The in-place update: the board becomes `Relocate` of the old board, and exactly one history line is appended after the unchanged earlier ones. |
| `LocalGame.Game.SwitchPlayer` | script.js:138-140 | The side to move becomes the opposite one. Nothing else changes. |
| `LocalGame.Game.NewGame` | script.js:160-164 | Resets to a fresh copy of the initial board, White to move, no selection and empty history. |
| `LocalGame.Game.HandleSquareClick` | script.js:64-92 | A move happens exactly when a square was selected and the local checks pass. Then the side switches and the selection clears. Otherwise the clicked square becomes selected if it holds a piece of the side to move, and the selection is cleared if not. Afterwards any selection holds a piece of the side to move. So a move made from a valid selection leaves the target square holding a piece of the side that moved. |
| `Online.TimestampId` | multiplayer.js:18 | A player id is the decimal form of the timestamp: non-empty, digits only, no leading zero, and its decimal value is the timestamp. |
| `Online.TimestampIdInjective` | multiplayer.js:18 | Distinct timestamps give distinct player ids. |
| `Online.NewRoom` | multiplayer.js:22-38 | The created record is waiting, has only White seated and connected, White to move, empty history, the starting position, and the given code, name, colour and creation time. |
| `Online.JoinCheck` | multiplayer.js:54-64 | Not found exactly when the code is absent. Full exactly when Black is seated. Otherwise it returns the stored record. |
| `Online.NewRoomJoinableOnce` | multiplayer.js:22-38 | A freshly created record can be joined. Once Black is seated, it reports full. |
| `Online.Unexpired` | multiplayer.js:216-222 | Keeps exactly the rooms whose `createdAt` is not below `now` minus one day, with their records unchanged. |
| `Online.StoreMove` | multiplayer.js:176-180 | The move's write changes only the board, side to move and history of the current room. Other rooms and keys are unchanged. |
| `Online.MarkDisconnected` | multiplayer.js:197 | Leaving clears only the leaving player's `connected` flag. Other rooms and keys are unchanged. |
| `Online.MultiplayerManager.constructor` | multiplayer.js:3-8 | Starts with no room, no id, no colour, and offline. |
| `Online.MultiplayerManager.MoveGate` | multiplayer.js:142-161 | The gate opens exactly when the manager is online, in a room (helper `HasRoom`: a current room that is set and not the empty string), on this player's turn, the source holds a piece of the side to move and the local checks pass. An open gate implies a move between distinct squares. |
| `Online.SecondMoveRefused` | multiplayer.js:147-150 | Once the gate lets a player move for one side, that player's next move is refused while the other side is to move, whatever the board and squares. |
| `Online.MultiplayerManager.CreateRoom` | multiplayer.js:16-49 | The creator becomes White and online before the write. A successful write stores a waiting record with only White seated, White to move, empty history and the initial board, replacing any record under that code. The code becomes the current room. A failed write stores nothing and keeps the previous room. |
| `Online.MultiplayerManager.JoinRoom` | multiplayer.js:52-86 | Not found or full: that error is returned and nothing changes. Otherwise the joiner becomes Black, online and in the room. Black's slot is written, then status `playing`. A failed write keeps the writes made before it and fails. Success returns the record as read before the writes. |
| `Online.MultiplayerManager.MakeOnlineMove` | multiplayer.js:142-189 | When the gate is closed, returns false and changes nothing. When it is open, the board is relocated and one line is appended. Only a successful write flips the side to move, stores board, side and history in the room, and returns true. A failed write returns false with the board and history already changed. |
| `Online.MultiplayerManager.LeaveRoom` | multiplayer.js:192-209 | Without a room (`HasRoom`: an empty code counts as none), or when the write fails, nothing changes. Otherwise the player's slot is marked disconnected and room, id, colour and online flag are cleared. |
| `Online.MultiplayerManager.CleanOldRooms` | multiplayer.js:212-227 | The loop deletes one room at a time. Afterwards the tree is exactly `Unexpired` of the old tree at `now`. |
| `Peer.Filter` | peer-multiplayer.js:282-284 | Keeps exactly the accepted elements and is never longer than its input. |
| `Peer.FilterAppend` | peer-multiplayer.js:99 | Filtering distributes over concatenation, so kept records keep their relative order. |
| `Peer.FilterKeepsAll` | peer-multiplayer.js:287 | The filtered list has the input's length exactly when every element is kept, and then it equals the input. |
| `Peer.FilterIdempotent` | peer-multiplayer.js:282-284 | Filtering twice equals filtering once. |
| `Peer.OtherRooms` | peer-multiplayer.js:99 | Exactly the records whose code differs from the given one. |
| `Peer.Available` | peer-multiplayer.js:282-284 | Exactly the records seen less than 30 s before `now` that are waiting (the helper test `IsListed`), in stored order. No stale or playing record is ever listed. |
| `Peer.SecondListingIsStable` | peer-multiplayer.js:278-291 | A second listing at the same `now` returns the same list and has the same length, so it writes nothing. |
| `Peer.FirstIndex` | peer-multiplayer.js:113 | Finds the first record with the code, or reports that none has it. |
| `Peer.RegisteredOnce` | peer-multiplayer.js:96-104 | After registering, the new record is last and is the only record with its code. |
| `Peer.HostedRoomIsListed` | peer-multiplayer.js:62-71 | A waiting room registered at time t is listed at any time less than 30 s after t. |
| `Peer.Touched` | peer-multiplayer.js:116-117 | A refreshed record has the new status and `lastSeen` and keeps every other field. |
| `Peer.ReopenedRoomIsListed` | peer-multiplayer.js:221-228 | A host's record reverted to waiting at `now` is listed again at `now`. |
| `Peer.Storage.constructor` | peer-multiplayer.js:96 | An absent storage item reads as an empty list. |
| `Peer.PeerMultiplayerManager.constructor` | peer-multiplayer.js:3-12 | Starts with no endpoint, no connection, not host, not connected, no colour, no room code and no heartbeat. |
| `Peer.PeerMultiplayerManager.OpenPeer` | peer-multiplayer.js:22-27 | An opened endpoint's id becomes both the peer id and the room code. |
| `Peer.PeerMultiplayerManager.CreateRoom` | peer-multiplayer.js:53-92 | The creator becomes host and White. A waiting record with `lastSeen` equal to `createdAt` replaces any record with the same code and goes last. The room is noted among the player's rooms and the heartbeat starts. The connection is untouched. |
| `Peer.PeerMultiplayerManager.RegisterRoom` | peer-multiplayer.js:95-108 | The list becomes the records with other codes, in order, followed by the new record. |
| `Peer.PeerMultiplayerManager.UpdateRoomStatus` | peer-multiplayer.js:111-121 | Only the first record with the manager's code gets the new status and `lastSeen`. With no such record the list is unchanged. |
| `Peer.PeerMultiplayerManager.StartHeartbeat` | peer-multiplayer.js:124-126 | The heartbeat interval is set. |
| `Peer.PeerMultiplayerManager.StopHeartbeat` | peer-multiplayer.js:138-143 | The heartbeat interval is cleared. |
| `Peer.PeerMultiplayerManager.HeartbeatTick` | peer-multiplayer.js:126-134 | One firing changes only `lastSeen` of the first record with the manager's code. It never changes the status or any other record. With no interval set, nothing changes. |
| `Peer.PeerMultiplayerManager.UnregisterRoom` | peer-multiplayer.js:146-155 | Without a room code, or with an empty one (helper `HasRoomCode`), nothing changes. Otherwise every record with the code is removed, the rest stay in order, and the heartbeat stops. |
| `Peer.PeerMultiplayerManager.JoinRoom` | peer-multiplayer.js:158-169 | The joiner is not host, plays Black, and has a connection to the dialled room code that is not yet open. |
| `Peer.PeerMultiplayerManager.OnDialOpen` | peer-multiplayer.js:171-190 | When the guest's connection opens, the guest is connected and the dialled room code is noted among the player's rooms as Black, and returned. |
| `Peer.PeerMultiplayerManager.OnIncomingConnection` | peer-multiplayer.js:35-44 | An incoming connection makes this side host and White, and marks its record `playing`. |
| `Peer.PeerMultiplayerManager.OnConnectionClose` | peer-multiplayer.js:221-229 | On close, the side is no longer connected. A host's record reverts to `waiting`, and only that record changes. |
| `Peer.PeerMultiplayerManager.SendMove` | peer-multiplayer.js:237-245 | A move message is appended only when a connection exists and is open (helper `CanSend`). Otherwise nothing is sent. |
| `Peer.PeerMultiplayerManager.SendGameState` | peer-multiplayer.js:248-255 | A state message is appended only when a connection exists and is open (`CanSend`). Otherwise nothing is sent. |
| `Peer.PeerMultiplayerManager.Disconnect` | peer-multiplayer.js:258-274 | Unregisters the room (a no-op without a non-empty room code, `HasRoomCode`), drops connection and endpoint, and leaves the session not connected, not host and with no colour. The peer id and room code are kept. |
| `Peer.PeerMultiplayerManager.GetAvailableRooms` | peer-multiplayer.js:277-292 | Returns `Available` of the stored list at `now`. It overwrites storage with that result only when something was dropped. |
| `Peer.PeerMultiplayerManager.ClearAllRooms` | peer-multiplayer.js:295-298 | The room list becomes empty. |

## Left out

- Rendering and UI text are left out: `initBoard`, `updateDisplay`, `selectSquare`'s highlighting, `clearHighlights`, the `confirm` in `resetGame` and `updateConnectionStatus`.
- The database listeners in `listenToRoom` are left out. They overwrite the local board, side to move and history from the room; this is foreign asynchronous plumbing.
- PeerJS wiring is left out: failure of endpoint creation, `peer.connect`, the `data` handler and the `error` callbacks. Only the state changes their handlers make are modelled, as `OpenPeer`, `OnDialOpen`, `OnIncomingConnection` and `OnConnectionClose`.
- Room codes and endpoint ids come from `Math.random` in the source (up to six upper-case base-36 characters, and `chess-` plus up to three). Here the caller passes them in.
- `Date.now` is a `now` parameter. Where the source reads the clock several times in one call, one value is used. This covers the player id, `joinedAt` and `createdAt`, and also `lastSeen` and `createdAt`.
- Each database write's success is a boolean parameter. Reads are taken to succeed.
- `Online.MultiplayerManager.CleanOldRooms` assumes every removal succeeds. In the source a failing removal ends the loop early, leaving the remaining old rooms in place.
- `Online.StoreMove`: when the current room's record is absent, the database would create a partial record. Here the tree is left unchanged.
- `Online.MarkDisconnected`: when the room or the player's slot is absent, the database would likewise create a partial record. Here the tree is left unchanged.
- `Peer.PeerMultiplayerManager.StartHeartbeat`: the heartbeat is a flag, not a timer. Calling `createRoom` twice starts two intervals in the source and loses the first handle, so one keeps firing after `stopHeartbeat`. The model does not represent that leaked interval.
- `Peer.PeerMultiplayerManager.OnIncomingConnection`: an incoming connection is taken to be open at once.
- The `window` events that notify other tabs, and the JSON (de)serialisation of storage, are left out.
- The payload of `sendGameState` is defined by its caller, which is not part of this model. It is represented as a board snapshot.
- Squares are indices 0..7. In the source an out-of-range row would throw, and an out-of-range column would grow the row array and give a file letter past `h`. Neither happens, because clicks come only from the 64 squares.
- Timestamps are unbounded integers. The source's doubles represent such millisecond values exactly.
- Races between clients writing the same record are not modelled.
- `server.js` and `firebase-config.example.js` are not part of this model.
- Chess legality (piece movement, check, castling, promotion) is not modelled: the source does not implement it.
