/**
 * The local game: the board, the side to move, the selected square and the move
 * history, which the page keeps as globals and updates in place.
 */
module LocalGame {
  import opened Wrappers
  import opened Board

  class Game {
    /** The 8×8 board of glyphs, updated square by square. */
    var board: array2<Piece>
    var currentPlayer: Color
    var selectedSquare: Option<Square>
    /** The display lines of the moves made so far, oldest first. */
    var moveHistory: seq<string>

    ghost predicate Valid()
      reads this`board
    {
      board.Length0 == 8 && board.Length1 == 8
    }

    /** The board as a value (what is written when the board is stored). */
    function Cells(): Grid
      reads this`board, board
      requires Valid()
    {
      var b := board;
      seq(8, (r: int) requires 0 <= r < 8 reads b =>
        seq(8, (c: int) requires 0 <= c < 8 reads b => b[r, c]))
    }

    /** A selected square holds a piece of the side to move. */
    ghost predicate SelectionValid()
      reads this, board
      requires Valid()
    {
      selectedSquare.Some? ==> HoldsColor(Cells()[selectedSquare.value.row][selectedSquare.value.col], currentPlayer)
    }

    /** The state the page starts in: a copy of the starting position, White to move. */
    constructor ()
      ensures Valid() && fresh(board)
      ensures Cells() == InitialBoard
      ensures currentPlayer == White && selectedSquare == None && moveHistory == []
    {
      board := new Piece[8, 8]((r, c) requires 0 <= r < 8 && 0 <= c < 8 => InitialBoard[r][c]);
      currentPlayer := White;
      selectedSquare := None;
      moveHistory := [];
      new;
      assert Cells() == InitialBoard by {
        forall r | 0 <= r < 8 ensures Cells()[r] == InitialBoard[r] { }
      }
    }

    /**
     * Moves the piece on `from` to `to` unless the squares coincide or `to` holds a
     * piece of the side to move, and records the move. The side to move is not
     * switched here and the source square is not examined.
     */
    method MakeMove(from: Square, to: Square) returns (ok: bool)
      requires Valid()
      modifies board, this`moveHistory
      ensures Valid()
      ensures ok == LocalMoveAllowed(old(Cells()), currentPlayer, from, to)
      ensures Cells() == if ok then Relocate(old(Cells()), from, to) else old(Cells())
      ensures moveHistory == if ok then old(moveHistory) + [MoveLabel(currentPlayer, LocalBlackName, from, to)]
                             else old(moveHistory)
    {
      if from == to {
        return false;
      }
      var targetPiece := board[to.row, to.col];
      if targetPiece != "" && GetPieceColor(targetPiece) == Some(currentPlayer) {
        return false;
      }
      MovePiece(from, to, LocalBlackName);
      ok := true;
    }

    /**
     * The update both the local and the online move make once their checks pass:
     * the piece goes from `from` to `to`, `from` is emptied, and the history line,
     * spelling Black as `blackName`, is appended.
     */
    method MovePiece(from: Square, to: Square, blackName: string)
      requires Valid()
      modifies board, this`moveHistory
      ensures Valid()
      ensures Cells() == Relocate(old(Cells()), from, to)
      ensures moveHistory == old(moveHistory) + [MoveLabel(currentPlayer, blackName, from, to)]
    {
      ghost var before := Cells();
      var piece := board[from.row, from.col];
      board[to.row, to.col] := piece;
      board[from.row, from.col] := "";
      moveHistory := moveHistory + [MoveLabel(currentPlayer, blackName, from, to)];
      assert Cells() == Relocate(before, from, to) by {
        forall r | 0 <= r < 8 ensures Cells()[r] == Relocate(before, from, to)[r] { }
      }
    }

    /** Hands the move to the other side. */
    method SwitchPlayer()
      modifies this`currentPlayer
      ensures currentPlayer == Opposite(old(currentPlayer))
    {
      currentPlayer := if currentPlayer == White then Black else White;
    }

    /** Starts over: a fresh copy of the starting position, White to move, nothing selected, no history. */
    method NewGame()
      modifies this
      ensures Valid() && fresh(board)
      ensures Cells() == InitialBoard
      ensures currentPlayer == White && selectedSquare == None && moveHistory == []
    {
      board := new Piece[8, 8]((r, c) requires 0 <= r < 8 && 0 <= c < 8 => InitialBoard[r][c]);
      currentPlayer := White;
      selectedSquare := None;
      moveHistory := [];
      assert Cells() == InitialBoard by {
        forall r | 0 <= r < 8 ensures Cells()[r] == InitialBoard[r] { }
      }
    }

    /**
     * A click on square `sq`. With a square selected, it first tries to move from
     * there to `sq`; a move that goes through clears the selection and switches
     * sides. Otherwise `sq` becomes selected when it holds a piece of the side to
     * move, and the selection is cleared when it does not. A selection therefore
     * always holds a piece of the side to move, which is the only place the source
     * square of a local move is checked: from a valid selection, the square moved
     * to ends up holding a piece of the side that moved.
     */
    method HandleSquareClick(sq: Square) returns (moved: bool)
      requires Valid()
      modifies this, board
      ensures Valid() && board == old(board)
      ensures SelectionValid()
      ensures moved == (old(selectedSquare).Some? &&
                        LocalMoveAllowed(old(Cells()), old(currentPlayer), old(selectedSquare).value, sq))
      ensures moved ==> && Cells() == Relocate(old(Cells()), old(selectedSquare).value, sq)
                        && moveHistory == old(moveHistory) + [MoveLabel(old(currentPlayer), LocalBlackName, old(selectedSquare).value, sq)]
                        && currentPlayer == Opposite(old(currentPlayer))
                        && selectedSquare == None
      ensures !moved ==> && Cells() == old(Cells())
                         && moveHistory == old(moveHistory)
                         && currentPlayer == old(currentPlayer)
                         && selectedSquare == if HoldsColor(old(Cells())[sq.row][sq.col], currentPlayer) then Some(sq) else None
      ensures moved && old(SelectionValid()) ==> HoldsColor(Cells()[sq.row][sq.col], old(currentPlayer))
    {
      var piece := board[sq.row, sq.col];
      moved := false;
      if selectedSquare.Some? {
        moved := MakeMove(selectedSquare.value, sq);
        if moved {
          selectedSquare := None;
          SwitchPlayer();
        } else if piece != "" && GetPieceColor(piece) == Some(currentPlayer) {
          selectedSquare := Some(sq);
        } else {
          selectedSquare := None;
        }
      } else if piece != "" && GetPieceColor(piece) == Some(currentPlayer) {
        selectedSquare := Some(sq);
      }
    }
  }
}
