/**
 * The board vocabulary of the local engine: sides, piece glyphs, the starting
 * position, square names, the history line written for a move, and the effect of
 * moving a piece on a board value. Everything here is pure; the mutable game
 * state that uses it is in module LocalGame.
 */
module Board {
  import opened Wrappers

  /** The two sides. `currentPlayer`, a player's colour and a piece's colour take these values. */
  datatype Color = White | Black

  /** The status a room record carries in either room directory. */
  datatype RoomStatus = Waiting | Playing

  /** A row or column index of the 8×8 board. Row 0 is Black's back rank, row 7 White's. */
  type Index = i: int | 0 <= i < 8

  /** A square, as `{ row, col }`. */
  datatype Square = Square(row: Index, col: Index)

  /** A square's content: a one-character piece glyph, or "" for an empty square. */
  type Piece = string

  /** A board value: eight rows of eight squares, indexed `[row][col]`. */
  type Grid = g: seq<seq<Piece>> | |g| == 8 && forall r :: 0 <= r < 8 ==> |g[r]| == 8
    witness seq(8, _ => seq(8, _ => ""))

  /** White's glyphs, in the order king, queen, rook, bishop, knight, pawn. */
  const WhiteGlyphs: seq<Piece> := ["♔", "♕", "♖", "♗", "♘", "♙"]

  /** Black's glyphs, in the same order. */
  const BlackGlyphs: seq<Piece> := ["♚", "♛", "♜", "♝", "♞", "♟"]

  /** The starting position. */
  const InitialBoard: Grid := [
    ["♜", "♞", "♝", "♛", "♚", "♝", "♞", "♜"],
    ["♟", "♟", "♟", "♟", "♟", "♟", "♟", "♟"],
    ["", "", "", "", "", "", "", ""],
    ["", "", "", "", "", "", "", ""],
    ["", "", "", "", "", "", "", ""],
    ["", "", "", "", "", "", "", ""],
    ["♙", "♙", "♙", "♙", "♙", "♙", "♙", "♙"],
    ["♖", "♘", "♗", "♕", "♔", "♗", "♘", "♖"]
  ]

  /**
   * The colour of a square's content: none for an empty square, White exactly for
   * the six white glyphs, and Black for anything else that is not empty.
   */
  function GetPieceColor(piece: Piece): (r: Option<Color>)
    ensures r == None <==> piece == ""
    ensures r == Some(White) <==> piece in WhiteGlyphs
    ensures r == Some(Black) <==> piece != "" && piece !in WhiteGlyphs
  {
    if piece == "" then None
    else if piece in WhiteGlyphs then Some(White)
    else Some(Black)
  }

  /** The square's content is a piece of side `player`. */
  function HoldsColor(piece: Piece, player: Color): (ok: bool)
    ensures player == White ==> (ok <==> piece in WhiteGlyphs)
    ensures player == Black ==> (ok <==> piece != "" && piece !in WhiteGlyphs)
  {
    piece != "" && GetPieceColor(piece) == Some(player)
  }

  /** The other side. */
  function Opposite(c: Color): (r: Color)
    ensures r != c
  {
    if c == White then Black else White
  }

  /** Switching sides twice gives back the side one started from. */
  lemma OppositeInvolution(c: Color)
    ensures Opposite(Opposite(c)) == c
  {
  }

  /** Each glyph table classifies as its own side, so the two tables are disjoint. */
  lemma GlyphTablesClassify()
    ensures forall i :: 0 <= i < 6 ==> GetPieceColor(WhiteGlyphs[i]) == Some(White)
    ensures forall i :: 0 <= i < 6 ==> GetPieceColor(BlackGlyphs[i]) == Some(Black)
  {
  }

  /**
   * The starting position holds Black's pieces on rows 0 and 1, White's on rows
   * 6 and 7, and nothing on rows 2 to 5.
   */
  lemma InitialBoardLayout()
    ensures forall c :: 0 <= c < 8 ==> HoldsColor(InitialBoard[0][c], Black) && HoldsColor(InitialBoard[1][c], Black)
    ensures forall c :: 0 <= c < 8 ==> HoldsColor(InitialBoard[6][c], White) && HoldsColor(InitialBoard[7][c], White)
    ensures forall r, c :: 2 <= r < 6 && 0 <= c < 8 ==> InitialBoard[r][c] == ""
  {
  }

  /**
   * The algebraic name of a square: the file letter 'a' + col followed by the
   * rank digit 8 - row, so rows 0..7 are ranks 8..1.
   */
  function SquareName(sq: Square): (name: string)
    ensures |name| == 2
    ensures 'a' <= name[0] <= 'h' && '1' <= name[1] <= '8'
    ensures name[0] as int - 'a' as int == sq.col
    ensures name[1] as int - '0' as int == 8 - sq.row
  {
    [(97 + sq.col) as char, ('0' as int + 8 - sq.row) as char]
  }

  /** Reads a square name back; anything other than a file letter and a rank digit is rejected. */
  function ParseSquareName(s: string): Option<Square> {
    if |s| == 2 && 'a' <= s[0] <= 'h' && '1' <= s[1] <= '8' then
      Some(Square(8 - (s[1] as int - '0' as int), s[0] as int - 'a' as int))
    else
      None
  }

  /** A square name denotes exactly one square, and every valid name is some square's name. */
  lemma SquareNameParse(s: string, sq: Square)
    ensures ParseSquareName(s) == Some(sq) <==> s == SquareName(sq)
  {
    if ParseSquareName(s) == Some(sq) {
      assert s == [s[0], s[1]];
    }
  }

  /** Distinct squares have distinct names. */
  lemma SquareNameInjective(a: Square, b: Square)
    requires SquareName(a) == SquareName(b)
    ensures a == b
  {
    SquareNameParse(SquareName(a), a);
    SquareNameParse(SquareName(b), b);
  }

  /** The name the history line gives a side; Black's spelling differs between the two source files. */
  const WhiteName := "Белые"
  const LocalBlackName := "Черные"
  const OnlineBlackName := "Чёрные"

  function SideName(mover: Color, blackName: string): string {
    if mover == White then WhiteName else blackName
  }

  /**
   * The history line for a move: the mover's name, then ": ", the source's name,
   * " → " and the target's name, each at a fixed offset from the end of the name.
   */
  function MoveLabel(mover: Color, blackName: string, from: Square, to: Square): (line: string)
    ensures var n := |SideName(mover, blackName)|;
            && |line| == n + 9
            && line[..n] == SideName(mover, blackName)
            && line[n..n + 2] == ": "
            && line[n + 2..n + 4] == SquareName(from)
            && line[n + 4..n + 7] == " → "
            && line[n + 7..] == SquareName(to)
  {
    SideName(mover, blackName) + ": " + SquareName(from) + " → " + SquareName(to)
  }

  /**
   * As long as Black's name is not as long as White's, a history line identifies
   * the side that moved and both squares.
   */
  lemma MoveLabelInjective(m1: Color, from1: Square, to1: Square,
                          m2: Color, from2: Square, to2: Square, blackName: string)
    requires |blackName| != |WhiteName|
    requires MoveLabel(m1, blackName, from1, to1) == MoveLabel(m2, blackName, from2, to2)
    ensures m1 == m2 && from1 == from2 && to1 == to2
  {
  }

  /**
   * The board after a piece is carried from `from` to `to`: the target holds what
   * the source held, the source is empty, and every other square is as before.
   */
  function Relocate(cells: Grid, from: Square, to: Square): (r: Grid)
    ensures r[from.row][from.col] == ""
    ensures from != to ==> r[to.row][to.col] == cells[from.row][from.col]
    ensures forall i: Index, j: Index :: Square(i, j) != from && Square(i, j) != to ==> r[i][j] == cells[i][j]
  {
    var moved := cells[to.row := cells[to.row][to.col := cells[from.row][from.col]]];
    moved[from.row := moved[from.row][from.col := ""]]
  }

  /**
   * The only two checks of the local move: the squares differ, and the target does
   * not hold a piece of the side to move. The source is not examined.
   */
  function LocalMoveAllowed(cells: Grid, player: Color, from: Square, to: Square): (ok: bool)
    ensures ok <==> from != to && GetPieceColor(cells[to.row][to.col]) in {None, Some(Opposite(player))}
  {
    from != to && !HoldsColor(cells[to.row][to.col], player)
  }

  /**
   * The board checks of the online move: the source holds a piece of the side to
   * move and the target does not. They imply the local checks, so an online move
   * from a square to itself is always refused.
   */
  function OnlineMoveAllowed(cells: Grid, player: Color, from: Square, to: Square): (ok: bool)
    ensures ok ==> HoldsColor(cells[from.row][from.col], player)
    ensures ok ==> from != to && LocalMoveAllowed(cells, player, from, to)
    ensures ok <==> LocalMoveAllowed(cells, player, from, to) && HoldsColor(cells[from.row][from.col], player)
  {
    HoldsColor(cells[from.row][from.col], player) && !HoldsColor(cells[to.row][to.col], player)
  }

  /**
   * The online checks are strictly stronger than the local ones: a move from an
   * empty square that the local checks let through is refused online.
   */
  lemma EmptySourceRefusedOnline(cells: Grid, player: Color, from: Square, to: Square)
    requires cells[from.row][from.col] == ""
    ensures !OnlineMoveAllowed(cells, player, from, to)
    ensures from != to && cells[to.row][to.col] == "" ==> LocalMoveAllowed(cells, player, from, to)
  {
  }
}
