/** The protocol package's value types: board places, moves and logged moves. */
module Protocol {

  /** A board cell; x is the column and y the row, both 0-based. */
  datatype Place = Place(x: int, y: int)

  /** A move from one place to another; nothing here demands that the two differ. */
  datatype Move = Move(source: Place, destination: Place)

  /** A logged move. The source keeps a reference to the Player object; here the player is
      named by its position in the configuration's player array. */
  datatype MoveRecord = MoveRecord(player: nat, move: Move)

  function Abs(n: int): nat { if n < 0 then -n else n }

  /** The Manhattan length of a move, |sx - dx| + |sy - dy|. */
  function Distance(m: Move): nat
  {
    Abs(m.source.x - m.destination.x) + Abs(m.source.y - m.destination.y)
  }

  /** A move has length zero exactly when it goes nowhere. */
  lemma DistanceZero(m: Move)
    ensures Distance(m) == 0 <==> m.source == m.destination
  {
  }
}
