/** The game-record loader of protocol/io/Deserializer.java.

    A record is a text file read line by line. Blank lines and lines starting with '#'
    are skipped; the remaining lines, trimmed, hold in this order: the board size, the
    number of protected moves, the central place, the number of players, one
    "Name:<name>;Score:<int>" line per player, then move records up to a line "END".
    The file is given here as the sequence of its lines; a reader over it is the pair
    (lines, position of the next unread line). */
module Deserialization {
  import opened JavaText
  import opened Protocol

  // ---------------------------------------------------------------- outcomes

  /** The runtime exceptions parseGame lets escape without catching them. */
  datatype Unchecked =
    | NumberFormat       // Integer.parseInt on a token that is not a Java int
    | IndexOutOfBounds   // an array index past a split result, or substring(.., -1)
    | NullPointer        // end of input inside the player loop
    | NegativeArraySize  // a negative number of players

  datatype Failure =
    | ConfigurationError(message: string)  // InvalidConfigurationError
    | GameError(message: string)           // InvalidGameException
    | UncheckedFailure(cause: Unchecked)

  datatype Result<T> = Ok(value: T) | Fail(failure: Failure) {
    predicate IsFailure() { Fail? }
    function PropagateFailure<U>(): Result<U> requires Fail? { Fail(failure) }
    function Extract(): T requires Ok? { value }
  }

  const EofSize := "Unexpected EOF when parsing number of board size"
  const EofColumns := "Unexpected EOF when parsing number of columns"
  const EofPlayers := "Unexpected EOF when parsing number of players"
  const BadSize := "Fail to parse board size. Please check format."
  const BadProtection := "Fail to parse numMovesProtection. Please check format."
  const BadCentral := "Fail to parse central place. Please check format."

  function InvalidPlace(s: string): Failure { ConfigurationError("invalid place \"" + s + "\"") }
  function InvalidMove(s: string): Failure { ConfigurationError("invalid move \"" + s + "\"") }
  function InvalidRecord(s: string): Failure { ConfigurationError("invalid move record \"" + s + "\"") }
  function UnknownPlayer(s: string): Failure
  {
    ConfigurationError("invalid move record, can not find player \"" + s + "\"")
  }

  /** What the Configuration constructor is given. */
  datatype Configuration = Configuration(size: int, players: seq<string>, numMovesProtection: int)

  /** The Configuration constructor's own validation, which is not part of this model:
      the message of the InvalidConfigurationError it throws, or None when it accepts. */
  type ConfigurationCheck = (int, seq<string>, int) -> Option<string>

  /** Everything a successful parseGame leaves behind. */
  datatype Loaded = Loaded(
    size: int,
    numMovesProtection: int,
    centralPlace: Place,
    players: seq<string>,
    scores: seq<int>,
    records: seq<MoveRecord>)

  // ---------------------------------------------------------------- places, moves, records

  /** parsePlace: "(" x "," y ")". The string must be at least two characters long and start
      with '('; x runs from after '(' to the first ','; the string must split on ',' into exactly
      two parts, and y is the second part up to its first ')'. */
  function ParsePlace(s: string): (r: Result<Place>)
    ensures |s| < 2 || s[0] != '(' ==> r == Fail(InvalidPlace(s))
    ensures r.Ok? ==> |s| >= 2 && s[0] == '(' && ',' in s && |Split(s, ",")| == 2
    ensures r.Ok? ==> IsInt32(r.value.x) && IsInt32(r.value.y)
  {
    if |s| < 2 || s[0] != '(' then Fail(InvalidPlace(s))
    else
      var comma := IndexOf(s, ',');
      if comma < 0 then Fail(UncheckedFailure(IndexOutOfBounds))
      else match ParseInt(s[1..comma])
        case None => Fail(UncheckedFailure(NumberFormat))
        case Some(x) =>
          var words := Split(s, ",");
          if |words| != 2 then Fail(InvalidPlace(s))
          else
            var close := IndexOf(words[1], ')');
            if close < 0 then Fail(UncheckedFailure(IndexOutOfBounds))
            else match ParseInt(words[1][..close])
              case None => Fail(UncheckedFailure(NumberFormat))
              case Some(y) => Ok(Place(x, y))
  }

  /** parseMove: exactly two parts around "->", each a place. */
  function ParseMove(s: string): (r: Result<Move>)
    ensures |Split(s, "->")| != 2 ==> r == Fail(InvalidMove(s))
    ensures r.Ok? <==>
      var parts := Split(s, "->");
      |parts| == 2 && ParsePlace(parts[0]).Ok? && ParsePlace(parts[1]).Ok?
    ensures r.Ok? ==>
      var parts := Split(s, "->");
      r.value == Move(ParsePlace(parts[0]).value, ParsePlace(parts[1]).value)
  {
    var parts := Split(s, "->");
    if |parts| != 2 then Fail(InvalidMove(s))
    else
      var source :- ParsePlace(parts[0]);
      var destination :- ParsePlace(parts[1]);
      Ok(Move(source, destination))
  }

  /** parseMoveRecord: exactly three ':'-separated fields; the player's name is the trimmed text
      of the second field before any ';', and it must name one of the configured players, the
      first with that name; the move is the trimmed third field. */
  function ParseMoveRecord(s: string, players: seq<string>): (r: Result<MoveRecord>)
    ensures |Split(s, ":")| != 3 ==> r == Fail(InvalidRecord(s))
    ensures r.Ok? ==>
      var words := Split(s, ":");
      && |words| == 3
      && Split(words[1], ";") != []
      && r.value.player < |players|
      && players[r.value.player] == Trim(Split(words[1], ";")[0])
      && players[r.value.player] !in players[..r.value.player]
      && ParseMove(Trim(words[2])) == Ok(r.value.move)
  {
    var words := Split(s, ":");
    if |words| != 3 then Fail(InvalidRecord(s))
    else
      var names := Split(words[1], ";");
      if |names| == 0 then Fail(UncheckedFailure(IndexOutOfBounds))
      else
        var i := IndexOf(players, Trim(names[0]));
        if i < 0 then Fail(UnknownPlayer(s))
        else
          var move :- ParseMove(Trim(words[2]));
          Ok(MoveRecord(i, move))
  }

  /** A record line naming no configured player is rejected with a configuration error. */
  lemma UnknownPlayerRejected(s: string, players: seq<string>)
    requires |Split(s, ":")| == 3
    requires var names := Split(Split(s, ":")[1], ";"); names != [] && Trim(names[0]) !in players
    ensures ParseMoveRecord(s, players) == Fail(UnknownPlayer(s))
  {
  }

  // ---------------------------------------------------------------- header and player lines

  /** The text after the first ':' of a header line, up to the next ':'; the key before the
      ':' is never looked at. None when splitting on ':' leaves fewer than two parts. */
  function HeaderValue(line: string): Option<string>
  {
    var words := Split(line, ":");
    if |words| < 2 then None else Some(words[1])
  }

  /** An integer header field: a missing value is a configuration error with the field's
      message, a value that is not a Java int escapes as NumberFormatException. */
  function IntHeader(line: string, malformed: string): (r: Result<int>)
    ensures HeaderValue(line).None? ==> r == Fail(ConfigurationError(malformed))
    ensures r.Ok? ==> ParseInt(HeaderValue(line).value) == Some(r.value)
  {
    match HeaderValue(line)
    case None => Fail(ConfigurationError(malformed))
    case Some(v) =>
      match ParseInt(v)
      case None => Fail(UncheckedFailure(NumberFormat))
      case Some(n) => Ok(n)
  }

  /** The central-place header field. */
  function PlaceHeader(line: string): (r: Result<Place>)
    ensures HeaderValue(line).None? ==> r == Fail(ConfigurationError(BadCentral))
    ensures r.Ok? ==> ParsePlace(HeaderValue(line).value) == r
  {
    match HeaderValue(line)
    case None => Fail(ConfigurationError(BadCentral))
    case Some(v) => ParsePlace(v)
  }

  datatype PlayerEntry = PlayerEntry(name: string, score: int)

  /** One "Name:<name>;Score:<int>" line: the name is the trimmed text after the first ':' of the
      part before the first ';', the score the integer after the first ':' of the part after it.
      The loop indexes the split results without checking them, so a missing part escapes as an
      index error. */
  function PlayerLine(line: string): (r: Result<PlayerEntry>)
    ensures r.Ok? ==>
      var parts := Split(line, ";");
      && |parts| >= 2
      && |Split(parts[0], ":")| >= 2 && r.value.name == Trim(Split(parts[0], ":")[1])
      && |Split(parts[1], ":")| >= 2 && ParseInt(Split(parts[1], ":")[1]) == Some(r.value.score)
  {
    var parts := Split(line, ";");
    if |parts| == 0 then Fail(UncheckedFailure(IndexOutOfBounds))
    else
      var key := Split(parts[0], ":");
      if |key| < 2 then Fail(UncheckedFailure(IndexOutOfBounds))
      else if |parts| < 2 then Fail(UncheckedFailure(IndexOutOfBounds))
      else
        var score := Split(parts[1], ":");
        if |score| < 2 then Fail(UncheckedFailure(IndexOutOfBounds))
        else match ParseInt(score[1])
          case None => Fail(UncheckedFailure(NumberFormat))
          case Some(n) => Ok(PlayerEntry(Trim(key[1]), n))
  }

  // ---------------------------------------------------------------- the reader

  /** A line that getFirstNonEmptyLine passes over: blank once trimmed, or a comment. */
  predicate Skipped(line: string)
  {
    var t := Trim(line);
    t == [] || t[0] == '#'
  }

  /** What one call of getFirstNonEmptyLine yields: the trimmed line (None for end of input)
      and the position of the reader afterwards. */
  datatype Fetched = Fetched(line: Option<string>, next: nat)

  /** getFirstNonEmptyLine from position pos: the first line that is not skipped, trimmed, and
      the position after it; None with the reader at the end when every remaining line is
      skipped. */
  function NextLine(lines: seq<string>, pos: nat): (r: Fetched)
    requires pos <= |lines|
    ensures pos <= r.next <= |lines|
    ensures r.line.None? ==> r.next == |lines|
    ensures r.line.Some? ==>
      pos < r.next && !Skipped(lines[r.next - 1]) && r.line.value == Trim(lines[r.next - 1])
    decreases |lines| - pos
  {
    if pos == |lines| then Fetched(None, pos)
    else if Skipped(lines[pos]) then NextLine(lines, pos + 1)
    else Fetched(Some(Trim(lines[pos])), pos + 1)
  }

  /** Every line NextLine passes over is blank or a comment. */
  lemma {:induction false} NextLineSkips(lines: seq<string>, pos: nat)
    requires pos <= |lines|
    ensures var r := NextLine(lines, pos);
      forall i :: pos <= i < |lines| && (r.line.None? || i < r.next - 1) ==> Skipped(lines[i])
    decreases |lines| - pos
  {
    if pos < |lines| && Skipped(lines[pos]) {
      NextLineSkips(lines, pos + 1);
    }
  }

  /** getFirstNonEmptyLine: reads lines until one is neither blank nor a comment. */
  method GetFirstNonEmptyLine(lines: seq<string>, pos: nat) returns (r: Fetched)
    requires pos <= |lines|
    ensures r == NextLine(lines, pos)
  {
    var next := pos;
    while next < |lines|
      invariant pos <= next <= |lines|
      invariant NextLine(lines, pos) == NextLine(lines, next)
      decreases |lines| - next
    {
      var line := Trim(lines[next]);
      next := next + 1;
      if line != [] && line[0] != '#' {
        return Fetched(Some(line), next);
      }
    }
    return Fetched(None, next);
  }

  // ---------------------------------------------------------------- parseGame, step by step

  /** The players read so far and the reader position after them. */
  datatype Roster = Roster(names: seq<string>, scores: seq<int>, next: nat)

  /** The player loop, after |names| of the n players have been read: each further player is
      the next meaningful line, parsed; end of input inside the loop dereferences null. */
  function ReadPlayers(lines: seq<string>, pos: nat, n: nat, names: seq<string>, scores: seq<int>)
    : (r: Result<Roster>)
    requires pos <= |lines| && |names| == |scores| <= n
    ensures r.Ok? ==> pos <= r.value.next <= |lines|
    ensures r.Ok? ==> |r.value.names| == |r.value.scores| == n
    ensures r.Ok? ==> names <= r.value.names && scores <= r.value.scores
    decreases n - |names|
  {
    if |names| == n then Ok(Roster(names, scores, pos))
    else
      var f := NextLine(lines, pos);
      if f.line.None? then Fail(UncheckedFailure(NullPointer))
      else
        var entry :- PlayerLine(f.line.value);
        ReadPlayers(lines, f.next, n, names + [entry.name], scores + [entry.score])
  }

  /** The scores the player loop has stored when it stops: all n when it completes, otherwise
      those of the players before the one it stopped at (a score is stored only once its line
      has parsed in full). */
  function ScoresRead(lines: seq<string>, pos: nat, n: nat, names: seq<string>, scores: seq<int>)
    : (r: seq<int>)
    requires pos <= |lines| && |names| == |scores| <= n
    ensures scores <= r && |r| <= n
    decreases n - |names|
  {
    if |names| == n then scores
    else
      var f := NextLine(lines, pos);
      if f.line.None? then scores
      else match PlayerLine(f.line.value)
        case Fail(_) => scores
        case Ok(entry) => ScoresRead(lines, f.next, n, names + [entry.name], scores + [entry.score])
  }

  /** A player loop that completes has stored all the scores it read. */
  lemma {:induction false} ScoresReadComplete(lines: seq<string>, pos: nat, n: nat, names: seq<string>, scores: seq<int>)
    requires pos <= |lines| && |names| == |scores| <= n
    requires ReadPlayers(lines, pos, n, names, scores).Ok?
    ensures ScoresRead(lines, pos, n, names, scores) == ReadPlayers(lines, pos, n, names, scores).value.scores
    decreases n - |names|
  {
    if |names| < n {
      var f := NextLine(lines, pos);
      var entry := PlayerLine(f.line.value).value;
      ScoresReadComplete(lines, f.next, n, names + [entry.name], scores + [entry.score]);
    }
  }

  /** The Integer[n] array of stored scores once the first |filled| have been stored; null
      elsewhere. */
  function Slots(n: nat, filled: seq<int>): seq<Option<int>>
    requires |filled| <= n
  {
    seq(n, i requires 0 <= i < n => if i < |filled| then Some(filled[i]) else None)
  }

  /** Storing the next score in its slot. */
  lemma SlotsStore(n: nat, filled: seq<int>, score: int)
    requires |filled| < n
    ensures Slots(n, filled)[|filled| := Some(score)] == Slots(n, filled + [score])
  {
  }

  /** The outcome of the move-record loop: the records read, in file order, and the failure
      that stopped it, if any. The records before a failing one stay in the list. */
  datatype Scan = Scan(records: seq<MoveRecord>, failure: Option<Failure>)

  /** The move-record loop: records are appended in file order until end of input or a line
      "END"; the first record that fails to parse ends the load. */
  function ReadRecords(lines: seq<string>, pos: nat, players: seq<string>, done: seq<MoveRecord>)
    : (r: Scan)
    requires pos <= |lines|
    ensures done <= r.records
    decreases |lines| - pos
  {
    var f := NextLine(lines, pos);
    if f.line.None? || f.line.value == "END" then Scan(done, None)
    else match ParseMoveRecord(f.line.value, players)
      case Fail(e) => Scan(done, Some(e))
      case Ok(record) => ReadRecords(lines, f.next, players, done + [record])
  }

  /** The four header fields, in the order parseGame reads them, and the reader position
      after the last. */
  datatype Header = Header(size: int, numMovesProtection: int, centralPlace: Place, numPlayers: int, next: nat)

  /** The four header fields of parseGame, from the first four meaningful lines (None standing
      for end of input): size, numMovesProtection, central place and number of players, in that
      order. End of input before a field is a game error, whose message for the third field
      repeats the one for the second. The position after the header is left 0. */
  function HeaderOf(l0: Option<string>, l1: Option<string>, l2: Option<string>, l3: Option<string>)
    : (r: Result<Header>)
    ensures r.Ok? ==> l0.Some? && l1.Some? && l2.Some? && l3.Some?
  {
    if l0.None? then Fail(GameError(EofSize)) else
    var size :- IntHeader(l0.value, BadSize);
    if l1.None? then Fail(GameError(EofColumns)) else
    var protection :- IntHeader(l1.value, BadProtection);
    if l2.None? then Fail(GameError(EofColumns)) else
    var central :- PlaceHeader(l2.value);
    if l3.None? then Fail(GameError(EofPlayers)) else
    var count :- IntHeader(l3.value, BadSize);
    Ok(Header(size, protection, central, count, 0))
  }

  /** The header part of parseGame: the header fields from the next four meaningful lines, and
      the position after the fourth. The source fetches each line just before parsing it; since
      fetching changes nothing, fetching all four first gives the same header and the same
      failure. */
  function ReadHeader(lines: seq<string>): (r: Result<Header>)
    ensures r.Ok? ==> r.value.next <= |lines|
  {
    var f1 := NextLine(lines, 0);
    var f2 := NextLine(lines, f1.next);
    var f3 := NextLine(lines, f2.next);
    var f4 := NextLine(lines, f3.next);
    var h :- HeaderOf(f1.line, f2.line, f3.line, f4.line);
    Ok(h.(next := f4.next))
  }

  /** The central place parseGame stores as soon as the third header line has parsed, before
      the player count is read: None when the reading stops before that. */
  function CentralRead(lines: seq<string>): Option<Place>
  {
    var f1 := NextLine(lines, 0);
    var f2 := NextLine(lines, f1.next);
    var f3 := NextLine(lines, f2.next);
    if f1.line.None? || IntHeader(f1.line.value, BadSize).Fail? then None
    else if f2.line.None? || IntHeader(f2.line.value, BadProtection).Fail? then None
    else if f3.line.None? then None
    else match PlaceHeader(f3.line.value)
      case Fail(_) => None
      case Ok(central) => Some(central)
  }

  /** A header that reads in full has stored its central place on the way. */
  lemma CentralReadHeader(lines: seq<string>)
    requires ReadHeader(lines).Ok?
    ensures CentralRead(lines) == Some(ReadHeader(lines).value.centralPlace)
  {
    var f1 := NextLine(lines, 0);
    var f2 := NextLine(lines, f1.next);
    var f3 := NextLine(lines, f2.next);
    var f4 := NextLine(lines, f3.next);
    HeaderOfCentral(f1.line, f2.line, f3.line, f4.line);
  }

  /** A header that parses has a size and protection line that parse and the central place
      of its third line. */
  lemma HeaderOfCentral(l0: Option<string>, l1: Option<string>, l2: Option<string>, l3: Option<string>)
    requires HeaderOf(l0, l1, l2, l3).Ok?
    ensures l0.Some? && IntHeader(l0.value, BadSize).Ok?
    ensures l1.Some? && IntHeader(l1.value, BadProtection).Ok?
    ensures l2.Some? && PlaceHeader(l2.value) == Ok(HeaderOf(l0, l1, l2, l3).value.centralPlace)
  {
  }

  /** parseGame as the source runs it: the header; the player array, whose allocation fails
      for a negative count; the players; the Configuration constructor; the move records. */
  function ParseGameSpec(check: ConfigurationCheck, lines: seq<string>): Result<Loaded>
  {
    var h :- ReadHeader(lines);
    LoadAfterHeader(check, lines, h)
  }

  /** The rest of parseGame once header h has been read. */
  function LoadAfterHeader(check: ConfigurationCheck, lines: seq<string>, h: Header): Result<Loaded>
    requires h.next <= |lines|
  {
    if h.numPlayers < 0 then Fail(UncheckedFailure(NegativeArraySize)) else
    var roster :- ReadPlayers(lines, h.next, h.numPlayers, [], []);
    LoadAfterPlayers(check, lines, h, roster)
  }

  /** The rest of parseGame once the players have been read: the Configuration constructor,
      then the move records. */
  function LoadAfterPlayers(check: ConfigurationCheck, lines: seq<string>, h: Header, roster: Roster)
    : Result<Loaded>
    requires roster.next <= |lines|
  {
    var verdict := check(h.size, roster.names, h.numMovesProtection);
    if verdict.Some? then Fail(ConfigurationError(verdict.value)) else
    var scan := ReadRecords(lines, roster.next, roster.names, []);
    if scan.failure.Some? then Fail(scan.failure.value) else
    Ok(Loaded(h.size, h.numMovesProtection, h.centralPlace, roster.names, roster.scores, scan.records))
  }

  /** The Deserializer's fields as parseGame leaves them, on failure as on success: each one is
      assigned as soon as the reading has got that far, and the records read before a bad one
      are kept. */
  datatype Fields = Fields(
    configuration: Option<Configuration>,
    storedScores: Option<seq<Option<int>>>,
    centralPlace: Option<Place>,
    appended: seq<MoveRecord>)

  function StoredFields(check: ConfigurationCheck, lines: seq<string>, prior: Fields): Fields
  {
    var placed := if CentralRead(lines).Some? then prior.(centralPlace := CentralRead(lines)) else prior;
    match ReadHeader(lines)
    case Fail(_) => placed
    case Ok(h) => FieldsAfterHeader(check, lines, h, placed)
  }

  /** The fields as the rest of parseGame leaves them, once header h has been read: the
      stored-score array is allocated for a count that is not negative and filled by the player
      loop, and the configuration and the records follow once the players are read. */
  function FieldsAfterHeader(check: ConfigurationCheck, lines: seq<string>, h: Header, placed: Fields): Fields
    requires h.next <= |lines|
  {
    if h.numPlayers < 0 then placed else
    var scored := placed.(storedScores :=
      Some(Slots(h.numPlayers, ScoresRead(lines, h.next, h.numPlayers, [], []))));
    match ReadPlayers(lines, h.next, h.numPlayers, [], [])
    case Fail(_) => scored
    case Ok(roster) => FieldsAfterPlayers(check, lines, h, roster, scored)
  }

  /** The fields once the players have been read: the configuration once the constructor
      accepts it, and then the records read before the first bad one. */
  function FieldsAfterPlayers(check: ConfigurationCheck, lines: seq<string>, h: Header, roster: Roster,
                              scored: Fields): Fields
    requires roster.next <= |lines|
  {
    if check(h.size, roster.names, h.numMovesProtection).Some? then scored else
    scored.(configuration := Some(Configuration(h.size, roster.names, h.numMovesProtection)),
            appended := ReadRecords(lines, roster.next, roster.names, []).records)
  }

  /** What a failing parseGame still leaves behind: the central place once the third header
      line has parsed, whatever follows it, and the stored-score array once a count that is
      not negative has been read, holding the scores of the players read before the loop
      stopped and null after them. Before those points the fields keep their old values. */
  lemma StoredFieldsEarly(check: ConfigurationCheck, lines: seq<string>, prior: Fields)
    ensures CentralRead(lines).Some? ==> StoredFields(check, lines, prior).centralPlace == CentralRead(lines)
    ensures CentralRead(lines).None? ==> StoredFields(check, lines, prior).centralPlace == prior.centralPlace
    ensures ReadHeader(lines).Ok? && 0 <= ReadHeader(lines).value.numPlayers ==>
      var h := ReadHeader(lines).value;
      StoredFields(check, lines, prior).storedScores
        == Some(Slots(h.numPlayers, ScoresRead(lines, h.next, h.numPlayers, [], [])))
    ensures ReadHeader(lines).Fail? || ReadHeader(lines).value.numPlayers < 0 ==>
      StoredFields(check, lines, prior).storedScores == prior.storedScores
  {
  }

  /** On a successful load the fields hold the loaded game, whatever they held before. */
  lemma StoredFieldsLoaded(check: ConfigurationCheck, lines: seq<string>, prior: Fields)
    requires ParseGameSpec(check, lines).Ok?
    ensures var g := ParseGameSpec(check, lines).value;
      StoredFields(check, lines, prior)
        == Fields(Some(Configuration(g.size, g.players, g.numMovesProtection)),
                  Some(Slots(|g.scores|, g.scores)), Some(g.centralPlace), g.records)
  {
    var h := ReadHeader(lines).value;
    CentralReadHeader(lines);
    var placed := prior.(centralPlace := Some(h.centralPlace));
    assert StoredFields(check, lines, prior) == FieldsAfterHeader(check, lines, h, placed);
    var roster := ReadPlayers(lines, h.next, h.numPlayers, [], []).value;
    ScoresReadComplete(lines, h.next, h.numPlayers, [], []);
    var scored := placed.(storedScores := Some(Slots(h.numPlayers, roster.scores)));
    assert FieldsAfterHeader(check, lines, h, placed) == FieldsAfterPlayers(check, lines, h, roster, scored);
    assert ParseGameSpec(check, lines) == LoadAfterPlayers(check, lines, h, roster);
  }

  // ---------------------------------------------------------------- the Deserializer object

  /** Deserializer: the file it loads, and the fields parseGame fills in. */
  class Deserializer {
    /** The lines of the file at the deserializer's path. */
    const lines: seq<string>
    const check: ConfigurationCheck

    var configuration: Option<Configuration>
    /** The Integer[] of stored scores: None while the field is null, and None in a slot not
        yet stored. */
    var storedScores: Option<seq<Option<int>>>
    var centralPlace: Option<Place>
    var moveRecords: seq<MoveRecord>

    constructor (lines: seq<string>, check: ConfigurationCheck)
      ensures this.lines == lines && this.check == check
      ensures configuration == None && storedScores == None && centralPlace == None
      ensures moveRecords == []
    {
      this.lines := lines;
      this.check := check;
      configuration := None;
      storedScores := None;
      centralPlace := None;
      moveRecords := [];
    }

    /** parseGame. Returns the exception that ends it, or None when it returns normally; on
        success the fields hold the loaded game, and the move records are appended to
        whatever the list held before. */
    method ParseGame() returns (failure: Option<Failure>)
      modifies this
      ensures failure.None? <==> ParseGameSpec(check, lines).Ok?
      ensures failure.Some? ==> failure.value == ParseGameSpec(check, lines).failure
      ensures ParseGameSpec(check, lines).Ok? ==>
        var g := ParseGameSpec(check, lines).value;
        && configuration == Some(Configuration(g.size, g.players, g.numMovesProtection))
        && centralPlace == Some(g.centralPlace)
        && storedScores == Some(Slots(|g.scores|, g.scores))
        && moveRecords == old(moveRecords) + g.records
      ensures var f := StoredFields(check, lines, Fields(old(configuration), old(storedScores), old(centralPlace), []));
        && configuration == f.configuration && storedScores == f.storedScores
        && centralPlace == f.centralPlace && moveRecords == old(moveRecords) + f.appended
    {
      ghost var prior := Fields(configuration, storedScores, centralPlace, []);
      var header := ReadHeaderLines();
      if header.Fail? {
        assert StoredFields(check, lines, prior) == prior.(centralPlace := centralPlace);
        return Some(header.failure);
      }
      assert ParseGameSpec(check, lines) == LoadAfterHeader(check, lines, header.value);
      assert StoredFields(check, lines, prior)
        == FieldsAfterHeader(check, lines, header.value, prior.(centralPlace := centralPlace));
      failure := ReadAfterHeader(header.value);
      if failure.None? {
        StoredFieldsLoaded(check, lines, prior);
      }
    }

    /** parseGame after the header: the stored-score array, the players, the configuration and
        the move records. */
    method ReadAfterHeader(header: Header) returns (failure: Option<Failure>)
      requires header.next <= |lines|
      modifies this`storedScores, this`configuration, this`moveRecords
      ensures failure.None? <==> LoadAfterHeader(check, lines, header).Ok?
      ensures failure.Some? ==> failure.value == LoadAfterHeader(check, lines, header).failure
      ensures var f := FieldsAfterHeader(check, lines, header,
                         Fields(old(configuration), old(storedScores), centralPlace, []));
        && configuration == f.configuration && storedScores == f.storedScores
        && moveRecords == old(moveRecords) + f.appended
    {
      ghost var placed := Fields(configuration, storedScores, centralPlace, []);
      var n := header.numPlayers;
      if n < 0 {
        assert FieldsAfterHeader(check, lines, header, placed) == placed;
        return Some(UncheckedFailure(NegativeArraySize));
      }

      storedScores := Some(Slots(n, []));
      failure := ReadAllocated(header, placed);
    }

    /** parseGame once the stored-score array has been allocated: the players, the
        configuration and the move records. */
    method ReadAllocated(header: Header, ghost placed: Fields) returns (failure: Option<Failure>)
      requires header.next <= |lines| && 0 <= header.numPlayers
      requires storedScores == Some(Slots(header.numPlayers, []))
      requires placed.configuration == configuration && placed.centralPlace == centralPlace
      requires placed.appended == []
      modifies this`storedScores, this`configuration, this`moveRecords
      ensures failure.None? <==> LoadAfterHeader(check, lines, header).Ok?
      ensures failure.Some? ==> failure.value == LoadAfterHeader(check, lines, header).failure
      ensures var f := FieldsAfterHeader(check, lines, header, placed);
        && configuration == f.configuration && storedScores == f.storedScores
        && moveRecords == old(moveRecords) + f.appended
    {
      var roster := ReadPlayerLines(header.next, header.numPlayers);
      ghost var scored := placed.(storedScores := storedScores);
      if roster.Fail? {
        assert FieldsAfterHeader(check, lines, header, placed) == scored;
        return Some(roster.failure);
      }
      assert LoadAfterHeader(check, lines, header) == LoadAfterPlayers(check, lines, header, roster.value);
      assert FieldsAfterHeader(check, lines, header, placed) == FieldsAfterPlayers(check, lines, header, roster.value, scored);
      failure := ReadAfterPlayers(header, roster.value);
    }

    /** parseGame after the players: the Configuration constructor, then the move records. */
    method ReadAfterPlayers(header: Header, roster: Roster) returns (failure: Option<Failure>)
      requires roster.next <= |lines|
      modifies this`configuration, this`moveRecords
      ensures failure.None? <==> LoadAfterPlayers(check, lines, header, roster).Ok?
      ensures failure.Some? ==> failure.value == LoadAfterPlayers(check, lines, header, roster).failure
      ensures var f := FieldsAfterPlayers(check, lines, header, roster,
                         Fields(old(configuration), storedScores, centralPlace, []));
        configuration == f.configuration && moveRecords == old(moveRecords) + f.appended
    {
      var verdict := check(header.size, roster.names, header.numMovesProtection);
      if verdict.Some? {
        return Some(ConfigurationError(verdict.value));
      }
      configuration := Some(Configuration(header.size, roster.names, header.numMovesProtection));

      var scan := ScanRecords(lines, roster.next, roster.names);
      moveRecords := moveRecords + scan.records;
      return scan.failure;
    }

    /** The header part of parseGame: size, protection, central place and player count, each
        from the next meaningful line; the central place is stored as soon as it has parsed. */
    method ReadHeaderLines() returns (r: Result<Header>)
      modifies this`centralPlace
      ensures r == ReadHeader(lines)
      ensures centralPlace == if CentralRead(lines).Some? then CentralRead(lines) else old(centralPlace)
    {
      var f1 := GetFirstNonEmptyLine(lines, 0);
      if f1.line.None? { return Fail(GameError(EofSize)); }
      var size := IntHeader(f1.line.value, BadSize);
      if size.Fail? { return Fail(size.failure); }

      var f2 := GetFirstNonEmptyLine(lines, f1.next);
      if f2.line.None? { return Fail(GameError(EofColumns)); }
      var protection := IntHeader(f2.line.value, BadProtection);
      if protection.Fail? { return Fail(protection.failure); }

      var f3 := GetFirstNonEmptyLine(lines, f2.next);
      if f3.line.None? { return Fail(GameError(EofColumns)); }
      var central := PlaceHeader(f3.line.value);
      if central.Fail? { return Fail(central.failure); }
      centralPlace := Some(central.value);

      var f4 := GetFirstNonEmptyLine(lines, f3.next);
      if f4.line.None? { return Fail(GameError(EofPlayers)); }
      var count := IntHeader(f4.line.value, BadSize);
      if count.Fail? { return Fail(count.failure); }
      return Ok(Header(size.value, protection.value, central.value, count.value, f4.next));
    }

    /** The player loop of parseGame: n lines, each fetched and parsed into a name and a score,
        the score stored in its slot of the array as soon as its line has parsed. */
    method ReadPlayerLines(start: nat, n: nat) returns (r: Result<Roster>)
      requires start <= |lines| && storedScores == Some(Slots(n, []))
      modifies this`storedScores
      ensures r == ReadPlayers(lines, start, n, [], [])
      ensures storedScores == Some(Slots(n, ScoresRead(lines, start, n, [], [])))
    {
      var names: seq<string> := [];
      var scores: seq<int> := [];
      var pos: nat := start;
      while |names| < n
        invariant pos <= |lines| && |names| == |scores| <= n
        invariant ReadPlayers(lines, start, n, [], []) == ReadPlayers(lines, pos, n, names, scores)
        invariant ScoresRead(lines, start, n, [], []) == ScoresRead(lines, pos, n, names, scores)
        invariant storedScores == Some(Slots(n, scores))
      {
        var f := GetFirstNonEmptyLine(lines, pos);
        if f.line.None? { return Fail(UncheckedFailure(NullPointer)); }
        var entry := PlayerLine(f.line.value);
        if entry.Fail? { return Fail(entry.failure); }
        storedScores := Some(storedScores.value[|scores| := Some(entry.value.score)]);
        SlotsStore(n, scores, entry.value.score);
        names := names + [entry.value.name];
        scores := scores + [entry.value.score];
        pos := f.next;
      }
      return Ok(Roster(names, scores, pos));
    }
  }

  /** The move-record loop of parseGame. The source appends each record to the deserializer's
      list as soon as it is parsed; here the loop collects them and its caller appends them all,
      which leaves the list the same, failure or not. */
  method ScanRecords(lines: seq<string>, start: nat, players: seq<string>) returns (r: Scan)
    requires start <= |lines|
    ensures r == ReadRecords(lines, start, players, [])
  {
    var pos: nat := start;
    var done: seq<MoveRecord> := [];
    while true
      invariant start <= pos <= |lines|
      invariant ReadRecords(lines, start, players, []) == ReadRecords(lines, pos, players, done)
      decreases |lines| - pos
    {
      var f := GetFirstNonEmptyLine(lines, pos);
      if f.line.None? || f.line.value == "END" { break; }
      var record := ReadMoveRecord(f.line.value, players);
      if record.Fail? { return Scan(done, Some(record.failure)); }
      done := done + [record.value];
      pos := f.next;
    }
    return Scan(done, None);
  }

  /** parseMoveRecord, given the players of the loaded configuration. */
  method ReadMoveRecord(s: string, players: seq<string>) returns (r: Result<MoveRecord>)
    ensures r == ParseMoveRecord(s, players)
  {
    var words := Split(s, ":");
    if |words| != 3 { return Fail(InvalidRecord(s)); }
    var names := Split(words[1], ";");
    if |names| == 0 { return Fail(UncheckedFailure(IndexOutOfBounds)); }
    var i := FindPlayer(players, Trim(names[0]));
    if i < 0 { return Fail(UnknownPlayer(s)); }
    var move := ParseMove(Trim(words[2]));
    if move.Fail? { return Fail(move.failure); }
    return Ok(MoveRecord(i, move.value));
  }

  /** The search loop of parseMoveRecord: the first player whose name equals `name`, or -1. */
  method FindPlayer(players: seq<string>, name: string) returns (i: int)
    ensures -1 <= i < |players|
    ensures i == -1 <==> name !in players
    ensures i >= 0 ==> players[i] == name && name !in players[..i]
  {
    i := 0;
    while i < |players|
      invariant 0 <= i <= |players|
      invariant name !in players[..i]
    {
      if players[i] == name {
        return i;
      }
      i := i + 1;
    }
    assert players[..i] == players;
    return -1;
  }
}
