/** The text form parseGame reads, written out: a printer for every field of a record, and
    the proof that parsing what the printer writes gives the printed values back.

    The saving side of the game is not part of this model; the printer below writes each
    field in the form the parser demands ("Size:<int>", "Name:<name>;Score:<int>",
    "<index>:<name>;Move:(x,y)->(x,y)", ...), and is the reference the parser is checked
    against. */
module RecordFormat {
  import opened JavaText
  import opened Protocol
  import opened Deserialization

  // ---------------------------------------------------------------- printers

  /** "(x,y)" */
  function ShowPlace(p: Place): string
  {
    "(" + ShowInt(p.x) + "," + ShowInt(p.y) + ")"
  }

  /** "(sx,sy)->(dx,dy)" */
  function ShowMove(m: Move): string
  {
    ShowPlace(m.source) + "->" + ShowPlace(m.destination)
  }

  /** "<index>:<name>;Move:<move>": three ':'-separated fields, the player's name first in
      the second. */
  function ShowRecord(index: int, name: string, m: Move): string
  {
    ShowInt(index) + ":" + (name + ";Move") + ":" + ShowMove(m)
  }

  /** "Name:<name>;Score:<score>" */
  function ShowPlayer(name: string, score: int): string
  {
    ("Name" + ":" + name) + ";" + ("Score" + ":" + ShowInt(score))
  }

  /** A player name the format can carry: not blank at either end (the parser trims it) and
      free of the two separators of a player line. */
  predicate PrintableName(name: string)
  {
    && name != []
    && !IsTrimmed(name[0]) && !IsTrimmed(name[|name| - 1])
    && ':' !in name && ';' !in name
  }

  // ---------------------------------------------------------------- places and moves

  /** The characters a printed place is made of. */
  lemma ShowPlaceAvoids(p: Place, c: char)
    requires !IsDigit(c) && c != '-' && c != '(' && c != ',' && c != ')'
    ensures c !in ShowPlace(p)
  {
    ShowIntAvoids(p.x, c);
    ShowIntAvoids(p.y, c);
  }

  /** The comma of a printed place follows the x coordinate. */
  lemma ShowPlaceComma(p: Place)
    ensures var s, x := ShowPlace(p), ShowInt(p.x);
      IndexOf(s, ',') == |x| + 1 && s[1..|x| + 1] == x
  {
    var s, left, right := ShowPlace(p), "(" + ShowInt(p.x), ShowInt(p.y) + ")";
    ShowIntAvoids(p.x, ',');
    assert s == left + [','] + right;
    IndexOfAfter(left, ',', right);
    assert s == left + ([','] + right);
    SliceLeft(left, [','] + right, 1, |left|);
    DropFirst("(", ShowInt(p.x));
  }

  /** A printed place splits on ',' into "(x" and "y)". */
  lemma ShowPlaceWords(p: Place)
    ensures Split(ShowPlace(p), ",") == ["(" + ShowInt(p.x), ShowInt(p.y) + ")"]
  {
    var left, right := "(" + ShowInt(p.x), ShowInt(p.y) + ")";
    ShowIntAvoids(p.x, ',');
    ShowIntAvoids(p.y, ',');
    FindAbsent(left, ",", 0);
    FindAbsent(right, ",", 0);
    SplitTwo(left, right, ",");
    assert left + "," + right == ShowPlace(p);
  }

  /** The closing parenthesis of "y)" follows y. */
  lemma ShowPlaceClose(y: int)
    ensures var right := ShowInt(y) + ")";
      IndexOf(right, ')') == |ShowInt(y)| && right[..|ShowInt(y)|] == ShowInt(y)
  {
    ShowIntAvoids(y, ')');
    IndexOfAfter(ShowInt(y), ')', []);
    assert ShowInt(y) + ")" == ShowInt(y) + [')'] + [];
  }

  /** parsePlace reads back a printed place. */
  lemma ParsePlaceShow(p: Place)
    requires IsInt32(p.x) && IsInt32(p.y)
    ensures ParsePlace(ShowPlace(p)) == Ok(p)
  {
    ShowPlaceComma(p);
    ShowPlaceWords(p);
    ShowPlaceClose(p.y);
    ParseShowInt(p.x);
    ParseShowInt(p.y);
  }

  /** parseMove reads back a printed move. */
  lemma ParseMoveShow(m: Move)
    requires IsInt32(m.source.x) && IsInt32(m.source.y)
    requires IsInt32(m.destination.x) && IsInt32(m.destination.y)
    ensures ParseMove(ShowMove(m)) == Ok(m)
  {
    var a, b := ShowPlace(m.source), ShowPlace(m.destination);
    ShowPlaceAvoids(m.source, '>');
    ShowPlaceAvoids(m.destination, '>');
    FindAbsent(a, "->", 1);
    FindAbsent(b, "->", 1);
    SplitTwo(a, b, "->");
    ParsePlaceShow(m.source);
    ParsePlaceShow(m.destination);
  }

  /** A printed move is already trimmed: it starts with '(' and ends with ')'. */
  lemma ShowMoveTrimmed(m: Move)
    ensures Trim(ShowMove(m)) == ShowMove(m)
  {
    var s := ShowMove(m);
    assert s[0] == '(';
    assert s[|s| - 1] == ')';
    TrimKeeps(s);
  }

  /** No ':' in a printed move. */
  lemma ShowMoveNoColon(m: Move)
    ensures ':' !in ShowMove(m)
  {
    ShowPlaceAvoids(m.source, ':');
    ShowPlaceAvoids(m.destination, ':');
  }

  /** A printed record splits on ':' into the index, the name field and the move. */
  lemma ShowRecordWords(index: int, name: string, m: Move)
    requires PrintableName(name)
    ensures Split(ShowRecord(index, name, m), ":") == [ShowInt(index), name + ";Move", ShowMove(m)]
  {
    var i, middle, mv := ShowInt(index), name + ";Move", ShowMove(m);
    ShowIntAvoids(index, ':');
    ShowMoveNoColon(m);
    assert ':' !in middle;
    FindAbsent(i, ":", 0);
    FindAbsent(middle, ":", 0);
    FindAbsent(mv, ":", 0);
    SplitThree(i, middle, mv, ":");
  }

  /** The name field of a printed record splits on ';' with the name first. */
  lemma ShowRecordName(name: string)
    requires PrintableName(name)
    ensures Split(name + ";Move", ";") == [name, "Move"]
  {
    FindAbsent(name, ";", 0);
    FindAbsent("Move", ";", 0);
    SplitTwo(name, "Move", ";");
    assert name + ";" + "Move" == name + ";Move";
  }

  /** parseMoveRecord on a line whose three fields are already known. */
  lemma ParseMoveRecordFields(
    s: string, players: seq<string>, index: string, middle: string, name: string, mv: string,
    r: MoveRecord)
    requires Split(s, ":") == [index, middle, mv]
    requires Split(middle, ";") == [name, "Move"] && Trim(name) == name
    requires r.player < |players| && players[r.player] == name && name !in players[..r.player]
    requires Trim(mv) == mv && ParseMove(mv) == Ok(r.move)
    ensures ParseMoveRecord(s, players) == Ok(r)
  {
    IndexOfFirst(players, name, r.player);
  }

  /** parseMoveRecord reads back a printed record, when the name is printable and no earlier
      player has the same name. */
  lemma ParseMoveRecordShow(index: int, players: seq<string>, r: MoveRecord)
    requires r.player < |players| && PrintableName(players[r.player])
    requires players[r.player] !in players[..r.player]
    requires IsInt32(r.move.source.x) && IsInt32(r.move.source.y)
    requires IsInt32(r.move.destination.x) && IsInt32(r.move.destination.y)
    ensures ParseMoveRecord(ShowRecord(index, players[r.player], r.move), players) == Ok(r)
  {
    var name := players[r.player];
    ShowRecordWords(index, name, r.move);
    ShowRecordName(name);
    TrimKeeps(name);
    ShowMoveTrimmed(r.move);
    ParseMoveShow(r.move);
    ParseMoveRecordFields(ShowRecord(index, name, r.move), players, ShowInt(index), name + ";Move",
      name, ShowMove(r.move), r);
  }

  /** The record line in the form "<index>:<name>;(sx,sy)->(dx,dy)", with two ':'-separated
      fields rather than three, is refused as an invalid record. */
  lemma TwoFieldRecordRejected(index: int, name: string, m: Move, players: seq<string>)
    requires PrintableName(name)
    ensures var s := ShowInt(index) + ":" + (name + ";" + ShowMove(m));
      ParseMoveRecord(s, players) == Fail(InvalidRecord(s))
  {
    var i, rest := ShowInt(index), name + ";" + ShowMove(m);
    ShowIntAvoids(index, ':');
    ShowMoveNoColon(m);
    assert ':' !in rest;
    FindAbsent(i, ":", 0);
    FindAbsent(rest, ":", 0);
    SplitTwo(i, rest, ":");
  }

  // ---------------------------------------------------------------- header and player lines

  /** The keys the printer writes before the header values; the parser does not read them. */
  const SizeKey := "Size"
  const ProtectionKey := "NumMovesProtection"
  const CentralKey := "CentralPlace"
  const PlayersKey := "NumPlayers"

  /** "<key>:<value>" */
  function ShowField(key: string, value: string): string
  {
    key + ":" + value
  }

  /** A field whose key and value hold no ':' and whose value is not empty splits into the two. */
  lemma ShowFieldWords(key: string, value: string)
    requires ':' !in key && ':' !in value && value != []
    ensures Split(ShowField(key, value), ":") == [key, value]
  {
    FindAbsent(key, ":", 0);
    FindAbsent(value, ":", 0);
    SplitTwo(key, value, ":");
  }

  /** An integer header field reads back the printed integer, whatever its key. */
  lemma IntHeaderShow(key: string, n: int, malformed: string)
    requires ':' !in key && IsInt32(n)
    ensures IntHeader(ShowField(key, ShowInt(n)), malformed) == Ok(n)
  {
    ShowIntAvoids(n, ':');
    ShowFieldWords(key, ShowInt(n));
    ParseShowInt(n);
  }

  /** The central-place field reads back the printed place, whatever its key. */
  lemma PlaceHeaderShow(key: string, p: Place)
    requires ':' !in key && IsInt32(p.x) && IsInt32(p.y)
    ensures PlaceHeader(ShowField(key, ShowPlace(p))) == Ok(p)
  {
    ShowPlaceAvoids(p, ':');
    ShowFieldWords(key, ShowPlace(p));
    ParsePlaceShow(p);
  }

  /** A printed player line reads back the name and the score. */
  lemma PlayerLineShow(name: string, score: int)
    requires PrintableName(name) && IsInt32(score)
    ensures PlayerLine(ShowPlayer(name, score)) == Ok(PlayerEntry(name, score))
  {
    var left, right := ShowField("Name", name), ShowField("Score", ShowInt(score));
    ShowIntAvoids(score, ';');
    ShowIntAvoids(score, ':');
    assert ';' !in left && ';' !in right;
    FindAbsent(left, ";", 0);
    FindAbsent(right, ";", 0);
    SplitTwo(left, right, ";");
    ShowFieldWords("Name", name);
    ShowFieldWords("Score", ShowInt(score));
    TrimKeeps(name);
    ParseShowInt(score);
  }

  // ---------------------------------------------------------------- a whole record

  /** A line getFirstNonEmptyLine returns unchanged: not blank at either end and not a
      comment. */
  predicate Plain(line: string)
  {
    line != [] && !IsTrimmed(line[0]) && !IsTrimmed(line[|line| - 1]) && line[0] != '#'
  }

  /** A plain line is the next line read, as it stands. */
  lemma NextLinePlain(lines: seq<string>, pos: nat)
    requires pos < |lines| && Plain(lines[pos])
    ensures NextLine(lines, pos) == Fetched(Some(lines[pos]), pos + 1)
  {
    TrimKeeps(lines[pos]);
  }

  predicate PrintableMove(m: Move)
  {
    IsInt32(m.source.x) && IsInt32(m.source.y) && IsInt32(m.destination.x) && IsInt32(m.destination.y)
  }

  /** Everything the printer writes can be read back: Java ints, printable and distinct
      player names, one score per player, and records naming configured players. */
  predicate PrintableGame(g: Loaded)
  {
    && IsInt32(g.size) && IsInt32(g.numMovesProtection)
    && IsInt32(g.centralPlace.x) && IsInt32(g.centralPlace.y)
    && IsInt32(|g.players|) && |g.scores| == |g.players|
    && (forall i :: 0 <= i < |g.players| ==> PrintableName(g.players[i]))
    && (forall i, j :: 0 <= i < j < |g.players| ==> g.players[i] != g.players[j])
    && (forall i :: 0 <= i < |g.scores| ==> IsInt32(g.scores[i]))
    && (forall i :: 0 <= i < |g.records| ==> g.records[i].player < |g.players|)
    && (forall i :: 0 <= i < |g.records| ==> PrintableMove(g.records[i].move))
  }

  /** One "Name:<name>;Score:<score>" line per player. */
  function ShowPlayers(names: seq<string>, scores: seq<int>): (r: seq<string>)
    requires |names| == |scores|
    ensures |r| == |names|
  {
    seq(|names|, i requires 0 <= i < |names| => ShowPlayer(names[i], scores[i]))
  }

  /** One line per record, numbered from 1. */
  function ShowRecords(names: seq<string>, records: seq<MoveRecord>): (r: seq<string>)
    requires forall i :: 0 <= i < |records| ==> records[i].player < |names|
    ensures |r| == |records|
  {
    seq(|records|, i requires 0 <= i < |records| =>
      ShowRecord(i + 1, names[records[i].player], records[i].move))
  }

  /** The k-th printed record line carries the number k + 1. */
  lemma ShowRecordsIndex(names: seq<string>, records: seq<MoveRecord>, k: nat)
    requires forall i :: 0 <= i < |records| ==> records[i].player < |names|
    requires k < |records|
    ensures ShowRecords(names, records)[k] == ShowRecord(k + 1, names[records[k].player], records[k].move)
  {
  }

  /** The four header fields: size, protection, central place and number of players. */
  function ShowHeader(g: Loaded): (r: seq<string>)
    ensures |r| == 4
  {
    [ ShowField(SizeKey, ShowInt(g.size)),
      ShowField(ProtectionKey, ShowInt(g.numMovesProtection)),
      ShowField(CentralKey, ShowPlace(g.centralPlace)),
      ShowField(PlayersKey, ShowInt(|g.players|)) ]
  }

  /** The four header fields, the players, the records and the closing "END". */
  function ShowGame(g: Loaded): (r: seq<string>)
    requires |g.scores| == |g.players|
    requires forall i :: 0 <= i < |g.records| ==> g.records[i].player < |g.players|
    ensures |r| == 4 + |g.players| + |g.records| + 1
  {
    ShowHeader(g)
    + ShowPlayers(g.players, g.scores)
    + ShowRecords(g.players, g.records)
    + ["END"]
  }

  /** Where the header fields of a printed game sit. */
  lemma ShowGameHeader(g: Loaded)
    requires |g.scores| == |g.players|
    requires forall i :: 0 <= i < |g.records| ==> g.records[i].player < |g.players|
    ensures var lines := ShowGame(g);
      && lines[0] == ShowField(SizeKey, ShowInt(g.size))
      && lines[1] == ShowField(ProtectionKey, ShowInt(g.numMovesProtection))
      && lines[2] == ShowField(CentralKey, ShowPlace(g.centralPlace))
      && lines[3] == ShowField(PlayersKey, ShowInt(|g.players|))
  {
  }

  /** Where the k-th player of a printed game sits. */
  lemma ShowGamePlayer(g: Loaded, k: nat)
    requires |g.scores| == |g.players| && k < |g.players|
    requires forall i :: 0 <= i < |g.records| ==> g.records[i].player < |g.players|
    ensures ShowGame(g)[4 + k] == ShowPlayer(g.players[k], g.scores[k])
  {
  }

  /** Where the k-th record of a printed game sits; records are numbered from 1. */
  lemma ShowGameRecord(g: Loaded, k: nat)
    requires |g.scores| == |g.players| && k < |g.records|
    requires forall i :: 0 <= i < |g.records| ==> g.records[i].player < |g.players|
    ensures ShowGame(g)[4 + |g.players| + k] ==
      ShowRecord(k + 1, g.players[g.records[k].player], g.records[k].move)
  {
    ShowRecordsIndex(g.players, g.records, k);
    IndexThird(ShowGame(g), ShowHeader(g), ShowPlayers(g.players, g.scores), ShowRecords(g.players, g.records),
               ["END"], k, ShowRecord(k + 1, g.players[g.records[k].player], g.records[k].move));
  }

  /** A printed game closes with "END". */
  lemma ShowGameEnd(g: Loaded)
    requires |g.scores| == |g.players|
    requires forall i :: 0 <= i < |g.records| ==> g.records[i].player < |g.players|
    ensures ShowGame(g)[4 + |g.players| + |g.records|] == "END"
  {
  }

  /** A key that starts a line plainly and holds no ':'. */
  predicate PlainKey(key: string)
  {
    key != [] && !IsTrimmed(key[0]) && key[0] != '#' && ':' !in key
  }

  lemma SizeKeyPlain() ensures PlainKey(SizeKey)
  {
    assert SizeKey == ['S', 'i', 'z', 'e'];
  }

  lemma ProtectionKeyPlain() ensures PlainKey(ProtectionKey)
  {
    assert ProtectionKey == ['N', 'u', 'm', 'M', 'o', 'v', 'e', 's', 'P', 'r', 'o', 't', 'e', 'c', 't', 'i', 'o', 'n'];
  }

  lemma CentralKeyPlain() ensures PlainKey(CentralKey)
  {
    assert CentralKey == ['C', 'e', 'n', 't', 'r', 'a', 'l', 'P', 'l', 'a', 'c', 'e'];
  }

  lemma PlayersKeyPlain() ensures PlainKey(PlayersKey)
  {
    assert PlayersKey == ['N', 'u', 'm', 'P', 'l', 'a', 'y', 'e', 'r', 's'];
  }

  /** A printed integer field is plain and reads back its value. */
  lemma IntFieldShow(key: string, n: int, malformed: string)
    requires PlainKey(key) && IsInt32(n)
    ensures Plain(ShowField(key, ShowInt(n)))
    ensures IntHeader(ShowField(key, ShowInt(n)), malformed) == Ok(n)
  {
    var line, v := ShowField(key, ShowInt(n)), ShowInt(n);
    assert line[0] == key[0];
    assert line[|line| - 1] == v[|v| - 1];
    IntHeaderShow(key, n, malformed);
  }

  /** A printed place field is plain and reads back its place. */
  lemma PlaceFieldShow(key: string, p: Place)
    requires PlainKey(key) && IsInt32(p.x) && IsInt32(p.y)
    ensures Plain(ShowField(key, ShowPlace(p)))
    ensures PlaceHeader(ShowField(key, ShowPlace(p))) == Ok(p)
  {
    var line := ShowField(key, ShowPlace(p));
    assert line[0] == key[0];
    assert line[|line| - 1] == ')';
    PlaceHeaderShow(key, p);
  }

  /** Four plain lines holding the four header fields make the header. */
  lemma ReadHeaderFields(lines: seq<string>, size: int, protection: int, central: Place, count: int)
    requires 4 <= |lines| && Plain(lines[0]) && Plain(lines[1]) && Plain(lines[2]) && Plain(lines[3])
    requires IntHeader(lines[0], BadSize) == Ok(size)
    requires IntHeader(lines[1], BadProtection) == Ok(protection)
    requires PlaceHeader(lines[2]) == Ok(central)
    requires IntHeader(lines[3], BadSize) == Ok(count)
    ensures ReadHeader(lines) == Ok(Header(size, protection, central, count, 4))
  {
    NextLinePlain(lines, 0);
    NextLinePlain(lines, 1);
    NextLinePlain(lines, 2);
    NextLinePlain(lines, 3);
  }

  /** The header of a printed game reads back its four fields. */
  lemma ReadHeaderShow(g: Loaded)
    requires PrintableGame(g)
    ensures ReadHeader(ShowGame(g)) ==
      Ok(Header(g.size, g.numMovesProtection, g.centralPlace, |g.players|, 4))
  {
    var lines := ShowGame(g);
    ShowGameHeader(g);
    SizeKeyPlain();
    ProtectionKeyPlain();
    CentralKeyPlain();
    PlayersKeyPlain();
    IntFieldShow(SizeKey, g.size, BadSize);
    IntFieldShow(ProtectionKey, g.numMovesProtection, BadProtection);
    PlaceFieldShow(CentralKey, g.centralPlace);
    IntFieldShow(PlayersKey, |g.players|, BadSize);
    ReadHeaderFields(lines, g.size, g.numMovesProtection, g.centralPlace, |g.players|);
  }

  /** One turn of the player loop over a plain, well-formed player line. */
  lemma ReadPlayersStep(
    lines: seq<string>, pos: nat, n: nat, names: seq<string>, scores: seq<int>, e: PlayerEntry)
    requires pos < |lines| && |names| == |scores| < n
    requires Plain(lines[pos]) && PlayerLine(lines[pos]) == Ok(e)
    ensures ReadPlayers(lines, pos, n, names, scores) ==
      ReadPlayers(lines, pos + 1, n, names + [e.name], scores + [e.score])
  {
    NextLinePlain(lines, pos);
  }

  /** A printed player line is plain. */
  lemma ShowPlayerPlain(name: string, score: int)
    ensures Plain(ShowPlayer(name, score))
  {
    var line, n := ShowPlayer(name, score), ShowInt(score);
    assert line[0] == 'N';
    assert line[|line| - 1] == n[|n| - 1];
  }

  /** The k-th player line of a printed game is plain and is read back as the k-th player. */
  lemma ReadPlayerAt(g: Loaded, k: nat)
    requires PrintableGame(g) && k < |g.players|
    ensures Plain(ShowGame(g)[4 + k])
    ensures PlayerLine(ShowGame(g)[4 + k]) == Ok(PlayerEntry(g.players[k], g.scores[k]))
  {
    ShowGamePlayer(g, k);
    PlayerLineShow(g.players[k], g.scores[k]);
    ShowPlayerPlain(g.players[k], g.scores[k]);
  }

  /** The players from position pos on as the player loop sees them: plain lines it parses
      one by one into the given names and scores. */
  predicate PlayersFrom(lines: seq<string>, pos: nat, names: seq<string>, scores: seq<int>)
    requires |names| == |scores| && pos + |names| <= |lines|
    decreases |names|
  {
    names != [] ==>
      && Plain(lines[pos]) && PlayerLine(lines[pos]) == Ok(PlayerEntry(names[0], scores[0]))
      && PlayersFrom(lines, pos + 1, names[1..], scores[1..])
  }

  /** The player lines of a printed game, from the k-th on, are read back as its players. */
  lemma {:induction false} ShowPlayersFrom(g: Loaded, k: nat)
    requires PrintableGame(g) && k <= |g.players|
    ensures PlayersFrom(ShowGame(g), 4 + k, g.players[k..], g.scores[k..])
    decreases |g.players| - k
  {
    if k < |g.players| {
      ReadPlayerAt(g, k);
      ShowPlayersFrom(g, k + 1);
      SuffixHead(g.players, k);
      SuffixHead(g.scores, k);
    }
  }

  /** The player loop, having read names0 and scores0, reads names and scores next. */
  lemma {:induction false} ReadPlayersFrom(
    lines: seq<string>, pos: nat, n: nat, names0: seq<string>, scores0: seq<int>,
    names: seq<string>, scores: seq<int>)
    requires |names| == |scores| && pos + |names| <= |lines|
    requires |names0| == |scores0| && |names0| + |names| == n
    requires PlayersFrom(lines, pos, names, scores)
    ensures var r := ReadPlayers(lines, pos, n, names0, scores0);
      && r.Ok? && r.value.names == names0 + names && r.value.scores == scores0 + scores
      && r.value.next == pos + |names|
    decreases |names|
  {
    if names == [] {
      AppendEmpty(names0, names);
      AppendEmpty(scores0, scores);
    } else {
      var e := PlayerEntry(names[0], scores[0]);
      ReadPlayersStep(lines, pos, n, names0, scores0, e);
      ReadPlayersFrom(lines, pos + 1, n, names0 + [e.name], scores0 + [e.score], names[1..], scores[1..]);
      AppendHead(names0, names);
      AppendHead(scores0, scores);
    }
  }

  /** A printed record line is plain and is not "END". */
  lemma ShowRecordPlain(index: int, name: string, m: Move)
    ensures var line := ShowRecord(index, name, m);
      Plain(line) && line != "END"
  {
    var line, i := ShowRecord(index, name, m), ShowInt(index);
    assert line[0] == i[0];
    assert line[|line| - 1] == ')';
  }

  /** A printed record line is plain, is not "END", and is read back as the record. */
  lemma PrintedRecordReads(index: int, names: seq<string>, r: MoveRecord)
    requires r.player < |names| && PrintableName(names[r.player])
    requires names[r.player] !in names[..r.player] && PrintableMove(r.move)
    ensures var line := ShowRecord(index, names[r.player], r.move);
      Plain(line) && line != "END" && ParseMoveRecord(line, names) == Ok(r)
  {
    ShowRecordPlain(index, names[r.player], r.move);
    ParseMoveRecordShow(index, names, r);
  }

  /** No name of a list of distinct names occurs before its own position. */
  lemma DistinctFirst(names: seq<string>, p: nat)
    requires p < |names| && forall i, j :: 0 <= i < j < |names| ==> names[i] != names[j]
    ensures names[p] !in names[..p]
  {
    forall j | 0 <= j < p ensures names[..p][j] != names[p] {
      assert names[..p][j] == names[j];
    }
  }

  /** The records from position pos on as the record loop sees them: plain lines other than
      "END" that it parses one by one into the given records, then "END". */
  predicate RecordsFrom(lines: seq<string>, pos: nat, names: seq<string>, records: seq<MoveRecord>)
    requires pos + |records| < |lines|
    decreases |records|
  {
    if records == [] then lines[pos] == "END"
    else
      && Plain(lines[pos]) && lines[pos] != "END"
      && ParseMoveRecord(lines[pos], names) == Ok(records[0])
      && RecordsFrom(lines, pos + 1, names, records[1..])
  }

  /** The k-th record line of a printed game is plain, is not "END" and is read back as the
      k-th record. */
  lemma ReadRecordAt(g: Loaded, k: nat)
    requires PrintableGame(g) && k < |g.records|
    ensures var line := ShowGame(g)[4 + |g.players| + k];
      Plain(line) && line != "END" && ParseMoveRecord(line, g.players) == Ok(g.records[k])
  {
    ShowGameRecord(g, k);
    DistinctFirst(g.players, g.records[k].player);
    PrintedRecordReads(k + 1, g.players, g.records[k]);
  }

  /** The record lines of a printed game, from the k-th on, and its closing "END" are read
      back as its records. */
  lemma {:induction false} ShowRecordsFrom(g: Loaded, k: nat)
    requires PrintableGame(g) && k <= |g.records|
    ensures RecordsFrom(ShowGame(g), 4 + |g.players| + k, g.players, g.records[k..])
    decreases |g.records| - k
  {
    if k < |g.records| {
      ReadRecordAt(g, k);
      ShowRecordsFrom(g, k + 1);
      SuffixHead(g.records, k);
    } else {
      ShowGameEnd(g);
    }
  }

  /** The record loop, having read done, reads records next and stops at the "END" after them. */
  lemma {:induction false} ReadRecordsFrom(
    lines: seq<string>, pos: nat, names: seq<string>, done: seq<MoveRecord>, records: seq<MoveRecord>)
    requires pos + |records| < |lines|
    requires RecordsFrom(lines, pos, names, records)
    ensures var scan := ReadRecords(lines, pos, names, done);
      scan.failure.None? && scan.records == done + records
    decreases |records|
  {
    if records == [] {
      ReadRecordsEnd(lines, pos, names, done);
      AppendEmpty(done, records);
    } else {
      ReadRecordsStep(lines, pos, names, done, records[0], done + [records[0]]);
      ReadRecordsFrom(lines, pos + 1, names, done + [records[0]], records[1..]);
      AppendHead(done, records);
    }
  }

  /** One turn of the record loop over a plain record line. */
  lemma ReadRecordsStep(
    lines: seq<string>, pos: nat, players: seq<string>, done: seq<MoveRecord>, r: MoveRecord,
    done': seq<MoveRecord>)
    requires pos < |lines| && Plain(lines[pos]) && lines[pos] != "END"
    requires ParseMoveRecord(lines[pos], players) == Ok(r) && done' == done + [r]
    ensures ReadRecords(lines, pos, players, done) == ReadRecords(lines, pos + 1, players, done')
  {
    NextLinePlain(lines, pos);
  }

  /** The record loop stops at a line "END". */
  lemma ReadRecordsEnd(lines: seq<string>, pos: nat, players: seq<string>, done: seq<MoveRecord>)
    requires pos < |lines| && lines[pos] == "END"
    ensures ReadRecords(lines, pos, players, done) == Scan(done, None)
  {
    NextLinePlain(lines, pos);
  }

  /** parseGame loads g from lines whose header, player lines and record lines read back as
      the parts of g, when the Configuration constructor accepts them. */
  lemma ParseGameStages(check: ConfigurationCheck, lines: seq<string>, g: Loaded)
    requires ReadHeader(lines) == Ok(Header(g.size, g.numMovesProtection, g.centralPlace, |g.players|, 4))
    requires var roster := ReadPlayers(lines, 4, |g.players|, [], []);
      && roster.Ok? && roster.value.names == g.players && roster.value.scores == g.scores
      && roster.value.next == 4 + |g.players|
    requires check(g.size, g.players, g.numMovesProtection) == None
    requires var scan := ReadRecords(lines, 4 + |g.players|, g.players, []);
      scan.failure.None? && scan.records == g.records
    ensures ParseGameSpec(check, lines) == Ok(g)
  {
  }

  /** The player and record lines of a printed game read back as its players and records. */
  lemma ShowGameBody(g: Loaded)
    requires PrintableGame(g)
    ensures var lines, n := ShowGame(g), |g.players|;
      && PlayersFrom(lines, 4, g.players, g.scores)
      && RecordsFrom(lines, 4 + n, g.players, g.records)
  {
    ShowPlayersFrom(g, 0);
    ShowRecordsFrom(g, 0);
    SuffixAll(g.players);
    SuffixAll(g.scores);
    SuffixAll(g.records);
  }

  /** The player loop and the record loop read back the players and records of g from any
      lines holding them in order after a four-line header. */
  lemma ReadBody(g: Loaded, lines: seq<string>)
    requires |g.scores| == |g.players| && 4 + |g.players| + |g.records| < |lines|
    requires PlayersFrom(lines, 4, g.players, g.scores)
    requires RecordsFrom(lines, 4 + |g.players|, g.players, g.records)
    ensures var roster := ReadPlayers(lines, 4, |g.players|, [], []);
      && roster.Ok? && roster.value.names == g.players && roster.value.scores == g.scores
      && roster.value.next == 4 + |g.players|
    ensures var scan := ReadRecords(lines, 4 + |g.players|, g.players, []);
      scan.failure.None? && scan.records == g.records
  {
    ReadPlayersFrom(lines, 4, |g.players|, [], [], g.players, g.scores);
    PrependEmpty(g.players);
    PrependEmpty(g.scores);
    ReadRecordsFrom(lines, 4 + |g.players|, g.players, [], g.records);
    PrependEmpty(g.records);
  }

  /** Loading a printed game gives the game back, when the Configuration constructor accepts
      its size, players and protection count. */
  lemma ParseGameShow(check: ConfigurationCheck, g: Loaded)
    requires PrintableGame(g)
    requires check(g.size, g.players, g.numMovesProtection) == None
    ensures ParseGameSpec(check, ShowGame(g)) == Ok(g)
  {
    ReadHeaderShow(g);
    ShowGameBody(g);
    ReadBody(g, ShowGame(g));
    ParseGameStages(check, ShowGame(g), g);
  }
}
