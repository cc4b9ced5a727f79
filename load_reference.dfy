/** A second, positional reading of parseGame, and the proof that the reader-based model
    agrees with it.

    The reference first throws away every blank or comment line and trims the rest (the
    meaningful lines); the record is then read by position in that list: the header fields
    are its first four entries, the players the next numPlayers entries, and the move records
    follow up to an entry "END". */
module LoadReference {
  import opened JavaText
  import opened Protocol
  import opened Deserialization

  // ---------------------------------------------------------------- the meaningful lines

  /** The lines getFirstNonEmptyLine can return, trimmed, in file order. */
  function Meaningful(lines: seq<string>): (r: seq<string>)
    ensures |r| <= |lines|
  {
    if lines == [] then []
    else (if Skipped(lines[0]) then [] else [Trim(lines[0])]) + Meaningful(lines[1..])
  }

  /** getFirstNonEmptyLine yields the first meaningful line still unread and leaves the rest
      unread; it yields end of input exactly when no meaningful line is left. */
  lemma {:induction false} NextLineMeaningful(lines: seq<string>, pos: nat)
    requires pos <= |lines|
    ensures var f, ms := NextLine(lines, pos), Meaningful(lines[pos..]);
      && (f.line.None? <==> ms == [])
      && (f.line.Some? ==> f.line.value == ms[0] && Meaningful(lines[f.next..]) == ms[1..])
    decreases |lines| - pos
  {
    if pos < |lines| {
      MeaningfulStep(lines, pos);
      NextLineMeaningful(lines, pos + 1);
      var rest := Meaningful(lines[pos + 1..]);
      if Skipped(lines[pos]) {
        PrependEmpty(rest);
      } else {
        DropFirst([Trim(lines[pos])], rest);
      }
    }
  }

  /** The meaningful lines from pos: line pos, if it is one, then those after it. */
  lemma MeaningfulStep(lines: seq<string>, pos: nat)
    requires pos < |lines|
    ensures Meaningful(lines[pos..]) ==
      (if Skipped(lines[pos]) then [] else [Trim(lines[pos])]) + Meaningful(lines[pos + 1..])
  {
    SuffixHead(lines, pos);
  }

  // ---------------------------------------------------------------- the reference

  /** The i-th line of m, if there is one. */
  function LineAt(m: seq<string>, i: nat): (r: Option<string>)
    ensures r.Some? <==> i < |m|
  {
    if i < |m| then Some(m[i]) else None
  }

  /** The header: the first four meaningful lines, in order. */
  function HeaderRef(m: seq<string>): Result<Header>
  {
    var h :- HeaderOf(LineAt(m, 0), LineAt(m, 1), LineAt(m, 2), LineAt(m, 3));
    Ok(h.(next := 4))
  }

  /** The players: entry k of the meaningful lines is the next player; next is an index into
      the meaningful lines. */
  function PlayersRef(m: seq<string>, k: nat, n: nat, names: seq<string>, scores: seq<int>)
    : Result<Roster>
    requires |names| == |scores| <= n
    decreases n - |names|
  {
    if |names| == n then Ok(Roster(names, scores, k))
    else if k >= |m| then Fail(UncheckedFailure(NullPointer))
    else
      var entry :- PlayerLine(m[k]);
      PlayersRef(m, k + 1, n, names + [entry.name], scores + [entry.score])
  }

  /** The move records: entries from k on, up to the end or an entry "END". */
  function RecordsRef(m: seq<string>, k: nat, players: seq<string>, done: seq<MoveRecord>): Scan
    decreases |m| - k
  {
    if k >= |m| || m[k] == "END" then Scan(done, None)
    else match ParseMoveRecord(m[k], players)
      case Fail(e) => Scan(done, Some(e))
      case Ok(record) => RecordsRef(m, k + 1, players, done + [record])
  }

  /** parseGame read positionally over the meaningful lines. */
  function LoadRef(check: ConfigurationCheck, m: seq<string>): Result<Loaded>
  {
    var h :- HeaderRef(m);
    if h.numPlayers < 0 then Fail(UncheckedFailure(NegativeArraySize)) else
    var roster :- PlayersRef(m, 4, h.numPlayers, [], []);
    var verdict := check(h.size, roster.names, h.numMovesProtection);
    if verdict.Some? then Fail(ConfigurationError(verdict.value)) else
    var scan := RecordsRef(m, roster.next, roster.names, []);
    if scan.failure.Some? then Fail(scan.failure.value) else
    Ok(Loaded(h.size, h.numMovesProtection, h.centralPlace, roster.names, roster.scores, scan.records))
  }

  // ---------------------------------------------------------------- agreement, stage by stage

  /** getFirstNonEmptyLine from a position whose unread meaningful lines are m[k..]: it yields
      the k-th meaningful line, or end of input past the last one. */
  lemma NextLineAt(lines: seq<string>, pos: nat, m: seq<string>, k: nat)
    requires pos <= |lines| && k <= |m| && Meaningful(lines[pos..]) == m[k..]
    ensures var f := NextLine(lines, pos);
      && f.line == LineAt(m, k)
      && Meaningful(lines[f.next..]) == m[Advance(m, k)..]
  {
    NextLineMeaningful(lines, pos);
    if k < |m| {
      SuffixHead(m, k);
    } else {
      var f := NextLine(lines, pos);
      assert lines[f.next..] == [];
    }
  }

  /** The position after the k-th entry of m, or the end of m. */
  function Advance(m: seq<string>, k: nat): (r: nat)
    requires k <= |m|
    ensures r <= |m| && (k < |m| ==> r == k + 1)
  {
    if k < |m| then k + 1 else k
  }

  /** The four lines getFirstNonEmptyLine yields first are the first four meaningful lines. */
  lemma FirstFourLines(lines: seq<string>)
    ensures var m := Meaningful(lines);
      var f1 := NextLine(lines, 0);
      var f2 := NextLine(lines, f1.next);
      var f3 := NextLine(lines, f2.next);
      var f4 := NextLine(lines, f3.next);
      && f1.line == LineAt(m, 0) && f2.line == LineAt(m, 1)
      && f3.line == LineAt(m, 2) && f4.line == LineAt(m, 3)
      && (f4.line.Some? ==> Meaningful(lines[f4.next..]) == m[4..])
  {
    var m := Meaningful(lines);
    SuffixAll(lines);
    SuffixAll(m);
    var k1 := Advance(m, 0);
    var k2 := Advance(m, k1);
    var k3 := Advance(m, k2);
    NextLineAt(lines, 0, m, 0);
    var f1 := NextLine(lines, 0);
    NextLineAt(lines, f1.next, m, k1);
    var f2 := NextLine(lines, f1.next);
    NextLineAt(lines, f2.next, m, k2);
    var f3 := NextLine(lines, f2.next);
    NextLineAt(lines, f3.next, m, k3);
  }

  /** Reading the header from the file and from its meaningful lines agree; the file reader
      stops where four meaningful lines have been used. */
  lemma HeaderMatches(lines: seq<string>)
    ensures var a, b, m := ReadHeader(lines), HeaderRef(Meaningful(lines)), Meaningful(lines);
      && (a.Ok? <==> b.Ok?)
      && (a.Fail? ==> a.failure == b.failure)
      && (a.Ok? ==> && |m| >= 4 && a.value.(next := 4) == b.value
                    && Meaningful(lines[a.value.next..]) == m[4..])
  {
    FirstFourLines(lines);
  }

  /** The player loop over the file and over the meaningful lines agree, from positions whose
      unread meaningful lines are the same. */
  lemma {:induction false} PlayersMatch(
    lines: seq<string>, pos: nat, m: seq<string>, k: nat, n: nat, names: seq<string>, scores: seq<int>)
    requires pos <= |lines| && k <= |m| && |names| == |scores| <= n
    requires Meaningful(lines[pos..]) == m[k..]
    ensures var a, b := ReadPlayers(lines, pos, n, names, scores), PlayersRef(m, k, n, names, scores);
      && (a.Fail? <==> b.Fail?)
      && (a.Fail? ==> a.failure == b.failure)
      && (a.Ok? ==> && a.value.names == b.value.names && a.value.scores == b.value.scores
                    && b.value.next <= |m| && Meaningful(lines[a.value.next..]) == m[b.value.next..])
    decreases n - |names|
  {
    if |names| < n {
      NextLineAt(lines, pos, m, k);
      var f := NextLine(lines, pos);
      if f.line.Some? {
        var e := PlayerLine(f.line.value);
        if e.Ok? {
          PlayersMatch(lines, f.next, m, k + 1, n, names + [e.value.name], scores + [e.value.score]);
        }
      }
    }
  }

  /** The record loop over the file and over the meaningful lines agree, from positions whose
      unread meaningful lines are the same. */
  lemma {:induction false} RecordsMatch(
    lines: seq<string>, pos: nat, m: seq<string>, k: nat, players: seq<string>, done: seq<MoveRecord>)
    requires pos <= |lines| && k <= |m|
    requires Meaningful(lines[pos..]) == m[k..]
    ensures ReadRecords(lines, pos, players, done) == RecordsRef(m, k, players, done)
    decreases |lines| - pos
  {
    NextLineAt(lines, pos, m, k);
    var f := NextLine(lines, pos);
    if f.line.Some? {
      if f.line.value != "END" {
        var r := ParseMoveRecord(f.line.value, players);
        if r.Ok? {
          RecordsMatch(lines, f.next, m, k + 1, players, done + [r.value]);
        }
      }
    }
  }

  /** parseGame depends on the file only through its meaningful lines, read positionally. */
  lemma ParseGameMatches(check: ConfigurationCheck, lines: seq<string>)
    ensures ParseGameSpec(check, lines) == LoadRef(check, Meaningful(lines))
  {
    var m := Meaningful(lines);
    HeaderMatches(lines);
    var h := ReadHeader(lines);
    if h.Ok? && h.value.numPlayers >= 0 {
      PlayersMatch(lines, h.value.next, m, 4, h.value.numPlayers, [], []);
      var roster := ReadPlayers(lines, h.value.next, h.value.numPlayers, [], []);
      if roster.Ok? {
        var k := PlayersRef(m, 4, h.value.numPlayers, [], []).value.next;
        RecordsMatch(lines, roster.value.next, m, k, roster.value.names, []);
      }
    }
  }

  /** Blank lines, comment lines and the blanks around a line never change what is loaded. */
  lemma CommentsIgnored(check: ConfigurationCheck, a: seq<string>, b: seq<string>)
    requires Meaningful(a) == Meaningful(b)
    ensures ParseGameSpec(check, a) == ParseGameSpec(check, b)
  {
    ParseGameMatches(check, a);
    ParseGameMatches(check, b);
  }
}
