/** What parseGame promises, stated over the meaningful lines of the file (the lines
    getFirstNonEmptyLine returns, trimmed): what a successful load means, line by line; which
    error a broken header raises; that the key of a header line is never looked at; and that
    nothing after the "END" line is read. */
module LoadProperties {
  import opened JavaText
  import opened Protocol
  import opened Deserialization
  import opened LoadReference

  // ---------------------------------------------------------------- what a load means

  /** The first four meaningful lines hold the four header fields, in this order. */
  predicate HeaderLines(m: seq<string>, size: int, protection: int, central: Place, count: int)
  {
    && |m| >= 4
    && IntHeader(m[0], BadSize) == Ok(size)
    && IntHeader(m[1], BadProtection) == Ok(protection)
    && PlaceHeader(m[2]) == Ok(central)
    && IntHeader(m[3], BadSize) == Ok(count)
  }

  /** From entry k on, one player line per name, each read as that name and score. */
  predicate PlayerLinesAt(m: seq<string>, k: nat, names: seq<string>, scores: seq<int>)
    requires |names| == |scores|
    decreases |names|
  {
    names != [] ==>
      && k < |m| && PlayerLine(m[k]) == Ok(PlayerEntry(names[0], scores[0]))
      && PlayerLinesAt(m, k + 1, names[1..], scores[1..])
  }

  /** From entry k on, one record line per record, none of them "END", each read as that
      record; after them the lines end or an "END" line follows. */
  predicate RecordLinesAt(m: seq<string>, k: nat, players: seq<string>, records: seq<MoveRecord>)
    decreases |records|
  {
    if records == [] then k >= |m| || m[k] == "END"
    else
      && k < |m| && m[k] != "END" && ParseMoveRecord(m[k], players) == Ok(records[0])
      && RecordLinesAt(m, k + 1, players, records[1..])
  }

  /** The meaningful lines m describe the game g: header, exactly |g.players| player lines,
      an accepted configuration, then g's records in order up to "END" or the end of the file. */
  predicate Describes(check: ConfigurationCheck, m: seq<string>, g: Loaded)
  {
    && |g.scores| == |g.players|
    && HeaderLines(m, g.size, g.numMovesProtection, g.centralPlace, |g.players|)
    && PlayerLinesAt(m, 4, g.players, g.scores)
    && check(g.size, g.players, g.numMovesProtection) == None
    && RecordLinesAt(m, 4 + |g.players|, g.players, g.records)
  }

  // ---------------------------------------------------------------- the reference, stage by stage

  /** The header the reference reads is exactly what the first four entries hold. */
  lemma HeaderRefLines(m: seq<string>)
    ensures var h := HeaderRef(m);
      h.Ok? ==>
        && h.value.next == 4
        && HeaderLines(m, h.value.size, h.value.numMovesProtection, h.value.centralPlace, h.value.numPlayers)
  {
  }

  /** Entries that hold the four header fields are read as the header. */
  lemma LinesHeaderRef(m: seq<string>, size: int, protection: int, central: Place, count: int)
    requires HeaderLines(m, size, protection, central, count)
    ensures HeaderRef(m) == Ok(Header(size, protection, central, count, 4))
  {
  }

  /** A successful player loop, having read names0, read player lines from entry k on. */
  lemma {:induction false} PlayersRefLines(
    m: seq<string>, k: nat, n: nat, names0: seq<string>, scores0: seq<int>)
    requires |names0| == |scores0| <= n
    ensures var r := PlayersRef(m, k, n, names0, scores0);
      r.Ok? ==>
        && |r.value.names| == n && |r.value.scores| == n
        && PlayerLinesAt(m, k, r.value.names[|names0|..], r.value.scores[|names0|..])
    decreases n - |names0|
  {
    var r := PlayersRef(m, k, n, names0, scores0);
    PlayersRefNext(m, k, n, names0, scores0);
    if |names0| < n {
      PlayersRefUnfold(m, k, n, names0, scores0);
      if k < |m| && PlayerLine(m[k]).Ok? && r.Ok? {
        var e := PlayerLine(m[k]).value;
        var names1, scores1 := names0 + [e.name], scores0 + [e.score];
        PlayersRefLines(m, k + 1, n, names1, scores1);
        PlayersRefNext(m, k + 1, n, names1, scores1);
        PlayersRefKeeps(m, k + 1, n, names1, scores1, |names0|);
        assert r.value.names[|names0|] == names1[|names0|];
        assert r.value.scores[|names0|] == scores1[|names0|];
        SuffixHead(r.value.names, |names0|);
        SuffixHead(r.value.scores, |names0|);
      }
    }
  }

  /** One turn of the player loop: it fails past the last entry or on a malformed player line,
      and otherwise goes on with that line's player. */
  lemma PlayersRefUnfold(m: seq<string>, k: nat, n: nat, names0: seq<string>, scores0: seq<int>)
    requires |names0| == |scores0| < n
    ensures var r := PlayersRef(m, k, n, names0, scores0);
      && (k >= |m| ==> r.Fail?)
      && (k < |m| && PlayerLine(m[k]).Fail? ==> r.Fail?)
      && (k < |m| && PlayerLine(m[k]).Ok? ==>
            var e := PlayerLine(m[k]).value;
            r == PlayersRef(m, k + 1, n, names0 + [e.name], scores0 + [e.score]))
  {
    var r := PlayersRef(m, k, n, names0, scores0);
    if k >= |m| {
      assert r.Fail?;
    } else {
      var e := PlayerLine(m[k]);
      if e.Fail? {
        assert r.Fail?;
      } else {
        assert r == PlayersRef(m, k + 1, n, names0 + [e.value.name], scores0 + [e.value.score]);
      }
    }
  }

  /** A successful player loop stops after n names, one entry per name still to read. */
  lemma {:induction false} PlayersRefNext(
    m: seq<string>, k: nat, n: nat, names0: seq<string>, scores0: seq<int>)
    requires |names0| == |scores0| <= n
    ensures var r := PlayersRef(m, k, n, names0, scores0);
      r.Ok? ==>
        && |r.value.names| == n && |r.value.scores| == n && r.value.next == k + (n - |names0|)
    decreases n - |names0|
  {
    if |names0| < n {
      PlayersRefUnfold(m, k, n, names0, scores0);
      if k < |m| && PlayerLine(m[k]).Ok? {
        var e := PlayerLine(m[k]).value;
        PlayersRefNext(m, k + 1, n, names0 + [e.name], scores0 + [e.score]);
      }
    }
  }

  /** A successful player loop keeps the i-th name and score it had already read. */
  lemma {:induction false} PlayersRefKeeps(
    m: seq<string>, k: nat, n: nat, names0: seq<string>, scores0: seq<int>, i: nat)
    requires |names0| == |scores0| <= n && i < |names0|
    ensures var r := PlayersRef(m, k, n, names0, scores0);
      r.Ok? ==>
        && i < |r.value.names| && i < |r.value.scores|
        && r.value.names[i] == names0[i] && r.value.scores[i] == scores0[i]
    decreases n - |names0|
  {
    PlayersRefNext(m, k, n, names0, scores0);
    if |names0| < n {
      PlayersRefUnfold(m, k, n, names0, scores0);
      if k < |m| && PlayerLine(m[k]).Ok? {
        var e := PlayerLine(m[k]).value;
        var names1, scores1 := names0 + [e.name], scores0 + [e.score];
        PlayersRefKeeps(m, k + 1, n, names1, scores1, i);
      }
    }
  }

  /** The player loop, having read names0, reads the players that the lines from entry k on
      hold, and stops after them. */
  lemma {:induction false} LinesPlayersRef(
    m: seq<string>, k: nat, n: nat, names0: seq<string>, scores0: seq<int>,
    names: seq<string>, scores: seq<int>)
    requires |names0| == |scores0| && |names| == |scores| && |names0| + |names| == n
    requires PlayerLinesAt(m, k, names, scores)
    ensures var r := PlayersRef(m, k, n, names0, scores0);
      && r.Ok? && r.value.names == names0 + names && r.value.scores == scores0 + scores
      && r.value.next == k + |names|
    decreases |names|
  {
    if names == [] {
      AppendEmpty(names0, names);
      AppendEmpty(scores0, scores);
    } else {
      LinesPlayersRef(m, k + 1, n, names0 + [names[0]], scores0 + [scores[0]], names[1..], scores[1..]);
      AppendHead(names0, names);
      AppendHead(scores0, scores);
    }
  }

  /** A record loop that ends without a failure, having read done, read record lines from
      entry k on and stopped at the end of the lines or at "END". */
  lemma {:induction false} RecordsRefLines(
    m: seq<string>, k: nat, players: seq<string>, done: seq<MoveRecord>)
    requires RecordsRef(m, k, players, done).failure.None?
    ensures var r := RecordsRef(m, k, players, done).records;
      |done| <= |r| && RecordLinesAt(m, k, players, r[|done|..])
    decreases |m| - k
  {
    var r := RecordsRef(m, k, players, done).records;
    if k >= |m| || m[k] == "END" {
      assert r[|done|..] == [];
    } else {
      RecordsRefStep(m, k, players, done);
      var rec := ParseMoveRecord(m[k], players).value;
      var done1 := done + [rec];
      RecordsRefLines(m, k + 1, players, done1);
      RecordsRefKeeps(m, k + 1, players, done1, |done|);
      SuffixHead(r, |done|);
    }
  }

  /** A record loop that ends without a failure keeps the i-th record it had already read. */
  lemma {:induction false} RecordsRefKeeps(
    m: seq<string>, k: nat, players: seq<string>, done: seq<MoveRecord>, i: nat)
    requires RecordsRef(m, k, players, done).failure.None? && i < |done|
    ensures var r := RecordsRef(m, k, players, done).records;
      i < |r| && r[i] == done[i]
    decreases |m| - k
  {
    if k < |m| && m[k] != "END" {
      RecordsRefStep(m, k, players, done);
      var rec := ParseMoveRecord(m[k], players).value;
      RecordsRefKeeps(m, k + 1, players, done + [rec], i);
    }
  }

  /** One turn of a record loop that ends without a failure: entry k is a record. */
  lemma RecordsRefStep(m: seq<string>, k: nat, players: seq<string>, done: seq<MoveRecord>)
    requires k < |m| && m[k] != "END" && RecordsRef(m, k, players, done).failure.None?
    ensures var e := ParseMoveRecord(m[k], players);
      && e.Ok?
      && RecordsRef(m, k, players, done) == RecordsRef(m, k + 1, players, done + [e.value])
  {
  }

  /** The record loop, having read done, reads the records the lines from entry k on hold. */
  lemma {:induction false} LinesRecordsRef(
    m: seq<string>, k: nat, players: seq<string>, done: seq<MoveRecord>, records: seq<MoveRecord>)
    requires RecordLinesAt(m, k, players, records)
    ensures var r := RecordsRef(m, k, players, done);
      r.failure.None? && r.records == done + records
    decreases |records|
  {
    if records == [] {
      AppendEmpty(done, records);
    } else {
      LinesRecordsRef(m, k + 1, players, done + [records[0]], records[1..]);
      AppendHead(done, records);
    }
  }

  // ---------------------------------------------------------------- parseGame

  /** A successful reference load read its header first. */
  lemma LoadRefHeader(check: ConfigurationCheck, m: seq<string>)
    ensures LoadRef(check, m).Ok? ==> HeaderRef(m).Ok? && HeaderRef(m).value.numPlayers >= 0
  {
    var h := HeaderRef(m);
    if h.Fail? {
      assert LoadRef(check, m) == Fail(h.failure);
    } else if h.value.numPlayers < 0 {
      assert LoadRef(check, m).Fail?;
    }
  }

  /** A successful reference load, stage by stage. */
  lemma LoadRefStages(check: ConfigurationCheck, m: seq<string>)
    ensures var r := LoadRef(check, m);
      r.Ok? ==>
        && HeaderLines(m, r.value.size, r.value.numMovesProtection, r.value.centralPlace, |r.value.players|)
        && var roster := PlayersRef(m, 4, |r.value.players|, [], []);
        && roster.Ok? && roster.value.names == r.value.players && roster.value.scores == r.value.scores
        && check(r.value.size, r.value.players, r.value.numMovesProtection) == None
        && var scan := RecordsRef(m, 4 + |r.value.players|, r.value.players, []);
        && scan.failure.None? && scan.records == r.value.records
  {
    LoadRefHeader(check, m);
    var h := HeaderRef(m);
    if h.Ok? && h.value.numPlayers >= 0 {
      HeaderRefLines(m);
      LoadRefBody(check, m, h.value);
    }
  }

  /** A successful reference load after a header h: its players, the configuration check and
      its records. */
  lemma LoadRefBody(check: ConfigurationCheck, m: seq<string>, h: Header)
    requires HeaderRef(m) == Ok(h) && h.numPlayers >= 0
    ensures var r := LoadRef(check, m);
      r.Ok? ==>
        && r.value.size == h.size && r.value.numMovesProtection == h.numMovesProtection
        && r.value.centralPlace == h.centralPlace && |r.value.players| == h.numPlayers
        && var roster := PlayersRef(m, 4, h.numPlayers, [], []);
        && roster.Ok? && roster.value.names == r.value.players && roster.value.scores == r.value.scores
        && check(r.value.size, r.value.players, r.value.numMovesProtection) == None
        && var scan := RecordsRef(m, 4 + h.numPlayers, r.value.players, []);
        && scan.failure.None? && scan.records == r.value.records
  {
    var roster := PlayersRef(m, 4, h.numPlayers, [], []);
    if roster.Ok? {
      PlayersRefNext(m, 4, h.numPlayers, [], []);
      var verdict := check(h.size, roster.value.names, h.numMovesProtection);
      if verdict.None? {
        LoadRefAccepted(check, m, h, roster.value);
      }
    }
  }

  /** After header h and the players, the reference load is decided by the configuration
      check and the record loop. */
  lemma LoadRefAccepted(check: ConfigurationCheck, m: seq<string>, h: Header, roster: Roster)
    requires HeaderRef(m) == Ok(h) && h.numPlayers >= 0
    requires PlayersRef(m, 4, h.numPlayers, [], []) == Ok(roster)
    requires check(h.size, roster.names, h.numMovesProtection) == None
    ensures var r, scan := LoadRef(check, m), RecordsRef(m, roster.next, roster.names, []);
      r.Ok? ==>
        && scan.failure.None? && r.value.records == scan.records
        && r.value.players == roster.names && r.value.scores == roster.scores
        && r.value.size == h.size && r.value.numMovesProtection == h.numMovesProtection
        && r.value.centralPlace == h.centralPlace
  {
  }

  /** Entries whose header, players and records the reference reads as g's describe g. */
  lemma StagesDescribe(check: ConfigurationCheck, m: seq<string>, g: Loaded)
    requires HeaderLines(m, g.size, g.numMovesProtection, g.centralPlace, |g.players|)
    requires var roster := PlayersRef(m, 4, |g.players|, [], []);
      roster.Ok? && roster.value.names == g.players && roster.value.scores == g.scores
    requires check(g.size, g.players, g.numMovesProtection) == None
    requires var scan := RecordsRef(m, 4 + |g.players|, g.players, []);
      scan.failure.None? && scan.records == g.records
    ensures Describes(check, m, g)
  {
    var n := |g.players|;
    PlayersRefLines(m, 4, n, [], []);
    SuffixAll(g.players);
    SuffixAll(g.scores);
    assert PlayerLinesAt(m, 4, g.players, g.scores);
    RecordsRefLines(m, 4 + n, g.players, []);
    SuffixAll(g.records);
    assert RecordLinesAt(m, 4 + n, g.players, g.records);
  }

  /** Entries that describe g are loaded as g. */
  lemma LinesLoadRef(check: ConfigurationCheck, m: seq<string>, g: Loaded)
    requires Describes(check, m, g)
    ensures LoadRef(check, m) == Ok(g)
  {
    var n := |g.players|;
    LinesHeaderRef(m, g.size, g.numMovesProtection, g.centralPlace, n);
    LinesPlayersRef(m, 4, n, [], [], g.players, g.scores);
    PrependEmpty(g.players);
    PrependEmpty(g.scores);
    LinesRecordsRef(m, 4 + n, g.players, [], g.records);
    PrependEmpty(g.records);
  }

  /** parseGame loads g exactly when the meaningful lines of the file describe g: the four
      header fields in order, exactly numPlayers player lines, a configuration the Configuration
      constructor accepts, then g's move records in file order up to "END" or the end of the
      file. */
  lemma LoadedIff(check: ConfigurationCheck, lines: seq<string>, g: Loaded)
    ensures ParseGameSpec(check, lines) == Ok(g) <==> Describes(check, Meaningful(lines), g)
  {
    var m := Meaningful(lines);
    ParseGameMatches(check, lines);
    var r := LoadRef(check, m);
    if r.Ok? {
      LoadRefStages(check, m);
      StagesDescribe(check, m, r.value);
    }
    if Describes(check, m, g) {
      LinesLoadRef(check, m, g);
    }
  }

  // ---------------------------------------------------------------- the header

  /** Which error a broken header raises, over the first four meaningful lines: running out of
      lines before a field is an InvalidGameException naming that field, a line with no value
      after ':' is an InvalidConfigurationError naming its field. */
  lemma HeaderRefErrors(m: seq<string>)
    ensures |m| == 0 ==> HeaderRef(m) == Fail(GameError(EofSize))
    ensures |m| >= 1 && HeaderValue(m[0]).None? ==> HeaderRef(m) == Fail(ConfigurationError(BadSize))
    ensures |m| == 1 && IntHeader(m[0], BadSize).Ok? ==> HeaderRef(m) == Fail(GameError(EofColumns))
    ensures |m| >= 2 && IntHeader(m[0], BadSize).Ok? && HeaderValue(m[1]).None? ==>
      HeaderRef(m) == Fail(ConfigurationError(BadProtection))
    ensures |m| == 2 && IntHeader(m[0], BadSize).Ok? && IntHeader(m[1], BadProtection).Ok? ==>
      HeaderRef(m) == Fail(GameError(EofColumns))
    ensures |m| >= 3 && IntHeader(m[0], BadSize).Ok? && IntHeader(m[1], BadProtection).Ok?
      && HeaderValue(m[2]).None?
      ==> HeaderRef(m) == Fail(ConfigurationError(BadCentral))
    ensures |m| == 3 && IntHeader(m[0], BadSize).Ok? && IntHeader(m[1], BadProtection).Ok?
      && PlaceHeader(m[2]).Ok?
      ==> HeaderRef(m) == Fail(GameError(EofPlayers))
    ensures |m| >= 4 && IntHeader(m[0], BadSize).Ok? && IntHeader(m[1], BadProtection).Ok?
      && PlaceHeader(m[2]).Ok? && HeaderValue(m[3]).None?
      ==> HeaderRef(m) == Fail(ConfigurationError(BadSize))
  {
  }

  /** A failing header is the failure of the whole load. */
  lemma LoadRefHeaderFails(check: ConfigurationCheck, m: seq<string>)
    ensures HeaderRef(m).Fail? ==> LoadRef(check, m) == Fail(HeaderRef(m).failure)
  {
  }

  /** parseGame over a file whose meaningful lines break off inside the header, or hold a
      header line without a value: the error names the field it was reading. */
  lemma HeaderErrors(check: ConfigurationCheck, lines: seq<string>)
    ensures var m, r := Meaningful(lines), ParseGameSpec(check, lines);
      && (|m| == 0 ==> r == Fail(GameError(EofSize)))
      && (|m| >= 1 && HeaderValue(m[0]).None? ==> r == Fail(ConfigurationError(BadSize)))
      && (|m| == 1 && IntHeader(m[0], BadSize).Ok? ==> r == Fail(GameError(EofColumns)))
      && (|m| >= 2 && IntHeader(m[0], BadSize).Ok? && HeaderValue(m[1]).None? ==>
            r == Fail(ConfigurationError(BadProtection)))
      && (|m| == 2 && IntHeader(m[0], BadSize).Ok? && IntHeader(m[1], BadProtection).Ok? ==>
            r == Fail(GameError(EofColumns)))
      && ((|m| >= 3 && IntHeader(m[0], BadSize).Ok? && IntHeader(m[1], BadProtection).Ok?
           && HeaderValue(m[2]).None?) ==> r == Fail(ConfigurationError(BadCentral)))
      && ((|m| == 3 && IntHeader(m[0], BadSize).Ok? && IntHeader(m[1], BadProtection).Ok?
           && PlaceHeader(m[2]).Ok?) ==> r == Fail(GameError(EofPlayers)))
      && ((|m| >= 4 && IntHeader(m[0], BadSize).Ok? && IntHeader(m[1], BadProtection).Ok?
           && PlaceHeader(m[2]).Ok? && HeaderValue(m[3]).None?) ==> r == Fail(ConfigurationError(BadSize)))
  {
    var m := Meaningful(lines);
    ParseGameMatches(check, lines);
    HeaderRefErrors(m);
    LoadRefHeaderFails(check, m);
  }

  /** A well-formed header announcing a negative number of players fails when the player
      array is allocated, before any player line is read. */
  lemma NegativePlayerCount(
    check: ConfigurationCheck, lines: seq<string>, size: int, protection: int, central: Place, count: int)
    requires HeaderLines(Meaningful(lines), size, protection, central, count) && count < 0
    ensures ParseGameSpec(check, lines) == Fail(UncheckedFailure(NegativeArraySize))
  {
    ParseGameMatches(check, lines);
    LinesHeaderRef(Meaningful(lines), size, protection, central, count);
  }

  /** The key before the first ':' of a header line is never looked at: two lines that differ
      only in a key without ':' read the same, whichever field they are read as. */
  lemma HeaderKeyIgnored(k1: string, k2: string, v: string, malformed: string)
    requires ':' !in k1 && ':' !in k2
    ensures HeaderValue(k1 + ":" + v) == HeaderValue(k2 + ":" + v)
    ensures IntHeader(k1 + ":" + v, malformed) == IntHeader(k2 + ":" + v, malformed)
    ensures PlaceHeader(k1 + ":" + v) == PlaceHeader(k2 + ":" + v)
  {
    FindAbsent(k1, ":", 0);
    FindAbsent(k2, ":", 0);
    SplitAfterKey(k1, ":", v);
    SplitAfterKey(k2, ":", v);
  }

  // ---------------------------------------------------------------- nothing after END

  /** The meaningful lines of a concatenation are those of its parts. */
  lemma {:induction false} MeaningfulAppend(a: seq<string>, b: seq<string>)
    ensures Meaningful(a + b) == Meaningful(a) + Meaningful(b)
    decreases |a|
  {
    if a == [] {
      assert a + b == b;
      PrependEmpty(Meaningful(b));
    } else {
      TailAppend(a, b);
      MeaningfulAppend(a[1..], b);
      var head := if Skipped(a[0]) then [] else [Trim(a[0])];
      assert (a + b)[0] == a[0];
      AppendAssoc(head, Meaningful(a[1..]), Meaningful(b));
    }
  }

  /** Player lines stay player lines when more lines follow. */
  lemma {:induction false} PlayerLinesExtend(
    m: seq<string>, t: seq<string>, k: nat, names: seq<string>, scores: seq<int>)
    requires |names| == |scores| && PlayerLinesAt(m, k, names, scores)
    ensures PlayerLinesAt(m + t, k, names, scores)
    decreases |names|
  {
    if names != [] {
      assert (m + t)[k] == m[k];
      PlayerLinesExtend(m, t, k + 1, names[1..], scores[1..]);
    }
  }

  /** Record lines closed by an "END" line stay so when more lines follow. */
  lemma {:induction false} RecordLinesExtend(
    m: seq<string>, t: seq<string>, k: nat, players: seq<string>, records: seq<MoveRecord>)
    requires k + |records| < |m| && RecordLinesAt(m, k, players, records)
    ensures RecordLinesAt(m + t, k, players, records)
    decreases |records|
  {
    assert (m + t)[k] == m[k];
    if records != [] {
      RecordLinesExtend(m, t, k + 1, players, records[1..]);
    }
  }

  /** Once the record loop has stopped at an "END" line, whatever follows in the file is never
      read: appending any lines to the file loads the same game. */
  lemma NothingAfterEnd(check: ConfigurationCheck, lines: seq<string>, tail: seq<string>, g: Loaded)
    requires ParseGameSpec(check, lines) == Ok(g)
    requires 4 + |g.players| + |g.records| < |Meaningful(lines)|
    ensures ParseGameSpec(check, lines + tail) == Ok(g)
  {
    LoadedIff(check, lines, g);
    MeaningfulAppend(lines, tail);
    DescribesExtend(check, Meaningful(lines), Meaningful(tail), g);
    LoadedIff(check, lines + tail, g);
  }

  /** Entries that describe g up to its "END" line still do when more entries follow. */
  lemma DescribesExtend(check: ConfigurationCheck, m: seq<string>, t: seq<string>, g: Loaded)
    requires Describes(check, m, g) && 4 + |g.players| + |g.records| < |m|
    ensures Describes(check, m + t, g)
  {
    PlayerLinesExtend(m, t, 4, g.players, g.scores);
    RecordLinesExtend(m, t, 4 + |g.players|, g.players, g.records);
    HeaderLinesExtend(m, t, g.size, g.numMovesProtection, g.centralPlace, |g.players|);
  }

  /** The header lines stay the header when more lines follow. */
  lemma HeaderLinesExtend(
    m: seq<string>, t: seq<string>, size: int, protection: int, central: Place, count: int)
    requires HeaderLines(m, size, protection, central, count)
    ensures HeaderLines(m + t, size, protection, central, count)
  {
    var mt := m + t;
    assert mt[0] == m[0] && mt[1] == m[1] && mt[2] == m[2] && mt[3] == m[3];
  }
}
