# Jeson Mor: record loader, move acceptance, scoring and settings

A Dafny model of four pieces of the Jeson Mor game (a two-player board game of knights and
archers on an N×N board with a central place). Each piece is proved against its own
specification:

- **The game-record loader** (`Deserializer`). A record is a line-oriented text file. Blank lines
  and `#` comments are skipped. Four header fields come first: size, protected moves, central
  place and number of players. Then one `Name:<name>;Score:<int>` line per player. Then
  `<index>:<name>;<key>:(x,y)->(x,y)` move records up to `END`.
  - The file is a `seq<string>` of lines, and a reader is a position in it.
  - `parseGame` is a class method. Its header, player and record loops are separate methods,
    each proved equal to a specification function.
  - A second reading works by position over the meaningful lines only. It is proved equal to
    the reader-based one.
  - A printer for every field is proved to be read back by the parser.
- **Move acceptance** (`GamePlayPane`).
  - `validateMove` runs the rule chain chosen by the moved piece's label. The first failing
    rule's description wins. The ownership and human check comes last.
  - A human move is made only when it validates and is one of the available moves.
  - The computer's answer is made without validation.
  - `endGame` resets the game.
- **Scores, move count and reset** (`FXJesonMor`). This is a class with the move counter, the
  two players' scores, the two score slots on display, the displayed name of the player to move,
  the board and the move records.
- **Settings** (`SettingPane`).
  - `validate` is a function.
  - The save and return buttons write the number fields back to the shared configuration and
    round timer, or leave them alone.
  - The three toggle buttons flip the player kinds and the sound switch.

Java's `String.trim`, `String.split` (with a literal separator), `String.indexOf` and
`Integer.parseInt` are written out in `java_text.dfy`. This includes split's dropping of
trailing empty strings and parseInt's 32-bit range; parseInt reads ASCII digits only. Java exceptions the loader does not catch
(`NumberFormatException`, index errors, the null dereference at end of input inside the player
loop, a negative array size) form a separate `UncheckedFailure` outcome. They are kept apart from
`InvalidConfigurationError` and `InvalidGameException`.

Code outside the modelled files becomes a parameter:
- the `Configuration` constructor's own validation (a function from size, players and protection
  to an optional error message);
- the rule classes (a `Rulebook`: each rule's verdict and description);
- `JesonMor.movePiece` and `getAvailableMoves` (an `Engine`);
- a computer player's `nextMove`;
- `GamePane.validate` and the message `ViewConfig.MSG_NEG_DURATION`.

`JesonMor.getCurrentPlayer` is taken to be the player at index `numMoves % 2`: the players
alternate and the first moves first.

The model follows the code, including these behaviours:
- A header value that is not an integer (`Size:abc`) escapes as a `NumberFormatException`. It is
  not a configuration error.
- A move record needs exactly three `:`-separated fields. The two-field form
  `<index>:<name>;(x,y)->(x,y)` is refused (`RecordFormat.TwoFieldRecordRejected`).
- End of input before the central place reports "number of columns". A malformed player count
  reports "board size". Both messages are kept as written.

## Model

| member | source | states |
|---|---|---|
| `Deserialization.NextLine` | src/main/java/castle/comp3021/assignment/protocol/io/Deserializer.java:47-55 | the line returned is the first unread line that is neither blank nor a comment, trimmed, and the reader stands after it; end of input (null) leaves the reader at the end |
| `Deserialization.NextLineSkips` | src/main/java/castle/comp3021/assignment/protocol/io/Deserializer.java:49-53 | every line passed over is blank after trimming or starts with `#` |
| `Deserialization.GetFirstNonEmptyLine` | src/main/java/castle/comp3021/assignment/protocol/io/Deserializer.java:47-55 | the reading loop returns exactly what `NextLine` specifies |
| `LoadReference.NextLineMeaningful` | src/main/java/castle/comp3021/assignment/protocol/io/Deserializer.java:47-55 | the reader yields the meaningful lines one by one in file order, and null exactly when none is left |
| `Deserialization.IntHeader` | src/main/java/castle/comp3021/assignment/protocol/io/Deserializer.java:64-69 | a header line with no value after `:` is an InvalidConfigurationError with the field's message; a success is the integer `words[1]` parses to |
| `Deserialization.PlaceHeader` | src/main/java/castle/comp3021/assignment/protocol/io/Deserializer.java:92-102 | the central place is `parsePlace(words[1])`; a line without a value is an InvalidConfigurationError |
| `Deserialization.HeaderOf` | src/main/java/castle/comp3021/assignment/protocol/io/Deserializer.java:61-115 | a header is produced only when all four field lines are present |
| `Deserialization.ReadHeader` | src/main/java/castle/comp3021/assignment/protocol/io/Deserializer.java:61-115 | the reader stays within the file after the four header lines |
| `Deserialization.Deserializer.ReadHeaderLines` | src/main/java/castle/comp3021/assignment/protocol/io/Deserializer.java:61-115 | reading size, protection, central place and player count in that order, failing at the first missing or malformed one, gives `ReadHeader`; the central place is stored as soon as the third line parses, before the count line is read, and is left as it was when the reading stops earlier |
| `Deserialization.CentralReadHeader` | src/main/java/castle/comp3021/assignment/protocol/io/Deserializer.java:92-102 | a header that reads in full has stored its own central place on the way |
| `Deserialization.HeaderOfCentral` | src/main/java/castle/comp3021/assignment/protocol/io/Deserializer.java:61-102 | a header that parses had a size and a protection line that parse, and its central place is what its third line parses to |
| `LoadProperties.HeaderErrors` | src/main/java/castle/comp3021/assignment/protocol/io/Deserializer.java:63-114 | running out of lines before a header field is an InvalidGameException with that field's message; a field line with no `:` value is an InvalidConfigurationError with its message |
| `LoadProperties.HeaderKeyIgnored` | src/main/java/castle/comp3021/assignment/protocol/io/Deserializer.java:65-66 | the text before `:` is never checked: two header lines differing only in the key read the same as any field |
| `LoadProperties.NegativePlayerCount` | src/main/java/castle/comp3021/assignment/protocol/io/Deserializer.java:121-122 | a negative player count fails at the array allocation, before any player line is read |
| `Deserialization.PlayerLine` | src/main/java/castle/comp3021/assignment/protocol/io/Deserializer.java:124-134 | the name is the trimmed text after `:` in the part before `;`; the score is the integer after `:` in the part after `;` |
| `Deserialization.ReadPlayers` | src/main/java/castle/comp3021/assignment/protocol/io/Deserializer.java:121-135 | a successful player loop yields exactly n names and n scores, extending those already read |
| `Deserialization.ScoresRead` | src/main/java/castle/comp3021/assignment/protocol/io/Deserializer.java:123-135 | the scores stored by the player loop only extend those stored before and never exceed n |
| `Deserialization.ScoresReadComplete` | src/main/java/castle/comp3021/assignment/protocol/io/Deserializer.java:123-135 | a player loop that completes has stored exactly the n scores it read |
| `Deserialization.SlotsStore` | src/main/java/castle/comp3021/assignment/protocol/io/Deserializer.java:122-134 | storing the next score in its slot of the n-slot array gives the array with one more score filled and the rest still null |
| `Deserialization.Deserializer.ReadPlayerLines` | src/main/java/castle/comp3021/assignment/protocol/io/Deserializer.java:121-135 | the for loop computes `ReadPlayers`, end of input inside it being the null dereference; starting from an array of n null slots, the score of each player whose line parses in full is stored in that player's slot, so the array holds `ScoresRead` followed by nulls |
| `Deserialization.ReadRecords` | src/main/java/castle/comp3021/assignment/protocol/io/Deserializer.java:152-154 | the records read only grow from those already read |
| `Deserialization.ScanRecords` | src/main/java/castle/comp3021/assignment/protocol/io/Deserializer.java:152-154 | the while loop computes `ReadRecords`: records in file order until end of input or `END`, stopping at the first bad record |
| `Deserialization.Deserializer.ParseGame` | src/main/java/castle/comp3021/assignment/protocol/io/Deserializer.java:57-160 | it returns no exception exactly when the specified load succeeds, and otherwise the load's failure; on success the configuration, central place and stored scores hold the loaded values and the records are appended to the list; on failure too each field holds what `StoredFields` gives: the central place once the third header line has parsed (before the count line), the stored-score array once a non-negative count is read (allocated before the player loop and filled one player at a time, null after the failing player), the configuration once the constructor accepts it, and the records read before a bad one appended |
| `Deserialization.Deserializer.ReadAfterHeader` | src/main/java/castle/comp3021/assignment/protocol/io/Deserializer.java:117-160 | a negative count fails at the allocation with the stored scores untouched; otherwise the score array is allocated before any player line is read; result and fields as `LoadAfterHeader` and `FieldsAfterHeader` give them |
| `Deserialization.Deserializer.ReadAllocated` | src/main/java/castle/comp3021/assignment/protocol/io/Deserializer.java:123-160 | once the array is allocated: the players, then the configuration and the records, with result and fields as `LoadAfterHeader` and `FieldsAfterHeader` give them |
| `Deserialization.Deserializer.ReadAfterPlayers` | src/main/java/castle/comp3021/assignment/protocol/io/Deserializer.java:137-154 | the configuration is assigned only when the constructor accepts it, and then the records up to `END` or the first bad one are appended; the failure is the constructor's error or the bad record's |
| `Deserialization.StoredFieldsLoaded` | src/main/java/castle/comp3021/assignment/protocol/io/Deserializer.java:96-156 | after a successful load the fields parseGame assigns hold exactly the loaded configuration, central place and records, and a stored-score array with every slot holding the loaded score, whatever they held before |
| `Deserialization.StoredFieldsEarly` | src/main/java/castle/comp3021/assignment/protocol/io/Deserializer.java:92-135 | on any outcome the central place is the third header line's once that line has parsed, whatever follows, and otherwise is unchanged; the stored-score array is set once a non-negative count has been read, holding the scores of the players read before the loop stopped, and otherwise is unchanged |
| `LoadReference.ParseGameMatches` | src/main/java/castle/comp3021/assignment/protocol/io/Deserializer.java:57-160 | parseGame depends on the file only through its meaningful lines, read by position |
| `LoadReference.CommentsIgnored` | src/main/java/castle/comp3021/assignment/protocol/io/Deserializer.java:49-52 | two files with the same meaningful lines load the same way, whatever blank and comment lines surround them |
| `LoadProperties.LoadedIff` | src/main/java/castle/comp3021/assignment/protocol/io/Deserializer.java:57-160 | a file loads as g exactly when its meaningful lines hold g's four header fields, then one player line per player, a configuration the constructor accepts, then g's records in order up to `END` or the end of the file |
| `LoadProperties.NothingAfterEnd` | src/main/java/castle/comp3021/assignment/protocol/io/Deserializer.java:152-154 | lines after `END` are never read: appending any lines to a file that loads as g still loads g |
| `Deserialization.ParseMoveRecord` | src/main/java/castle/comp3021/assignment/protocol/io/Deserializer.java:180-193 | a line that does not split into exactly 3 fields is an InvalidConfigurationError; a success names the first player equal to the trimmed text of field 2 before `;`, and its move is `parseMove` of the trimmed field 3 |
| `Deserialization.UnknownPlayerRejected` | src/main/java/castle/comp3021/assignment/protocol/io/Deserializer.java:188-192 | a record naming no configured player is the "can not find player" InvalidConfigurationError |
| `Deserialization.ReadMoveRecord` | src/main/java/castle/comp3021/assignment/protocol/io/Deserializer.java:180-193 | the method computes `ParseMoveRecord` |
| `Deserialization.FindPlayer` | src/main/java/castle/comp3021/assignment/protocol/io/Deserializer.java:187-191 | the search returns the first index holding the name, or -1 exactly when no player has it |
| `Deserialization.ParseMove` | src/main/java/castle/comp3021/assignment/protocol/io/Deserializer.java:201-207 | no exactly two parts around `->` is an InvalidConfigurationError; it succeeds exactly when both parts parse, and the move is (parsePlace(part0), parsePlace(part1)) |
| `Deserialization.ParsePlace` | src/main/java/castle/comp3021/assignment/protocol/io/Deserializer.java:215-229 | strings shorter than 2 characters or not starting with `(` are an InvalidConfigurationError; a success had a `,`, split on `,` into exactly 2 parts, and both coordinates are Java ints |
| `RecordFormat.ParsePlaceShow` | src/main/java/castle/comp3021/assignment/protocol/io/Deserializer.java:215-229 | parsePlace("(" + x + "," + y + ")") is Place(x, y) for all Java ints x, y |
| `RecordFormat.ParseMoveShow` | src/main/java/castle/comp3021/assignment/protocol/io/Deserializer.java:201-207 | parseMove reads back a printed move |
| `RecordFormat.ParseMoveRecordShow` | src/main/java/castle/comp3021/assignment/protocol/io/Deserializer.java:180-193 | parseMoveRecord reads back a printed three-field record of a player whose name no earlier player has |
| `RecordFormat.TwoFieldRecordRejected` | src/main/java/castle/comp3021/assignment/protocol/io/Deserializer.java:181-183 | a record with only two `:`-separated fields is refused as an invalid move record |
| `RecordFormat.PlayerLineShow` | src/main/java/castle/comp3021/assignment/protocol/io/Deserializer.java:124-134 | a printed player line reads back its name and score |
| `RecordFormat.IntHeaderShow` | src/main/java/castle/comp3021/assignment/protocol/io/Deserializer.java:64-69 | a printed integer header field reads back its value, whatever its key |
| `RecordFormat.PlaceHeaderShow` | src/main/java/castle/comp3021/assignment/protocol/io/Deserializer.java:92-99 | a printed central-place field reads back its place |
| `RecordFormat.ParseGameShow` | src/main/java/castle/comp3021/assignment/protocol/io/Deserializer.java:57-160 | loading a printed game gives back its size, protection, central place, players, scores and records when the configuration constructor accepts them |
| `GamePlay.ChainOrder` | src/main/java/castle/comp3021/assignment/gui/views/panes/GamePlayPane.java:357-376 | every chain starts with Boundary, Occupied, Vacant, NilMove, FirstNMovesProtection(n); a `'K'` piece ends with KnightMove, KnightBlock and any other with ArcherMove |
| `GamePlay.FirstFailing` | src/main/java/castle/comp3021/assignment/gui/views/panes/GamePlayPane.java:377-381 | every rule before the position found holds, and the rule there fails (or the chain is exhausted) |
| `GamePlay.ValidateMove` | src/main/java/castle/comp3021/assignment/gui/views/panes/GamePlayPane.java:355-388 | the loop over the chain returns the specified verdict |
| `GamePlay.VerdictAccepts` | src/main/java/castle/comp3021/assignment/gui/views/panes/GamePlayPane.java:377-387 | validateMove returns null exactly when every rule holds, the piece is the current player's and that player is human |
| `GamePlay.VerdictFirstFailure` | src/main/java/castle/comp3021/assignment/gui/views/panes/GamePlayPane.java:377-381 | the first failing rule's description is returned, whatever later rules say |
| `GamePlay.LaterRulesIgnored` | src/main/java/castle/comp3021/assignment/gui/views/panes/GamePlayPane.java:377-381 | rules after the first failing one are not consulted: changing their verdicts changes nothing |
| `GamePlay.BoundaryFirst` | src/main/java/castle/comp3021/assignment/gui/views/panes/GamePlayPane.java:358-381 | a move failing the boundary rule is refused with the boundary description, whatever else fails |
| `GamePlay.OccupiedSecond` | src/main/java/castle/comp3021/assignment/gui/views/panes/GamePlayPane.java:358-381 | a move within the boundary that fails the occupied rule is refused with the occupied description, whatever the later rules say |
| `GamePlay.OwnershipLast` | src/main/java/castle/comp3021/assignment/gui/views/panes/GamePlayPane.java:383-387 | once every rule holds, the answer is "The piece you moved does not belong to you!" if the piece is not the current player's or that player is not human, and null otherwise |
| `GamePlay.AcceptedIsLegal` | src/main/java/castle/comp3021/assignment/gui/views/panes/GamePlayPane.java:294-296 | an applied human move passed every rule and moved the human current player's own piece |
| `GamePlay.GamePlayPane.Play` | src/main/java/castle/comp3021/assignment/gui/views/panes/GamePlayPane.java:297-300 | movePiece, then incMove, then updateScore for the given player, then the history entry |
| `GamePlay.GamePlayPane.HumanTurn` | src/main/java/castle/comp3021/assignment/gui/views/panes/GamePlayPane.java:291-304 | the move is made for the player who was current exactly when validateMove returns null and the move is among the available moves, and then only that player's score slot is set, to the new score; otherwise board, move count, scores, score slots and history are unchanged; slots that showed the scores still do; the reason returned is validateMove's |
| `GamePlay.GamePlayPane.ComputerTurn` | src/main/java/castle/comp3021/assignment/gui/views/panes/GamePlayPane.java:316-330 | nextMove's choice among the available moves is made without validateMove, and only the mover's score slot is set, to the new score; no choice changes nothing, score slots included; slots that showed the scores still do; the computer's name is then displayed |
| `GamePlay.GamePlayPane.OnCanvasReleased` | src/main/java/castle/comp3021/assignment/gui/views/panes/GamePlayPane.java:287-353 | the computer answers exactly when the player to move after the human turn is not seated as a human (the first player's setting for the name "White", the second's otherwise), and its answer is nextMove's choice for that player among the moves available on the board and move count the human turn left; board, scores and history then reflect the human move if accepted followed by the answer if any; a score slot is set to its player's new score exactly when that player moved, and is otherwise unchanged; slots that showed the scores still do; the move count grows by one for each; the reason is validateMove's |
| `GamePlay.GamePlayPane.EndGame` | src/main/java/castle/comp3021/assignment/gui/views/panes/GamePlayPane.java:500-513 | both scores and score slots 0, elapsed ticks 0, history empty, no move played, the initial board; the reset as written leaves on display the name of the player who was to move when the game ended |
| `GamePlay.GamePlayPane.EndGameCorrected` | src/main/java/castle/comp3021/assignment/gui/views/panes/GamePlayPane.java:500-513 | endGame with the corrected reset: the same new state, with the first player, who moves first, on display |
| `JesonMorGui.FXJesonMor.constructor` | src/main/java/castle/comp3021/assignment/gui/FXJesonMor.java:18-33 | both score slots 0, no move played, the first player's name on display |
| `JesonMorGui.FXJesonMor.IncMove` | src/main/java/castle/comp3021/assignment/gui/FXJesonMor.java:35-37 | numMoves grows by exactly 1, which passes the turn to the other player |
| `JesonMorGui.FXJesonMor.UpdateScore` | src/main/java/castle/comp3021/assignment/gui/FXJesonMor.java:97-108 | the mover's score grows by the move's Manhattan length, whatever the piece; the other score stays; only the mover's score slot is set, to the new score; slots that showed the scores still do |
| `JesonMorGui.CreditChanges` | src/main/java/castle/comp3021/assignment/gui/FXJesonMor.java:97-101 | crediting a move adds its length to the mover only; no score decreases |
| `JesonMorGui.TallyEarned` | src/main/java/castle/comp3021/assignment/gui/FXJesonMor.java:97-101 | after any sequence of moves, each player's score is its starting score plus the length of its own moves, and never less than it started |
| `JesonMorGui.FXJesonMor.ResetGameAsWritten` | src/main/java/castle/comp3021/assignment/gui/FXJesonMor.java:110-130 | scores and slots 0, numMoves 0, records cleared, the initial board; the displayed name is that of the player who was to move before the reset |
| `JesonMorGui.ResetAfterOneMove` | src/main/java/castle/comp3021/assignment/gui/FXJesonMor.java:110-113 | after one move and a reset as written, the second player's name is displayed while the first is to move |
| `JesonMorGui.FXJesonMor.ResetGame` | src/main/java/castle/comp3021/assignment/gui/FXJesonMor.java:110-130 | as above, and the displayed name is that of the player to move after the reset |
| `Settings.ValidateAccepts` | src/main/java/castle/comp3021/assignment/gui/views/panes/SettingPane.java:192-202 | validation passes exactly when the size/protection check passes and the duration is positive; when size and protection pass, a duration of 0 or less gives MSG_NEG_DURATION |
| `Settings.DurationUnexamined` | src/main/java/castle/comp3021/assignment/gui/views/panes/SettingPane.java:193-195 | when size or protection is refused, that check's message is returned unchanged and the duration does not matter |
| `Settings.UnparsableDurationFails` | src/main/java/castle/comp3021/assignment/gui/views/panes/SettingPane.java:165-169 | an unparsable duration falls back to 0 and always fails validation |
| `Settings.SettingPane.ReturnToMainMenu` | src/main/java/castle/comp3021/assignment/gui/views/panes/SettingPane.java:163-181 | without writeBack nothing is stored; with it, a failing validation leaves everything unchanged and shows the message; a passing one stores size, protection and duration in that order, an unparsable size or protection throwing before it is stored, so a parsable size is stored even when the protection then throws, and the exception leaves the number fields and captions as they were; on reaching the main menu the fields are refilled |
| `Settings.SettingPane.FillValues` | src/main/java/castle/comp3021/assignment/gui/views/panes/SettingPane.java:149-156 | the fields show the stored values and the captions the switches |
| `Settings.SettingPane.TogglePlayer1` | src/main/java/castle/comp3021/assignment/gui/views/panes/SettingPane.java:106-117 | the first player's human flag flips and its caption follows |
| `Settings.SettingPane.TogglePlayer2` | src/main/java/castle/comp3021/assignment/gui/views/panes/SettingPane.java:118-129 | the second player's human flag flips and its caption follows |
| `Settings.SettingPane.ToggleSound` | src/main/java/castle/comp3021/assignment/gui/views/panes/SettingPane.java:130-141 | the sound switch flips and its caption follows |
| `Settings.SettingPane.TogglePlayer1Twice` | src/main/java/castle/comp3021/assignment/gui/views/panes/SettingPane.java:109-115 | two presses restore the first player's kind |

## Left out

- File access: the existence check in the constructor, the `BufferedReader`, and the wrapping of an `IOException` as an InvalidGameException. The file is given as its lines.
- JesonMor, Configuration, the rule classes, GamePane and ViewConfig are not part of this model. Their behaviour is a parameter (see above). So the Boundary, Occupied and other rules have no geometry here, and only their order and short-circuit are proved.
- `GamePlay.ValidateMove` requires a piece on the source place: the source reads its label before any rule runs, so an empty or off-board source throws instead of reaching a rule.
- The board is a value (a map from place to piece). The source keeps a `Piece[][]`, and after `resetGame` that array is the configuration's own initial board, so later moves change the configuration too. That aliasing is not modelled.
- JesonMorGui.FXJesonMor.UpdateScore: scores are unbounded integers; Java's 32-bit wrap-around after 2^31 points is not modelled.
- GamePlay.GamePlayPane.OnCanvasReleased: `checkWinner` is an empty method and the canvas enabling and disabling, redrawing, sounds and popups are GUI, so none of them is modelled; the board coordinates of the mouse (`toBoardCoordinate`, a floating-point division) arrive as the move.
- GamePlay.GamePlayPane.EndGame: `globalConfiguration.boardReset()` belongs to Configuration, which is not part of this model; the timer stop and canvas and button states are left out.
- GamePlay.GamePlayPane.OnCanvasReleased: the human flags are read from the game's configuration, which is taken to be the shared configuration the pane consults.
- The timer (`DurationTimer`) ticks, the board dumps on standard output in `resetGame`, and all rendering.
- ValidationPane's replay thread (concurrency and timing), AudioManager, ResourceLoader, MainMenuPane and BasePane's layout. Only BasePane's `getValue` is modelled (`Settings.GetValue`).
- JavaText.ParseInt: only the ASCII digits '0'-'9' are read as digits; Java's Integer.parseInt (through Character.digit) also accepts other Unicode decimal digits such as U+0663, which the model reports as a NumberFormatException. The Unicode digit tables are not modelled.
- Settings.SettingPane.ReturnToMainMenu: the number fields are given by the integer their text parses to; the parsing in NumberTextField is not part of this model.

## Findings

| source | as written | input that shows it | evidently intended | confidence | as-written member | corrected member |
|---|---|---|---|---|---|---|
| src/main/java/castle/comp3021/assignment/gui/FXJesonMor.java:113-128 | `resetGame` sets the displayed name from `getCurrentPlayer()` before setting `numMoves` to 0 | a game with one move played, then reset: the second player's name is displayed while the first player is to move (`JesonMorGui.ResetAfterOneMove`) | the displayed name is that of the player to move after the reset | medium (relies on `getCurrentPlayer` being the player at `numMoves % 2`); not executed | `JesonMorGui.FXJesonMor.ResetGameAsWritten` (used by `GamePlay.GamePlayPane.EndGame`) | `JesonMorGui.FXJesonMor.ResetGame` (used by `GamePlay.GamePlayPane.EndGameCorrected`) |
