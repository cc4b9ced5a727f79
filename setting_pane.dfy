/** The settings screen, gui/views/panes/SettingPane.java: three number fields (board size,
    protected moves, seconds per round), two buttons that switch each player between human and
    computer, a sound switch, and the return and save buttons, of which save first validates the
    fields and writes them back to the shared configuration and the round timer.

    The shared configuration, the round timer's default and the audio manager's switch are
    fields of the pane here. A number field is given by the integer its text parses to, None
    when it does not parse. */
module Settings {
  import opened JavaText

  /** GamePane.validate, the size and protection check, and the message ViewConfig.MSG_NEG_DURATION;
      neither is part of this model. */
  datatype Checks = Checks(sizeAndProtection: (int, int) -> Option<string>, negativeDuration: string)

  const Player1Human := "Player 1: Human"
  const Player2Human := "Player 2: Human"
  const Player1Computer := "Player 1: Computer"
  const Player2Computer := "Player 2: Computer"
  const SoundEnabled := "Sound FX: Enabled"
  const SoundDisabled := "Sound FX: Disabled"

  /** BasePane.getValue: the field's number, or the default when its text does not parse. */
  function GetValue(field: Option<int>, default: int): int
  {
    match field
    case Some(n) => n
    case None => default
  }

  /** validate: the size and protection check's message when it has one, with the duration
      left unexamined; otherwise the negative-duration message for a duration of 0 or less, and
      None for a positive one. */
  function Validate(checks: Checks, size: int, numProtection: int, duration: int): Option<string>
  {
    var option := checks.sizeAndProtection(size, numProtection);
    if option.Some? then option
    else if duration <= 0 then Some(checks.negativeDuration)
    else None
  }

  /** The fields pass exactly when the size and protection check passes and the duration is
      positive; a refusal carries the negative-duration message only when size and protection
      passed. */
  lemma ValidateAccepts(checks: Checks, size: int, numProtection: int, duration: int)
    ensures Validate(checks, size, numProtection, duration).None? <==>
      checks.sizeAndProtection(size, numProtection).None? && duration > 0
    ensures checks.sizeAndProtection(size, numProtection).None? && duration <= 0 ==>
      Validate(checks, size, numProtection, duration) == Some(checks.negativeDuration)
  {
  }

  /** The duration is not looked at when the size or protection is refused, and that check's
      message is passed on unchanged. */
  lemma DurationUnexamined(checks: Checks, size: int, numProtection: int, d1: int, d2: int)
    requires checks.sizeAndProtection(size, numProtection).Some?
    ensures Validate(checks, size, numProtection, d1) == Validate(checks, size, numProtection, d2)
    ensures Validate(checks, size, numProtection, d1) == checks.sizeAndProtection(size, numProtection)
  {
  }

  /** A duration field whose text does not parse falls back to 0 and so never passes. */
  lemma UnparsableDurationFails(checks: Checks, sizeField: Option<int>, protectionField: Option<int>)
    ensures Validate(checks, GetValue(sizeField, 0), GetValue(protectionField, -1), GetValue(None, 0)).Some?
  {
  }

  /** How returnToMainMenu ends: on the main menu, with the validation message in a popup and
      the pane still shown, or with the NumberFormatException that reading an unparsable field
      a second time throws. */
  datatype Outcome = MainMenu | Refused(message: string) | NumberFormatEscaped

  class SettingPane {
    const checks: Checks

    /** The shared configuration's size, protection length and player kinds, the round timer's
        default duration, and the audio manager's switch. */
    var size: int
    var numMovesProtection: int
    var firstHuman: bool
    var secondHuman: bool
    var defaultEachRound: int
    var soundEnabled: bool

    var sizeField: Option<int>
    var protectionField: Option<int>
    var durationField: Option<int>

    var player1Text: string
    var player2Text: string
    var soundText: string

    /** The three buttons' captions say what their switches are set to. */
    predicate Captions()
      reads this
    {
      && player1Text == (if firstHuman then Player1Human else Player1Computer)
      && player2Text == (if secondHuman then Player2Human else Player2Computer)
      && soundText == (if soundEnabled then SoundEnabled else SoundDisabled)
    }

    /** The number fields show the stored values. */
    predicate Filled()
      reads this
    {
      sizeField == Some(size) && protectionField == Some(numMovesProtection)
      && durationField == Some(defaultEachRound)
    }

    /** The verdict on the fields as they stand, unparsable ones read as size 0, protection -1
        and duration 0. */
    function FieldsVerdict(): Option<string>
      reads this
    {
      Validate(checks, GetValue(sizeField, 0), GetValue(protectionField, -1), GetValue(durationField, 0))
    }

    constructor (checks: Checks, size: int, numMovesProtection: int, firstHuman: bool, secondHuman: bool,
                 defaultEachRound: int, soundEnabled: bool)
      ensures this.checks == checks && this.size == size && this.numMovesProtection == numMovesProtection
      ensures this.firstHuman == firstHuman && this.secondHuman == secondHuman
      ensures this.defaultEachRound == defaultEachRound && this.soundEnabled == soundEnabled
      ensures Filled() && Captions()
    {
      this.checks := checks;
      this.size := size;
      this.numMovesProtection := numMovesProtection;
      this.firstHuman := firstHuman;
      this.secondHuman := secondHuman;
      this.defaultEachRound := defaultEachRound;
      this.soundEnabled := soundEnabled;
      new;
      FillValues();
    }

    /** fillValues: the number fields and the captions show the stored settings. */
    method FillValues()
      modifies this`sizeField, this`protectionField, this`durationField,
        this`player1Text, this`player2Text, this`soundText
      ensures Filled() && Captions()
    {
      sizeField := Some(size);
      protectionField := Some(numMovesProtection);
      durationField := Some(defaultEachRound);
      player1Text := if firstHuman then Player1Human else Player1Computer;
      player2Text := if secondHuman then Player2Human else Player2Computer;
      soundText := if soundEnabled then SoundEnabled else SoundDisabled;
    }

    /** The first player's button: human becomes computer and computer human. */
    method TogglePlayer1()
      modifies this`firstHuman, this`player1Text
      ensures firstHuman == !old(firstHuman)
      ensures player1Text == (if firstHuman then Player1Human else Player1Computer)
      ensures old(Captions()) ==> Captions()
    {
      if firstHuman {
        firstHuman := false;
        player1Text := Player1Computer;
      } else {
        firstHuman := true;
        player1Text := Player1Human;
      }
    }

    /** The second player's button. */
    method TogglePlayer2()
      modifies this`secondHuman, this`player2Text
      ensures secondHuman == !old(secondHuman)
      ensures player2Text == (if secondHuman then Player2Human else Player2Computer)
      ensures old(Captions()) ==> Captions()
    {
      if secondHuman {
        secondHuman := false;
        player2Text := Player2Computer;
      } else {
        secondHuman := true;
        player2Text := Player2Human;
      }
    }

    /** The sound button. */
    method ToggleSound()
      modifies this`soundEnabled, this`soundText
      ensures soundEnabled == !old(soundEnabled)
      ensures soundText == (if soundEnabled then SoundEnabled else SoundDisabled)
      ensures old(Captions()) ==> Captions()
    {
      if soundEnabled {
        soundEnabled := false;
        soundText := SoundDisabled;
      } else {
        soundEnabled := true;
        soundText := SoundEnabled;
      }
    }

    /** Pressing a player's button twice leaves that player's kind and caption as they were. */
    method TogglePlayer1Twice()
      modifies this`firstHuman, this`player1Text
      ensures firstHuman == old(firstHuman)
      ensures player1Text == (if firstHuman then Player1Human else Player1Computer)
    {
      TogglePlayer1();
      TogglePlayer1();
    }

    /** returnToMainMenu. Without writeBack nothing is stored. With it, fields that fail
        validation leave everything as it was and the message is shown; fields that pass are
        stored size first, then protection, then duration, each read again as it stands, so a
        size or protection whose text does not parse but whose fallback passed the check throws
        before it is stored. On the way to the main menu the fields are refilled. */
    method ReturnToMainMenu(writeBack: bool) returns (outcome: Outcome)
      modifies this
      ensures firstHuman == old(firstHuman) && secondHuman == old(secondHuman)
      ensures soundEnabled == old(soundEnabled)
      ensures !writeBack ==> outcome == MainMenu
      ensures !writeBack || outcome != MainMenu ==> defaultEachRound == old(defaultEachRound)
      ensures !writeBack || old(sizeField).None? ==> size == old(size)
      ensures !writeBack || old(sizeField).None? || old(protectionField).None? ==>
        numMovesProtection == old(numMovesProtection)
      ensures writeBack && old(FieldsVerdict()).Some? ==>
        outcome == Refused(old(FieldsVerdict()).value) && unchanged(this)
      ensures writeBack && old(FieldsVerdict()).None? ==>
        if old(sizeField).None? || old(protectionField).None? then outcome == NumberFormatEscaped
        else
          && outcome == MainMenu
          && size == old(sizeField).value
          && numMovesProtection == old(protectionField).value
          && defaultEachRound == old(durationField).value > 0
      ensures writeBack && old(FieldsVerdict()).None? && old(sizeField).Some? ==> size == old(sizeField).value
      ensures outcome == MainMenu ==> Filled() && Captions()
      ensures outcome == NumberFormatEscaped ==>
        && sizeField == old(sizeField) && protectionField == old(protectionField)
        && durationField == old(durationField)
        && player1Text == old(player1Text) && player2Text == old(player2Text) && soundText == old(soundText)
    {
      if writeBack {
        var size := GetValue(sizeField, 0);
        var numProtected := GetValue(protectionField, -1);
        var duration := GetValue(durationField, 0);
        var option := Validate(checks, size, numProtected, duration);
        if option.Some? {
          return Refused(option.value);
        }
        if sizeField.None? {
          return NumberFormatEscaped;
        }
        this.size := sizeField.value;
        if protectionField.None? {
          return NumberFormatEscaped;
        }
        numMovesProtection := protectionField.value;
        defaultEachRound := durationField.value;
      }
      FillValues();
      return MainMenu;
    }
  }
}
