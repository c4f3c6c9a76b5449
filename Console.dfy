/** The debug console of a client: a typed line is split on spaces, its
    lower-cased first word picks a command, and the command becomes at most
    one packet for the server. */
module Console {
  import opened Clues
  import opened Guest

  /** The packets the console can send, with the fields it fills in. */
  datatype ServerPacket =
    | GameStartPacket(id: int)
    | CharUpdatePacket(id: int, character: CharacterType)
    | MoveToRoomPacket(id: int, room: RoomType, isForcedMove: bool)
    | GuessPacket(id: int, isFinal: bool, character: CharacterType, weapon: WeaponType, room: RoomType)
    | RevealPacket(id: int, recvID: int, clueType: ClueType, character: CharacterType, weapon: WeaponType, room: RoomType)
    | TurnDonePacket(id: int)
    | ChatPacket(id: int, text: string)

  /** What one submission does: the packet sent, if any, and whether the
      input field is cleared. */
  datatype Submission = Submission(sent: Option<ServerPacket>, clearsInput: bool)

  /** `Split(" ")`: the pieces between single spaces, empty pieces
      included, so there is always at least one. */
  function Split(s: string): (tokens: seq<string>)
    ensures |tokens| >= 1
    ensures forall k :: 0 <= k < |tokens| ==> ' ' !in tokens[k]
  {
    if s == [] then [""]
    else
      var rest := Split(s[1..]);
      if s[0] == ' ' then [""] + rest
      else [[s[0]] + rest[0]] + rest[1..]
  }

  /** `string.Join(" ", tokens)` */
  function Join(tokens: seq<string>): string
  {
    if |tokens| == 0 then ""
    else if |tokens| == 1 then tokens[0]
    else tokens[0] + " " + Join(tokens[1..])
  }

  /** Lower-casing, for the ASCII letters the commands use. */
  function LowerChar(c: char): (l: char)
  {
    if 'A' <= c <= 'Z' then (c as int + 32) as char else c
  }

  function Lower(s: string): (l: string)
    ensures |l| == |s|
    ensures forall i :: 0 <= i < |s| ==> l[i] == LowerChar(s[i])
  {
    seq(|s|, i requires 0 <= i < |s| => LowerChar(s[i]))
  }

  /** The command word of a line. */
  function Command(line: string): string
  {
    Lower(Split(line)[0])
  }

  /** The commands read this many words after the command word without
      checking that they are there. */
  function ArgumentsRead(command: string): nat
  {
    if command == "\\char" || command == "\\move" || command == "\\reveal" then 1
    else if command == "\\guess" || command == "\\accusation" then 3
    else 0
  }

  /** The reveal of a named card to the player whose turn it is: the name
      is tried as a character, then a weapon, then a room, and the other
      two values are zero. */
  function RevealOf(cardStr: string, ownID: int, turn: int, text: EnumText): Option<ServerPacket>
  {
    if text.parseCharacter(cardStr).Some? then
      Some(RevealPacket(ownID, turn, ClueType.Character, text.parseCharacter(cardStr).value, 0, 0))
    else if text.parseWeapon(cardStr).Some? then
      Some(RevealPacket(ownID, turn, ClueType.Weapon, 0, text.parseWeapon(cardStr).value, 0))
    else if text.parseRoom(cardStr).Some? then
      Some(RevealPacket(ownID, turn, ClueType.Room, 0, 0, text.parseRoom(cardStr).value))
    else None
  }

  /** The suggestion (or accusation) named by three words, when all three
      parse. */
  function GuessOf(tokens: seq<string>, ownID: int, isFinal: bool, text: EnumText): Option<ServerPacket>
    requires |tokens| >= 4
  {
    if text.parseCharacter(tokens[1]).Some? && text.parseWeapon(tokens[2]).Some? && text.parseRoom(tokens[3]).Some?
    then Some(GuessPacket(ownID, isFinal, text.parseCharacter(tokens[1]).value,
                          text.parseWeapon(tokens[2]).value, text.parseRoom(tokens[3]).value))
    else None
  }

  /** SubmitCommand as a decision: on a client connection the command word
      selects the packet, and anything that is not a command is chat; on
      any other connection nothing is sent. Only a reveal whose card does
      not parse leaves the input in place. */
  function Submit(line: string, isClient: bool, ownID: int, turn: int, text: EnumText): (r: Submission)
    requires isClient ==> |Split(line)| > ArgumentsRead(Command(line))
    ensures !isClient ==> r == Submission(None, true)
    ensures r.sent.Some? ==> r.sent.value.id == ownID
    ensures !r.clearsInput <==> isClient && Command(line) == "\\reveal" && RevealOf(Split(line)[1], ownID, turn, text).None?
    ensures !r.clearsInput ==> r.sent.None?
  {
    if !isClient then Submission(None, true)
    else
      var tokens := Split(line);
      var command := Lower(tokens[0]);
      if command == "\\start" then Submission(Some(GameStartPacket(ownID)), true)
      else if command == "\\char" then
        Submission(if text.parseCharacter(tokens[1]).Some? then Some(CharUpdatePacket(ownID, text.parseCharacter(tokens[1]).value)) else None, true)
      else if command == "\\move" then
        Submission(if text.parseRoom(tokens[1]).Some? then Some(MoveToRoomPacket(ownID, text.parseRoom(tokens[1]).value, false)) else None, true)
      else if command == "\\guess" then Submission(GuessOf(tokens, ownID, false, text), true)
      else if command == "\\accusation" then Submission(GuessOf(tokens, ownID, true, text), true)
      else if command == "\\reveal" then
        var pkt := RevealOf(tokens[1], ownID, turn, text);
        Submission(pkt, pkt.Some?)
      else if command == "\\done" then Submission(Some(TurnDonePacket(ownID)), true)
      else if command == "\\chat" then Submission(Some(ChatPacket(ownID, Join(tokens[1..]))), true)
      else Submission(Some(ChatPacket(ownID, Join(tokens))), true)
  }

  /** The console object: the text of its input field and the packets it
      has handed to the client connection. */
  class ClientConsole {
    const isClient: bool
    const engine: GuestEngine
    const text: EnumText
    var inputText: string
    var outbox: seq<ServerPacket>

    constructor (isClient: bool, engine: GuestEngine, text: EnumText)
      ensures this.isClient == isClient && this.engine == engine && this.text == text
      ensures inputText == "" && outbox == []
    {
      this.isClient := isClient;
      this.engine := engine;
      this.text := text;
      inputText := "";
      outbox := [];
    }

    /** SubmitCommand: sends what Submit decides, under the engine's own id
        and current turn, and clears the input unless a reveal failed to
        parse. */
    method SubmitCommand()
      requires isClient ==> |Split(inputText)| > ArgumentsRead(Command(inputText))
      modifies this`inputText, this`outbox
      ensures var r := Submit(old(inputText), isClient, engine.player.playerID, engine.core.state.turn, text);
        && outbox == old(outbox) + (if r.sent.Some? then [r.sent.value] else [])
        && inputText == (if r.clearsInput then "" else old(inputText))
    {
      var r := Submit(inputText, isClient, engine.player.playerID, engine.core.state.turn, text);
      if r.sent.Some? {
        outbox := outbox + [r.sent.value];
      }
      if r.clearsInput {
        inputText := "";
      }
    }
  }
}

/** What the console's decisions mean for the typed line. */
module ConsoleFacts {
  import opened Clues
  import opened Console

  /** Rejoining the pieces gives back the line. */
  lemma {:induction false} JoinSplit(s: string)
    ensures Join(Split(s)) == s
  {
    if s != [] {
      JoinSplit(s[1..]);
      var rest := Split(s[1..]);
      if s[0] == ' ' {
        assert s == [' '] + s[1..];
      } else if |rest| == 1 {
        assert s == [s[0]] + s[1..];
      } else {
        assert Join([[s[0]] + rest[0]] + rest[1..]) == [s[0]] + rest[0] + " " + Join(rest[1..]);
        assert s == [s[0]] + s[1..];
      }
    }
  }

  /** Splitting a word with no space in front of the rest. */
  lemma {:induction false} SplitWord(w: string, rest: string)
    requires ' ' !in w
    ensures Split(w + " " + rest) == [w] + Split(rest)
  {
    if w == [] {
      assert w + " " + rest == [' '] + rest;
    } else {
      assert w[0] in w;
      assert ' ' !in w[1..] by {
        forall i | 0 <= i < |w[1..]| ensures w[1..][i] != ' ' { assert w[1..][i] == w[i + 1]; }
      }
      SplitWord(w[1..], rest);
      assert (w + " " + rest)[1..] == w[1..] + " " + rest;
      assert w == [w[0]] + w[1..];
    }
  }

  /** A word with no space splits to itself. */
  lemma {:induction false} SplitSingle(w: string)
    requires ' ' !in w
    ensures Split(w) == [w]
  {
    if w != [] {
      assert w[0] in w;
      assert ' ' !in w[1..] by {
        forall i | 0 <= i < |w[1..]| ensures w[1..][i] != ' ' { assert w[1..][i] == w[i + 1]; }
      }
      SplitSingle(w[1..]);
      assert w == [w[0]] + w[1..];
    }
  }

  /** Splitting undoes joining, for words with no spaces. */
  lemma {:induction false} SplitJoin(tokens: seq<string>)
    requires |tokens| >= 1
    requires forall k :: 0 <= k < |tokens| ==> ' ' !in tokens[k]
    ensures Split(Join(tokens)) == tokens
  {
    if |tokens| == 1 {
      SplitSingle(tokens[0]);
    } else {
      SplitJoin(tokens[1..]);
      SplitWord(tokens[0], Join(tokens[1..]));
    }
  }

  /** A line that is not a command is sent as chat word for word. */
  lemma ChatOfUnknownCommandIsLine(line: string, ownID: int, turn: int, text: EnumText)
    requires ArgumentsRead(Command(line)) == 0
    requires Command(line) !in {"\\start", "\\done", "\\chat"}
    ensures Submit(line, true, ownID, turn, text).sent == Some(ChatPacket(ownID, line))
  {
    JoinSplit(line);
  }

  /** `\chat` sends the rest of the line after the command word and its
      space. */
  lemma ChatCommandDropsWord(line: string, ownID: int, turn: int, text: EnumText)
    requires Command(line) == "\\chat" && |Split(line)| >= 2
    ensures var said := Submit(line, true, ownID, turn, text).sent.value.text;
      line == Split(line)[0] + " " + said
  {
    var tokens := Split(line);
    JoinSplit(line);
    assert Join(tokens) == tokens[0] + " " + Join(tokens[1..]);
  }

  /** `\start` sends a game-start packet carrying only the own id, and
      clears the input. */
  lemma StartSendsOwnID(line: string, ownID: int, turn: int, text: EnumText)
    requires Command(line) == "\\start"
    ensures var r := Submit(line, true, ownID, turn, text);
      r.clearsInput && r.sent == Some(GameStartPacket(ownID))
  {
  }

  /** `\done` sends a turn-done packet carrying only the own id, and
      clears the input. */
  lemma DoneSendsOwnID(line: string, ownID: int, turn: int, text: EnumText)
    requires Command(line) == "\\done"
    ensures var r := Submit(line, true, ownID, turn, text);
      r.clearsInput && r.sent == Some(TurnDonePacket(ownID))
  {
  }

  /** `\char` and `\move` send only when their word parses, carrying the
      parsed value; a move asked for at the console is never forced. */
  lemma CharAndMove(line: string, ownID: int, turn: int, text: EnumText)
    requires Command(line) == "\\char" || Command(line) == "\\move"
    requires |Split(line)| >= 2
    ensures var arg := Split(line)[1];
      var r := Submit(line, true, ownID, turn, text);
      && r.clearsInput
      && (Command(line) == "\\char" ==>
            r.sent == if text.parseCharacter(arg).Some? then Some(CharUpdatePacket(ownID, text.parseCharacter(arg).value)) else None)
      && (Command(line) == "\\move" ==>
            r.sent == if text.parseRoom(arg).Some? then Some(MoveToRoomPacket(ownID, text.parseRoom(arg).value, false)) else None)
      && (r.sent.Some? && r.sent.value.MoveToRoomPacket? ==> !r.sent.value.isForcedMove)
  {
  }

  /** A suggestion and an accusation differ only in the final flag, and
      either is sent exactly when all three names parse. */
  lemma GuessAndAccusation(line: string, ownID: int, turn: int, text: EnumText)
    requires Command(line) == "\\guess" || Command(line) == "\\accusation"
    requires |Split(line)| >= 4
    ensures var tokens := Split(line);
      var r := Submit(line, true, ownID, turn, text);
      && r.clearsInput
      && (r.sent.Some? <==> text.parseCharacter(tokens[1]).Some? && text.parseWeapon(tokens[2]).Some? && text.parseRoom(tokens[3]).Some?)
      && (r.sent.Some? ==> r.sent.value == GuessPacket(ownID, Command(line) == "\\accusation",
            text.parseCharacter(tokens[1]).value, text.parseWeapon(tokens[2]).value, text.parseRoom(tokens[3]).value))
  {
  }

  /** A reveal goes to the player whose turn it is and carries the first
      category the name parses in, in the order character, weapon, room. */
  lemma RevealPrecedence(line: string, ownID: int, turn: int, text: EnumText)
    requires Command(line) == "\\reveal" && |Split(line)| >= 2
    ensures var arg := Split(line)[1];
      var r := Submit(line, true, ownID, turn, text);
      && (r.sent.Some? ==> r.sent.value.RevealPacket? && r.sent.value.recvID == turn)
      && (text.parseCharacter(arg).Some? ==> r.sent.value.clueType == ClueType.Character && r.sent.value.character == text.parseCharacter(arg).value)
      && (text.parseCharacter(arg).None? && text.parseWeapon(arg).Some? ==> r.sent.value.clueType == ClueType.Weapon && r.sent.value.weapon == text.parseWeapon(arg).value)
      && (text.parseCharacter(arg).None? && text.parseWeapon(arg).None? && text.parseRoom(arg).Some? ==> r.sent.value.clueType == ClueType.Room && r.sent.value.room == text.parseRoom(arg).value)
      && (r.sent.None? <==> text.parseCharacter(arg).None? && text.parseWeapon(arg).None? && text.parseRoom(arg).None?)
  {
  }
}
