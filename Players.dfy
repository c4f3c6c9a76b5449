/** A player's record: identity, character, hand, room and the two flags
    the engines flip in place. */
module Players {
  import opened Clues

  /** The contents of a player record at one moment. */
  datatype PlayerView = PlayerView(
    id: int,
    name: string,
    character: CharacterType,
    cards: seq<ClueCard>,
    room: RoomType,
    isActive: bool,
    isReady: bool)

  class PlayerState {
    var playerID: int
    var playerName: string
    var character: CharacterType
    var cards: seq<ClueCard>
    var currentRoom: RoomType
    var isActive: bool
    var isReady: bool

    function View(): PlayerView
      reads this
    {
      PlayerView(playerID, playerName, character, cards, currentRoom, isActive, isReady)
    }

    /** A new player keeps the given identity and character, is active and
        not ready; the hand (a null list, modelled as empty) and the room
        (the enum's zero value) keep their defaults. */
    constructor (playerID: int, playerName: string, character: CharacterType)
      ensures this.playerID == playerID && this.playerName == playerName && this.character == character
      ensures isActive && !isReady
      ensures cards == [] && currentRoom == 0
    {
      this.playerID := playerID;
      this.playerName := playerName;
      this.character := character;
      cards := [];
      currentRoom := 0;
      isActive := true;
      isReady := false;
    }
  }
}
