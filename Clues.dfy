/** Shared vocabulary of the game: the enum families, clue cards, guesses and
    the collaborators the core only consumes (the board oracle and the
    conversions between enum values and their names). */
module Clues {

  datatype Option<T> = None | Some(value: T)

  /** The suspects, as the integer values of the CharacterType enum in
      declaration order (the order Enum.GetValues yields them). */
  const CharacterCount: nat := 6
  type CharacterType = c: int | 0 <= c < CharacterCount

  /** WeaponType and RoomType are enums whose values travel as integers. */
  type WeaponType = int
  type RoomType = int

  /** Colonel Mustard, the filler character a failed join reports. */
  const Mustard: CharacterType := 0

  /** The category a packet says a revealed card belongs to; any other
      integer cast to the enum is Unrecognized. */
  datatype ClueType = Character | Weapon | Room | Unrecognized(code: int)

  /** A clue card carries at most one typed value. */
  datatype Category =
    | NoCategory
    | CharacterCard(character: CharacterType)
    | WeaponCard(weapon: WeaponType)
    | RoomCard(room: RoomType)

  datatype ClueCard = ClueCard(name: string, category: Category)
  {
    /** TryGetCharacterType */
    function AsCharacter(): (r: Option<CharacterType>)
      ensures r.Some? <==> category.CharacterCard?
    {
      if category.CharacterCard? then Some(category.character) else None
    }

    /** TryGetWeaponType */
    function AsWeapon(): (r: Option<WeaponType>)
      ensures r.Some? <==> category.WeaponCard?
    {
      if category.WeaponCard? then Some(category.weapon) else None
    }

    /** TryGetRoomType */
    function AsRoom(): (r: Option<RoomType>)
      ensures r.Some? <==> category.RoomCard?
    {
      if category.RoomCard? then Some(category.room) else None
    }
  }

  /** The three named values of a suggestion or accusation. */
  datatype Guess = Guess(character: CharacterType, weapon: WeaponType, room: RoomType)

  /** A card answers a guess when its typed value equals the guessed value
      of its own category. */
  predicate MatchesGuess(card: ClueCard, g: Guess)
  {
    || card.AsCharacter() == Some(g.character)
    || card.AsWeapon() == Some(g.weapon)
    || card.AsRoom() == Some(g.room)
  }

  /** The board collaborator: starting room per character, legality of a
      move between two rooms, and whether a room allows a suggestion. */
  datatype Board = Board(
    startingRoom: CharacterType -> RoomType,
    isValidMove: (RoomType, RoomType) -> bool,
    isGuessRoom: RoomType -> bool)

  /** The enum text conversions: ToString for each enum, and the
      case-insensitive Enum.TryParse as a partial name-to-value map. */
  datatype EnumText = EnumText(
    characterName: CharacterType -> string,
    weaponName: WeaponType -> string,
    roomName: RoomType -> string,
    parseCharacter: string -> Option<CharacterType>,
    parseWeapon: string -> Option<WeaponType>,
    parseRoom: string -> Option<RoomType>)
}
