/** The state every engine shares: the player map, the session record
    (turn, action, player count), the deck and the started flag, with the
    behaviour of the base class that the host and the guest build on. */
module Engine {
  import opened Clues
  import opened Players
  import opened Deck

  datatype TurnAction = Idle | MoveRoom | MakeGuess | RevealCards

  datatype GameState = GameState(turn: int, action: TurnAction, numPlayers: int)

  /** The turn and action a newly constructed GameState holds. Its
      constructor is not part of this model, so they are fixed but
      unknown values. */
  datatype GameStateDefaults = GameStateDefaults(turn: int, action: TurnAction)

  /** `new GameState(numPlayers)` */
  function NewGameState(defaults: GameStateDefaults, numPlayers: int): GameState
  {
    GameState(defaults.turn, defaults.action, numPlayers)
  }

  class BaseEngine {
    const board: Board
    const deck: CardDeck
    const defaults: GameStateDefaults

    var players: map<int, PlayerState>
    var state: GameState
    var isGameStarted: bool

    /** Players are filed under their own id (so distinct ids hold distinct
        records), and the deck keeps its invariant. */
    ghost predicate Valid()
      reads this`players, players.Values, deck
    {
      && (forall id :: id in players ==> players[id].playerID == id)
      && deck.Valid()
    }

    /** The value of every player record, by id. */
    ghost function Snapshot(): map<int, PlayerView>
      reads this`players, players.Values
    {
      map id | id in players :: players[id].View()
    }

    /** Awake: no players and a session record for zero players. */
    constructor (board: Board, deck: CardDeck, defaults: GameStateDefaults)
      requires deck.Valid()
      ensures this.board == board && this.deck == deck && this.defaults == defaults
      ensures players == map[] && state == NewGameState(defaults, 0) && !isGameStarted
      ensures Valid()
    {
      this.board := board;
      this.deck := deck;
      this.defaults := defaults;
      players := map[];
      state := NewGameState(defaults, 0);
      isGameStarted := false;
    }

    /** StartGame: a session record sized to the current players, a freshly
        initialised deck (ci, wi, ri and shuffled are its random choices),
        and the started flag. */
    method StartGame(ci: nat, wi: nat, ri: nat, shuffled: seq<ClueCard>) returns (ok: bool)
      requires Valid()
      requires ci < |deck.characterCards| && wi < |deck.weaponCards| && ri < |deck.roomCards|
      requires multiset(shuffled) == multiset(deck.AllCards())
      modifies this`state, this`isGameStarted, deck
      ensures ok && isGameStarted && Valid() && deck.HasSolution()
      ensures state == NewGameState(defaults, |players|)
      ensures deck.correctCharacter == Some(deck.characterCards[ci])
      ensures deck.correctWeapon == Some(deck.weaponCards[wi])
      ensures deck.correctRoom == Some(deck.roomCards[ri])
      ensures deck.remainingCards == Seqs.Without(shuffled, deck.Solution())
    {
      state := NewGameState(defaults, |players|);
      deck.Initialize(ci, wi, ri, shuffled);
      isGameStarted := true;
      ok := true;
    }

    /** SetTurn: replaces turn and action; the player count stays. */
    method SetTurn(turn: int, action: TurnAction)
      modifies this`state
      ensures state == GameState(turn, action, old(state).numPlayers)
    {
      state := state.(turn := turn, action := action);
    }

    /** The base class's AddPlayer refuses every join. */
    method AddPlayer(playerID: int, name: string, assignedCharacter: CharacterType) returns (ok: bool)
      ensures !ok
    {
      ok := false;
    }

    /** The base class's RemovePlayer refuses every removal. */
    method RemovePlayer(playerID: int) returns (ok: bool)
      ensures !ok
    {
      ok := false;
    }

    /** The base class's Guess refuses every guess. */
    method Guess(playerID: int, isFinal: bool, character: CharacterType, weapon: WeaponType, room: RoomType)
      returns (ok: bool)
      ensures !ok
    {
      ok := false;
    }

    /** The base class's Reveal refuses every reveal. */
    method Reveal(sendID: int, recvID: int, clueType: ClueType, character: CharacterType, weapon: WeaponType, room: RoomType)
      returns (ok: bool)
      ensures !ok
    {
      ok := false;
    }

    /** Puts a seated player in a room, as MovePlayer's assignment to the
        record's currentRoom does; no other record changes. */
    method PlaceInRoom(playerID: int, room: RoomType)
      requires Valid() && playerID in players
      modifies players[playerID]
      ensures Valid()
      ensures Snapshot() == old(Snapshot())[playerID := old(Snapshot())[playerID].(room := room)]
    {
      ghost var after := Snapshot()[playerID := Snapshot()[playerID].(room := room)];
      var player := players[playerID];
      assert forall id :: id in players && id != playerID ==> players[id] != player;
      player.currentRoom := room;
      assert Snapshot().Keys == after.Keys;
      forall id | id in after
        ensures Snapshot()[id] == after[id]
      {
      }
    }

    /** GetPlayerName: the stored name of a known player, else the empty string. */
    function GetPlayerName(playerID: int): (name: string)
      reads this`players, players.Values
      ensures playerID in Snapshot() ==> name == Snapshot()[playerID].name
      ensures playerID !in Snapshot() ==> name == ""
    {
      if playerID in players then players[playerID].playerName else ""
    }
  }
}
