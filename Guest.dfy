/** A client's mirror of the session: the other players, the local player,
    the last suggestion someone else made, and the queue of incoming
    reveals that the client shows one at a time. Calls into the game's
    user interface are not modelled, except the player statuses SetTurn
    hands to it, which are returned. */
module Guest {
  import opened Clues
  import opened Seqs
  import opened Players
  import opened Deck
  import opened Engine

  /** The statuses the interface shows next to a player. */
  datatype PlayerStatus = NotReady | Ready | Moving | Guessing | Waiting | Revealing | EndingTurn | Won | Lost

  /** The status pair SetTurn derives from the action: the first goes to
      players who do not hold the turn, the second to the turn holder. */
  datatype StatusPair = StatusPair(activeStatus: PlayerStatus, waitingStatus: PlayerStatus)

  function StatusesFor(action: TurnAction): (pair: StatusPair)
    ensures pair.activeStatus != pair.waitingStatus
    ensures pair.waitingStatus == Revealing <==> action == RevealCards
    ensures pair.activeStatus == Moving <==> action == MoveRoom
    ensures pair.activeStatus == Guessing <==> action == MakeGuess
    ensures pair.activeStatus == EndingTurn <==> action == Idle
    ensures action != RevealCards ==> pair.waitingStatus == Waiting
  {
    match action
    case MoveRoom => StatusPair(Moving, Waiting)
    case MakeGuess => StatusPair(Guessing, Waiting)
    case RevealCards => StatusPair(Waiting, Revealing)
    case Idle => StatusPair(EndingTurn, Waiting)
  }

  /** A reveal as it arrives from the server. */
  datatype RevealRequest = RevealRequest(
    sendID: int, recvID: int, clueType: ClueType, character: CharacterType, weapon: WeaponType, room: RoomType)

  /** Whether the deck can turn the revealed value into a card (TryGetCard
      for the named category). */
  predicate Resolves(deck: CardDeck, clueType: ClueType, character: CharacterType, weapon: WeaponType, room: RoomType)
  {
    match clueType
    case Character => exists k :: 0 <= k < |deck.characterCards| && deck.characterCards[k].AsCharacter() == Some(character)
    case Weapon => exists k :: 0 <= k < |deck.weaponCards| && deck.weaponCards[k].AsWeapon() == Some(weapon)
    case Room => exists k :: 0 <= k < |deck.roomCards| && deck.roomCards[k].AsRoom() == Some(room)
    case Unrecognized(_) => false
  }

  /** The reveals that are shown to the local player `ownID`, and so block
      the queue: addressed to it, from a known sender, and resolvable. */
  function ShownTo(ownID: int, known: set<int>, deck: CardDeck): RevealRequest -> bool
  {
    (r: RevealRequest) => r.recvID == ownID && r.sendID in known && Resolves(deck, r.clueType, r.character, r.weapon, r.room)
  }

  /** One Update on the ready flag and the queue: when ready, the head is
      processed, and a shown reveal clears the flag. */
  function Step(ready: bool, queue: seq<RevealRequest>, shown: RevealRequest -> bool): (bool, seq<RevealRequest>)
  {
    if ready && queue != [] then (!shown(queue[0]), queue[1..]) else (ready, queue)
  }

  /** n Updates with nothing enqueued or released in between. */
  function Steps(ready: bool, queue: seq<RevealRequest>, shown: RevealRequest -> bool, n: nat): (bool, seq<RevealRequest>)
  {
    if n == 0 then (ready, queue)
    else
      var next := Step(ready, queue, shown);
      Steps(next.0, next.1, shown, n - 1)
  }

  /** The position of the first reveal that will be shown, or the length. */
  function FirstShown(queue: seq<RevealRequest>, shown: RevealRequest -> bool): (i: nat)
    ensures i <= |queue|
    ensures forall k :: 0 <= k < i ==> !shown(queue[k])
    ensures i < |queue| ==> shown(queue[i])
  {
    if queue == [] then 0
    else if shown(queue[0]) then 0
    else 1 + FirstShown(queue[1..], shown)
  }

  /** The ids of the active players of a snapshot. */
  function ActiveIDs(players: map<int, PlayerView>): set<int>
  {
    set id | id in players && players[id].isActive
  }

  /** The cards of a hand that answer a suggestion, in hand order. */
  function MatchingCards(cards: seq<ClueCard>, g: Guess): seq<ClueCard>
  {
    if cards == [] then []
    else MatchingCards(cards[..|cards| - 1], g) + (if MatchesGuess(cards[|cards| - 1], g) then [cards[|cards| - 1]] else [])
  }

  class GuestEngine {
    const core: BaseEngine
    var player: PlayerState
    var lastGuess: Option<Guess>
    var isReadyForNextReveal: bool
    var revealQueue: seq<RevealRequest>

    /** Players are filed under their ids and the local player is not
        among the others. */
    ghost predicate Valid()
      reads this`player, core`players, core.players.Values, core.deck
    {
      core.Valid() && player !in core.players.Values
    }

    /** Awake followed by AssignFromServer: no other players, the local
        player's record, no suggestion seen, ready for reveals and none
        queued. */
    constructor (board: Board, deck: CardDeck, defaults: GameStateDefaults, playerID: int, name: string, character: CharacterType)
      requires deck.Valid()
      ensures fresh(core) && fresh(player)
      ensures core.board == board && core.deck == deck && core.defaults == defaults
      ensures core.players == map[] && core.state == NewGameState(defaults, 0) && !core.isGameStarted
      ensures player.View() == PlayerView(playerID, name, character, [], 0, true, false)
      ensures lastGuess == None && isReadyForNextReveal && revealQueue == []
      ensures Valid()
    {
      core := new BaseEngine(board, deck, defaults);
      player := new PlayerState(playerID, name, character);
      lastGuess := None;
      isReadyForNextReveal := true;
      revealQueue := [];
    }

    /** AssignFromServer: the local player becomes a new record with the
        server's id, name and character. */
    method AssignFromServer(playerID: int, name: string, character: CharacterType)
      requires Valid()
      modifies this`player
      ensures fresh(player) && Valid()
      ensures player.View() == PlayerView(playerID, name, character, [], 0, true, false)
    {
      player := new PlayerState(playerID, name, character);
    }

    /** StartGame: the base start (the guest's own deck is initialised
        with ci, wi, ri and shuffled as its random choices); the list of
        names it shows is not modelled. */
    method StartGame(ci: nat, wi: nat, ri: nat, shuffled: seq<ClueCard>) returns (ok: bool)
      requires Valid()
      requires ci < |core.deck.characterCards| && wi < |core.deck.weaponCards| && ri < |core.deck.roomCards|
      requires multiset(shuffled) == multiset(core.deck.AllCards())
      modifies core`state, core`isGameStarted, core.deck
      ensures ok && core.isGameStarted && Valid() && core.deck.HasSolution()
      ensures core.state == NewGameState(core.defaults, |core.players|)
      ensures core.players == old(core.players)
      ensures core.deck.correctCharacter == Some(core.deck.characterCards[ci])
      ensures core.deck.correctWeapon == Some(core.deck.weaponCards[wi])
      ensures core.deck.correctRoom == Some(core.deck.roomCards[ri])
      ensures core.deck.remainingCards == Without(shuffled, core.deck.Solution())
    {
      var _ := core.StartGame(ci, wi, ri, shuffled);
      ok := true;
    }

    /** AssignClueCards: the local hand becomes the cards named by the
        three value lists the server sent, in list order. */
    method AssignClueCards(text: EnumText, characterClues: seq<CharacterType>, weaponClues: seq<WeaponType>, roomClues: seq<RoomType>)
      returns (ok: bool)
      requires forall i :: 0 <= i < |characterClues| ==> HasNamed(core.deck.characterCards, text.characterName(characterClues[i]))
      requires forall i :: 0 <= i < |weaponClues| ==> HasNamed(core.deck.weaponCards, text.weaponName(weaponClues[i]))
      requires forall i :: 0 <= i < |roomClues| ==> HasNamed(core.deck.roomCards, text.roomName(roomClues[i]))
      modifies player`cards
      ensures ok
      ensures player.cards == CardsFor(core.deck.characterCards, text.characterName, characterClues)
                            + CardsFor(core.deck.weaponCards, text.weaponName, weaponClues)
                            + CardsFor(core.deck.roomCards, text.roomName, roomClues)
    {
      player.cards := core.deck.GetCardsFromClues(text, characterClues, weaponClues, roomClues);
      ok := true;
    }

    /** EnqueueReveal: the reveal joins the back of the queue. */
    method EnqueueReveal(sendID: int, recvID: int, clueType: ClueType, character: CharacterType, weapon: WeaponType, room: RoomType)
      modifies this`revealQueue
      ensures revealQueue == old(revealQueue) + [RevealRequest(sendID, recvID, clueType, character, weapon, room)]
    {
      revealQueue := revealQueue + [RevealRequest(sendID, recvID, clueType, character, weapon, room)];
    }

    /** SetReadyForReveal: the interface releases (or holds) the queue. */
    method SetReadyForReveal(value: bool)
      modifies this`isReadyForNextReveal
      ensures isReadyForNextReveal == value
    {
      isReadyForNextReveal := value;
    }

    /** Reveal: a reveal addressed to the local player from a known sender
        is looked up in the deck; a failed lookup or an unknown category
        answers false, a found card holds the queue until the interface
        releases it. Anything else is ignored and answers true. */
    method Reveal(sendID: int, recvID: int, clueType: ClueType, character: CharacterType, weapon: WeaponType, room: RoomType)
      returns (ok: bool)
      modifies this`isReadyForNextReveal
      ensures ok <==> !(recvID == player.playerID && sendID in core.players && !Resolves(core.deck, clueType, character, weapon, room))
      ensures isReadyForNextReveal ==
        if ShownTo(player.playerID, core.players.Keys, core.deck)(RevealRequest(sendID, recvID, clueType, character, weapon, room))
        then false else old(isReadyForNextReveal)
    {
      if recvID == player.playerID && sendID in core.players {
        match clueType {
          case Character =>
            var card := core.deck.TryGetCharacterCard(character);
            if card.None? {
              return false;
            }
          case Weapon =>
            var card := core.deck.TryGetWeaponCard(weapon);
            if card.None? {
              return false;
            }
          case Room =>
            var card := core.deck.TryGetRoomCard(room);
            if card.None? {
              return false;
            }
          case Unrecognized(_) =>
            return false;
        }
        isReadyForNextReveal := false;
      }
      return true;
    }

    /** Update: one frame of the reveal queue. */
    method Update()
      modifies this`revealQueue, this`isReadyForNextReveal
      ensures (isReadyForNextReveal, revealQueue) ==
        Step(old(isReadyForNextReveal), old(revealQueue), ShownTo(player.playerID, core.players.Keys, core.deck))
    {
      if isReadyForNextReveal && revealQueue != [] {
        var revealData := revealQueue[0];
        revealQueue := revealQueue[1..];
        var _ := Reveal(revealData.sendID, revealData.recvID, revealData.clueType,
                        revealData.character, revealData.weapon, revealData.room);
      }
    }

    /** PlayerStatuses: the status updates of SetTurn, by player id: the
        local player and every active other player, the turn holder with
        the waiting status of the action and everybody else with its
        active status. */
    method PlayerStatuses(turn: int, action: TurnAction) returns (statuses: map<int, PlayerStatus>)
      requires Valid()
      ensures statuses.Keys == {player.playerID} + ActiveIDs(core.Snapshot())
      ensures forall id :: id in statuses ==>
        statuses[id] == if id == turn then StatusesFor(action).waitingStatus else StatusesFor(action).activeStatus
    {
      var pair := StatusesFor(action);
      var ownID := player.playerID;
      statuses := map[ownID := if turn == ownID then pair.waitingStatus else pair.activeStatus];
      var ids := core.players.Keys;
      ghost var done: set<int> := {};
      while ids != {}
        invariant ids <= core.players.Keys
        invariant done == core.players.Keys - ids
        invariant statuses.Keys == {ownID} + (set id | id in done && core.players[id].isActive)
        invariant forall id :: id in statuses ==>
          statuses[id] == if id == turn then pair.waitingStatus else pair.activeStatus
        decreases ids
      {
        Inhabited(ids);
        var id: int :| id in ids;
        var otherPlayer := core.players[id];
        if otherPlayer.isActive {
          if turn == otherPlayer.playerID {
            statuses := statuses[otherPlayer.playerID := pair.waitingStatus];
          } else {
            statuses := statuses[otherPlayer.playerID := pair.activeStatus];
          }
        }
        ids := ids - {id};
        done := done + {id};
      }
      assert done == core.players.Keys;
      forall id | id in core.players
        ensures id in core.Snapshot() && core.Snapshot()[id].isActive == core.players[id].isActive
      {
        assert core.Snapshot()[id] == core.players[id].View();
      }
      assert (set id | id in done && core.players[id].isActive) == ActiveIDs(core.Snapshot());
    }

    /** SetTurn: the base update, then the status of every shown player. */
    method SetTurn(turn: int, action: TurnAction) returns (statuses: map<int, PlayerStatus>)
      requires Valid()
      modifies core`state
      ensures core.state == GameState(turn, action, old(core.state).numPlayers)
      ensures statuses.Keys == {player.playerID} + ActiveIDs(core.Snapshot())
      ensures forall id :: id in statuses ==>
        statuses[id] == if id == turn then StatusesFor(action).waitingStatus else StatusesFor(action).activeStatus
    {
      core.SetTurn(turn, action);
      statuses := PlayerStatuses(turn, action);
    }

    /** AddPlayer: another player joins unless the id is already known; the
        session counts the other players and the local one. */
    method AddPlayer(playerID: int, name: string, assignedCharacter: CharacterType) returns (ok: bool)
      requires Valid()
      modifies core`players, core`state
      ensures Valid()
      ensures ok <==> playerID !in old(core.players)
      ensures ok ==>
        && core.Snapshot() == old(core.Snapshot())[playerID := PlayerView(playerID, name, assignedCharacter, [], 0, true, false)]
        && core.state == NewGameState(core.defaults, |core.players| + 1)
      ensures !ok ==> core.players == old(core.players) && core.state == old(core.state)
    {
      if playerID in core.players {
        return false;
      }
      ghost var before := core.Snapshot();
      var newPlayer := new PlayerState(playerID, name, assignedCharacter);
      core.players := core.players[playerID := newPlayer];
      core.state := NewGameState(core.defaults, |core.players| + 1);
      ghost var after := before[playerID := newPlayer.View()];
      assert core.Snapshot().Keys == after.Keys;
      forall id | id in after
        ensures core.Snapshot()[id] == after[id]
      {
        if id != playerID {
          assert core.players[id] == old(core.players)[id];
        }
      }
      return true;
    }

    /** RemovePlayer: before the game starts a known player leaves and the
        session is resized; afterwards, or for an unknown id, nothing
        changes. */
    method RemovePlayer(playerID: int) returns (ok: bool)
      requires Valid()
      modifies core`players, core`state
      ensures Valid()
      ensures ok <==> !core.isGameStarted && playerID in old(core.players)
      ensures ok ==>
        && core.Snapshot() == old(core.Snapshot()) - {playerID}
        && core.state == NewGameState(core.defaults, |core.players| + 1)
      ensures !ok ==> core.players == old(core.players) && core.state == old(core.state)
    {
      if !core.isGameStarted && playerID in core.players {
        ghost var before := core.Snapshot();
        core.players := core.players - {playerID};
        core.state := NewGameState(core.defaults, |core.players| + 1);
        assert core.Snapshot() == before - {playerID};
        return true;
      }
      return false;
    }

    /** UpdateCharacter: the local player or a known other player takes
        the new character; an unknown id is refused. */
    method UpdateCharacter(playerID: int, newCharacter: CharacterType) returns (ok: bool)
      requires Valid()
      modifies player, core.players.Values
      ensures Valid()
      ensures ok <==> playerID == old(player.playerID) || playerID in core.players
      ensures playerID == old(player.playerID) ==>
        player.View() == old(player.View()).(character := newCharacter) && core.Snapshot() == old(core.Snapshot())
      ensures playerID != old(player.playerID) && playerID in core.players ==>
        && player.View() == old(player.View())
        && core.Snapshot() == old(core.Snapshot())[playerID := old(core.Snapshot())[playerID].(character := newCharacter)]
      ensures !ok ==> player.View() == old(player.View()) && core.Snapshot() == old(core.Snapshot())
    {
      ghost var before := core.Snapshot();
      if playerID == player.playerID {
        player.character := newCharacter;
        assert core.Snapshot() == before;
        return true;
      } else if playerID in core.players {
        var otherPlayer := core.players[playerID];
        assert forall id :: id in core.players && id != playerID ==> core.players[id] != otherPlayer;
        otherPlayer.character := newCharacter;
        assert core.Snapshot() == before[playerID := before[playerID].(character := newCharacter)];
        return true;
      }
      return false;
    }

    /** MovePlayer: the local player or a known other player is put in the
        new room, forced or not; an unknown id is refused. */
    method MovePlayer(playerID: int, newRoom: RoomType, isForcedMove: bool) returns (status: bool)
      requires Valid()
      modifies player, core.players.Values
      ensures Valid()
      ensures status <==> playerID == old(player.playerID) || playerID in core.players
      ensures playerID == old(player.playerID) ==>
        player.View() == old(player.View()).(room := newRoom) && core.Snapshot() == old(core.Snapshot())
      ensures playerID != old(player.playerID) && playerID in core.players ==>
        && player.View() == old(player.View())
        && core.Snapshot() == old(core.Snapshot())[playerID := old(core.Snapshot())[playerID].(room := newRoom)]
      ensures !status ==> player.View() == old(player.View()) && core.Snapshot() == old(core.Snapshot())
    {
      ghost var before := core.Snapshot();
      status := false;
      if playerID == player.playerID {
        player.currentRoom := newRoom;
        assert core.Snapshot() == before;
        status := true;
      } else if playerID in core.players {
        var otherPlayer := core.players[playerID];
        assert forall id :: id in core.players && id != playerID ==> core.players[id] != otherPlayer;
        otherPlayer.currentRoom := newRoom;
        assert core.Snapshot() == before[playerID := before[playerID].(room := newRoom)];
        status := true;
      }
    }

    /** Guess: a suggestion or accusation by the local player or a known
        other is acknowledged; only another player's is remembered, for
        answering it later. */
    method Guess(playerID: int, isFinal: bool, character: CharacterType, weapon: WeaponType, room: RoomType)
      returns (status: bool)
      modifies this`lastGuess
      ensures status <==> playerID == player.playerID || playerID in core.players
      ensures lastGuess ==
        if playerID != player.playerID && playerID in core.players then Some(Clues.Guess(character, weapon, room))
        else old(lastGuess)
    {
      status := false;
      if playerID == player.playerID {
        status := true;
      } else if playerID in core.players {
        lastGuess := Some(Clues.Guess(character, weapon, room));
        status := true;
      }
    }

    /** GetCardsToReveal: the local player's cards that answer the last
        suggestion, in hand order. Before any suggestion the source
        dereferences a missing guess as soon as a card carries a typed
        value, hence the precondition. */
    method GetCardsToReveal() returns (cardsToReveal: seq<ClueCard>)
      requires lastGuess.Some? || forall k :: 0 <= k < |player.cards| ==> player.cards[k].category == NoCategory
      ensures lastGuess.Some? ==> cardsToReveal == MatchingCards(player.cards, lastGuess.value)
      ensures lastGuess.None? ==> cardsToReveal == []
    {
      cardsToReveal := [];
      var cards := player.cards;
      var i := 0;
      while i < |cards|
        invariant 0 <= i <= |cards|
        invariant lastGuess.Some? ==> cardsToReveal == MatchingCards(cards[..i], lastGuess.value)
        invariant lastGuess.None? ==> cardsToReveal == []
      {
        var card := cards[i];
        assert cards[..i + 1][..i] == cards[..i];
        if card.category != NoCategory && MatchesGuess(card, lastGuess.value) {
          cardsToReveal := cardsToReveal + [card];
        }
        i := i + 1;
      }
      assert cards[..i] == cards;
    }

    /** Lose: the local player's record is marked eliminated, whichever
        player the notice names. */
    method Lose(playerID: int)
      modifies player`isActive
      ensures !player.isActive
    {
      player.isActive := false;
    }
  }
}

/** The reveal queue's discipline, the guest's choice of cards to show, and
    how it agrees with the host's list of players who must answer. */
module GuestFacts {
  import opened Clues
  import opened Seqs
  import opened Host
  import opened Guest

  /** A run of n Updates processes the queue front first and stops right
      after the first reveal that is shown: what is left is the queue
      without its first m requests, and the flag is down exactly when the
      first shown reveal was among them. */
  lemma {:induction false} StepsFollowQueue(queue: seq<RevealRequest>, shown: RevealRequest -> bool, n: nat)
    ensures var m := Min(n, Min(FirstShown(queue, shown) + 1, |queue|));
      && Steps(true, queue, shown, n).1 == queue[m..]
      && (Steps(true, queue, shown, n).0 <==> !(FirstShown(queue, shown) < |queue| && FirstShown(queue, shown) < n))
  {
    if n > 0 && queue != [] {
      if shown(queue[0]) {
        StepsIdleWhenBlocked(queue[1..], shown, n - 1);
      } else {
        StepsFollowQueue(queue[1..], shown, n - 1);
        assert queue[1..][Min(n - 1, Min(FirstShown(queue[1..], shown) + 1, |queue| - 1))..]
            == queue[Min(n, Min(FirstShown(queue, shown) + 1, |queue|))..];
      }
    } else if n > 0 {
      StepsFollowQueue(queue, shown, n - 1);
    }
  }

  /** While the flag is down, Updates change nothing. */
  lemma {:induction false} StepsIdleWhenBlocked(queue: seq<RevealRequest>, shown: RevealRequest -> bool, n: nat)
    ensures Steps(false, queue, shown, n) == (false, queue)
  {
    if n > 0 {
      StepsIdleWhenBlocked(queue, shown, n - 1);
    }
  }

  /** The cards offered for a suggestion are exactly the hand's cards that
      answer it. */
  lemma {:induction false} MatchingCardsExact(cards: seq<ClueCard>, g: Guess)
    ensures forall c :: c in MatchingCards(cards, g) <==> c in cards && MatchesGuess(c, g)
    ensures |MatchingCards(cards, g)| <= |cards|
  {
    if cards != [] {
      var init, last := cards[..|cards| - 1], cards[|cards| - 1];
      assert cards == init + [last];
      MatchingCardsExact(init, g);
    }
  }

  /** The guest has a card to offer exactly when its hand answers the
      suggestion, which is the host's test for putting an active
      non-guesser on its list of players who must reveal. */
  lemma GuestAgreesWithHost(cards: seq<ClueCard>, g: Guess)
    ensures MatchingCards(cards, g) != [] <==> HoldsMatch(cards, g)
  {
    MatchingCardsExact(cards, g);
    if HoldsMatch(cards, g) {
      var k :| 0 <= k < |cards| && MatchesGuess(cards[k], g);
      assert cards[k] in MatchingCards(cards, g);
    }
  }
}
