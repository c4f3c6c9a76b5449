/** The authoritative engine: it owns the session, checks every request
    against the turn state and the rules, deals the cards and decides
    accusations. Network broadcasts and log lines are not modelled; every
    state change they accompany is. */
module Host {
  import opened Clues
  import opened Seqs
  import opened Players
  import opened Deck
  import opened Engine

  /** Mathf.CeilToInt(a / b) for a positive divisor: the least integer that
      is not below a / b. */
  function CeilDiv(a: int, b: int): (q: int)
    requires b > 0
    ensures b * (q - 1) < a <= b * q
    ensures a >= 0 ==> q >= 0
  {
    var q := (a + b - 1) / b;
    assert a + b - 1 == b * q + (a + b - 1) % b;
    q
  }

  /** C#'s `%`: the remainder truncates toward zero, so it takes the sign
      of the dividend. */
  function CsRemainder(a: int, b: int): (r: int)
    requires b != 0
    ensures a >= 0 ==> 0 <= r < Abs(b)
    ensures a < 0 ==> -Abs(b) < r <= 0
    ensures a >= 0 && b > 0 ==> r == a % b
    ensures (a - r) % b == 0
  {
    var m := Abs(a) % Abs(b);
    var d := Abs(a) / Abs(b);
    assert Abs(a) == Abs(b) * d + m;
    var k := if (a < 0) == (b < 0) then d else -d;
    assert a - (if a < 0 then -m else m) == b * k;
    MultipleMod(b, k);
    if a < 0 then -m else m
  }

  /** A multiple of b leaves no remainder. */
  lemma MultipleMod(b: int, k: int)
    requires b != 0
    ensures (b * k) % b == 0
  {
    var q, rem := (b * k) / b, (b * k) % b;
    assert b * k == b * q + rem;
    assert rem == b * (k - q);
    if k - q > 0 {
      assert Abs(b * (k - q)) >= Abs(b) by { MulAtLeast(b, k - q); }
    } else if k - q < 0 {
      assert Abs(b * (q - k)) >= Abs(b) by { MulAtLeast(b, q - k); }
      assert b * (q - k) == -rem;
    }
  }

  lemma MulAtLeast(b: int, n: int)
    requires n >= 1
    ensures Abs(b * n) >= Abs(b)
  {
    if b >= 0 {
      assert b * n >= b * 1;
    } else {
      assert b * n <= b * 1;
    }
  }

  function Abs(a: int): int { if a < 0 then -a else a }

  /** EndTurn's choice of the next seat: the one after turn, or the one
      after that when the first belongs to an eliminated player. */
  function NextTurn(turn: int, numPlayers: int, players: map<int, PlayerView>): int
    requires numPlayers != 0
  {
    var next := CsRemainder(turn + 1, numPlayers);
    if next in players && !players[next].isActive then CsRemainder(next + 1, numPlayers) else next
  }

  /** The hand the i-th player in the deal order receives when every
      player in turn takes k cards from the front of queue. */
  function Hand(queue: seq<ClueCard>, k: int, i: nat): seq<ClueCard>
  {
    var step := Max(k, 0);
    assert i * step <= (i + 1) * step;
    queue[Min(i * step, |queue|)..Min((i + 1) * step, |queue|)]
  }

  /** Taking k cards from what the first i hands left is the (i+1)-th hand. */
  lemma HandStep(queue: seq<ClueCard>, k: int, i: nat)
    ensures var step := Max(k, 0);
      var rest := queue[Min(i * step, |queue|)..];
      var taken := Min(step, |rest|);
      && rest[..taken] == Hand(queue, k, i)
      && rest[taken..] == queue[Min((i + 1) * step, |queue|)..]
  {
    var step := Max(k, 0);
    assert (i + 1) * step == i * step + step;
  }

  /** The first n hands of the deal, one after the other. */
  function Dealt(queue: seq<ClueCard>, k: int, n: nat): seq<ClueCard>
  {
    if n == 0 then [] else Dealt(queue, k, n - 1) + Hand(queue, k, n - 1)
  }

  /** The players after the first i ids of the deal order took their
      hands. */
  function DealtViews(before: map<int, PlayerView>, queue: seq<ClueCard>, k: int, order: seq<int>, i: nat): (r: map<int, PlayerView>)
    requires i <= |order|
    ensures r.Keys == before.Keys
  {
    if i == 0 then before
    else
      var prev := DealtViews(before, queue, k, order, i - 1);
      if order[i - 1] in prev then prev[order[i - 1] := prev[order[i - 1]].(cards := Hand(queue, k, i - 1))] else prev
  }

  /** After the first i deals of a repetition-free order, the j-th id holds
      the j-th hand and everybody else is as before. */
  lemma DealtViewsSpec(before: map<int, PlayerView>, queue: seq<ClueCard>, k: int, order: seq<int>, i: nat)
    requires i <= |order| && Distinct(order)
    ensures forall j :: 0 <= j < i && order[j] in before ==>
      DealtViews(before, queue, k, order, i)[order[j]] == before[order[j]].(cards := Hand(queue, k, j))
    ensures forall id :: id in before && id !in order[..i] ==> DealtViews(before, queue, k, order, i)[id] == before[id]
  {
    forall j | 0 <= j < i && order[j] in before
      ensures DealtViews(before, queue, k, order, i)[order[j]] == before[order[j]].(cards := Hand(queue, k, j))
    {
      DealtViewsAt(before, queue, k, order, i, j);
    }
    DealtViewsKept(before, queue, k, order, i);
  }

  /** The j-th id of the order holds the j-th hand from its own deal on. */
  lemma {:induction false} DealtViewsAt(before: map<int, PlayerView>, queue: seq<ClueCard>, k: int, order: seq<int>, i: nat, j: nat)
    requires j < i <= |order| && Distinct(order) && order[j] in before
    ensures DealtViews(before, queue, k, order, i)[order[j]] == before[order[j]].(cards := Hand(queue, k, j))
  {
    if j == i - 1 {
      DealtViewsKept(before, queue, k, order, i - 1);
      assert order[j] !in order[..i - 1];
    } else {
      DealtViewsAt(before, queue, k, order, i - 1, j);
      assert order[i - 1] != order[j];
    }
  }

  /** An id the first i deals did not reach is as before. */
  lemma {:induction false} DealtViewsKept(before: map<int, PlayerView>, queue: seq<ClueCard>, k: int, order: seq<int>, i: nat)
    requires i <= |order|
    ensures forall id :: id in before && id !in order[..i] ==> DealtViews(before, queue, k, order, i)[id] == before[id]
  {
    if i > 0 {
      DealtViewsKept(before, queue, k, order, i - 1);
      assert order[..i] == order[..i - 1] + [order[i - 1]];
    }
  }

  /** The number of cards each player is dealt. */
  function CardsPerPlayer(totalCards: int, numPlayers: int): int
  {
    if numPlayers > 0 then CeilDiv(totalCards - 3, numPlayers) else 0
  }

  predicate NameTaken(players: map<int, PlayerView>, name: string)
  {
    exists id :: id in players && players[id].name == name
  }

  function Characters(players: map<int, PlayerView>): set<CharacterType>
  {
    set id | id in players :: players[id].character
  }

  /** The first character, in enum order from `from`, that is not taken. */
  function FirstFreeFrom(taken: set<CharacterType>, from: nat): (r: Option<CharacterType>)
    decreases CharacterCount - from
    ensures r.Some? ==> from <= r.value && r.value !in taken
    ensures r.Some? ==> forall c: CharacterType :: from <= c < r.value ==> c in taken
    ensures r.None? <==> forall c: CharacterType :: from <= c ==> c in taken
  {
    if from >= CharacterCount then None
    else if from in taken then FirstFreeFrom(taken, from + 1)
    else Some(from)
  }

  function FirstFree(taken: set<CharacterType>): Option<CharacterType>
  {
    FirstFreeFrom(taken, 0)
  }

  function Readied(players: map<int, PlayerView>, playerID: int, isReady: bool): map<int, PlayerView>
  {
    if playerID in players then players[playerID := players[playerID].(isReady := isReady)] else players
  }

  predicate AllReady(players: map<int, PlayerView>)
  {
    forall id :: id in players ==> players[id].isReady
  }

  predicate HoldsMatch(cards: seq<ClueCard>, g: Guess)
  {
    exists k :: 0 <= k < |cards| && MatchesGuess(cards[k], g)
  }

  /** The players who must answer a suggestion: every active player other
      than the guesser who holds a card of it. */
  function RevealSet(players: map<int, PlayerView>, guesser: int, g: Guess): set<int>
  {
    set id | id in players && players[id].id != guesser && players[id].isActive && HoldsMatch(players[id].cards, g)
  }

  /** Every other player whose character is suggested is moved into the
      suggested room. */
  function Accused(players: map<int, PlayerView>, guesser: int, character: CharacterType, room: RoomType): map<int, PlayerView>
  {
    map id | id in players ::
      if players[id].id != guesser && players[id].character == character then players[id].(room := room) else players[id]
  }

  /** Whether a hand holds a card of the given category with the given value;
      an unrecognised category holds nothing. */
  predicate HoldsClue(cards: seq<ClueCard>, clueType: ClueType, character: CharacterType, weapon: WeaponType, room: RoomType)
  {
    match clueType
    case Character => exists k :: 0 <= k < |cards| && cards[k].AsCharacter() == Some(character)
    case Weapon => exists k :: 0 <= k < |cards| && cards[k].AsWeapon() == Some(weapon)
    case Room => exists k :: 0 <= k < |cards| && cards[k].AsRoom() == Some(room)
    case Unrecognized(_) => false
  }

  /** The random draws StartGame consumes (the solution indices, the
      shuffled deck and the first turn) and the order in which the player
      dictionary enumerates its ids. */
  datatype StartChoice = StartChoice(ci: nat, wi: nat, ri: nat, shuffled: seq<ClueCard>, turn: int, order: seq<int>)

  class HostEngine {
    const core: BaseEngine
    var playersNeedToReveal: map<int, PlayerState>

    ghost predicate Valid()
      reads core`players, core.players.Values, core.deck
    {
      core.Valid()
    }

    /** The choices are possible ones: indices inside the pools, a
        permutation of the deck, a first turn drawn from [0, n) (0 when
        nobody is seated) and every player id once. */
    ghost predicate Fits(choice: StartChoice)
      reads this, core, core.deck
    {
      && choice.ci < |core.deck.characterCards|
      && choice.wi < |core.deck.weaponCards|
      && choice.ri < |core.deck.roomCards|
      && multiset(choice.shuffled) == multiset(core.deck.AllCards())
      && (if |core.players| == 0 then choice.turn == 0 else 0 <= choice.turn < |core.players|)
      && Distinct(choice.order)
      && (forall i :: 0 <= i < |choice.order| ==> choice.order[i] in core.players)
      && (forall id :: id in core.players ==> id in choice.order)
    }

    /** The state StartGame leaves: the deck holds the chosen solution,
        the i-th player of the deal order holds the i-th hand of the
        queue, the deck keeps what the deal left over, and the first turn
        is a move. Nothing else of any player changes. */
    ghost predicate StartedFrom(before: map<int, PlayerView>, choice: StartChoice)
      reads this, core, core.players.Values, core.deck
    {
      && Valid() && core.isGameStarted && core.deck.HasSolution()
      && choice.ci < |core.deck.characterCards|
      && choice.wi < |core.deck.weaponCards|
      && choice.ri < |core.deck.roomCards|
      && core.deck.correctCharacter == Some(core.deck.characterCards[choice.ci])
      && core.deck.correctWeapon == Some(core.deck.weaponCards[choice.wi])
      && core.deck.correctRoom == Some(core.deck.roomCards[choice.ri])
      && var queue := Without(choice.shuffled, core.deck.Solution());
         var n := |core.players|;
         var k := CardsPerPlayer(core.deck.TotalCards(), n);
         && core.state == GameState(choice.turn, MoveRoom, n)
         && core.deck.remainingCards == queue[Min(|choice.order| * Max(k, 0), |queue|)..]
         && core.Snapshot().Keys == before.Keys
         && (forall i :: 0 <= i < |choice.order| && choice.order[i] in before ==>
               core.Snapshot()[choice.order[i]] == before[choice.order[i]].(cards := Hand(queue, k, i)))
         && (forall id :: id in before && id !in choice.order ==> core.Snapshot()[id] == before[id])
    }

    /** Awake: an empty session and nobody owing a reveal. */
    constructor (board: Board, deck: CardDeck, defaults: GameStateDefaults)
      requires deck.Valid()
      ensures fresh(core)
      ensures core.board == board && core.deck == deck && core.defaults == defaults
      ensures core.players == map[] && core.state == NewGameState(defaults, 0) && !core.isGameStarted
      ensures playersNeedToReveal == map[]
      ensures Valid()
    {
      core := new BaseEngine(board, deck, defaults);
      playersNeedToReveal := map[];
    }

    /** StartGame: initialise the deck, deal every player in dictionary
        order the same number of cards from the front of the queue, and
        give the first turn (a move) to the drawn player. */
    method StartGame(choice: StartChoice) returns (ok: bool)
      requires Valid() && Fits(choice)
      modifies core`state, core`isGameStarted, core.deck, core.players.Values
      ensures ok && core.players == old(core.players)
      ensures StartedFrom(old(core.Snapshot()), choice)
    {
      ghost var before := core.Snapshot();
      ok := core.StartGame(choice.ci, choice.wi, choice.ri, choice.shuffled);
      assert core.Snapshot() == before;
      var cardsPerPlayer := CardsPerPlayer(core.deck.TotalCards(), core.state.numPlayers);
      DealAll(choice.order, cardsPerPlayer);
      core.SetTurn(choice.turn, MoveRoom);
    }

    /** The deal loop of StartGame: each id of the enumeration order in
        turn takes its hand from the front of the queue. */
    method DealAll(order: seq<int>, cardsPerPlayer: int)
      requires core.Valid() && Distinct(order)
      requires forall i :: 0 <= i < |order| ==> order[i] in core.players
      modifies core.deck`remainingCards, core.players.Values
      ensures core.Valid()
      ensures var queue := old(core.deck.remainingCards);
        core.deck.remainingCards == queue[Min(|order| * Max(cardsPerPlayer, 0), |queue|)..]
      ensures core.Snapshot().Keys == old(core.Snapshot()).Keys
      ensures forall j :: 0 <= j < |order| ==>
        core.Snapshot()[order[j]] == old(core.Snapshot())[order[j]].(cards := Hand(old(core.deck.remainingCards), cardsPerPlayer, j))
      ensures forall id :: id in old(core.Snapshot()) && id !in order ==> core.Snapshot()[id] == old(core.Snapshot())[id]
    {
      ghost var before := core.Snapshot();
      ghost var queue := core.deck.remainingCards;
      var i := 0;
      while i < |order|
        invariant 0 <= i <= |order|
        invariant core.Valid()
        invariant core.deck.remainingCards == queue[Min(i * Max(cardsPerPlayer, 0), |queue|)..]
        invariant core.Snapshot() == DealtViews(before, queue, cardsPerPlayer, order, i)
      {
        HandStep(queue, cardsPerPlayer, i);
        GiveHand(order[i], cardsPerPlayer);
        i := i + 1;
      }
      DealtViewsSpec(before, queue, cardsPerPlayer, order, i);
    }

    /** One step of the deal: the player takes up to cardsPerPlayer cards
        from the front of the deck's queue. */
    method GiveHand(playerID: int, cardsPerPlayer: int)
      requires core.Valid() && playerID in core.players
      modifies core.deck`remainingCards, core.players[playerID]
      ensures core.Valid()
      ensures var taken := Min(Max(cardsPerPlayer, 0), |old(core.deck.remainingCards)|);
        && core.deck.remainingCards == old(core.deck.remainingCards)[taken..]
        && core.Snapshot() == old(core.Snapshot())[playerID :=
             old(core.Snapshot())[playerID].(cards := old(core.deck.remainingCards)[..taken])]
    {
      ghost var before := core.Snapshot();
      var player := core.players[playerID];
      assert forall id :: id in core.players && id != playerID ==> core.players[id] != player;
      var hand := core.deck.GetCards(cardsPerPlayer);
      player.cards := hand;
      assert core.Snapshot() == before[playerID := before[playerID].(cards := hand)];
    }

    /** AllPlayersReady: the readiness scan of SetPlayerReady. */
    method AllPlayersReady() returns (ready: bool)
      ensures ready <==> AllReady(core.Snapshot())
    {
      var ids := core.players.Keys;
      while ids != {}
        invariant ids <= core.players.Keys
        invariant forall id :: id in core.players && id !in ids ==> core.players[id].isReady
        decreases ids
      {
        Inhabited(ids);
        var id: int :| id in ids;
        if !core.players[id].isReady {
          assert !core.Snapshot()[id].isReady;
          return false;
        }
        ids := ids - {id};
      }
      return true;
    }

    /** SetPlayerReady: record a known player's flag; when every seated
        player is then ready, start the game (even one already started). */
    method SetPlayerReady(playerID: int, isReady: bool, choice: StartChoice)
      requires Valid()
      requires AllReady(Readied(core.Snapshot(), playerID, isReady)) ==> Fits(choice)
      modifies core`state, core`isGameStarted, core.deck, core.players.Values
      ensures core.players == old(core.players)
      ensures AllReady(Readied(old(core.Snapshot()), playerID, isReady)) ==>
        StartedFrom(Readied(old(core.Snapshot()), playerID, isReady), choice)
      ensures !AllReady(Readied(old(core.Snapshot()), playerID, isReady)) ==>
        && Valid()
        && core.Snapshot() == Readied(old(core.Snapshot()), playerID, isReady)
        && core.state == old(core.state) && core.isGameStarted == old(core.isGameStarted)
        && unchanged(core.deck)
    {
      MarkReady(playerID, isReady);
      var ready := AllPlayersReady();
      if ready {
        var _ := StartGame(choice);
      }
    }

    /** The first step of SetPlayerReady: a known player's flag is set. */
    method MarkReady(playerID: int, isReady: bool)
      requires Valid()
      modifies core.players.Values
      ensures Valid()
      ensures core.Snapshot() == Readied(old(core.Snapshot()), playerID, isReady)
    {
      ghost var after := Readied(core.Snapshot(), playerID, isReady);
      if playerID in core.players {
        var selected := core.players[playerID];
        assert forall id :: id in core.players && id != playerID ==> core.players[id] != selected;
        selected.isReady := isReady;
      }
      assert core.Snapshot() == after;
    }

    /** NameInUse: the duplicate-name scan of AddPlayer. */
    method NameInUse(name: string) returns (taken: bool)
      ensures taken <==> NameTaken(core.Snapshot(), name)
    {
      var ids := core.players.Keys;
      while ids != {}
        invariant ids <= core.players.Keys
        invariant forall id :: id in core.players && id !in ids ==> core.players[id].playerName != name
        decreases ids
      {
        Inhabited(ids);
        var id: int :| id in ids;
        if core.players[id].playerName == name {
          assert core.Snapshot()[id].name == name;
          return true;
        }
        ids := ids - {id};
      }
      return false;
    }

    /** AvailableCharacter: mark every character free, strike the ones
        seated players hold, and take the first free one in enum order. */
    method AvailableCharacter() returns (free: Option<CharacterType>)
      ensures free == FirstFree(Characters(core.Snapshot()))
    {
      var available := seq(CharacterCount, _ => true);
      var ids := core.players.Keys;
      while ids != {}
        invariant ids <= core.players.Keys
        invariant |available| == CharacterCount
        invariant forall c :: 0 <= c < CharacterCount ==>
          (available[c] <==> forall id :: id in core.players && id !in ids ==> core.players[id].character != c)
        decreases ids
      {
        Inhabited(ids);
        var id: int :| id in ids;
        available := available[core.players[id].character := false];
        ids := ids - {id};
      }
      ghost var taken := Characters(core.Snapshot());
      assert forall c :: 0 <= c < CharacterCount ==> (available[c] <==> c !in taken) by {
        forall c | 0 <= c < CharacterCount
          ensures available[c] <==> c !in taken
        {
          if !available[c] {
            var id :| id in core.players && core.players[id].character == c;
            assert core.Snapshot()[id].character == c;
          }
        }
      }
      var c := 0;
      while c < CharacterCount
        invariant 0 <= c <= CharacterCount
        invariant forall c': CharacterType :: c' < c ==> c' in taken
      {
        if available[c] {
          return Some(c);
        }
        c := c + 1;
      }
      return None;
    }

    /** AddPlayer: refused once the game has started, for a taken name,
        when every character is taken, or for an id already seated;
        otherwise the player joins with the first free character, in that
        character's starting room, and the session is resized. */
    method AddPlayer(playerID: int, name: string) returns (ok: bool, assignedCharacter: CharacterType)
      requires Valid()
      modifies core`players, core`state
      ensures Valid()
      ensures ok <==>
        && !core.isGameStarted
        && !NameTaken(old(core.Snapshot()), name)
        && FirstFree(Characters(old(core.Snapshot()))).Some?
        && playerID !in old(core.players)
      ensures ok ==>
        && assignedCharacter == FirstFree(Characters(old(core.Snapshot()))).value
        && core.Snapshot() == old(core.Snapshot())[playerID :=
             PlayerView(playerID, name, assignedCharacter, [], core.board.startingRoom(assignedCharacter), true, false)]
        && core.state == NewGameState(core.defaults, |old(core.players)| + 1)
      ensures !ok ==> assignedCharacter == Mustard && core.players == old(core.players) && core.state == old(core.state)
    {
      var free := JoinCharacter(playerID, name);
      if free.None? {
        return false, Mustard;
      }
      assignedCharacter := free.value;
      Seat(playerID, name, assignedCharacter);
      ok := true;
    }

    /** The checks of AddPlayer, in the source's order: the character the
        player would get, or None when the join is refused. */
    method JoinCharacter(playerID: int, name: string) returns (free: Option<CharacterType>)
      ensures free.Some? <==>
        && !core.isGameStarted
        && !NameTaken(core.Snapshot(), name)
        && FirstFree(Characters(core.Snapshot())).Some?
        && playerID !in core.players
      ensures free.Some? ==> free == FirstFree(Characters(core.Snapshot()))
    {
      if core.isGameStarted {
        return None;
      }
      var taken := NameInUse(name);
      if taken {
        return None;
      }
      free := AvailableCharacter();
      if playerID in core.players {
        return None;
      }
    }

    /** The successful end of AddPlayer: a new record in its character's
        starting room joins the map, and the session is resized. */
    method Seat(playerID: int, name: string, character: CharacterType)
      requires Valid() && playerID !in core.players
      modifies core`players, core`state
      ensures Valid()
      ensures core.Snapshot() == old(core.Snapshot())[playerID :=
        PlayerView(playerID, name, character, [], core.board.startingRoom(character), true, false)]
      ensures core.state == NewGameState(core.defaults, |old(core.players)| + 1)
    {
      ghost var before := core.Snapshot();
      var newPlayer := NewRecord(playerID, name, character, core.board.startingRoom(character));
      core.players := core.players[playerID := newPlayer];
      core.state := NewGameState(core.defaults, |core.players|);
      ghost var after := before[playerID := newPlayer.View()];
      assert core.Snapshot().Keys == after.Keys;
      forall id | id in after
        ensures core.Snapshot()[id] == after[id]
      {
        if id != playerID {
          assert core.players[id] == old(core.players)[id];
        }
      }
    }

    /** A new player record placed in its character's starting room. */
    static method NewRecord(playerID: int, name: string, character: CharacterType, room: RoomType)
      returns (newPlayer: PlayerState)
      ensures fresh(newPlayer)
      ensures newPlayer.View() == PlayerView(playerID, name, character, [], room, true, false)
    {
      newPlayer := new PlayerState(playerID, name, character);
      newPlayer.currentRoom := room;
    }

    /** RemovePlayer: a seated player leaves while the game has not
        started; once it has, the request is acknowledged and the seat
        kept. An unknown id is refused. */
    method RemovePlayer(playerID: int) returns (ok: bool)
      requires Valid()
      modifies core`players
      ensures Valid()
      ensures ok <==> playerID in old(core.players)
      ensures ok && !core.isGameStarted ==>
        core.players == old(core.players) - {playerID} && core.Snapshot() == old(core.Snapshot()) - {playerID}
      ensures !(ok && !core.isGameStarted) ==> core.players == old(core.players)
    {
      if playerID in core.players {
        if !core.isGameStarted {
          ghost var before := core.Snapshot();
          core.players := core.players - {playerID};
          assert core.Snapshot() == before - {playerID};
        }
        return true;
      }
      return false;
    }

    /** CharacterHeld: the scan of UpdateCharacter for a seated player
        already playing the character. */
    method CharacterHeld(character: CharacterType) returns (held: bool)
      ensures held <==> character in Characters(core.Snapshot())
    {
      var ids := core.players.Keys;
      while ids != {}
        invariant ids <= core.players.Keys
        invariant forall id :: id in core.players && id !in ids ==> core.players[id].character != character
        decreases ids
      {
        Inhabited(ids);
        var id: int :| id in ids;
        if core.players[id].character == character {
          assert core.Snapshot()[id].character == character;
          return true;
        }
        ids := ids - {id};
      }
      return false;
    }

    /** UpdateCharacter: a character nobody plays is given to the player,
        who moves to its starting room; a held one is refused. (A free
        character for an unknown id throws in the source, hence the
        precondition.) */
    method UpdateCharacter(playerID: int, newCharacter: CharacterType) returns (ok: bool)
      requires Valid()
      requires newCharacter !in Characters(core.Snapshot()) ==> playerID in core.players
      modifies core.players.Values
      ensures Valid()
      ensures ok <==> newCharacter !in Characters(old(core.Snapshot()))
      ensures ok ==> core.Snapshot() == old(core.Snapshot())[playerID :=
        old(core.Snapshot())[playerID].(character := newCharacter, room := core.board.startingRoom(newCharacter))]
      ensures !ok ==> core.Snapshot() == old(core.Snapshot())
    {
      var held := CharacterHeld(newCharacter);
      if held {
        return false;
      }
      ghost var before := core.Snapshot();
      var player := core.players[playerID];
      assert forall id :: id in core.players && id != playerID ==> core.players[id] != player;
      player.character := newCharacter;
      player.currentRoom := core.board.startingRoom(newCharacter);
      assert core.Snapshot() == before[playerID := before[playerID].(character := newCharacter, room := core.board.startingRoom(newCharacter))];
      ok := true;
    }

    /** MovePlayer: a forced move always relocates a seated player (and
        reports false); a voluntary one needs the player's move turn and a
        legal step on the board, after which the turn waits for a
        suggestion in a guess room and is idle elsewhere. */
    method MovePlayer(playerID: int, destRoom: RoomType, isForcedMove: bool) returns (ok: bool)
      requires Valid()
      modifies core.players.Values, core`state
      ensures Valid()
      ensures ok <==>
        && playerID in old(core.players) && !isForcedMove
        && old(core.state).turn == playerID && old(core.state).action == MoveRoom
        && core.board.isValidMove(old(core.Snapshot())[playerID].room, destRoom)
      ensures playerID in old(core.players) && (isForcedMove || ok) ==>
        core.Snapshot() == old(core.Snapshot())[playerID := old(core.Snapshot())[playerID].(room := destRoom)]
      ensures !(playerID in old(core.players) && (isForcedMove || ok)) ==> core.Snapshot() == old(core.Snapshot())
      ensures ok ==> core.state == old(core.state).(action := if core.board.isGuessRoom(destRoom) then MakeGuess else Idle)
      ensures !ok ==> core.state == old(core.state)
    {
      if playerID in core.players {
        if isForcedMove {
          core.PlaceInRoom(playerID, destRoom);
        } else if core.state.turn == playerID && core.state.action == MoveRoom {
          if core.board.isValidMove(core.players[playerID].currentRoom, destRoom) {
            core.PlaceInRoom(playerID, destRoom);
            if core.board.isGuessRoom(destRoom) {
              core.SetTurn(core.state.turn, MakeGuess);
            } else {
              core.SetTurn(core.state.turn, Idle);
            }
            return true;
          }
        }
      }
      return false;
    }

    /** PlayersToReveal: the scan of a suggestion for the players who must
        answer it, keyed by id. */
    method PlayersToReveal(guesser: int, g: Guess) returns (pending: map<int, PlayerState>)
      requires Valid()
      ensures pending.Keys == RevealSet(core.Snapshot(), guesser, g)
      ensures forall id :: id in pending ==> id in core.players && pending[id] == core.players[id]
    {
      pending := map[];
      var ids := core.players.Keys;
      while ids != {}
        invariant ids <= core.players.Keys
        invariant pending.Keys == RevealSet(core.Snapshot(), guesser, g) - ids
        invariant forall id :: id in pending ==> id in core.players && pending[id] == core.players[id]
        decreases ids
      {
        Inhabited(ids);
        var id: int :| id in ids;
        var player := core.players[id];
        if player.playerID != guesser && player.isActive {
          var j := 0;
          while j < |player.cards|
            invariant 0 <= j <= |player.cards|
            invariant forall k :: 0 <= k < j ==> !MatchesGuess(player.cards[k], g)
            invariant pending.Keys == RevealSet(core.Snapshot(), guesser, g) - ids
          {
            if MatchesGuess(player.cards[j], g) {
              pending := pending[player.playerID := player];
              break;
            }
            j := j + 1;
          }
        }
        ids := ids - {id};
      }
    }

    /** The forced moves of a suggestion: every other player whose
        character was named is moved into the named room. */
    method MoveAccused(guesser: int, character: CharacterType, room: RoomType)
      requires Valid()
      modifies core.players.Values, core`state
      ensures Valid() && core.state == old(core.state)
      ensures core.Snapshot() == Accused(old(core.Snapshot()), guesser, character, room)
    {
      ghost var before := core.Snapshot();
      var ids := core.players.Keys;
      while ids != {}
        invariant ids <= core.players.Keys
        invariant Valid() && core.state == old(core.state)
        invariant core.players == old(core.players)
        invariant core.Snapshot() == map id | id in before ::
          if id in ids then before[id] else Accused(before, guesser, character, room)[id]
        decreases ids
      {
        Inhabited(ids);
        var id: int :| id in ids;
        ForceOne(id, guesser, character, room);
        ids := ids - {id};
      }
    }

    /** One step of the forced moves: the player filed under id is moved
        when it is another player holding the named character. */
    method ForceOne(id: int, guesser: int, character: CharacterType, room: RoomType)
      requires Valid() && id in core.players
      modifies core.players.Values, core`state
      ensures Valid() && core.state == old(core.state)
      ensures core.Snapshot() == old(core.Snapshot())[id := Accused(old(core.Snapshot()), guesser, character, room)[id]]
    {
      var player := core.players[id];
      if player.playerID != guesser && player.character == character {
        var _ := MovePlayer(player.playerID, room, true);
      }
    }

    /** Guess: a suggestion needs the guesser's guess turn; it collects the
        players who must answer (the turn moves to reveals, or straight to
        idle when nobody can) and drags the named character into the
        named room. An accusation needs the guesser's turn; a right one
        wins and changes nothing, a wrong one eliminates the guesser and
        ends the turn. */
    method Guess(playerID: int, isFinal: bool, character: CharacterType, weapon: WeaponType, room: RoomType)
      returns (ok: bool)
      requires Valid()
      requires isFinal && playerID in core.players && core.state.turn == playerID ==> core.deck.HasSolution()
      requires (isFinal && playerID in core.players && core.state.turn == playerID && core.deck.HasSolution()
                && !core.deck.IsCorrectGuess(character, weapon, room)) ==> core.state.numPlayers != 0
      modifies this`playersNeedToReveal, core.players.Values, core`state
      ensures Valid()
      ensures !isFinal ==>
        (ok <==> playerID in old(core.players) && old(core.state).turn == playerID && old(core.state).action == MakeGuess)
      ensures !isFinal && ok ==>
        var pending := RevealSet(old(core.Snapshot()), playerID, Clues.Guess(character, weapon, room));
        && playersNeedToReveal.Keys == pending
        && (forall id :: id in playersNeedToReveal ==> id in core.players && playersNeedToReveal[id] == core.players[id])
        && core.state == old(core.state).(action := if pending == {} then Idle else RevealCards)
        && core.Snapshot() == Accused(old(core.Snapshot()), playerID, character, room)
      ensures isFinal ==> (ok <==> playerID in old(core.players) && old(core.state).turn == playerID)
      ensures isFinal && ok && core.deck.IsCorrectGuess(character, weapon, room) ==>
        core.state == old(core.state) && core.Snapshot() == old(core.Snapshot())
      ensures isFinal && ok && !core.deck.IsCorrectGuess(character, weapon, room) ==>
        && core.Snapshot() == old(core.Snapshot())[playerID := old(core.Snapshot())[playerID].(isActive := false)]
        && core.state == GameState(NextTurn(old(core.state).turn, old(core.state).numPlayers, core.Snapshot()),
                                   MoveRoom, old(core.state).numPlayers)
      ensures isFinal || !ok ==> playersNeedToReveal == old(playersNeedToReveal)
      ensures !ok ==> core.state == old(core.state) && core.Snapshot() == old(core.Snapshot())
    {
      if playerID in core.players {
        if !isFinal {
          if core.state.turn == playerID && core.state.action == MakeGuess {
            Suggest(playerID, character, weapon, room);
            return true;
          }
        } else if core.state.turn == playerID {
          Accuse(playerID, character, weapon, room);
          return true;
        }
      }
      return false;
    }

    /** An accepted suggestion: collect who must answer it and drag the
        named character into the named room. */
    method Suggest(playerID: int, character: CharacterType, weapon: WeaponType, room: RoomType)
      requires Valid()
      modifies this`playersNeedToReveal, core.players.Values, core`state
      ensures Valid()
      ensures var pending := RevealSet(old(core.Snapshot()), playerID, Clues.Guess(character, weapon, room));
        && playersNeedToReveal.Keys == pending
        && (forall id :: id in playersNeedToReveal ==> id in core.players && playersNeedToReveal[id] == core.players[id])
        && core.state == old(core.state).(action := if pending == {} then Idle else RevealCards)
        && core.Snapshot() == Accused(old(core.Snapshot()), playerID, character, room)
    {
      CollectReveals(playerID, Clues.Guess(character, weapon, room));
      MoveAccused(playerID, character, room);
    }

    /** The first part of a suggestion: the turn moves to reveals, the
        players who must answer are recorded, and with nobody to answer
        the turn goes straight to idle. */
    method CollectReveals(playerID: int, g: Clues.Guess)
      requires Valid()
      modifies this`playersNeedToReveal, core`state
      ensures var pending := RevealSet(core.Snapshot(), playerID, g);
        && playersNeedToReveal.Keys == pending
        && (forall id :: id in playersNeedToReveal ==> id in core.players && playersNeedToReveal[id] == core.players[id])
        && core.state == old(core.state).(action := if pending == {} then Idle else RevealCards)
    {
      core.SetTurn(core.state.turn, RevealCards);
      var pending := PlayersToReveal(playerID, g);
      playersNeedToReveal := pending;
      if |playersNeedToReveal| == 0 {
        core.SetTurn(core.state.turn, Idle);
      }
    }

    /** An accepted accusation: a right one changes nothing; a wrong one
        eliminates the accuser and ends the turn. */
    method Accuse(playerID: int, character: CharacterType, weapon: WeaponType, room: RoomType)
      requires Valid() && playerID in core.players && core.deck.HasSolution()
      requires !core.deck.IsCorrectGuess(character, weapon, room) ==> core.state.numPlayers != 0
      modifies core.players.Values, core`state
      ensures Valid()
      ensures core.deck.IsCorrectGuess(character, weapon, room) ==>
        core.state == old(core.state) && core.Snapshot() == old(core.Snapshot())
      ensures !core.deck.IsCorrectGuess(character, weapon, room) ==>
        && core.Snapshot() == old(core.Snapshot())[playerID := old(core.Snapshot())[playerID].(isActive := false)]
        && core.state == GameState(NextTurn(old(core.state).turn, old(core.state).numPlayers, core.Snapshot()),
                                   MoveRoom, old(core.state).numPlayers)
    {
      if core.deck.IsCorrectGuess(character, weapon, room) {
        return;
      }
      ghost var before := core.Snapshot();
      var playerState := core.players[playerID];
      assert forall id :: id in core.players && id != playerID ==> core.players[id] != playerState;
      playerState.isActive := false;
      assert core.Snapshot() == before[playerID := before[playerID].(isActive := false)];
      var _ := EndTurn(playerID);
    }

    /** Reveal: while the receiver awaits reveals, a pending player who
        shows a card of the named category and value they hold is struck
        off; the turn goes idle once nobody is left. */
    method Reveal(sendID: int, recvID: int, clueType: ClueType, character: CharacterType, weapon: WeaponType, room: RoomType)
      returns (status: bool)
      modifies this`playersNeedToReveal, core`state
      ensures status <==>
        && old(core.state).turn == recvID && old(core.state).action == RevealCards
        && sendID in old(playersNeedToReveal)
        && HoldsClue(old(playersNeedToReveal)[sendID].cards, clueType, character, weapon, room)
      ensures playersNeedToReveal == if status then old(playersNeedToReveal) - {sendID} else old(playersNeedToReveal)
      ensures core.state == if status && playersNeedToReveal == map[] then old(core.state).(action := Idle) else old(core.state)
    {
      status := false;
      if core.state.turn == recvID && core.state.action == RevealCards {
        if sendID in playersNeedToReveal {
          var player := playersNeedToReveal[sendID];
          status := HoldsClue(player.cards, clueType, character, weapon, room);
          if status {
            playersNeedToReveal := playersNeedToReveal - {sendID};
            if |playersNeedToReveal| == 0 {
              core.SetTurn(core.state.turn, Idle);
            }
          }
        }
      }
    }

    /** EndTurn: the next seat (skipping one eliminated player) moves. */
    method EndTurn(userID: int) returns (ok: bool)
      requires core.state.numPlayers != 0
      modifies core`state
      ensures ok
      ensures core.state == GameState(NextTurn(old(core.state).turn, old(core.state).numPlayers, core.Snapshot()),
                                      MoveRoom, old(core.state).numPlayers)
    {
      var nextTurn := CsRemainder(core.state.turn + 1, core.state.numPlayers);
      if nextTurn in core.players && !core.players[nextTurn].isActive {
        nextTurn := CsRemainder(nextTurn + 1, core.state.numPlayers);
      }
      core.SetTurn(nextTurn, MoveRoom);
      ok := true;
    }
  }
}

/** What the host's rules add up to: the deal hands out every card outside
    the solution exactly once, the turn rotation stays in range and skips
    one eliminated seat, a pending player can always answer, and joins and
    character changes keep characters unique, so at most six play. */
module HostFacts {
  import opened Clues
  import opened Seqs
  import opened Players
  import opened Deck
  import opened DeckFacts
  import opened Engine
  import opened Host

  /** The first n hands laid end to end are the front of the queue that
      n * k cards cover. */
  lemma {:induction false} DealtPrefix(queue: seq<ClueCard>, k: int, n: nat)
    ensures Dealt(queue, k, n) == queue[..Min(n * Max(k, 0), |queue|)]
  {
    if n > 0 {
      DealtPrefix(queue, k, n - 1);
      HandStep(queue, k, n - 1);
    }
  }

  /** Dealing the rounded-up share to each of n players hands out the whole
      queue, in order, and leaves nothing behind. */
  lemma DealUsesQueue(queue: seq<ClueCard>, n: nat)
    requires n > 0
    ensures var k := CeilDiv(|queue|, n);
      && Dealt(queue, k, n) == queue
      && queue[Min(n * Max(k, 0), |queue|)..] == []
  {
    var k := CeilDiv(|queue|, n);
    DealtPrefix(queue, k, n);
  }

  /** The queue a started game deals from: the deck without its solution,
      every other card once, TotalCards - 3 cards long. */
  lemma StartQueue(deck: CardDeck, ci: nat, wi: nat, ri: nat, shuffled: seq<ClueCard>)
    requires deck.HasSolution() && Distinct(deck.AllCards())
    requires ci < |deck.characterCards| && wi < |deck.weaponCards| && ri < |deck.roomCards|
    requires deck.correctCharacter == Some(deck.characterCards[ci])
    requires deck.correctWeapon == Some(deck.weaponCards[wi])
    requires deck.correctRoom == Some(deck.roomCards[ri])
    requires multiset(shuffled) == multiset(deck.AllCards())
    ensures var queue := Without(shuffled, deck.Solution());
      && |queue| == deck.TotalCards() - 3
      && (forall c :: c in queue <==> c in deck.AllCards() && c !in deck.Solution())
      && (forall c :: c in queue ==> multiset(queue)[c] == 1)
  {
    var pools := deck.AllCards();
    var nc, nw := |deck.characterCards|, |deck.weaponCards|;
    assert pools[ci] == deck.characterCards[ci];
    assert pools[nc + wi] == deck.weaponCards[wi];
    assert pools[nc + nw + ri] == deck.roomCards[ri];
    assert deck.Solution() == {pools[ci], pools[nc + wi], pools[nc + nw + ri]};
    SolutionWithheld(pools, nc, nw, ci, wi, ri, shuffled);
  }

  /** Once a game with at least one player has started from distinct pools,
      the deck's queue is empty, and the hands dealt in enumeration order
      hold every card outside the solution, each exactly once, and no
      solution card. */
  lemma StartDealsEveryCard(host: HostEngine, before: map<int, PlayerView>, choice: StartChoice)
    requires host.StartedFrom(before, choice) && host.Fits(choice)
    requires |host.core.players| > 0 && Distinct(host.core.deck.AllCards())
    ensures host.core.deck.remainingCards == []
    ensures var k := CardsPerPlayer(host.core.deck.TotalCards(), |host.core.players|);
      var hands := Dealt(Without(choice.shuffled, host.core.deck.Solution()), k, |choice.order|);
      forall c :: && (c in hands <==> c in host.core.deck.AllCards() && c !in host.core.deck.Solution())
                  && (c in hands ==> multiset(hands)[c] == 1)
  {
    var deck := host.core.deck;
    var queue := Without(choice.shuffled, deck.Solution());
    var n := |host.core.players|;
    assert |choice.order| == n by {
      DistinctElements(choice.order);
      assert forall id :: id in host.core.players ==> id in choice.order;
      assert forall i :: 0 <= i < |choice.order| ==> choice.order[i] in host.core.players;
      assert Elements(choice.order) == host.core.players.Keys;
      assert |host.core.players.Keys| == n;
    }
    StartQueue(deck, choice.ci, choice.wi, choice.ri, choice.shuffled);
    assert CardsPerPlayer(deck.TotalCards(), n) == CeilDiv(|queue|, n);
    DealUsesQueue(queue, n);
  }

  /** With turns counted from zero, EndTurn names a seat in range. */
  lemma NextTurnInRange(turn: int, numPlayers: int, players: map<int, PlayerView>)
    requires 0 <= turn && numPlayers > 0
    ensures 0 <= NextTurn(turn, numPlayers, players) < numPlayers
  {
  }

  /** From a seat in range, EndTurn moves one seat on (wrapping to seat
      0), or two when the next seat belongs to an eliminated player. */
  lemma NextTurnSteps(turn: int, numPlayers: int, players: map<int, PlayerView>)
    requires 0 <= turn < numPlayers
    ensures var next := if turn + 1 == numPlayers then 0 else turn + 1;
      var after := if next + 1 == numPlayers then 0 else next + 1;
      NextTurn(turn, numPlayers, players) == if next in players && !players[next].isActive then after else next
  {
    var next := if turn + 1 == numPlayers then 0 else turn + 1;
    assert CsRemainder(turn + 1, numPlayers) == next by {
      if turn + 1 == numPlayers { ModSelf(numPlayers); } else { ModSmall(turn + 1, numPlayers); }
    }
    assert CsRemainder(next + 1, numPlayers) == if next + 1 == numPlayers then 0 else next + 1 by {
      if next + 1 == numPlayers { ModSelf(numPlayers); } else { ModSmall(next + 1, numPlayers); }
    }
  }

  lemma ModSmall(x: int, m: int)
    requires 0 <= x < m
    ensures x % m == x
  {
  }

  lemma ModSelf(m: int)
    requires m > 0
    ensures m % m == 0
  {
  }

  /** Only one eliminated seat is skipped: when the two seats after the
      mover both belong to eliminated players, the turn lands on the
      second of them. */
  lemma NextTurnSkipsOnlyOne(turn: int, numPlayers: int, players: map<int, PlayerView>)
    requires 0 <= turn < numPlayers
    requires var first := (turn + 1) % numPlayers;
      first in players && !players[first].isActive
    ensures var second := (turn + 2) % numPlayers;
      NextTurn(turn, numPlayers, players) == second
  {
    NextTurnSteps(turn, numPlayers, players);
    var next := if turn + 1 == numPlayers then 0 else turn + 1;
    assert (turn + 1) % numPlayers == next by {
      if turn + 1 == numPlayers { ModSelf(numPlayers); } else { ModSmall(turn + 1, numPlayers); }
    }
    assert (turn + 2) % numPlayers == (next + 1) % numPlayers by {
      if turn + 1 == numPlayers { ModPastSelf(numPlayers); }
    }
    if next + 1 == numPlayers { ModSelf(numPlayers); } else { ModSmall(next + 1, numPlayers); }
  }

  lemma ModPastSelf(m: int)
    requires m > 0
    ensures (m + 1) % m == 1 % m
  {
    if m > 1 {
      var q, r := (m + 1) / m, (m + 1) % m;
      assert m + 1 == m * q + r && 0 <= r < m;
      assert q == 1;
      ModSmall(1, m);
    }
  }

  /** A player owes a reveal exactly when they can answer in one of the
      three categories, so every pending player has a reveal the host
      accepts. */
  lemma PendingCanReveal(cards: seq<ClueCard>, g: Clues.Guess)
    ensures HoldsMatch(cards, g) <==>
      || HoldsClue(cards, Character, g.character, g.weapon, g.room)
      || HoldsClue(cards, Weapon, g.character, g.weapon, g.room)
      || HoldsClue(cards, Room, g.character, g.weapon, g.room)
  {
    if HoldsMatch(cards, g) {
      var k :| 0 <= k < |cards| && MatchesGuess(cards[k], g);
      assert cards[k].AsCharacter() == Some(g.character)
          || cards[k].AsWeapon() == Some(g.weapon)
          || cards[k].AsRoom() == Some(g.room);
    }
  }

  /** No two seated players play the same character. */
  ghost predicate UniqueCharacters(players: map<int, PlayerView>)
  {
    forall a, b :: a in players && b in players && a != b ==> players[a].character != players[b].character
  }

  /** AddPlayer's seat keeps characters unique: the assigned character is
      one nobody plays. */
  lemma JoinKeepsCharactersUnique(players: map<int, PlayerView>, playerID: int, view: PlayerView)
    requires UniqueCharacters(players) && playerID !in players
    requires FirstFree(Characters(players)) == Some(view.character)
    ensures UniqueCharacters(players[playerID := view])
  {
    forall a | a in players
      ensures players[a].character != view.character
    {
      assert players[a].character in Characters(players);
    }
  }

  /** UpdateCharacter keeps characters unique: the new character is one
      nobody plays. */
  lemma ChangeKeepsCharactersUnique(players: map<int, PlayerView>, playerID: int, character: CharacterType, room: RoomType)
    requires UniqueCharacters(players) && playerID in players && character !in Characters(players)
    ensures UniqueCharacters(players[playerID := players[playerID].(character := character, room := room)])
  {
    forall a | a in players
      ensures players[a].character != character
    {
      assert players[a].character in Characters(players);
    }
  }

  /** With unique characters there is one character per player, so a
      session never seats more than the six suspects. */
  lemma {:induction false} AtMostSixPlayers(players: map<int, PlayerView>)
    requires UniqueCharacters(players)
    ensures |Characters(players)| == |players| <= CharacterCount
  {
    CharactersCount(players);
    var all: set<CharacterType> := {0, 1, 2, 3, 4, 5};
    assert Characters(players) <= all;
    SubsetCard(Characters(players), all);
  }

  lemma {:induction false} CharactersCount(players: map<int, PlayerView>)
    requires UniqueCharacters(players)
    ensures |Characters(players)| == |players|
    decreases |players|
  {
    if players != map[] {
      Inhabited(players.Keys);
      var id: int :| id in players;
      var rest := players - {id};
      assert UniqueCharacters(rest);
      CharactersCount(rest);
      forall c
        ensures c in Characters(players) <==> c in Characters(rest) + {players[id].character}
      {
        if c in Characters(players) {
          var x :| x in players && players[x].character == c;
          if x != id {
            assert rest[x].character == c;
          }
        }
      }
      assert Characters(players) == Characters(rest) + {players[id].character};
      assert forall x :: x in rest ==> rest[x].character != players[id].character;
      assert players[id].character !in Characters(rest);
      assert |players| == |rest| + 1;
    }
  }

  lemma {:induction false} SubsetCard<T>(a: set<T>, b: set<T>)
    requires a <= b
    ensures |a| <= |b|
    decreases |b|
  {
    if a != {} {
      var x :| x in a;
      SubsetCard(a - {x}, b - {x});
    }
  }
}
