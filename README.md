# Clue session core in Dafny

This project models the session core of a networked Clue (Cluedo) game that
has a host and guests:

- **The card deck.** There are three card pools. The deck withholds one
  solution card per category, keeps the other cards in a FIFO queue and deals
  from it. It checks accusations against the solution. It converts a hand to
  and from the three typed value lists that travel over the wire.
- **The player record.** This is a mutable `PlayerState`.
- **The base engine.** It holds the player map, the `(turn, action,
  numPlayers)` game state and the started flag.
- **The host engine.** It is the authoritative turn/action state machine:
  - joining with automatic character assignment, and leaving;
  - the ready-to-start transition and the deal;
  - legal moves;
  - suggestions, the set of players who must answer them, and the forced
    moves of the accused;
  - accusations with elimination;
  - reveal checking;
  - turn rotation.
- **The guest engine.** It mirrors that state on a client. It also has:
  - the reveal queue, released one item per frame behind a ready flag;
  - the last guess, used to choose the cards it can show;
  - the mapping from turn action to player statuses.
- **The debug console.** It turns a typed line into at most one packet and
  decides whether the input field is cleared.

Modules follow the source files:

| module | source file |
|---|---|
| `Clues` | the shared types: card, category, clue type, guess, and the board and enum-name collaborators |
| `Deck` and `DeckFacts` | `CardDeck.cs` |
| `Players` | `PlayerState.cs` |
| `Engine` | `BaseEngine.cs` |
| `Host` and `HostFacts` | `HostEngine.cs` |
| `Guest` and `GuestFacts` | `GuestEngine.cs` |
| `Console` and `ConsoleFacts` | `ClientConsole.cs` |

`Seqs` holds generic sequence and multiset lemmas.

C# inheritance becomes composition. `HostEngine` and `GuestEngine` hold a
`const core: BaseEngine` and call it where the C# calls `base.X()`.

`PlayerState`, the engines, the deck and the console are classes whose methods
update their fields in place. Each engine's player map is also seen through a
ghost `Snapshot()`: a map from id to a `PlayerView` value. Contracts state the
whole new player state against it, so "nothing else changes" is explicit.

Loops in the source stay loops, each with its invariants. These are:

- the deal;
- the ready scan;
- the name and character scans;
- the reveal-set and forced-move loops;
- the hand conversions;
- the guest's status loop.

Every loop is proved against a pure specification function: `Hand`/`Dealt`,
`AllReady`, `NameTaken`, `FirstFree`, `RevealSet`, `Accused`,
`CharacterClues`, `MatchingCards`, `StatusesFor`, `Split`/`Submit`.

The source's collaborators are modelled as follows:

- Randomness is a parameter: the solution indices, the shuffled deck (any
  permutation) and the first turn. Each is bound by the ranges the source
  draws from.
- The dictionary's enumeration order is a parameter: any duplicate-free
  listing of the keys.
- The board is three uninterpreted functions.
- `Enum.TryParse` and the enum names are partial maps.

## Model

| member | source | states |
|---|---|---|
| Clues.ClueCard.AsCharacter | Assets/Code/Clues/CardDeck.cs:127-139 | a card yields a character value exactly when its category is a character |
| Clues.ClueCard.AsWeapon | Assets/Code/Clues/CardDeck.cs:140-152 | a card yields a weapon value exactly when its category is a weapon |
| Clues.ClueCard.AsRoom | Assets/Code/Clues/CardDeck.cs:153-165 | a card yields a room value exactly when its category is a room |
| Deck.GetCluesFromCards | Assets/Code/Clues/CardDeck.cs:79-107 | the status is false exactly when some card has no category; the three lists are the hand's character, weapon and room values in hand order |
| Deck.CluesPartitionHand | Assets/Code/Clues/CardDeck.cs:79-107 | each card lands in exactly one list or is uncategorised: the three list lengths plus the uncategorised count equal the hand length |
| Deck.CharacterCluesMembers | Assets/Code/Clues/CardDeck.cs:83-106 | a character is in the character list iff some card of the hand is that character's card |
| Deck.UncategorisedZero | Assets/Code/Clues/CardDeck.cs:79-107 | no uncategorised card iff every card has a category, which is when the conversion reports success |
| Deck.FirstNamed | Assets/Code/Clues/CardDeck.cs:109-125 | the name lookup returns the earliest card of the pool that carries the requested name |
| Deck.CardsFor | Assets/Code/Clues/CardDeck.cs:109-125 | one card for each value of the list |
| Deck.FirstNamedFindsCard | Assets/Code/Clues/CardDeck.cs:109-125 | in a pool of distinct names, looking up a card's own name returns that card |
| Deck.CardDeck.TotalCards | Assets/Code/Clues/CardDeck.cs:16 | the number of cards in the three pools together |
| Deck.CardDeck.constructor | Assets/Code/Clues/CardDeck.cs:18-21 | the pools as given, an empty queue and no solution yet |
| Deck.CardDeck.Initialize | Assets/Code/Clues/CardDeck.cs:23-41 | each solution card is the drawn entry of its own pool; the queue is the shuffled deck without the solution cards, in shuffled order |
| Deck.CardDeck.QueueAllBut | Assets/Code/Clues/CardDeck.cs:34-40 | the queue is rebuilt from the shuffled list, skipping the solution cards |
| Deck.CardDeck.GetCards | Assets/Code/Clues/CardDeck.cs:43-54 | returns the first min(max(n, 0), queue length) cards of the queue in order, and the queue keeps exactly the rest |
| Deck.CardDeck.GetCorrectCards | Assets/Code/Clues/CardDeck.cs:56-59 | the solution in the order character, room, weapon; no solution card is in the queue |
| Deck.CardDeck.IsCorrectGuess | Assets/Code/Clues/CardDeck.cs:61-77 | true iff each solution card that yields a typed value yields the guessed value of its category |
| Deck.CardDeck.GetCardsFromClues | Assets/Code/Clues/CardDeck.cs:109-125 | the character cards, then the weapon cards, then the room cards of the values in order, as many as there are values |
| Deck.CardDeck.LookUpAll | Assets/Code/Clues/CardDeck.cs:112-123 | the per-category loop: the named card for each value, in order |
| Deck.CardDeck.FirstOfCategory | Assets/Code/Clues/CardDeck.cs:127-165 | None iff no card of the pool has the category; otherwise the first card that has it |
| Deck.CardDeck.TryGetCharacterCard | Assets/Code/Clues/CardDeck.cs:127-139 | None iff no character card yields the value; otherwise the first one that does |
| Deck.CardDeck.TryGetWeaponCard | Assets/Code/Clues/CardDeck.cs:140-152 | None iff no weapon card yields the value; otherwise the first one that does |
| Deck.CardDeck.TryGetRoomCard | Assets/Code/Clues/CardDeck.cs:153-165 | None iff no room card yields the value; otherwise the first one that does |
| DeckFacts.SolutionWithheld | Assets/Code/Clues/CardDeck.cs:25-40 | for distinct pools: three solution cards; the queue holds exactly the other cards, each once, and is three shorter than the deck |
| DeckFacts.ThreeDistinct | Assets/Code/Clues/CardDeck.cs:27-29 | cards drawn from three different positions of distinct pools are three different cards |
| DeckFacts.WithheldLength | Assets/Code/Clues/CardDeck.cs:34-40 | skipping a set of pool cards from a shuffle shortens it by the size of that set |
| DeckFacts.WithheldMembers | Assets/Code/Clues/CardDeck.cs:34-40 | a card is queued iff it is in the pools and not skipped, and then exactly once |
| DeckFacts.PoolOfCard | Assets/Code/Clues/CardDeck.cs:79-125 | with labelled pools every deck card has a category, and its typed value names it in its own pool |
| DeckFacts.AccusationExact | Assets/Code/Clues/CardDeck.cs:61-77 | with labelled pools an accusation is correct iff it names exactly the three solution values |
| DeckFacts.CharacterRoundTrip | Assets/Code/Clues/CardDeck.cs:79-125 | converting a hand's character cards to values and back gives back those cards, in hand order |
| DeckFacts.WeaponRoundTrip | Assets/Code/Clues/CardDeck.cs:79-125 | converting a hand's weapon cards to values and back gives back those cards, in hand order |
| DeckFacts.RoomRoundTrip | Assets/Code/Clues/CardDeck.cs:79-125 | converting a hand's room cards to values and back gives back those cards, in hand order |
| DeckFacts.CluesRoundTrip | Assets/Code/Clues/CardDeck.cs:79-125 | a full round trip gives the hand regrouped as character cards, then weapon cards, then room cards, each in hand order |
| DeckFacts.RegroupedPermutation | Assets/Code/Clues/CardDeck.cs:79-125 | for a fully categorised hand the regrouped hand is a permutation of the hand, so the round trip loses and invents no card |
| DeckFacts.RegroupedStep | Assets/Code/Clues/CardDeck.cs:79-125 | appending a categorised card to a hand adds exactly that card to the regrouped hand's multiset |
| Players.PlayerState.constructor | Assets/Code/State/PlayerState.cs:16-23 | the id, name and character as given; the player is active and not ready; no cards and room 0 |
| Engine.BaseEngine.constructor | Assets/Code/Logic/BaseEngine.cs:16-20 | no players, the game state for zero players, not started |
| Engine.BaseEngine.StartGame | Assets/Code/Logic/BaseEngine.cs:22-28 | returns true; the game is started; the state is sized to the current players; the deck is initialised with the drawn solution and queue |
| Engine.BaseEngine.SetTurn | Assets/Code/Logic/BaseEngine.cs:35-46 | turn and action are exactly the arguments; the player count is unchanged |
| Engine.BaseEngine.AddPlayer | Assets/Code/Logic/BaseEngine.cs:48-52 | the default refuses |
| Engine.BaseEngine.RemovePlayer | Assets/Code/Logic/BaseEngine.cs:54-57 | the default refuses |
| Engine.BaseEngine.Guess | Assets/Code/Logic/BaseEngine.cs:59-62 | the default refuses |
| Engine.BaseEngine.Reveal | Assets/Code/Logic/BaseEngine.cs:64-67 | the default refuses |
| Engine.BaseEngine.PlaceInRoom | Assets/Code/Logic/HostEngine.cs:189-194 | a seated player's room becomes the given one; nothing else of any player changes |
| Engine.BaseEngine.GetPlayerName | Assets/Code/Logic/BaseEngine.cs:69-76 | the stored name for a known id, the empty string otherwise |
| Host.CeilDiv | Assets/Code/Logic/HostEngine.cs:21 | the least q with a <= b * q, so the rounded-up share |
| Host.CsRemainder | Assets/Code/Logic/HostEngine.cs:365-369 | the remainder with the sign of the dividend, of magnitude below the divisor's, and the dividend minus it is a multiple of the divisor; for non-negative operands it is Dafny's `%` |
| Host.FirstFreeFrom | Assets/Code/Logic/HostEngine.cs:94-118 | the first character from a starting point in enum order that nobody holds, and None iff all from there are held |
| Host.HandStep | Assets/Code/Logic/HostEngine.cs:23-30 | the i-th hand is the next share of the queue after the first i hands |
| Host.DealtViews | Assets/Code/Logic/HostEngine.cs:23-30 | the deal after i players of the order keeps the set of players |
| Host.DealtViewsSpec | Assets/Code/Logic/HostEngine.cs:23-30 | after i players of the order, the j-th holds the j-th hand and everybody else is untouched |
| Host.DealtViewsAt | Assets/Code/Logic/HostEngine.cs:23-30 | after i players, the player at position j < i holds the j-th hand |
| Host.DealtViewsKept | Assets/Code/Logic/HostEngine.cs:23-30 | after i players, a player not among the first i of the order is untouched |
| Host.HostEngine.constructor | Assets/Code/Logic/BaseEngine.cs:16-20 | an empty session with nobody owing a reveal |
| Host.HostEngine.StartGame | Assets/Code/Logic/HostEngine.cs:13-45 | the deck holds the drawn solution; the i-th player of the enumeration order holds the i-th share of the queue; the first turn is the drawn one, with action MoveRoom; nothing else changes |
| Host.HostEngine.DealAll | Assets/Code/Logic/HostEngine.cs:23-30 | the deal loop: each player of the order takes the next share; the queue keeps what follows the shares |
| Host.HostEngine.GiveHand | Assets/Code/Logic/HostEngine.cs:25-29 | one player's cards become the front share of the queue, which loses exactly that share |
| Host.HostEngine.AllPlayersReady | Assets/Code/Logic/HostEngine.cs:58-64 | true iff every player is ready |
| Host.HostEngine.SetPlayerReady | Assets/Code/Logic/HostEngine.cs:47-66 | the flag is set; the game starts iff every player is then ready; otherwise nothing else changes |
| Host.HostEngine.MarkReady | Assets/Code/Logic/HostEngine.cs:49-56 | only a known player's ready flag changes |
| Host.HostEngine.NameInUse | Assets/Code/Logic/HostEngine.cs:84-91 | true iff some seated player has the name |
| Host.HostEngine.AvailableCharacter | Assets/Code/Logic/HostEngine.cs:94-118 | the first character in enum order that nobody holds, or None |
| Host.HostEngine.AddPlayer | Assets/Code/Logic/HostEngine.cs:75-124 | refused with no change iff the game has started, the name is taken, no character is free or the id is present; otherwise the new player has the first free character in its starting room and the player count grows |
| Host.HostEngine.JoinCharacter | Assets/Code/Logic/HostEngine.cs:77-118 | the checks of a join: a character iff the join is allowed, and it is the first free one |
| Host.HostEngine.Seat | Assets/Code/Logic/HostEngine.cs:108-115 | the player is added, active and not ready, in the character's starting room, and the state is sized to the new count |
| Host.HostEngine.NewRecord | Assets/Code/Logic/HostEngine.cs:108-111 | a fresh record with the given id, name, character and room, active and not ready |
| Host.HostEngine.RemovePlayer | Assets/Code/Logic/HostEngine.cs:126-154 | true iff the id is known; before the start the player is removed, after it kept |
| Host.HostEngine.CharacterHeld | Assets/Code/Logic/HostEngine.cs:171-178 | true iff some seated player plays the character |
| Host.HostEngine.UpdateCharacter | Assets/Code/Logic/HostEngine.cs:169-183 | a free character is taken and the player moves to its starting room; a held one is refused with no change |
| Host.HostEngine.MovePlayer | Assets/Code/Logic/HostEngine.cs:185-223 | true iff an unforced move by the turn holder in MoveRoom is legal on the board, and then the action becomes MakeGuess in a guess room, else Idle; a forced move relocates the player and returns false |
| Host.HostEngine.PlayersToReveal | Assets/Code/Logic/HostEngine.cs:237-253 | exactly the other active players who hold a card of the suggestion, with their records |
| Host.HostEngine.MoveAccused | Assets/Code/Logic/HostEngine.cs:259-267 | every other player playing the named character is moved into the named room; nobody else changes |
| Host.HostEngine.ForceOne | Assets/Code/Logic/HostEngine.cs:261-266 | one player is treated as the forced-move loop treats them |
| Host.HostEngine.Guess | Assets/Code/Logic/HostEngine.cs:225-305 | a suggestion is accepted iff from the turn holder in MakeGuess, and an accusation iff from the turn holder; refused ones change nothing; a correct accusation changes nothing; a wrong one eliminates the accuser and ends the turn |
| Host.HostEngine.Suggest | Assets/Code/Logic/HostEngine.cs:229-270 | the pending set is exactly the other active holders of a matching card; the action is RevealCards if there are any, else Idle; the accused are moved |
| Host.HostEngine.CollectReveals | Assets/Code/Logic/HostEngine.cs:235-257 | records the pending set, with RevealCards while it is non-empty and Idle otherwise |
| Host.HostEngine.Accuse | Assets/Code/Logic/HostEngine.cs:276-301 | correct: no change; wrong: only the accuser becomes inactive and the turn moves on to MoveRoom |
| Host.HostEngine.Reveal | Assets/Code/Logic/HostEngine.cs:307-356 | true iff the receiver holds the turn, the action is RevealCards, the sender is pending and holds a card of the claimed category and value; then the sender is struck off and the turn goes idle once nobody is left; otherwise nothing changes |
| Host.HostEngine.EndTurn | Assets/Code/Logic/HostEngine.cs:358-378 | returns true; the turn passes to the next seat, skipping a known eliminated one, with action MoveRoom |
| HostFacts.DealtPrefix | Assets/Code/Logic/HostEngine.cs:23-30 | the hands of the first n players together are the front of the queue, n shares long |
| HostFacts.DealUsesQueue | Assets/Code/Logic/HostEngine.cs:21-30 | dealing the rounded-up share to each of n players hands out the whole queue in order and leaves nothing |
| HostFacts.StartQueue | Assets/Code/Clues/CardDeck.cs:23-41 | the queue of a started game has TotalCards - 3 cards: each non-solution card once |
| HostFacts.StartDealsEveryCard | Assets/Code/Logic/HostEngine.cs:13-30 | after the start the queue is empty, and the hands hold every non-solution card exactly once and no solution card |
| HostFacts.NextTurnInRange | Assets/Code/Logic/HostEngine.cs:365-369 | from a non-negative turn the next turn is a seat in [0, n) |
| HostFacts.NextTurnSteps | Assets/Code/Logic/HostEngine.cs:365-369 | the next turn is the following seat, wrapping to 0, or the one after when the following seat is a known eliminated player |
| HostFacts.NextTurnSkipsOnlyOne | Assets/Code/Logic/HostEngine.cs:365-369 | for every seat in range and every player map: when the seat after the mover is a known eliminated player, the turn lands on the seat after that, whether or not it is eliminated too |
| HostFacts.PendingCanReveal | Assets/Code/Logic/HostEngine.cs:237-253 | a player owes a reveal iff they hold a card that the reveal check accepts in one of the three categories |
| HostFacts.JoinKeepsCharactersUnique | Assets/Code/Logic/HostEngine.cs:94-115 | a join with the first free character keeps characters unique |
| HostFacts.ChangeKeepsCharactersUnique | Assets/Code/Logic/HostEngine.cs:169-183 | changing to a free character keeps characters unique |
| HostFacts.AtMostSixPlayers | Assets/Code/Logic/HostEngine.cs:94-118 | with unique characters there are as many characters as players, and at most six players |
| HostFacts.CharactersCount | Assets/Code/Logic/HostEngine.cs:94-118 | with unique characters, as many characters are held as there are players |
| Guest.StatusesFor | Assets/Code/Logic/GuestEngine.cs:75-109 | MoveRoom gives Moving/Waiting, MakeGuess Guessing/Waiting, RevealCards Waiting/Revealing, Idle EndingTurn/Waiting; the two statuses always differ |
| Guest.FirstShown | Assets/Code/Logic/GuestEngine.cs:20-26 | the position of the first queued reveal that is shown, every earlier one not shown |
| Guest.GuestEngine.constructor | Assets/Code/Logic/GuestEngine.cs:136-142 | an empty session, the local player as assigned, no last guess, an empty reveal queue and the ready flag up |
| Guest.GuestEngine.AssignFromServer | Assets/Code/Logic/GuestEngine.cs:136-142 | a new local player record with the given id, name and character |
| Guest.GuestEngine.StartGame | Assets/Code/Logic/GuestEngine.cs:28-41 | the base start: true, started, state sized to the other players, players unchanged; the deck holds the drawn solution and queues the shuffled deck without it |
| Guest.GuestEngine.AssignClueCards | Assets/Code/Logic/GuestEngine.cs:144-150 | the local hand becomes the deck's cards for the received character, weapon and room values, in that order |
| Guest.GuestEngine.EnqueueReveal | Assets/Code/Logic/GuestEngine.cs:293-296 | the reveal is appended at the back of the queue |
| Guest.GuestEngine.SetReadyForReveal | Assets/Code/Logic/GuestEngine.cs:288-291 | the flag is the given value |
| Guest.GuestEngine.Reveal | Assets/Code/Logic/GuestEngine.cs:298-351 | false iff the reveal is for the local player from a known sender and does not resolve to a card; the flag drops exactly when the reveal is shown |
| Guest.GuestEngine.Update | Assets/Code/Logic/GuestEngine.cs:20-26 | when ready and the queue is non-empty, the head is dequeued and processed; otherwise nothing changes |
| Guest.GuestEngine.PlayerStatuses | Assets/Code/Logic/GuestEngine.cs:111-133 | a status for the local player and for each active other player: the waiting status for the turn holder, the active status for everybody else |
| Guest.GuestEngine.SetTurn | Assets/Code/Logic/GuestEngine.cs:57-134 | the base turn update, and the statuses of the action for the local and active players |
| Guest.GuestEngine.AddPlayer | Assets/Code/Logic/GuestEngine.cs:152-166 | refused for a known id; otherwise the player is added and the count is the other players plus one |
| Guest.GuestEngine.RemovePlayer | Assets/Code/Logic/GuestEngine.cs:168-194 | true iff before the start and known; then the player leaves and the count is the others plus one; otherwise no change |
| Guest.GuestEngine.UpdateCharacter | Assets/Code/Logic/GuestEngine.cs:196-218 | the local player or a known other takes the character; an unknown id is refused with no change |
| Guest.GuestEngine.MovePlayer | Assets/Code/Logic/GuestEngine.cs:220-249 | the local player or a known other is put in the room, forced or not; an unknown id is refused with no change |
| Guest.GuestEngine.Guess | Assets/Code/Logic/GuestEngine.cs:251-271 | true iff the guesser is the local player or known; only another known player's guess is remembered |
| Guest.GuestEngine.GetCardsToReveal | Assets/Code/Logic/GuestEngine.cs:273-286 | the local cards that match the last guess, in hand order |
| Guest.GuestEngine.Lose | Assets/Code/Logic/GuestEngine.cs:366-378 | the local player becomes inactive, whatever the id |
| GuestFacts.StepsFollowQueue | Assets/Code/Logic/GuestEngine.cs:20-26 | starting ready, n updates consume the queue in FIFO order up to and including the first shown reveal, and the flag is down iff that reveal was reached |
| GuestFacts.StepsIdleWhenBlocked | Assets/Code/Logic/GuestEngine.cs:288-291 | while the flag is down, updates change nothing until SetReadyForReveal releases the queue |
| GuestFacts.MatchingCardsExact | Assets/Code/Logic/GuestEngine.cs:273-286 | a card is offered iff it is in the hand and matches the guess; never more than the hand |
| GuestFacts.GuestAgreesWithHost | Assets/Code/Logic/GuestEngine.cs:273-286 | a guest has a card to show iff the host counts them among the players owing a reveal |
| Console.Split | Assets/Code/UI/Debug/ClientConsole.cs:20-22 | at least one token, none containing a space |
| Console.Lower | Assets/Code/UI/Debug/ClientConsole.cs:26 | the same length, each character lower-cased |
| Console.Submit | Assets/Code/UI/Debug/ClientConsole.cs:18-139 | nothing is sent off a client connection; every packet carries the own id; the input stays iff a reveal's card does not parse, and then nothing is sent |
| Console.ClientConsole.constructor | Assets/Code/UI/Debug/ClientConsole.cs:18-23 | an empty input field and nothing sent |
| Console.ClientConsole.SubmitCommand | Assets/Code/UI/Debug/ClientConsole.cs:18-139 | the decided packet is sent, under the engine's id and current turn, and the input is cleared as decided |
| ConsoleFacts.JoinSplit | Assets/Code/UI/Debug/ClientConsole.cs:20-22 | joining the tokens with single spaces gives back the line |
| ConsoleFacts.SplitWord | Assets/Code/UI/Debug/ClientConsole.cs:20-22 | a space-free word followed by a space splits off as the first token |
| ConsoleFacts.SplitSingle | Assets/Code/UI/Debug/ClientConsole.cs:20-22 | a space-free word is one token |
| ConsoleFacts.SplitJoin | Assets/Code/UI/Debug/ClientConsole.cs:20-22 | splitting the join of space-free tokens gives back the tokens |
| ConsoleFacts.ChatOfUnknownCommandIsLine | Assets/Code/UI/Debug/ClientConsole.cs:128-135 | a line with no command is sent as chat word for word |
| ConsoleFacts.ChatCommandDropsWord | Assets/Code/UI/Debug/ClientConsole.cs:120-127 | chat sends the rest of the line after the command word and its space |
| ConsoleFacts.StartSendsOwnID | Assets/Code/UI/Debug/ClientConsole.cs:35-40 | `\start` sends a game-start packet carrying only the own id, and the input is cleared |
| ConsoleFacts.DoneSendsOwnID | Assets/Code/UI/Debug/ClientConsole.cs:114-119 | `\done` sends a turn-done packet carrying only the own id, and the input is cleared |
| ConsoleFacts.CharAndMove | Assets/Code/UI/Debug/ClientConsole.cs:41-60 | `\char` and `\move` send exactly when their word parses, carrying the parsed value; a console move is never forced; the input is cleared |
| ConsoleFacts.GuessAndAccusation | Assets/Code/UI/Debug/ClientConsole.cs:61-88 | a guess or accusation is sent iff all three names parse, with the final flag only for an accusation, and clears the input |
| ConsoleFacts.RevealPrecedence | Assets/Code/UI/Debug/ClientConsole.cs:89-113 | a reveal goes to the turn holder with the first category the name parses in (character, weapon, room), and nothing is sent iff none parses |

## Left out

- Network sends, UI calls (`masterUI`), logging, scene loading and `ReturnToMenu` are left out. The console's sends are appended to an `outbox` sequence. The host's broadcasts, which include its `SetTurn` override (`HostEngine.cs:68-73`), reduce to the base state change.
- Randomness:
  - The solution indices, the first turn and the shuffled order are parameters, each bound by its range.
  - The comparator "shuffle" is any permutation of the deck.
  - Nothing about the distribution is claimed.
- The host's `Mathf.CeilToInt` over floats is integer ceiling division (`CeilDiv`), which is exact at these sizes.
- The defaults of the `GameState` constructor are not part of this model. They are fixed but unknown values (`GameStateDefaults`), so no initial turn or action is assumed.
- `Board`, the enums' names and `Enum.TryParse` are abstract:
  - the board is three functions;
  - parsing is three partial maps;
  - characters are 0..5 in enum order.
- `ClueCard` is a value (name and category). The deck removes the solution cards by value, where C# compares references. The two agree for distinct cards, which the deck lemmas assume.
- A card list left null is the empty list. A room never set is room 0.
- Runtime exceptions become preconditions. They are:
  - a name missing from a pool (`First`);
  - a missing console argument (indexing past the tokens);
  - `EndTurn` with zero players;
  - an accusation before the deck holds a solution;
  - drawing the solution from an empty pool (`Random.Range(0, 0)` indexes past it);
  - `UpdateCharacter` for an unknown id when the character is free;
  - `GetCardsToReveal` with no last guess and a categorised card.
- Integers are unbounded; the source's 32-bit ids and counts never overflow at these sizes.
- `ToLower` is ASCII lower-casing only.
- The dictionary's enumeration order is a parameter of the start (`StartChoice.order`).
- `GetAllPlayerInfo` (`HostEngine.cs:156-167`) is a read-only listing for the interface and is not modelled.
- These guest operations have no session logic and are not modelled:
  - `SetPlayerReady` and `ProcessChatMessage` only update the interface;
  - `Win` and `ErrorOut` only update the interface;
  - the list of names that `StartGame` hands to the interface.
- In the guest's `SetTurn`, the source's default branch (for a `TurnAction` value outside the named ones, which a C# enum admits) is left out: `TurnAction` is closed here, because the host only ever sets named actions.
- Host.HostEngine.MovePlayer: as written, a forced move relocates the player but reports false; the model keeps that.
- Host.HostEngine.EndTurn: as written, only one eliminated seat is skipped (`HostFacts.NextTurnSkipsOnlyOne`), and `userID` is ignored.
- Host.HostEngine.SetPlayerReady: as written, a ready round restarts the game even when it has already started.
- Guest.GuestEngine.Lose: as written, the local player is marked inactive whatever id it is given.
- HostFacts.NextTurnSteps: stated only for a turn already in [0, n), which is every turn the host sets once the game has started.
