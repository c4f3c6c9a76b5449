/** The card deck: three fixed card pools, the withheld solution (one card
    per category) and the FIFO queue of the cards still to be dealt. */
module Deck {
  import opened Clues
  import opened Seqs

  // ---------------------------------------------------------------------
  // Hands as wire data: the three typed value lists (GetCluesFromCards)
  // ---------------------------------------------------------------------

  /** The character values of a hand, in hand order. */
  function CharacterClues(cards: seq<ClueCard>): seq<CharacterType>
  {
    if cards == [] then []
    else
      var last := cards[|cards| - 1];
      CharacterClues(cards[..|cards| - 1])
        + (if last.AsCharacter().Some? then [last.AsCharacter().value] else [])
  }

  /** The weapon values of the cards that have no character value. */
  function WeaponClues(cards: seq<ClueCard>): seq<WeaponType>
  {
    if cards == [] then []
    else
      var last := cards[|cards| - 1];
      WeaponClues(cards[..|cards| - 1])
        + (if last.AsCharacter().None? && last.AsWeapon().Some? then [last.AsWeapon().value] else [])
  }

  /** The room values of the cards that have neither a character nor a weapon value. */
  function RoomClues(cards: seq<ClueCard>): seq<RoomType>
  {
    if cards == [] then []
    else
      var last := cards[|cards| - 1];
      RoomClues(cards[..|cards| - 1])
        + (if last.AsCharacter().None? && last.AsWeapon().None? && last.AsRoom().Some?
           then [last.AsRoom().value] else [])
  }

  /** The number of cards that carry no typed value at all. */
  function Uncategorised(cards: seq<ClueCard>): nat
  {
    if cards == [] then 0
    else Uncategorised(cards[..|cards| - 1]) + (if cards[|cards| - 1].category == NoCategory then 1 else 0)
  }

  /** The same hand regrouped by category: character cards, then weapon
      cards, then room cards, each group in hand order. */
  predicate IsOfType(category: Category, clueType: ClueType)
  {
    match clueType
    case Character => category.CharacterCard?
    case Weapon => category.WeaponCard?
    case Room => category.RoomCard?
    case Unrecognized(_) => false
  }

  function OfCategory(cards: seq<ClueCard>, clueType: ClueType): seq<ClueCard>
  {
    if cards == [] then []
    else
      var last := cards[|cards| - 1];
      OfCategory(cards[..|cards| - 1], clueType) + (if IsOfType(last.category, clueType) then [last] else [])
  }

  function Regrouped(cards: seq<ClueCard>): seq<ClueCard>
  {
    OfCategory(cards, Character)
      + OfCategory(cards, Weapon)
      + OfCategory(cards, Room)
  }

  /** GetCluesFromCards: splits a hand into its three typed value lists;
      reports false when some card has no category. */
  method GetCluesFromCards(cards: seq<ClueCard>)
    returns (ok: bool, characters: seq<CharacterType>, weapons: seq<WeaponType>, rooms: seq<RoomType>)
    ensures ok <==> forall k :: 0 <= k < |cards| ==> cards[k].category != NoCategory
    ensures characters == CharacterClues(cards)
    ensures weapons == WeaponClues(cards)
    ensures rooms == RoomClues(cards)
  {
    ok := true;
    characters, weapons, rooms := [], [], [];
    var i := 0;
    while i < |cards|
      invariant 0 <= i <= |cards|
      invariant ok <==> forall k :: 0 <= k < i ==> cards[k].category != NoCategory
      invariant characters == CharacterClues(cards[..i])
      invariant weapons == WeaponClues(cards[..i])
      invariant rooms == RoomClues(cards[..i])
    {
      var card := cards[i];
      assert cards[..i + 1][..i] == cards[..i];
      if card.AsCharacter().Some? {
        characters := characters + [card.AsCharacter().value];
      } else if card.AsWeapon().Some? {
        weapons := weapons + [card.AsWeapon().value];
      } else if card.AsRoom().Some? {
        rooms := rooms + [card.AsRoom().value];
      } else {
        ok := false;
      }
      i := i + 1;
    }
    assert cards[..i] == cards;
  }

  /** Every card lands in exactly one list or is counted as uncategorised. */
  lemma {:induction false} CluesPartitionHand(cards: seq<ClueCard>)
    ensures |CharacterClues(cards)| + |WeaponClues(cards)| + |RoomClues(cards)| + Uncategorised(cards)
            == |cards|
  {
    if cards != [] {
      CluesPartitionHand(cards[..|cards| - 1]);
    }
  }

  /** A value is in the character list exactly when a card of the hand carries it. */
  lemma {:induction false} CharacterCluesMembers(cards: seq<ClueCard>, v: CharacterType)
    ensures v in CharacterClues(cards) <==> exists k :: 0 <= k < |cards| && cards[k].category == CharacterCard(v)
  {
    if cards != [] {
      var init := cards[..|cards| - 1];
      CharacterCluesMembers(init, v);
      assert forall k :: 0 <= k < |init| ==> init[k] == cards[k];
    }
  }

  /** The uncategorised count is zero exactly when GetCluesFromCards succeeds. */
  lemma {:induction false} UncategorisedZero(cards: seq<ClueCard>)
    ensures Uncategorised(cards) == 0 <==> forall k :: 0 <= k < |cards| ==> cards[k].category != NoCategory
  {
    if cards != [] {
      var init := cards[..|cards| - 1];
      UncategorisedZero(init);
      assert forall k :: 0 <= k < |init| ==> init[k] == cards[k];
    }
  }

  // ---------------------------------------------------------------------
  // Looking a card up by name (the First(...) lookup of GetCardsFromClues)
  // ---------------------------------------------------------------------

  ghost predicate HasNamed(pool: seq<ClueCard>, name: string)
  {
    exists k :: 0 <= k < |pool| && pool[k].name == name
  }

  /** The first card of the pool with the given name. */
  function FirstNamed(pool: seq<ClueCard>, name: string): (card: ClueCard)
    requires HasNamed(pool, name)
    ensures card in pool && card.name == name
    ensures exists k :: 0 <= k < |pool| && pool[k] == card && forall j :: 0 <= j < k ==> pool[j].name != name
  {
    if pool[0].name == name then pool[0]
    else
      assert HasNamed(pool[1..], name) by {
        var k :| 0 <= k < |pool| && pool[k].name == name;
        assert pool[1..][k - 1] == pool[k];
      }
      FirstNamed(pool[1..], name)
  }

  /** The cards a list of values names, each looked up by its text. */
  function CardsFor<V>(pool: seq<ClueCard>, name: V -> string, values: seq<V>): (r: seq<ClueCard>)
    requires forall i :: 0 <= i < |values| ==> HasNamed(pool, name(values[i]))
    ensures |r| == |values|
  {
    if values == [] then []
    else CardsFor(pool, name, values[..|values| - 1]) + [FirstNamed(pool, name(values[|values| - 1]))]
  }

  ghost predicate UniqueNames(pool: seq<ClueCard>)
  {
    forall i, j :: 0 <= i < j < |pool| ==> pool[i].name != pool[j].name
  }

  /** With unique names, the name lookup finds the card itself. */
  lemma {:induction false} FirstNamedFindsCard(pool: seq<ClueCard>, card: ClueCard)
    requires UniqueNames(pool) && card in pool
    ensures HasNamed(pool, card.name) && FirstNamed(pool, card.name) == card
  {
    var k :| 0 <= k < |pool| && pool[k] == card;
    if pool[0] != card {
      assert pool[0].name != card.name by {
        assert k != 0;
      }
      assert pool[1..][k - 1] == card;
      assert UniqueNames(pool[1..]) by {
        forall i, j | 0 <= i < j < |pool[1..]|
          ensures pool[1..][i].name != pool[1..][j].name
        {
          assert pool[1..][i] == pool[i + 1] && pool[1..][j] == pool[j + 1];
        }
      }
      FirstNamedFindsCard(pool[1..], card);
    }
  }

  class CardDeck {
    const characterCards: seq<ClueCard>
    const weaponCards: seq<ClueCard>
    const roomCards: seq<ClueCard>

    var correctCharacter: Option<ClueCard>
    var correctWeapon: Option<ClueCard>
    var correctRoom: Option<ClueCard>
    var remainingCards: seq<ClueCard>

    /** The pools concatenated in the order Initialize lists them. */
    function AllCards(): seq<ClueCard>
    {
      characterCards + weaponCards + roomCards
    }

    /** TotalCards: the size of the whole deck. */
    function TotalCards(): (n: nat)
      ensures n == |AllCards()|
    {
      |characterCards| + |weaponCards| + |roomCards|
    }

    ghost predicate HasSolution()
      reads this
    {
      correctCharacter.Some? && correctWeapon.Some? && correctRoom.Some?
    }

    ghost function Solution(): set<ClueCard>
      reads this
      requires HasSolution()
    {
      {correctCharacter.value, correctWeapon.value, correctRoom.value}
    }

    /** The deck's invariant: the queue holds only pool cards; once a solution
        is chosen each solution card comes from its own pool and none is
        waiting in the queue. */
    ghost predicate Valid()
      reads this
    {
      && correctCharacter.Some? == correctWeapon.Some?
      && correctWeapon.Some? == correctRoom.Some?
      && (forall c :: c in remainingCards ==> c in AllCards())
      && (HasSolution() ==>
            && correctCharacter.value in characterCards
            && correctWeapon.value in weaponCards
            && correctRoom.value in roomCards
            && forall c :: c in remainingCards ==> c !in Solution())
    }

    /** The pools are well labelled: each card carries a value of its pool's
        category and is named after it, and names are unique in a pool. */
    ghost predicate Labelled(text: EnumText)
    {
      && (forall k :: 0 <= k < |characterCards| ==>
            characterCards[k].category.CharacterCard? &&
            characterCards[k].name == text.characterName(characterCards[k].category.character))
      && (forall k :: 0 <= k < |weaponCards| ==>
            weaponCards[k].category.WeaponCard? &&
            weaponCards[k].name == text.weaponName(weaponCards[k].category.weapon))
      && (forall k :: 0 <= k < |roomCards| ==>
            roomCards[k].category.RoomCard? &&
            roomCards[k].name == text.roomName(roomCards[k].category.room))
      && UniqueNames(characterCards) && UniqueNames(weaponCards) && UniqueNames(roomCards)
    }

    /** Awake: the pools come from the scene; the queue starts empty and no
        solution is chosen yet. */
    constructor (characterCards: seq<ClueCard>, weaponCards: seq<ClueCard>, roomCards: seq<ClueCard>)
      ensures this.characterCards == characterCards
      ensures this.weaponCards == weaponCards
      ensures this.roomCards == roomCards
      ensures remainingCards == [] && !HasSolution() && correctCharacter.None?
      ensures Valid()
    {
      this.characterCards := characterCards;
      this.weaponCards := weaponCards;
      this.roomCards := roomCards;
      correctCharacter, correctWeapon, correctRoom := None, None, None;
      remainingCards := [];
    }

    /** Initialize: ci, wi and ri are the random solution indices and
        shuffled is the order the random comparator sort leaves the
        concatenated pools in (any permutation of them). */
    method Initialize(ci: nat, wi: nat, ri: nat, shuffled: seq<ClueCard>)
      requires ci < |characterCards| && wi < |weaponCards| && ri < |roomCards|
      requires multiset(shuffled) == multiset(AllCards())
      modifies this
      ensures Valid() && HasSolution()
      ensures correctCharacter == Some(characterCards[ci])
      ensures correctWeapon == Some(weaponCards[wi])
      ensures correctRoom == Some(roomCards[ri])
      ensures remainingCards == Without(shuffled, Solution())
    {
      correctCharacter := Some(characterCards[ci]);
      correctWeapon := Some(weaponCards[wi]);
      correctRoom := Some(roomCards[ri]);
      QueueAllBut(shuffled);
      WithoutCount(shuffled, Solution());
      forall c | c in remainingCards
        ensures c in AllCards() && c !in Solution()
      {
        assert multiset(remainingCards)[c] > 0;
        assert multiset(AllCards())[c] > 0;
      }
    }

    /** The loop of Initialize: the queue is refilled with the shuffled
        cards, in order, leaving out the solution. */
    method QueueAllBut(shuffled: seq<ClueCard>)
      requires HasSolution()
      modifies this`remainingCards
      ensures remainingCards == Without(shuffled, Solution())
    {
      remainingCards := [];
      var i := 0;
      while i < |shuffled|
        invariant 0 <= i <= |shuffled|
        invariant remainingCards == Without(shuffled[..i], Solution())
      {
        var card := shuffled[i];
        assert shuffled[..i + 1][..i] == shuffled[..i];
        if card != correctCharacter.value && card != correctWeapon.value && card != correctRoom.value {
          remainingCards := remainingCards + [card];
        }
        i := i + 1;
      }
      assert shuffled[..i] == shuffled;
    }

    /** GetCards: takes up to numCards cards from the front of the queue. */
    method GetCards(numCards: int) returns (cards: seq<ClueCard>)
      requires Valid()
      modifies this`remainingCards
      ensures Valid()
      ensures cards == old(remainingCards)[..Min(Max(numCards, 0), |old(remainingCards)|)]
      ensures remainingCards == old(remainingCards)[Min(Max(numCards, 0), |old(remainingCards)|)..]
    {
      cards := [];
      var i := 0;
      while i < numCards
        invariant 0 <= i <= Max(numCards, 0)
        invariant |cards| == Min(i, |old(remainingCards)|)
        invariant cards + remainingCards == old(remainingCards)
      {
        if |remainingCards| > 0 {
          cards := cards + [remainingCards[0]];
          remainingCards := remainingCards[1..];
        }
        i := i + 1;
      }
      assert remainingCards == old(remainingCards)[|cards|..];
      assert forall c :: c in remainingCards ==> c in old(remainingCards);
    }

    /** GetCorrectCards: the solution in the order character, room, weapon;
        none of them is waiting in the queue. */
    function GetCorrectCards(): (r: seq<Option<ClueCard>>)
      reads this
      requires Valid()
      ensures |r| == 3 && r[0] == correctCharacter && r[1] == correctRoom && r[2] == correctWeapon
      ensures forall k :: 0 <= k < 3 && r[k].Some? ==> r[k].value !in remainingCards
    {
      [correctCharacter, correctRoom, correctWeapon]
    }

    /** IsCorrectGuess: every solution card that carries a typed value must
        carry the guessed value of its category; one that carries none
        imposes no constraint. */
    function IsCorrectGuess(guessCharacter: CharacterType, guessWeapon: WeaponType, guessRoom: RoomType): (status: bool)
      reads this
      requires HasSolution()
      ensures status <==>
        && (correctCharacter.value.category.CharacterCard? ==> correctCharacter.value.category.character == guessCharacter)
        && (correctWeapon.value.category.WeaponCard? ==> correctWeapon.value.category.weapon == guessWeapon)
        && (correctRoom.value.category.RoomCard? ==> correctRoom.value.category.room == guessRoom)
    {
      var character := correctCharacter.value.AsCharacter();
      var weapon := correctWeapon.value.AsWeapon();
      var room := correctRoom.value.AsRoom();
      && (character.None? || character.value == guessCharacter)
      && (weapon.None? || weapon.value == guessWeapon)
      && (room.None? || room.value == guessRoom)
    }

    /** GetCardsFromClues: rebuilds a hand from its three value lists by
        looking each value's name up in its pool (First throws when no
        card has the name, so every name must be present). */
    method GetCardsFromClues(text: EnumText, characters: seq<CharacterType>, weapons: seq<WeaponType>, rooms: seq<RoomType>)
      returns (cardList: seq<ClueCard>)
      requires forall i :: 0 <= i < |characters| ==> HasNamed(characterCards, text.characterName(characters[i]))
      requires forall i :: 0 <= i < |weapons| ==> HasNamed(weaponCards, text.weaponName(weapons[i]))
      requires forall i :: 0 <= i < |rooms| ==> HasNamed(roomCards, text.roomName(rooms[i]))
      ensures cardList == CardsFor(characterCards, text.characterName, characters)
                        + CardsFor(weaponCards, text.weaponName, weapons)
                        + CardsFor(roomCards, text.roomName, rooms)
      ensures |cardList| == |characters| + |weapons| + |rooms|
    {
      var characterList := LookUpAll(characterCards, text.characterName, characters);
      var weaponList := LookUpAll(weaponCards, text.weaponName, weapons);
      var roomList := LookUpAll(roomCards, text.roomName, rooms);
      cardList := characterList + weaponList + roomList;
    }

    /** One loop of GetCardsFromClues: each value's card, in value order. */
    static method LookUpAll<V>(pool: seq<ClueCard>, name: V -> string, values: seq<V>) returns (cards: seq<ClueCard>)
      requires forall i :: 0 <= i < |values| ==> HasNamed(pool, name(values[i]))
      ensures cards == CardsFor(pool, name, values)
    {
      cards := [];
      var i := 0;
      while i < |values|
        invariant 0 <= i <= |values|
        invariant cards == CardsFor(pool, name, values[..i])
      {
        assert values[..i + 1][..i] == values[..i];
        cards := cards + [FirstNamed(pool, name(values[i]))];
        i := i + 1;
      }
      assert values[..i] == values;
    }

    /** The first card of a pool with the given category, if any. */
    static method FirstOfCategory(pool: seq<ClueCard>, category: Category) returns (card: Option<ClueCard>)
      ensures card.None? <==> forall k :: 0 <= k < |pool| ==> pool[k].category != category
      ensures card.Some? ==>
        exists k :: 0 <= k < |pool| && pool[k] == card.value && pool[k].category == category &&
          forall j :: 0 <= j < k ==> pool[j].category != category
    {
      var i := 0;
      while i < |pool|
        invariant 0 <= i <= |pool|
        invariant forall j :: 0 <= j < i ==> pool[j].category != category
      {
        if pool[i].category == category {
          return Some(pool[i]);
        }
        i := i + 1;
      }
      return None;
    }

    /** TryGetCard(CharacterType): the first character card with that value. */
    method TryGetCharacterCard(character: CharacterType) returns (card: Option<ClueCard>)
      ensures card.None? <==> forall k :: 0 <= k < |characterCards| ==> characterCards[k].AsCharacter() != Some(character)
      ensures card.Some? ==>
        exists k :: 0 <= k < |characterCards| && characterCards[k] == card.value &&
          characterCards[k].AsCharacter() == Some(character) &&
          forall j :: 0 <= j < k ==> characterCards[j].AsCharacter() != Some(character)
    {
      card := FirstOfCategory(characterCards, CharacterCard(character));
    }

    /** TryGetCard(WeaponType): the first weapon card with that value. */
    method TryGetWeaponCard(weapon: WeaponType) returns (card: Option<ClueCard>)
      ensures card.None? <==> forall k :: 0 <= k < |weaponCards| ==> weaponCards[k].AsWeapon() != Some(weapon)
      ensures card.Some? ==>
        exists k :: 0 <= k < |weaponCards| && weaponCards[k] == card.value &&
          weaponCards[k].AsWeapon() == Some(weapon) &&
          forall j :: 0 <= j < k ==> weaponCards[j].AsWeapon() != Some(weapon)
    {
      card := FirstOfCategory(weaponCards, WeaponCard(weapon));
    }

    /** TryGetCard(RoomType): the first room card with that value. */
    method TryGetRoomCard(room: RoomType) returns (card: Option<ClueCard>)
      ensures card.None? <==> forall k :: 0 <= k < |roomCards| ==> roomCards[k].AsRoom() != Some(room)
      ensures card.Some? ==>
        exists k :: 0 <= k < |roomCards| && roomCards[k] == card.value &&
          roomCards[k].AsRoom() == Some(room) &&
          forall j :: 0 <= j < k ==> roomCards[j].AsRoom() != Some(room)
    {
      card := FirstOfCategory(roomCards, RoomCard(room));
    }
  }
}

/** What Initialize leaves behind, and the wire-form round trip of a hand. */
module DeckFacts {
  import opened Clues
  import opened Seqs
  import opened Deck

  /** After Initialize over pools of distinct cards: the three solution cards
      are distinct, and the queue holds every other pool card exactly once
      and no solution card, so its length is TotalCards - 3. */
  lemma SolutionWithheld(pools: seq<ClueCard>, nc: nat, nw: nat, ci: nat, wi: nat, ri: nat, shuffled: seq<ClueCard>)
    requires ci < nc && wi < nw && nc + nw + ri < |pools|
    requires Distinct(pools)
    requires multiset(shuffled) == multiset(pools)
    ensures var solution := {pools[ci], pools[nc + wi], pools[nc + nw + ri]};
            var queue := Without(shuffled, solution);
            && |solution| == 3
            && |queue| == |pools| - 3
            && (forall c :: c in queue <==> c in pools && c !in solution)
            && (forall c :: c in queue ==> multiset(queue)[c] == 1)
  {
    var solution := {pools[ci], pools[nc + wi], pools[nc + nw + ri]};
    ThreeDistinct(pools, ci, nc + wi, nc + nw + ri);
    WithheldLength(pools, solution, shuffled);
    WithheldMembers(pools, solution, shuffled);
  }

  /** Three positions of a repetition-free sequence hold three cards. */
  lemma ThreeDistinct(pools: seq<ClueCard>, i: nat, j: nat, k: nat)
    requires i < j < k < |pools| && Distinct(pools)
    ensures |{pools[i], pools[j], pools[k]}| == 3
  {
    assert pools[i] != pools[j] && pools[j] != pools[k] && pools[i] != pools[k];
  }

  lemma WithheldLength(pools: seq<ClueCard>, solution: set<ClueCard>, shuffled: seq<ClueCard>)
    requires Distinct(pools) && solution <= Elements(pools)
    requires multiset(shuffled) == multiset(pools)
    ensures |Without(shuffled, solution)| == |pools| - |solution|
  {
    assert solution * Elements(pools) == solution;
    WithoutLength(pools, solution);
    WithoutPermutation(shuffled, pools, solution);
  }

  lemma WithheldMembers(pools: seq<ClueCard>, solution: set<ClueCard>, shuffled: seq<ClueCard>)
    requires Distinct(pools)
    requires multiset(shuffled) == multiset(pools)
    ensures var queue := Without(shuffled, solution);
      && (forall c :: c in queue <==> c in pools && c !in solution)
      && (forall c :: c in queue ==> multiset(queue)[c] == 1)
  {
    var queue := Without(shuffled, solution);
    WithoutCount(shuffled, solution);
    DistinctOnce(pools);
    forall c
      ensures c in queue <==> c in pools && c !in solution
      ensures c in queue ==> multiset(queue)[c] == 1
    {
      assert c in queue <==> multiset(queue)[c] > 0;
      assert c in pools <==> multiset(pools)[c] > 0;
    }
  }

  /** A card of a well-labelled deck sits in the pool of its category and
      is named after its value. */
  lemma PoolOfCard(deck: CardDeck, text: EnumText, card: ClueCard)
    requires deck.Labelled(text) && card in deck.AllCards()
    ensures card.category != NoCategory
    ensures card.category.CharacterCard? ==>
              card in deck.characterCards && card.name == text.characterName(card.category.character)
    ensures card.category.WeaponCard? ==>
              card in deck.weaponCards && card.name == text.weaponName(card.category.weapon)
    ensures card.category.RoomCard? ==>
              card in deck.roomCards && card.name == text.roomName(card.category.room)
  {
    var k :| 0 <= k < |deck.AllCards()| && deck.AllCards()[k] == card;
    var nc, nw := |deck.characterCards|, |deck.weaponCards|;
    if k < nc {
      assert deck.characterCards[k] == card;
    } else if k < nc + nw {
      assert deck.weaponCards[k - nc] == card;
    } else {
      assert deck.roomCards[k - nc - nw] == card;
    }
  }

  /** With a well-labelled solution, an accusation is correct exactly when
      it names the three solution values. */
  lemma AccusationExact(deck: CardDeck, text: EnumText, c: CharacterType, w: WeaponType, r: RoomType)
    requires deck.Valid() && deck.HasSolution() && deck.Labelled(text)
    ensures deck.IsCorrectGuess(c, w, r) <==>
      && deck.correctCharacter.value.category == CharacterCard(c)
      && deck.correctWeapon.value.category == WeaponCard(w)
      && deck.correctRoom.value.category == RoomCard(r)
  {
    PoolOfCard(deck, text, deck.correctCharacter.value);
    PoolOfCard(deck, text, deck.correctWeapon.value);
    PoolOfCard(deck, text, deck.correctRoom.value);
    var kc :| 0 <= kc < |deck.characterCards| && deck.characterCards[kc] == deck.correctCharacter.value;
    var kw :| 0 <= kw < |deck.weaponCards| && deck.weaponCards[kw] == deck.correctWeapon.value;
    var kr :| 0 <= kr < |deck.roomCards| && deck.roomCards[kr] == deck.correctRoom.value;
  }

  /** The character cards of a hand of pool cards survive the trip to
      values and back through the name lookup, in hand order. */
  lemma {:induction false} CharacterRoundTrip(deck: CardDeck, text: EnumText, hand: seq<ClueCard>)
    requires deck.Labelled(text)
    requires forall c :: c in hand ==> c in deck.AllCards()
    ensures forall i :: 0 <= i < |CharacterClues(hand)| ==>
              HasNamed(deck.characterCards, text.characterName(CharacterClues(hand)[i]))
    ensures CardsFor(deck.characterCards, text.characterName, CharacterClues(hand))
            == OfCategory(hand, Character)
  {
    if hand != [] {
      var init, last := hand[..|hand| - 1], hand[|hand| - 1];
      CharacterRoundTrip(deck, text, init);
      PoolOfCard(deck, text, last);
      assert OfCategory(hand, Character) == OfCategory(init, Character) + (if last.category.CharacterCard? then [last] else []);
      if last.category.CharacterCard? {
        FirstNamedFindsCard(deck.characterCards, last);
        var vs := CharacterClues(hand);
        assert vs == CharacterClues(init) + [last.category.character];
        assert vs[..|vs| - 1] == CharacterClues(init);
        assert CardsFor(deck.characterCards, text.characterName, vs)
               == CardsFor(deck.characterCards, text.characterName, CharacterClues(init)) + [last];
      } else {
        assert CharacterClues(hand) == CharacterClues(init);
      }
    }
  }

  lemma {:induction false} WeaponRoundTrip(deck: CardDeck, text: EnumText, hand: seq<ClueCard>)
    requires deck.Labelled(text)
    requires forall c :: c in hand ==> c in deck.AllCards()
    ensures forall i :: 0 <= i < |WeaponClues(hand)| ==>
              HasNamed(deck.weaponCards, text.weaponName(WeaponClues(hand)[i]))
    ensures CardsFor(deck.weaponCards, text.weaponName, WeaponClues(hand))
            == OfCategory(hand, Weapon)
  {
    if hand != [] {
      var init, last := hand[..|hand| - 1], hand[|hand| - 1];
      WeaponRoundTrip(deck, text, init);
      PoolOfCard(deck, text, last);
      assert OfCategory(hand, Weapon) == OfCategory(init, Weapon) + (if last.category.WeaponCard? then [last] else []);
      if last.category.WeaponCard? {
        FirstNamedFindsCard(deck.weaponCards, last);
        var vs := WeaponClues(hand);
        assert vs == WeaponClues(init) + [last.category.weapon];
        assert vs[..|vs| - 1] == WeaponClues(init);
        assert CardsFor(deck.weaponCards, text.weaponName, vs)
               == CardsFor(deck.weaponCards, text.weaponName, WeaponClues(init)) + [last];
      } else {
        assert WeaponClues(hand) == WeaponClues(init);
      }
    }
  }

  lemma {:induction false} RoomRoundTrip(deck: CardDeck, text: EnumText, hand: seq<ClueCard>)
    requires deck.Labelled(text)
    requires forall c :: c in hand ==> c in deck.AllCards()
    ensures forall i :: 0 <= i < |RoomClues(hand)| ==>
              HasNamed(deck.roomCards, text.roomName(RoomClues(hand)[i]))
    ensures CardsFor(deck.roomCards, text.roomName, RoomClues(hand))
            == OfCategory(hand, Room)
  {
    if hand != [] {
      var init, last := hand[..|hand| - 1], hand[|hand| - 1];
      RoomRoundTrip(deck, text, init);
      PoolOfCard(deck, text, last);
      assert OfCategory(hand, Room) == OfCategory(init, Room) + (if last.category.RoomCard? then [last] else []);
      if last.category.RoomCard? {
        FirstNamedFindsCard(deck.roomCards, last);
        var vs := RoomClues(hand);
        assert vs == RoomClues(init) + [last.category.room];
        assert vs[..|vs| - 1] == RoomClues(init);
        assert CardsFor(deck.roomCards, text.roomName, vs)
               == CardsFor(deck.roomCards, text.roomName, RoomClues(init)) + [last];
      } else {
        assert RoomClues(hand) == RoomClues(init);
      }
    }
  }

  /** GetCardsFromClues after GetCluesFromCards gives back the hand
      regrouped by category (characters, weapons, rooms). */
  lemma CluesRoundTrip(deck: CardDeck, text: EnumText, hand: seq<ClueCard>)
    requires deck.Labelled(text)
    requires forall c :: c in hand ==> c in deck.AllCards()
    ensures forall i :: 0 <= i < |CharacterClues(hand)| ==>
              HasNamed(deck.characterCards, text.characterName(CharacterClues(hand)[i]))
    ensures forall i :: 0 <= i < |WeaponClues(hand)| ==>
              HasNamed(deck.weaponCards, text.weaponName(WeaponClues(hand)[i]))
    ensures forall i :: 0 <= i < |RoomClues(hand)| ==>
              HasNamed(deck.roomCards, text.roomName(RoomClues(hand)[i]))
    ensures CardsFor(deck.characterCards, text.characterName, CharacterClues(hand))
          + CardsFor(deck.weaponCards, text.weaponName, WeaponClues(hand))
          + CardsFor(deck.roomCards, text.roomName, RoomClues(hand))
          == Regrouped(hand)
  {
    CharacterRoundTrip(deck, text, hand);
    WeaponRoundTrip(deck, text, hand);
    RoomRoundTrip(deck, text, hand);
  }

  /** Regrouping loses and adds no card when every card has a category. */
  lemma {:induction false} RegroupedPermutation(hand: seq<ClueCard>)
    requires forall k :: 0 <= k < |hand| ==> hand[k].category != NoCategory
    ensures multiset(Regrouped(hand)) == multiset(hand)
  {
    if hand != [] {
      var init, last := hand[..|hand| - 1], hand[|hand| - 1];
      assert hand == init + [last];
      RegroupedPermutation(init);
      RegroupedStep(init, last);
    }
  }

  /** Adding a categorised card to a hand adds it to exactly one group. */
  lemma RegroupedStep(init: seq<ClueCard>, last: ClueCard)
    requires last.category != NoCategory
    ensures multiset(Regrouped(init + [last])) == multiset(Regrouped(init)) + multiset{last}
  {
    var hand := init + [last];
    assert hand[..|hand| - 1] == init;
    var c, w, r := OfCategory(hand, Character), OfCategory(hand, Weapon), OfCategory(hand, Room);
    var c', w', r' := OfCategory(init, Character), OfCategory(init, Weapon), OfCategory(init, Room);
    assert multiset(c) == multiset(c') + (if last.category.CharacterCard? then multiset{last} else multiset{});
    assert multiset(w) == multiset(w') + (if last.category.WeaponCard? then multiset{last} else multiset{});
    assert multiset(r) == multiset(r') + (if last.category.RoomCard? then multiset{last} else multiset{});
    assert multiset(Regrouped(hand)) == multiset(c) + multiset(w) + multiset(r);
    assert multiset(Regrouped(init)) == multiset(c') + multiset(w') + multiset(r');
  }
}
