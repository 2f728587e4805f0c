/**
 * The solitaire deck and board of the questing-phase module
 * (rz-solitaire.mjs): a 52-card deck that is shuffled, drawn from and
 * refilled in place, and a board whose hand, discard pile and seven
 * tableau stacks move cards around without creating or losing any.
 */
module Solitaire {
  import opened Common

  datatype Suit = Spade | Heart | Diamond | Club

  /** A card; only `faceUp` ever changes once the card exists. */
  datatype Card = Card(suit: Suit, rank: string, faceUp: bool)

  /** `this.suits` in order: ♠ ♥ ♦ ♣. */
  const Suits: seq<Suit> := [Spade, Heart, Diamond, Club]
  const Ranks: seq<string> := ["A", "2", "3", "4", "5", "6", "7", "8", "9", "10", "J", "Q", "K"]
  const DeckSize: nat := 52
  const StackCount: nat := 7

  /** What identifies a card whichever way up it lies. */
  function FaceOf(c: Card): (Suit, string) {
    (c.suit, c.rank)
  }

  function FaceList(cs: seq<Card>): (r: seq<(Suit, string)>)
    ensures |r| == |cs| && forall i :: 0 <= i < |cs| ==> r[i] == FaceOf(cs[i])
  {
    seq(|cs|, i requires 0 <= i < |cs| => FaceOf(cs[i]))
  }

  lemma FaceListAppend(a: seq<Card>, b: seq<Card>)
    ensures FaceList(a + b) == FaceList(a) + FaceList(b)
  {
  }

  /** The faces of a non-empty pile: its first card's face and the rest. */
  lemma FacesOfFirst(s: seq<Card>)
    requires |s| > 0
    ensures multiset(FaceList(s)) == multiset{FaceOf(s[0])} + multiset(FaceList(s[1..]))
  {
    assert s == [s[0]] + s[1..];
    FaceListAppend([s[0]], s[1..]);
    assert FaceList([s[0]]) == [FaceOf(s[0])];
  }

  /** The faces of a pile with one card pushed on its end. */
  lemma FacesOfPush(s: seq<Card>, c: Card)
    ensures multiset(FaceList(s + [c])) == multiset(FaceList(s)) + multiset{FaceOf(c)}
  {
    FaceListAppend(s, [c]);
    assert FaceList([c]) == [FaceOf(c)];
  }

  /** The deck `_createDeck` builds, suit by suit and rank by rank, every card face down. */
  function NewDeck(): (d: seq<Card>)
    ensures |d| == DeckSize
  {
    seq(DeckSize, k requires 0 <= k < DeckSize => Card(Suits[k / 13], Ranks[k % 13], false))
  }

  lemma NewDeckAt(i: nat, j: nat)
    requires i < 4 && j < 13
    ensures 13 * i + j < DeckSize && NewDeck()[13 * i + j] == Card(Suits[i], Ranks[j], false)
  {
    assert (13 * i + j) / 13 == i && (13 * i + j) % 13 == j;
  }

  /**
   * `_createDeck` yields 52 cards, all face down, holding every (suit, rank)
   * pair exactly once.
   */
  lemma NewDeckComplete()
    ensures forall c :: c in NewDeck() ==> !c.faceUp && c.suit in Suits && c.rank in Ranks
    ensures forall i, j :: 0 <= i < 4 && 0 <= j < 13 ==> Card(Suits[i], Ranks[j], false) in NewDeck()
    ensures Distinct(FaceList(NewDeck()))
  {
    var d := NewDeck();
    forall i, j | 0 <= i < 4 && 0 <= j < 13 ensures Card(Suits[i], Ranks[j], false) in d {
      NewDeckAt(i, j);
    }
    forall a, b | 0 <= a < b < DeckSize ensures FaceOf(d[a]) != FaceOf(d[b]) {
      if a / 13 == b / 13 {
        assert a % 13 != b % 13;
        assert Ranks[a % 13][0] != Ranks[b % 13][0];
      } else {
        assert Suits[a / 13] != Suits[b / 13];
      }
    }
  }

  /** Swapping two positions keeps the multiset of a sequence. */
  lemma SwapKeepsMultiset<T>(s: seq<T>, i: nat, j: nat)
    requires i < |s| && j < |s|
    ensures multiset(s[i := s[j]][j := s[i]]) == multiset(s)
  {
    if i != j {
      var t := s[i := s[j]][j := s[i]];
      assert multiset(s[i := s[j]]) == multiset(s) - multiset{s[i]} + multiset{s[j]};
      assert multiset(t) == multiset(s[i := s[j]]) - multiset{s[j]} + multiset{s[i]};
    }
  }

  /** The `CardDeck` object: its `deck` array is swapped, spliced and concatenated in place. */
  class CardDeck {
    var deck: seq<Card>

    /** `new CardDeck(seed)`: build the deck, then shuffle it with the generator's stream `rolls`. */
    constructor(rolls: seq<nat>)
      ensures multiset(deck) == multiset(NewDeck())
      ensures multiset(FaceList(deck)) == multiset(FaceList(NewDeck()))
      ensures |deck| == DeckSize
    {
      var created := CreateDeck();
      deck := created;
      new;
      Shuffle(rolls);
      assert |multiset(deck)| == |multiset(NewDeck())|;
    }

    /** `_createDeck`: the two nested `for` loops. */
    static method CreateDeck() returns (d: seq<Card>)
      ensures d == NewDeck()
    {
      d := [];
      var i := 0;
      while i < |Suits|
        invariant 0 <= i <= 4 && |d| == 13 * i
        invariant forall k :: 0 <= k < |d| ==> d[k] == NewDeck()[k]
      {
        var j := 0;
        while j < |Ranks|
          invariant 0 <= j <= 13 && |d| == 13 * i + j
          invariant forall k :: 0 <= k < |d| ==> d[k] == NewDeck()[k]
        {
          NewDeckAt(i, j);
          d := d + [Card(Suits[i], Ranks[j], false)];
          j := j + 1;
        }
        i := i + 1;
      }
    }

    /**
     * `_shuffle`: from the end down, swap each position with one drawn from
     * `[0, currentIndex)`; the deck ends up a rearrangement of itself.
     */
    method Shuffle(rolls: seq<nat>)
      modifies this`deck
      ensures multiset(deck) == multiset(old(deck))
      ensures multiset(FaceList(deck)) == multiset(FaceList(old(deck)))
    {
      var currentIndex := |deck|;
      var k := 0;
      while currentIndex != 0
        invariant 0 <= currentIndex <= |deck|
        invariant multiset(deck) == multiset(old(deck))
        invariant multiset(FaceList(deck)) == multiset(FaceList(old(deck)))
        decreases currentIndex
      {
        var randomIndex := Pick(rolls, k, currentIndex);
        k := k + 1;
        currentIndex := currentIndex - 1;
        SwapKeepsMultiset(deck, currentIndex, randomIndex);
        SwapKeepsMultiset(FaceList(deck), currentIndex, randomIndex);
        assert FaceList(deck[currentIndex := deck[randomIndex]][randomIndex := deck[currentIndex]])
          == FaceList(deck)[currentIndex := FaceList(deck)[randomIndex]][randomIndex := FaceList(deck)[currentIndex]];
        deck := deck[currentIndex := deck[randomIndex]][randomIndex := deck[currentIndex]];
      }
    }

    /** `draw(num)`: nothing from an empty deck, otherwise the first `num` cards (fewer if the deck is short). */
    method Draw(num: nat) returns (drawn: seq<Card>)
      modifies this`deck
      ensures |old(deck)| == 0 ==> drawn == [] && deck == old(deck)
      ensures |drawn| == if num < |old(deck)| then num else |old(deck)|
      ensures drawn + deck == old(deck)
    {
      if |deck| == 0 {
        return [];
      }
      var n := if num < |deck| then num else |deck|;
      drawn := deck[..n];
      deck := deck[n..];
    }

    /** `addCards(cards)`: the cards go after the existing deck, in order. */
    method AddCards(cards: seq<Card>)
      modifies this`deck
      ensures deck == old(deck) + cards
    {
      deck := deck + cards;
    }
  }

  // ---------------------------------------------------------------------
  // The board
  // ---------------------------------------------------------------------

  /** The faces held by a tableau, stack by stack. */
  function TableauFaces(t: seq<seq<Card>>): multiset<(Suit, string)> {
    if t == [] then multiset{} else TableauFaces(t[..|t| - 1]) + multiset(FaceList(t[|t| - 1]))
  }

  function TableauSize(t: seq<seq<Card>>): nat {
    if t == [] then 0 else TableauSize(t[..|t| - 1]) + |t[|t| - 1]|
  }

  lemma {:induction false} TableauFacesSize(t: seq<seq<Card>>)
    ensures |TableauFaces(t)| == TableauSize(t)
  {
    if t != [] {
      TableauFacesSize(t[..|t| - 1]);
    }
  }

  /** Stacks whose faces agree position by position hold the same faces. */
  lemma {:induction false} TableauFacesPointwise(t: seq<seq<Card>>, u: seq<seq<Card>>)
    requires |t| == |u| && forall i :: 0 <= i < |t| ==> FaceList(t[i]) == FaceList(u[i])
    ensures TableauFaces(t) == TableauFaces(u)
  {
    if t != [] {
      TableauFacesPointwise(t[..|t| - 1], u[..|u| - 1]);
    }
  }

  /** `stack.forEach((card, idx) => card.faceUp = (idx === stack.length - 1))`. */
  method RevealLast(stack: seq<Card>) returns (r: seq<Card>)
    ensures FaceList(r) == FaceList(stack)
    ensures forall j :: 0 <= j < |r| ==> (r[j].faceUp <==> j == |r| - 1)
  {
    r := stack;
    var idx := 0;
    while idx < |r|
      invariant 0 <= idx <= |r| == |stack|
      invariant FaceList(r) == FaceList(stack)
      invariant forall j :: 0 <= j < idx ==> (r[j].faceUp <==> j == |r| - 1)
    {
      r := r[idx := r[idx].(faceUp := idx == |r| - 1)];
      idx := idx + 1;
    }
  }

  /** The faces on a board made of these piles. */
  function BoardFaces(deck: seq<Card>, hand: seq<Card>, discard: seq<Card>, t: seq<seq<Card>>): multiset<(Suit, string)> {
    multiset(FaceList(deck)) + multiset(FaceList(hand)) + multiset(FaceList(discard)) + TableauFaces(t)
  }

  /** Turning the deck top face up and putting it at the end of the hand keeps the board's faces. */
  lemma TopToHandKeepsFaces(deck: seq<Card>, hand: seq<Card>, discard: seq<Card>, t: seq<seq<Card>>)
    requires |deck| > 0
    ensures BoardFaces(deck[1..], hand + [deck[0].(faceUp := true)], discard, t) == BoardFaces(deck, hand, discard, t)
  {
    FacesOfFirst(deck);
    FacesOfPush(hand, deck[0].(faceUp := true));
  }

  /** Turning the deck top face up and putting it at the end of the discard pile keeps the board's faces. */
  lemma TopToDiscardKeepsFaces(deck: seq<Card>, hand: seq<Card>, discard: seq<Card>, t: seq<seq<Card>>)
    requires |deck| > 0
    ensures BoardFaces(deck[1..], hand, discard + [deck[0].(faceUp := true)], t) == BoardFaces(deck, hand, discard, t)
  {
    FacesOfFirst(deck);
    FacesOfPush(discard, deck[0].(faceUp := true));
  }

  /** Moving the last hand card to the end of the discard pile keeps the board's faces. */
  lemma HandToDiscardKeepsFaces(deck: seq<Card>, hand: seq<Card>, discard: seq<Card>, t: seq<seq<Card>>)
    requires |hand| > 0
    ensures BoardFaces(deck, hand[..|hand| - 1], discard + [hand[|hand| - 1]], t) == BoardFaces(deck, hand, discard, t)
  {
    assert hand == hand[..|hand| - 1] + [hand[|hand| - 1]];
    FacesOfPush(hand[..|hand| - 1], hand[|hand| - 1]);
    FacesOfPush(discard, hand[|hand| - 1]);
  }

  /** Replacing an empty deck by a rearranged discard pile and emptying the discard keeps the board's faces. */
  lemma DiscardToDeckKeepsFaces(deck: seq<Card>, hand: seq<Card>, discard: seq<Card>, t: seq<seq<Card>>)
    requires multiset(FaceList(deck)) == multiset(FaceList(discard))
    ensures BoardFaces(deck, hand, [], t) == BoardFaces([], hand, discard, t)
  {
  }

  /** Flipping one tableau card keeps the board's faces. */
  lemma FlipKeepsFaces(deck: seq<Card>, hand: seq<Card>, discard: seq<Card>, t: seq<seq<Card>>, s: nat, c: nat)
    requires s < |t| && c < |t[s]|
    ensures BoardFaces(deck, hand, discard, t[s := t[s][c := t[s][c].(faceUp := true)]]) == BoardFaces(deck, hand, discard, t)
  {
    var u := t[s := t[s][c := t[s][c].(faceUp := true)]];
    assert FaceList(u[s]) == FaceList(t[s]);
    TableauFacesPointwise(u, t);
  }

  /** Dealing a stack off the top of the deck onto the end of the tableau keeps the faces. */
  lemma DealKeepsFaces(deck: seq<Card>, drawn: seq<Card>, stack: seq<Card>, t: seq<seq<Card>>)
    requires |drawn| <= |deck| && drawn == deck[..|drawn|] && FaceList(stack) == FaceList(drawn)
    ensures BoardFaces(deck[|drawn|..], [], [], t + [stack]) == BoardFaces(deck, [], [], t)
  {
    assert deck == drawn + deck[|drawn|..];
    FaceListAppend(drawn, deck[|drawn|..]);
    assert (t + [stack])[..|t|] == t;
  }

  /** Stack `k` holds `k + 1` cards and only its last card is face up. */
  ghost predicate DealtShape(t: seq<seq<Card>>) {
    forall k :: 0 <= k < |t| ==> |t[k]| == k + 1 && forall j :: 0 <= j <= k ==> (t[k][j].faceUp <==> j == k)
  }

  lemma DealShapeStep(t: seq<seq<Card>>, stack: seq<Card>)
    requires DealtShape(t) && |stack| == |t| + 1
    requires forall j :: 0 <= j < |stack| ==> (stack[j].faceUp <==> j == |stack| - 1)
    ensures DealtShape(t + [stack])
  {
  }

  /** The number of cards in the first `i` stacks of a fresh deal: 1 + 2 + ... + i. */
  function Dealt(i: nat): nat {
    if i == 0 then 0 else Dealt(i - 1) + i
  }

  lemma DealtValues()
    ensures Dealt(7) == 28 && forall i :: 0 <= i < 7 ==> Dealt(i) <= 21
  {
    assert Dealt(1) == 1 && Dealt(2) == 3 && Dealt(3) == 6 && Dealt(4) == 10;
    assert Dealt(5) == 15 && Dealt(6) == 21 && Dealt(7) == 28;
  }

  datatype DrawOutcome = DrewCard | Recycled | DeckEmpty | NoDeck
  datatype ClickOutcome = Flipped | Challenged | Ignored | Fault
  datatype MoveOutcome = MovedFromHand | MovedFromDeck | NoCards | MissingDeck

  /** The card a click flips: it exists, lies face down and is the last of its stack. */
  predicate FlipAllowed(t: seq<seq<Card>>, s: int, c: int) {
    0 <= s < |t| && 0 <= c < |t[s]| && !t[s][c].faceUp && c == |t[s]| - 1
  }

  /** `SolitaireApplication`: the game state and the deck object it draws from. */
  class SolitaireApp {
    var hand: seq<Card>
    var tableau: seq<seq<Card>>
    var discard: seq<Card>
    var cardDeck: CardDeck?

    /**
     * The board conservation law: deck, hand, discard and tableau together
     * hold each of the 52 faces exactly once.
     */
    ghost predicate Conserved()
      reads this, cardDeck
    {
      cardDeck != null && BoardFaces(cardDeck.deck, hand, discard, tableau) == multiset(FaceList(NewDeck()))
    }

    /** The number of cards on the board. */
    ghost function CardCount(): nat
      reads this, cardDeck
      requires cardDeck != null
    {
      |cardDeck.deck| + |hand| + |discard| + TableauSize(tableau)
    }

    /** A board that keeps the conservation law holds exactly 52 cards. */
    lemma ConservedCount()
      requires Conserved()
      ensures CardCount() == DeckSize
    {
      TableauFacesSize(tableau);
      assert |BoardFaces(cardDeck.deck, hand, discard, tableau)| == |FaceList(NewDeck())|;
    }

    /** The constructor: empty hand and discard, seven empty stacks, no deck until a reset. */
    constructor()
      ensures hand == [] && discard == [] && cardDeck == null
      ensures |tableau| == StackCount && forall i :: 0 <= i < StackCount ==> tableau[i] == []
    {
      var stacks: seq<seq<Card>> := [];
      var i := 0;
      while i < StackCount
        invariant 0 <= i <= StackCount && |stacks| == i
        invariant forall j :: 0 <= j < i ==> stacks[j] == []
      {
        stacks := stacks + [[]];
        i := i + 1;
      }
      hand := [];
      tableau := stacks;
      discard := [];
      cardDeck := null;
    }

    /**
     * `_onDrawCard`: the top of a non-empty deck goes face up to the end of
     * the hand; from an empty deck a non-empty discard pile is moved into
     * the deck, emptied and the deck reshuffled. Without a deck (before the
     * first reset) the handler throws and nothing changes.
     */
    method DrawCard(rolls: seq<nat>) returns (outcome: DrawOutcome)
      modifies this, cardDeck
      ensures cardDeck == old(cardDeck) && tableau == old(tableau)
      ensures old(cardDeck) == null ==> outcome == NoDeck && hand == old(hand) && discard == old(discard)
      ensures old(cardDeck) != null && |old(cardDeck.deck)| > 0 ==>
        outcome == DrewCard && hand == old(hand) + [old(cardDeck.deck)[0].(faceUp := true)] &&
        cardDeck.deck == old(cardDeck.deck)[1..] && discard == old(discard)
      ensures old(cardDeck) != null && |old(cardDeck.deck)| == 0 && |old(discard)| > 0 ==>
        outcome == Recycled && multiset(cardDeck.deck) == multiset(old(discard)) && discard == [] && hand == old(hand)
      ensures old(cardDeck) != null && |old(cardDeck.deck)| == 0 && |old(discard)| == 0 ==>
        outcome == DeckEmpty && cardDeck.deck == [] && hand == old(hand) && discard == old(discard)
      ensures old(Conserved()) ==> Conserved()
    {
      if cardDeck == null {
        return NoDeck;
      }
      ghost var deck0, hand0, discard0 := cardDeck.deck, hand, discard;
      if |cardDeck.deck| > 0 {
        var drawnCards := cardDeck.Draw(1);
        assert drawnCards[0] == deck0[0] && cardDeck.deck == deck0[1..];
        hand := hand + [drawnCards[0].(faceUp := true)];
        TopToHandKeepsFaces(deck0, hand0, discard0, tableau);
        outcome := DrewCard;
      } else if |discard| > 0 {
        cardDeck.AddCards(discard);
        assert cardDeck.deck == discard;
        discard := [];
        cardDeck.Shuffle(rolls);
        DiscardToDeckKeepsFaces(cardDeck.deck, hand0, discard0, tableau);
        outcome := Recycled;
      } else {
        outcome := DeckEmpty;
      }
    }

    /**
     * `_onCardClick` on the parsed stack and card indices (None: not a
     * number). Only the face-down last card of a stack is flipped; any other
     * existing card goes to the challenge phase, and an index that names no
     * card makes the handler throw. Only a flip changes the board.
     */
    method CardClick(stackIndex: Option<int>, cardIndex: Option<int>) returns (outcome: ClickOutcome)
      modifies this`tableau
      ensures outcome == Flipped <==>
        stackIndex.Some? && cardIndex.Some? && FlipAllowed(old(tableau), stackIndex.value, cardIndex.value)
      ensures outcome == Flipped ==>
        var s, c := stackIndex.value, cardIndex.value;
        tableau == old(tableau)[s := old(tableau)[s][c := old(tableau)[s][c].(faceUp := true)]]
      ensures outcome != Flipped ==> tableau == old(tableau)
      ensures outcome == Ignored <==> stackIndex.None? || cardIndex.None?
      ensures outcome == Fault <==>
        stackIndex.Some? && cardIndex.Some? &&
        !(0 <= stackIndex.value < |old(tableau)| && 0 <= cardIndex.value < |old(tableau)[stackIndex.value]|)
      ensures old(Conserved()) ==> Conserved()
    {
      if stackIndex.None? || cardIndex.None? {
        return Ignored;
      }
      var s, c := stackIndex.value, cardIndex.value;
      if !(0 <= s < |tableau|) || !(0 <= c < |tableau[s]|) {
        return Fault;
      }
      var card := tableau[s][c];
      if !card.faceUp && c == |tableau[s]| - 1 {
        if cardDeck != null {
          FlipKeepsFaces(cardDeck.deck, hand, discard, tableau, s, c);
        }
        tableau := tableau[s := tableau[s][c := card.(faceUp := true)]];
        return Flipped;
      }
      outcome := Challenged;
    }

    /**
     * `_onMakeMove`: the last hand card, or else the top of the deck turned
     * face up, goes to the end of the discard pile. With hand and deck both
     * empty the move is refused; with an empty hand and no deck the handler
     * throws. Either way nothing changes then.
     */
    method MakeMove() returns (outcome: MoveOutcome)
      modifies this, cardDeck
      ensures cardDeck == old(cardDeck) && tableau == old(tableau)
      ensures |old(hand)| > 0 ==>
        outcome == MovedFromHand && hand == old(hand)[..|old(hand)| - 1] &&
        discard == old(discard) + [old(hand)[|old(hand)| - 1]] &&
        (old(cardDeck) != null ==> cardDeck.deck == old(cardDeck.deck))
      ensures |old(hand)| == 0 && old(cardDeck) == null ==> outcome == MissingDeck && hand == old(hand) && discard == old(discard)
      ensures |old(hand)| == 0 && old(cardDeck) != null && |old(cardDeck.deck)| == 0 ==>
        outcome == NoCards && hand == old(hand) && discard == old(discard) && cardDeck.deck == old(cardDeck.deck)
      ensures |old(hand)| == 0 && old(cardDeck) != null && |old(cardDeck.deck)| > 0 ==>
        outcome == MovedFromDeck && hand == old(hand) &&
        discard == old(discard) + [old(cardDeck.deck)[0].(faceUp := true)] && cardDeck.deck == old(cardDeck.deck)[1..]
      ensures old(Conserved()) ==> Conserved()
    {
      if |hand| == 0 {
        if cardDeck == null {
          return MissingDeck;
        }
        if |cardDeck.deck| == 0 {
          return NoCards;
        }
      }
      if |hand| > 0 {
        var movedCard := hand[|hand| - 1];
        if cardDeck != null {
          HandToDiscardKeepsFaces(cardDeck.deck, hand, discard, tableau);
        }
        hand := hand[..|hand| - 1];
        discard := discard + [movedCard];
        outcome := MovedFromHand;
      } else {
        ghost var deck0 := cardDeck.deck;
        TopToDiscardKeepsFaces(deck0, hand, discard, tableau);
        // the deck is not empty here, so `draw(1)` yields exactly one card
        var drawn := cardDeck.Draw(1);
        assert drawn[0] == deck0[0] && cardDeck.deck == deck0[1..];
        var movedCard := drawn[0].(faceUp := true);
        discard := discard + [movedCard];
        outcome := MovedFromDeck;
      }
    }

    /**
     * `_onResetGame`: a fresh shuffled deck, empty hand and discard, and
     * seven stacks dealt from the top of the deck with sizes 1 to 7 and only
     * their last card face up; 24 cards stay in the deck.
     */
    method ResetGame(rolls: seq<nat>)
      modifies this
      ensures fresh(cardDeck) && hand == [] && discard == []
      ensures |tableau| == StackCount
      ensures forall i :: 0 <= i < StackCount ==> |tableau[i]| == i + 1
      ensures forall i, j :: 0 <= i < StackCount && 0 <= j <= i ==> (tableau[i][j].faceUp <==> j == i)
      ensures |cardDeck.deck| == DeckSize - 28
      ensures Conserved()
    {
      var newDeck := new CardDeck(rolls);
      cardDeck := newDeck;
      hand := [];
      discard := [];
      tableau := [];
      var i := 0;
      while i < StackCount
        modifies this, newDeck
        invariant 0 <= i <= StackCount && |tableau| == i
        invariant cardDeck == newDeck && hand == [] && discard == []
        invariant DealtShape(tableau)
        invariant |newDeck.deck| == DeckSize - Dealt(i)
        invariant BoardFaces(newDeck.deck, [], [], tableau) == multiset(FaceList(NewDeck()))
      {
        DealtValues();
        ghost var before := newDeck.deck;
        var stack := newDeck.Draw(i + 1);
        ghost var drawn := stack;
        stack := RevealLast(stack);
        DealKeepsFaces(before, drawn, stack, tableau);
        DealShapeStep(tableau, stack);
        tableau := tableau + [stack];
        i := i + 1;
      }
      DealtValues();
    }
  }
}
