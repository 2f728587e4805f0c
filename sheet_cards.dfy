/**
 * Cards and allocation areas of the drag-and-drop character-creation sheet
 * (scripts/CharacterCreationWizardSheet.mjs): the 54-card deck, the
 * `allocatedCards` object as an ordered list of named buckets, and the
 * per-area capacity and attribute suit rule applied to a proposed area.
 */
module SheetCards {
  import opened Common

  datatype Suit = Clubs | Diamonds | Hearts | Spades | Wild
  datatype Rank = Ace | Pip(n: int) | Jack | Queen | King | FoolRank | JokerRank

  /** A card is identified by its suit and rank, the pair the drop handler matches on. */
  datatype Card = Card(suit: Suit, rank: Rank)

  const StandardSuits: seq<Suit> := [Clubs, Diamonds, Hearts, Spades]
  const Ranks: seq<Rank> :=
    [Ace, Pip(2), Pip(3), Pip(4), Pip(5), Pip(6), Pip(7), Pip(8), Pip(9), Pip(10), Jack, Queen, King]
  const DeckSize: nat := 54

  /** The deck `_createDeck` builds: suit by suit, rank by rank, then the fool and the joker. */
  function FullDeck(): (d: seq<Card>)
    ensures |d| == DeckSize
  {
    seq(DeckSize, k requires 0 <= k < DeckSize =>
      if k < 52 then Card(StandardSuits[k / 13], Ranks[k % 13])
      else if k == 52 then Card(Wild, FoolRank)
      else Card(Wild, JokerRank))
  }

  /** Position of a rank in `Ranks`; shows that the thirteen ranks are different. */
  function RankIndex(r: Rank): int {
    match r
    case Ace => 0
    case Pip(n) => n - 1
    case Jack => 10
    case Queen => 11
    case King => 12
    case FoolRank => 13
    case JokerRank => 14
  }

  function SuitIndex(s: Suit): int {
    match s
    case Clubs => 0
    case Diamonds => 1
    case Hearts => 2
    case Spades => 3
    case Wild => 4
  }

  lemma RanksIndexed(j: int)
    requires 0 <= j < 13
    ensures RankIndex(Ranks[j]) == j
  {
  }

  /** The deck holds 54 different cards: every standard (suit, rank) pair once, then two wild cards. */
  lemma FullDeckDistinct()
    ensures Distinct(FullDeck())
    ensures forall k :: 0 <= k < 52 ==> FullDeck()[k].suit != Wild
    ensures FullDeck()[52].suit == Wild && FullDeck()[53].suit == Wild
  {
    var d := FullDeck();
    forall i, j | 0 <= i < j < |d| ensures d[i] != d[j] {
      if j < 52 {
        RanksIndexed(i % 13);
        RanksIndexed(j % 13);
        assert SuitIndex(d[i].suit) == i / 13 && SuitIndex(d[j].suit) == j / 13;
        assert RankIndex(d[i].rank) == i % 13 && RankIndex(d[j].rank) == j % 13;
      } else if i < 52 {
        assert d[i].suit != Wild;
      }
    }
  }

  /** Every standard suit and rank pair is in the deck. */
  lemma FullDeckComplete(s: Suit, r: Rank)
    requires s != Wild && r in Ranks
    ensures Card(s, r) in FullDeck()
  {
    var i := SuitIndex(s);
    var j :| 0 <= j < 13 && Ranks[j] == r;
    assert FullDeck()[13 * i + j] == Card(s, r);
  }

  // ---------------------------------------------------------------------
  // The `allocatedCards` object: named arrays of cards, in key order.
  // ---------------------------------------------------------------------

  /** An allocation area named by a drop target's `data-allocation-type`. */
  datatype Area = Attributes | Skills | Resonances | Gear | Fate | OtherArea(name: string)

  /** The `data-allocation-type` string (and `allocatedCards` key) of an area. */
  function AreaKey(a: Area): string {
    match a
    case Attributes => "attributes"
    case Skills => "skills"
    case Resonances => "resonances"
    case Gear => "gear"
    case Fate => "fate"
    case OtherArea(name) => name
  }

  /**
   * An area some non-empty `data-allocation-type` string can name: an
   * `OtherArea` never carries one of the five keys or the empty string.
   */
  predicate WellNamed(a: Area) {
    a.OtherArea? ==>
      a.name != "" && a.name != "attributes" && a.name != "skills" &&
      a.name != "resonances" && a.name != "gear" && a.name != "fate"
  }

  /** The area a non-empty `data-allocation-type` string names. */
  function AreaNamed(key: string): (a: Area)
    requires key != ""
    ensures WellNamed(a) && AreaKey(a) == key
  {
    if key == "attributes" then Attributes
    else if key == "skills" then Skills
    else if key == "resonances" then Resonances
    else if key == "gear" then Gear
    else if key == "fate" then Fate
    else OtherArea(key)
  }

  /** Every well-named area is the one its own key names, so keys and areas correspond one to one. */
  lemma AreaKeyRoundTrip(a: Area)
    requires WellNamed(a)
    ensures AreaKey(a) != "" && AreaNamed(AreaKey(a)) == a
  {
  }

  /** One key of `allocatedCards` with its array of cards. */
  datatype Bucket = Bucket(area: Area, cards: seq<Card>)

  const FiveAreas: seq<Area> := [Attributes, Skills, Resonances, Gear, Fate]

  predicate HasArea(b: seq<Bucket>, a: Area) {
    exists i :: 0 <= i < |b| && b[i].area == a
  }

  /** `allocatedCards[a] || []`: the cards of an area, empty when the key is missing. */
  function Lookup(b: seq<Bucket>, a: Area): (cs: seq<Card>)
    ensures !HasArea(b, a) ==> cs == []
  {
    if b == [] then []
    else if b[0].area == a then b[0].cards
    else Lookup(b[1..], a)
  }

  /** `allocatedCards[a] = cs`: replaces the array of an existing key, or adds the key at the end. */
  function Store(b: seq<Bucket>, a: Area, cs: seq<Card>): seq<Bucket> {
    if b == [] then [Bucket(a, cs)]
    else if b[0].area == a then [Bucket(a, cs)] + b[1..]
    else [b[0]] + Store(b[1..], a, cs)
  }

  /** No key occurs twice, as in a JavaScript object. */
  predicate DistinctAreas(b: seq<Bucket>) {
    forall i, j :: 0 <= i < j < |b| ==> b[i].area != b[j].area
  }

  /** `Object.values(allocated).reduce((sum, arr) => sum + arr.length, 0)`. */
  function Total(b: seq<Bucket>): nat {
    if b == [] then 0 else |b[0].cards| + Total(b[1..])
  }

  /** Storing under a key changes what that key holds and nothing else. */
  lemma {:induction false} LookupStore(b: seq<Bucket>, a: Area, cs: seq<Card>, x: Area)
    ensures Lookup(Store(b, a, cs), x) == if x == a then cs else Lookup(b, x)
    ensures HasArea(Store(b, a, cs), x) <==> x == a || HasArea(b, x)
  {
    HasAreaStore(b, a, cs, x);
    if b == [] {
    } else if b[0].area == a {
      assert Store(b, a, cs)[1..] == b[1..];
    } else {
      LookupStore(b[1..], a, cs, x);
    }
  }

  lemma {:induction false} HasAreaStore(b: seq<Bucket>, a: Area, cs: seq<Card>, x: Area)
    ensures HasArea(Store(b, a, cs), x) <==> x == a || HasArea(b, x)
  {
    var s := Store(b, a, cs);
    if b == [] {
      assert s[0].area == a;
    } else {
      HasAreaCons(b, x);
      HasAreaCons(s, x);
      if b[0].area == a {
        assert s[1..] == b[1..];
      } else {
        HasAreaStore(b[1..], a, cs, x);
        assert s[0] == b[0] && s[1..] == Store(b[1..], a, cs);
      }
    }
  }

  lemma HasAreaCons(b: seq<Bucket>, x: Area)
    requires b != []
    ensures HasArea(b, x) <==> b[0].area == x || HasArea(b[1..], x)
  {
    if HasArea(b, x) && b[0].area != x {
      var i :| 0 <= i < |b| && b[i].area == x;
      assert b[1..][i - 1].area == x;
    }
    if HasArea(b[1..], x) {
      var i :| 0 <= i < |b[1..]| && b[1..][i].area == x;
      assert b[i + 1].area == x;
    }
  }

  /** Storing keeps keys distinct. */
  lemma {:induction false} StoreDistinct(b: seq<Bucket>, a: Area, cs: seq<Card>)
    requires DistinctAreas(b)
    ensures DistinctAreas(Store(b, a, cs))
  {
    if b == [] {
    } else if b[0].area == a {
      var s := Store(b, a, cs);
      assert s[1..] == b[1..];
      forall i, j | 0 <= i < j < |s| ensures s[i].area != s[j].area {
        assert s[j] == b[j];
        if i > 0 { assert s[i] == b[i]; }
      }
    } else {
      StoreDistinct(b[1..], a, cs);
      var s := Store(b, a, cs);
      var rest := Store(b[1..], a, cs);
      assert s == [b[0]] + rest;
      forall i, j | 0 <= i < j < |s| ensures s[i].area != s[j].area {
        if i == 0 {
          assert s[j] == rest[j - 1];
          LookupStore(b[1..], a, cs, b[0].area);
          assert HasArea(rest, s[j].area);
          assert !HasArea(b[1..], b[0].area) by {
            forall k | 0 <= k < |b[1..]| ensures b[1..][k].area != b[0].area {
              assert b[1..][k] == b[k + 1];
            }
          }
        } else {
          assert s[i] == rest[i - 1] && s[j] == rest[j - 1];
        }
      }
    }
  }

  /** The running total moves by exactly the change in the stored key's size. */
  lemma {:induction false} TotalStore(b: seq<Bucket>, a: Area, cs: seq<Card>)
    requires DistinctAreas(b)
    ensures Total(Store(b, a, cs)) + |Lookup(b, a)| == Total(b) + |cs|
  {
    if b == [] {
    } else if b[0].area == a {
      assert Store(b, a, cs)[1..] == b[1..];
    } else {
      assert DistinctAreas(b[1..]) by {
        forall i, j | 0 <= i < j < |b[1..]| ensures b[1..][i].area != b[1..][j].area {
          assert b[1..][i] == b[i + 1] && b[1..][j] == b[j + 1];
        }
      }
      TotalStore(b[1..], a, cs);
      assert Store(b, a, cs)[1..] == Store(b[1..], a, cs);
    }
  }

  // ---------------------------------------------------------------------
  // _validateAllocation
  // ---------------------------------------------------------------------

  /** The largest number of cards an area may hold; areas without a rule are unbounded. */
  function Capacity(a: Area): Option<nat> {
    match a
    case Attributes => Some(4)
    case Skills => Some(2)
    case Resonances => Some(1)
    case Gear => Some(2)
    case Fate => Some(1)
    case OtherArea(_) => None
  }

  /** `cards.filter(card => card.suit === s).length`. */
  function SuitCount(cs: seq<Card>, s: Suit): nat {
    if cs == [] then 0 else (if cs[0].suit == s then 1 else 0) + SuitCount(cs[1..], s)
  }

  /**
   * `_validateAllocation(type, proposed, newCard)`: `proposed` is the area's
   * cards with the new card already appended.
   */
  function ValidateAllocation(a: Area, proposed: seq<Card>, newCard: Card): bool {
    match a
    case Attributes =>
      !(|proposed| > 4) && !(newCard.suit != Wild && SuitCount(proposed, newCard.suit) > 1)
    case Skills => !(|proposed| > 2)
    case Resonances => !(|proposed| > 1)
    case Gear => !(|proposed| > 2)
    case Fate => !(|proposed| > 1)
    case OtherArea(_) => true
  }

  lemma {:induction false} SuitCountAppend(cs: seq<Card>, c: Card, s: Suit)
    ensures SuitCount(cs + [c], s) == SuitCount(cs, s) + (if c.suit == s then 1 else 0)
  {
    if cs == [] {
      assert [c][1..] == [];
    } else {
      assert (cs + [c])[1..] == cs[1..] + [c];
      SuitCountAppend(cs[1..], c, s);
    }
  }

  lemma {:induction false} SuitCountZero(cs: seq<Card>, s: Suit)
    ensures SuitCount(cs, s) == 0 <==> forall x :: x in cs ==> x.suit != s
  {
    if cs != [] {
      SuitCountZero(cs[1..], s);
      assert forall x :: x in cs <==> x == cs[0] || x in cs[1..];
    }
  }

  /**
   * A drop of `c` onto an area already holding `existing` passes validation
   * exactly when the area has room for one more card and, for attributes, no
   * card of the same standard suit is there yet; wild cards are never refused
   * on suit, and areas without a rule accept every card.
   */
  lemma DropAcceptedIff(a: Area, existing: seq<Card>, c: Card)
    ensures ValidateAllocation(a, existing + [c], c) <==>
      (Capacity(a).Some? ==> |existing| < Capacity(a).value) &&
      (a == Attributes && c.suit != Wild ==> forall x :: x in existing ==> x.suit != c.suit)
  {
    SuitCountAppend(existing, c, c.suit);
    SuitCountZero(existing, c.suit);
  }

  /** The rules an area's contents obey when every card in it was admitted by a validated drop. */
  predicate AreaWithinRules(a: Area, cs: seq<Card>) {
    (Capacity(a).Some? ==> |cs| <= Capacity(a).value) &&
    (a == Attributes ==> forall i, j :: 0 <= i < j < |cs| && cs[i].suit != Wild ==> cs[i].suit != cs[j].suit)
  }

  /** A validated drop keeps an area within its rules. */
  lemma DropKeepsRules(a: Area, existing: seq<Card>, c: Card)
    requires AreaWithinRules(a, existing)
    requires ValidateAllocation(a, existing + [c], c)
    ensures AreaWithinRules(a, existing + [c])
  {
    DropAcceptedIff(a, existing, c);
    var p := existing + [c];
    if a == Attributes {
      forall i, j | 0 <= i < j < |p| && p[i].suit != Wild ensures p[i].suit != p[j].suit {
        if j == |existing| {
          assert p[i] in existing;
        } else {
          assert p[i] == existing[i] && p[j] == existing[j];
        }
      }
    }
  }
}
