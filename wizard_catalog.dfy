/**
 * The card catalog and the constrained draw of the radio-button wizard
 * (scripts/character-creation-wizard.mjs): 52 standard cards, two jokers
 * and the fool, each with a string id, and a ten-card draw that always
 * holds all four standard suits.
 */
module WizardCatalog {
  import opened Common

  datatype Suit = Clubs | Diamonds | Hearts | Spades | Black | Red | Multi

  /** The five card categories of `cardCategoryLimits`. */
  datatype Category = Attributes | Skills | Resonances | Gear | Fate

  /** A radio button's value: `'none'` or a category name. */
  datatype Choice = NoCategory | Assign(category: Category)

  /** A catalog card; `allocatedTo` is `null` (None) until a radio button is chosen. */
  datatype Card = Card(id: string, rank: string, suit: Suit, labelText: string, value: int, allocatedTo: Option<Choice>)

  const StandardSuits: seq<Suit> := [Clubs, Diamonds, Hearts, Spades]

  /** The key of a suit in the `suits` table, as it appears in ids. */
  function SuitKey(s: Suit): string {
    match s
    case Clubs => "clubs"
    case Diamonds => "diamonds"
    case Hearts => "hearts"
    case Spades => "spades"
    case Black => "black"
    case Red => "red"
    case Multi => "multi"
  }

  /** The display name of a standard suit. */
  function SuitName(s: Suit): string {
    match s
    case Clubs => "Clubs"
    case Diamonds => "Diamonds"
    case Hearts => "Hearts"
    case Spades => "Spades"
    case Black => "Black"
    case Red => "Red"
    case Multi => "Multi"
  }

  /** The keys of the `ranks` table, in iteration order; rank `RankKeys[j]` has value `j + 2`. */
  const RankKeys: seq<string> := ["2", "3", "4", "5", "6", "7", "8", "9", "10", "J", "Q", "K", "A"]
  const RankLabels: seq<string> :=
    ["2", "3", "4", "5", "6", "7", "8", "9", "10", "Jack", "Queen", "King", "Ace"]

  /** `toLowerCase` on the ASCII letters that rank keys use. */
  function LowerChar(c: char): char {
    if 'A' <= c <= 'Z' then (c as int + 32) as char else c
  }

  function Lower(s: string): (r: string)
    ensures |r| == |s|
  {
    seq(|s|, i requires 0 <= i < |s| => LowerChar(s[i]))
  }

  /** `${rankKey.toLowerCase()}-${suitKey}`. */
  function StandardId(j: nat, s: Suit): string
    requires j < 13
  {
    Lower(RankKeys[j]) + "-" + SuitKey(s)
  }

  /** The card pushed for suit `StandardSuits[i]` and rank `RankKeys[j]`. */
  function StandardCard(i: nat, j: nat): Card
    requires i < 4 && j < 13
  {
    var suit := StandardSuits[i];
    Card(StandardId(j, suit), RankKeys[j], suit, RankLabels[j] + " of " + SuitName(suit), j + 2, None)
  }

  const BlackJoker: Card := Card("joker-black", "Joker", Black, "Black Joker", 15, None)
  const RedJoker: Card := Card("joker-red", "Joker", Red, "Red Joker", 15, None)
  const Fool: Card := Card("fool", "Fool", Multi, "Fool Card", 16, None)
  const CatalogSize: nat := 55

  /** The suit row of standard position `k`: positions 0-12 are clubs, 13-25 diamonds, and so on. */
  function Row(k: nat): (i: nat)
    requires k < 52
    ensures i < 4 && 13 * i <= k < 13 * i + 13
  {
    if k < 13 then 0 else if k < 26 then 1 else if k < 39 then 2 else 3
  }

  /** The card at position `k` of the catalog, in the order `_getFullDeck` pushes them. */
  function CatalogCard(k: nat): Card
    requires k < CatalogSize
  {
    if k < 52 then StandardCard(Row(k), k - 13 * Row(k))
    else if k == 52 then BlackJoker
    else if k == 53 then RedJoker
    else Fool
  }

  function FullDeck(): (d: seq<Card>)
    ensures |d| == CatalogSize
  {
    seq(CatalogSize, k requires 0 <= k < CatalogSize => CatalogCard(k))
  }

  lemma CatalogCardAt(i: nat, j: nat)
    requires i < 4 && j < 13
    ensures 13 * i + j < CatalogSize && CatalogCard(13 * i + j) == StandardCard(i, j)
  {
    assert Row(13 * i + j) == i;
  }

  /** `_getFullDeck`: for each suit, for each rank, push a card; then the jokers and the fool. */
  method GetFullDeck() returns (deck: seq<Card>)
    ensures deck == FullDeck()
  {
    deck := [];
    var i := 0;
    while i < 4
      invariant 0 <= i <= 4
      invariant |deck| == 13 * i
      invariant forall k :: 0 <= k < |deck| ==> deck[k] == CatalogCard(k)
    {
      var j := 0;
      while j < 13
        invariant 0 <= j <= 13
        invariant |deck| == 13 * i + j
        invariant forall k :: 0 <= k < |deck| ==> deck[k] == CatalogCard(k)
      {
        CatalogCardAt(i, j);
        deck := deck + [StandardCard(i, j)];
        j := j + 1;
      }
      i := i + 1;
    }
    deck := deck + [BlackJoker];
    deck := deck + [RedJoker];
    deck := deck + [Fool];
  }

  // ---------------------------------------------------------------------
  // What the catalog promises
  // ---------------------------------------------------------------------

  predicate DistinctIds(cards: seq<Card>) {
    forall i, j :: 0 <= i < j < |cards| ==> cards[i].id != cards[j].id
  }

  function CountSuit(cards: seq<Card>, s: Suit): nat {
    if cards == [] then 0 else (if cards[0].suit == s then 1 else 0) + CountSuit(cards[1..], s)
  }

  predicate IsStandard(s: Suit) {
    s == Clubs || s == Diamonds || s == Hearts || s == Spades
  }

  lemma {:induction false} CountSuitAppend(a: seq<Card>, b: seq<Card>, s: Suit)
    ensures CountSuit(a + b, s) == CountSuit(a, s) + CountSuit(b, s)
  {
    if a == [] {
      assert a + b == b;
    } else {
      assert (a + b)[1..] == a[1..] + b;
      CountSuitAppend(a[1..], b, s);
    }
  }

  lemma {:induction false} CountSuitUniform(cards: seq<Card>, t: Suit, s: Suit)
    requires forall c :: c in cards ==> c.suit == t
    ensures CountSuit(cards, s) == if s == t then |cards| else 0
  {
    if cards != [] {
      assert cards[0] in cards;
      CountSuitUniform(cards[1..], t, s);
    }
  }

  /** A rank key written in lower case never holds '-', and the thirteen are pairwise different. */
  lemma LowerRankKeys()
    ensures forall j :: 0 <= j < 13 ==> '-' !in Lower(RankKeys[j]) && |Lower(RankKeys[j])| <= 2
    ensures forall a, b :: 0 <= a < b < 13 ==> Lower(RankKeys[a]) != Lower(RankKeys[b])
  {
    var ids := ["2", "3", "4", "5", "6", "7", "8", "9", "10", "j", "q", "k", "a"];
    forall j | 0 <= j < 13 ensures Lower(RankKeys[j]) == ids[j] {
      assert Lower(RankKeys[j])[0] == ids[j][0];
    }
    forall a, b | 0 <= a < b < 13 ensures ids[a] != ids[b] {
      assert ids[a][0] != ids[b][0];
    }
  }

  /** Joining at a dash is injective when the left parts hold no dash. */
  lemma DashJoinInjective(x: string, y: string, u: string, v: string)
    requires '-' !in x && '-' !in u
    ensures x + "-" + y == u + "-" + v <==> x == u && y == v
  {
    var w1 := x + "-" + y;
    var w2 := u + "-" + v;
    if x == u && y == v {
    } else if |x| < |u| {
      assert w1[|x|] != w2[|x|];
    } else if |u| < |x| {
      assert w1[|u|] != w2[|u|];
    } else if x != u {
      var k :| 0 <= k < |x| && x[k] != u[k];
      assert w1[k] != w2[k];
    } else if |y| != |v| {
      assert |w1| != |w2|;
    } else {
      var k :| 0 <= k < |y| && y[k] != v[k];
      assert w1[|x| + 1 + k] != w2[|x| + 1 + k];
    }
  }

  /** The seven suit keys differ pairwise (their first letters already do). */
  lemma SuitKeysDistinct()
    ensures forall s: Suit, t: Suit :: s != t ==> SuitKey(s) != SuitKey(t)
  {
    forall s: Suit, t: Suit | s != t ensures SuitKey(s) != SuitKey(t) {
      assert SuitKey(s)[0] != SuitKey(t)[0];
    }
  }

  /** Catalog positions `13 * i` to `13 * i + 12` all hold suit `StandardSuits[i]`. */
  lemma RowCount(i: nat, s: Suit)
    requires i < 4
    ensures CountSuit(FullDeck()[13 * i .. 13 * i + 13], s) == if s == StandardSuits[i] then 13 else 0
  {
    var row := FullDeck()[13 * i .. 13 * i + 13];
    forall j | 0 <= j < 13 ensures row[j].suit == StandardSuits[i] {
      CatalogCardAt(i, j);
      assert row[j] == FullDeck()[13 * i + j];
    }
    assert forall c: Card :: c in row ==> c.suit == StandardSuits[i];
    CountSuitUniform(row, StandardSuits[i], s);
  }

  /**
   * `_getFullDeck` holds thirteen cards of each standard suit and one card of
   * each of the suits black, red and multi.
   */
  lemma FullDeckSuitCounts(s: Suit)
    ensures CountSuit(FullDeck(), s) == if IsStandard(s) then 13 else 1
  {
    var d := FullDeck();
    assert d[..26] == d[..13] + d[13..26];
    assert d[..39] == d[..26] + d[26..39];
    assert d[..52] == d[..39] + d[39..52];
    assert d == d[..52] + d[52..];
    CountSuitAppend(d[..52], d[52..], s);
    CountSuitAppend(d[..39], d[39..52], s);
    CountSuitAppend(d[..26], d[26..39], s);
    CountSuitAppend(d[..13], d[13..26], s);
    assert d[..13] == d[0..13];
    RowCount(0, s);
    RowCount(1, s);
    RowCount(2, s);
    RowCount(3, s);
    TailCount(s);
  }

  lemma TailCount(s: Suit)
    ensures CountSuit(FullDeck()[52..], s) == if IsStandard(s) then 0 else 1
  {
    var tail := FullDeck()[52..];
    assert tail == [BlackJoker, RedJoker, Fool];
    assert tail[1..] == [RedJoker, Fool];
    assert tail[1..][1..] == [Fool];
    assert tail[1..][1..][1..] == [];
  }

  /**
   * Every catalog card starts unallocated; standard cards are worth 2 to 14,
   * the jokers 15 and the fool 16.
   */
  lemma FullDeckValues(c: Card)
    requires c in FullDeck()
    ensures c.allocatedTo == None
    ensures IsStandard(c.suit) ==> 2 <= c.value <= 14
    ensures (c.suit == Black || c.suit == Red) ==> c.value == 15
    ensures c.suit == Multi ==> c.value == 16
  {
    var k :| 0 <= k < CatalogSize && FullDeck()[k] == c;
  }

  /** Two different (suit, rank) positions give different ids. */
  lemma StandardIdsDiffer(i1: nat, j1: nat, i2: nat, j2: nat)
    requires i1 < 4 && j1 < 13 && i2 < 4 && j2 < 13 && (i1 != i2 || j1 != j2)
    ensures StandardId(j1, StandardSuits[i1]) != StandardId(j2, StandardSuits[i2])
  {
    LowerRankKeys();
    SuitKeysDistinct();
    DashJoinInjective(Lower(RankKeys[j1]), SuitKey(StandardSuits[i1]), Lower(RankKeys[j2]), SuitKey(StandardSuits[i2]));
  }

  /** No standard id is the id of a joker or of the fool. */
  lemma StandardIdNotSpecial(j: nat, s: Suit)
    requires j < 13
    ensures StandardId(j, s) != BlackJoker.id && StandardId(j, s) != RedJoker.id && StandardId(j, s) != Fool.id
  {
    LowerRankKeys();
    var x := Lower(RankKeys[j]);
    assert StandardId(j, s)[|x|] == '-';
    assert '-' !in Fool.id;
    assert x != "joker";
    DashJoinInjective(x, SuitKey(s), "joker", "black");
    DashJoinInjective(x, SuitKey(s), "joker", "red");
  }

  /** Two catalog positions never share an id. */
  lemma FullDeckIdsDistinct()
    ensures DistinctIds(FullDeck())
  {
    var d := FullDeck();
    forall a, b | 0 <= a < b < |d| ensures d[a].id != d[b].id {
      if b < 52 {
        StandardIdsDiffer(Row(a), a - 13 * Row(a), Row(b), b - 13 * Row(b));
      } else if a < 52 {
        StandardIdNotSpecial(a - 13 * Row(a), StandardSuits[Row(a)]);
      }
    }
  }

  /** A catalog card is determined by its id. */
  lemma CatalogIdDetermines(c1: Card, c2: Card)
    requires c1 in FullDeck() && c2 in FullDeck()
    ensures c1.id == c2.id <==> c1 == c2
  {
    FullDeckIdsDistinct();
    var d := FullDeck();
    var a :| 0 <= a < |d| && d[a] == c1;
    var b :| 0 <= b < |d| && d[b] == c2;
    if a < b {
      assert d[a].id != d[b].id;
    } else if b < a {
      assert d[b].id != d[a].id;
    }
  }

  /** Different catalog cards have different ids. */
  lemma DistinctCatalogCardsHaveDistinctIds(cards: seq<Card>)
    requires Distinct(cards) && forall c :: c in cards ==> c in FullDeck()
    ensures DistinctIds(cards)
  {
    forall i, j | 0 <= i < j < |cards| ensures cards[i].id != cards[j].id {
      CatalogIdDetermines(cards[i], cards[j]);
    }
  }

  // ---------------------------------------------------------------------
  // The ten-card draw
  // ---------------------------------------------------------------------

  /** The four standard suits all occur among `cards`. */
  predicate HasAllStandardSuits(cards: seq<Card>) {
    forall s | s in StandardSuits :: exists c | c in cards :: c.suit == s
  }

  /** What `_drawInitialCards` promises of its `cards`. */
  predicate ValidDraw(cards: seq<Card>) {
    |cards| == 10 && DistinctIds(cards) && HasAllStandardSuits(cards) &&
    forall c | c in cards :: c in FullDeck() && c.allocatedTo == None
  }

  /** `Array.from({length: n}, (_, i) => i)`. */
  function Indices(n: nat): (r: seq<nat>)
    ensures |r| == n && Distinct(r)
    ensures forall k :: 0 <= k < n ==> r[k] == k
  {
    seq(n, k requires 0 <= k < n => k)
  }

  /** Splicing out position `r` keeps every other element. */
  lemma SpliceOut<T>(s: seq<T>, r: nat)
    requires r < |s|
    ensures multiset(s[..r] + s[r + 1..]) + multiset{s[r]} == multiset(s)
  {
    assert s == s[..r] + [s[r]] + s[r + 1..];
  }

  /** Moving position `r` of `t` to the end of `p` keeps the multiset of `p + t`. */
  lemma MoveToEnd<T>(p: seq<T>, t: seq<T>, r: nat)
    requires r < |t|
    ensures multiset((p + [t[r]]) + (t[..r] + t[r + 1..])) == multiset(p + t)
  {
    SpliceOut(t, r);
  }

  /** Cards taken from pairwise-different positions of a deck with distinct ids have distinct ids. */
  lemma PickedDistinct(deck: seq<Card>, picked: seq<nat>, rest: seq<nat>, draw: seq<Card>)
    requires DistinctIds(deck) && |draw| == |picked|
    requires multiset(picked + rest) == multiset(Indices(|deck|))
    requires forall m :: 0 <= m < |picked| ==> picked[m] < |deck| && draw[m] == deck[picked[m]]
    ensures DistinctIds(draw)
  {
    DistinctPermutation(picked + rest, Indices(|deck|));
    forall a, b | 0 <= a < b < |draw| ensures draw[a].id != draw[b].id {
      assert (picked + rest)[a] == picked[a] && (picked + rest)[b] == picked[b];
    }
  }

  /** The sampling loop of one attempt: ten catalog positions spliced out of an index list. */
  method SampleTen(deck: seq<Card>, rolls: seq<nat>, cursor: nat) returns (draw: seq<Card>, suits: set<Suit>, next: nat)
    requires |deck| >= 10 && DistinctIds(deck)
    ensures |draw| == 10 && DistinctIds(draw)
    ensures forall c :: c in draw ==> c in deck
    ensures forall s :: s in suits <==> s in StandardSuits && exists c :: c in draw && c.suit == s
    ensures next == cursor + 10
  {
    draw := [];
    suits := {};
    next := cursor;
    var tempIndices: seq<nat> := Indices(|deck|);
    ghost var picked: seq<nat> := [];
    var i := 0;
    while i < 10
      invariant 0 <= i <= 10 && |draw| == i && |picked| == i && next == cursor + i
      invariant |tempIndices| == |deck| - i
      invariant multiset(picked + tempIndices) == multiset(Indices(|deck|))
      invariant forall t :: 0 <= t < |tempIndices| ==> tempIndices[t] < |deck|
      invariant forall m :: 0 <= m < i ==> picked[m] < |deck| && draw[m] == deck[picked[m]]
      invariant forall s :: s in suits <==> s in StandardSuits && exists c :: c in draw && c.suit == s
    {
      if |tempIndices| == 0 {
        break;
      }
      var r := Pick(rolls, next, |tempIndices|);
      var originalIndex := tempIndices[r];
      MoveToEnd(picked, tempIndices, r);
      ghost var old_indices := tempIndices;
      tempIndices := tempIndices[..r] + tempIndices[r + 1..];
      forall t | 0 <= t < |tempIndices| ensures tempIndices[t] < |deck| {
        assert tempIndices[t] == if t < r then old_indices[t] else old_indices[t + 1];
      }
      picked := picked + [originalIndex];
      var card := deck[originalIndex];
      draw := draw + [card];
      if card.suit in StandardSuits {
        suits := suits + {card.suit};
      }
      next := next + 1;
      i := i + 1;
    }
    PickedDistinct(deck, picked, tempIndices, draw);
  }

  /** The inner `for (const suit of standardSuits)` check with its early `break`. */
  method AllStandardSuitsPresent(suits: set<Suit>) returns (present: bool)
    ensures present <==> forall s :: s in StandardSuits ==> s in suits
  {
    present := true;
    var k := 0;
    while k < 4
      invariant 0 <= k <= 4
      invariant present
      invariant forall m :: 0 <= m < k ==> StandardSuits[m] in suits
    {
      if StandardSuits[k] !in suits {
        present := false;
        break;
      }
      k := k + 1;
    }
  }

  /** `cards.filter(c => c.suit === s)`. */
  function FilterSuit(cards: seq<Card>, s: Suit): (r: seq<Card>)
    ensures forall c :: c in r <==> c in cards && c.suit == s
  {
    if cards == [] then []
    else (if cards[0].suit == s then [cards[0]] else []) + FilterSuit(cards[1..], s)
  }

  /** `cards.indexOf(c)` for a card that is present. */
  function IndexOf(cards: seq<Card>, c: Card): (i: nat)
    requires c in cards
    ensures i < |cards| && cards[i] == c
    ensures forall k :: 0 <= k < i ==> cards[k] != c
  {
    if cards[0] == c then 0 else 1 + IndexOf(cards[1..], c)
  }

  /** Every standard card is somewhere in the catalog. */
  lemma StandardCardsInCatalog()
    ensures forall m, j :: 0 <= m < 4 && 0 <= j < 13 ==> StandardCard(m, j) in FullDeck()
  {
    forall m, j | 0 <= m < 4 && 0 <= j < 13 ensures StandardCard(m, j) in FullDeck() {
      CatalogCardAt(m, j);
      assert FullDeck()[13 * m + j] == StandardCard(m, j);
    }
  }

  /** Removing a card of suit `StandardSuits[k]` keeps every standard card of a later suit. */
  lemma RemovalKeepsLaterSuits(before: seq<Card>, after: seq<Card>, gone: Card, k: nat)
    requires k < 4 && gone.suit == StandardSuits[k]
    requires multiset(after) + multiset{gone} == multiset(before)
    requires forall m, j :: k <= m < 4 && 0 <= j < 13 ==> StandardCard(m, j) in before
    ensures forall m, j :: k + 1 <= m < 4 && 0 <= j < 13 ==> StandardCard(m, j) in after
  {
    forall m, j | k + 1 <= m < 4 && 0 <= j < 13 ensures StandardCard(m, j) in after {
      assert StandardCard(m, j) in multiset(before);
      assert StandardCard(m, j) != gone;
      assert StandardCard(m, j) in multiset(after);
    }
  }

  /** The first loop of the fallback: one random card of each standard suit still in the deck. */
  method FallbackSuits(deck: seq<Card>, rolls: seq<nat>, cursor: nat)
    returns (draw: seq<Card>, remaining: seq<Card>, next: nat)
    requires forall m, j :: 0 <= m < 4 && 0 <= j < 13 ==> StandardCard(m, j) in deck
    ensures |draw| == 4 && multiset(draw + remaining) == multiset(deck)
    ensures forall m :: 0 <= m < 4 ==> draw[m].suit == StandardSuits[m]
  {
    draw := [];
    remaining := deck;
    next := cursor;
    var k := 0;
    while k < 4
      invariant 0 <= k <= 4 && |draw| == k
      invariant multiset(draw + remaining) == multiset(deck)
      invariant forall m :: 0 <= m < k ==> draw[m].suit == StandardSuits[m]
      invariant forall m, j :: k <= m < 4 && 0 <= j < 13 ==> StandardCard(m, j) in remaining
    {
      var suit := StandardSuits[k];
      var cardsOfSuit := FilterSuit(remaining, suit);
      assert StandardCard(k, 0) in cardsOfSuit;
      if |cardsOfSuit| > 0 {
        var randomCard := cardsOfSuit[Pick(rolls, next, |cardsOfSuit|)];
        next := next + 1;
        var idx := IndexOf(remaining, randomCard);
        MoveToEnd(draw, remaining, idx);
        SpliceOut(remaining, idx);
        RemovalKeepsLaterSuits(remaining, remaining[..idx] + remaining[idx + 1..], randomCard, k);
        draw := draw + [randomCard];
        remaining := remaining[..idx] + remaining[idx + 1..];
      }
      k := k + 1;
    }
  }

  /**
   * The fallback after 500 failed attempts: one random card of each standard
   * suit, in suit order, then random cards from the rest until there are ten.
   */
  method FallbackDraw(deck: seq<Card>, rolls: seq<nat>, cursor: nat) returns (draw: seq<Card>, next: nat)
    requires |deck| >= 10 && Distinct(deck)
    requires forall m, j :: 0 <= m < 4 && 0 <= j < 13 ==> StandardCard(m, j) in deck
    ensures |draw| == 10 && Distinct(draw)
    ensures forall c :: c in draw ==> c in deck
    ensures forall k :: 0 <= k < 4 ==> draw[k].suit == StandardSuits[k]
  {
    var remaining;
    draw, remaining, next := FallbackSuits(deck, rolls, cursor);
    while |draw| < 10 && |remaining| > 0
      invariant 4 <= |draw| <= 10
      invariant multiset(draw + remaining) == multiset(deck)
      invariant forall m :: 0 <= m < 4 ==> draw[m].suit == StandardSuits[m]
      decreases |remaining|
    {
      var randomIndex := Pick(rolls, next, |remaining|);
      next := next + 1;
      MoveToEnd(draw, remaining, randomIndex);
      draw := draw + [remaining[randomIndex]];
      remaining := remaining[..randomIndex] + remaining[randomIndex + 1..];
    }
    assert |draw + remaining| == |deck|;
    DistinctPermutation(draw + remaining, deck);
    forall a, b | 0 <= a < b < |draw| ensures draw[a] != draw[b] {
      assert (draw + remaining)[a] == draw[a] && (draw + remaining)[b] == draw[b];
    }
    forall c | c in draw ensures c in deck {
      assert c in multiset(draw + remaining);
    }
  }

  /** The `reduce` that builds `byID`: later cards overwrite earlier ones with the same id. */
  method IndexById(cards: seq<Card>) returns (byId: map<string, Card>)
    ensures byId.Keys == set c | c in cards :: c.id
    ensures forall id :: id in byId ==> byId[id] in cards && byId[id].id == id
  {
    byId := map[];
    var k := 0;
    while k < |cards|
      invariant 0 <= k <= |cards|
      invariant byId.Keys == set c | c in cards[..k] :: c.id
      invariant forall id :: id in byId ==> byId[id] in cards[..k] && byId[id].id == id
    {
      assert cards[..k + 1] == cards[..k] + [cards[k]];
      byId := byId[cards[k].id := cards[k]];
      k := k + 1;
    }
    assert cards[..k] == cards;
  }

  /**
   * `_drawInitialCards`: up to 500 sampling attempts, each accepted only when
   * it holds ten cards covering the four standard suits, then the fallback;
   * every card is reset to unallocated and indexed by id.
   */
  method DrawInitialCards(rolls: seq<nat>) returns (cards: seq<Card>, byId: map<string, Card>)
    ensures ValidDraw(cards)
    ensures byId.Keys == set c | c in cards :: c.id
    ensures forall c :: c in cards ==> byId[c.id] == c
  {
    var fullDeck := GetFullDeck();
    FullDeckIdsDistinct();
    StandardCardsInCatalog();
    assert Distinct(fullDeck);
    var drawnCards: seq<Card> := [];
    var attempts := 0;
    var cursor := 0;
    while |drawnCards| < 10 && attempts < 500
      invariant drawnCards == [] || ValidDraw(drawnCards)
      decreases 500 - attempts
    {
      attempts := attempts + 1;
      var currentDraw, suitsInDraw;
      currentDraw, suitsInDraw, cursor := SampleTen(fullDeck, rolls, cursor);
      var allPresent := AllStandardSuitsPresent(suitsInDraw);
      if allPresent && |currentDraw| == 10 {
        FullDeckValues_All(currentDraw);
        drawnCards := currentDraw;
        break;
      }
    }
    if |drawnCards| == 0 {
      drawnCards, cursor := FallbackDraw(fullDeck, rolls, cursor);
      DistinctCatalogCardsHaveDistinctIds(drawnCards);
      FullDeckValues_All(drawnCards);
      forall s | s in StandardSuits ensures exists c :: c in drawnCards && c.suit == s {
        var k :| 0 <= k < 4 && StandardSuits[k] == s;
        assert drawnCards[k] in drawnCards;
      }
    }
    cards := seq(|drawnCards|, k requires 0 <= k < |drawnCards| => drawnCards[k].(allocatedTo := None));
    assert cards == drawnCards;
    byId := IndexById(cards);
    forall c | c in cards ensures byId[c.id] == c {
      CatalogIdDetermines(byId[c.id], c);
    }
  }

  lemma FullDeckValues_All(cards: seq<Card>)
    requires forall c :: c in cards ==> c in FullDeck()
    ensures forall c :: c in cards ==> c.allocatedTo == None
  {
    forall c | c in cards ensures c.allocatedTo == None {
      FullDeckValues(c);
    }
  }
}
