/**
 * The index-based navigation and the radio-button card ledger of the
 * wizard in scripts/character-creation-wizard.mjs, and the creation-mode
 * flag of its actor sheet.
 */
module WizardLedger {
  import opened Common
  import opened WizardCatalog

  // ---------------------------------------------------------------------
  // Configuration (`_getWizardConfig`)
  // ---------------------------------------------------------------------

  /** The step ids, in navigation order; the index into this list is the wizard's position. */
  const StepIds: seq<string> := ["overview", "profile", "card-allocation", "attributes-display",
    "skill-allocation", "resonance-allocation", "gear-allocation", "fate-card-display", "deploy"]
  const ProfileStep: nat := 1
  const LastStep: nat := 8

  /** The categories in the key order of `cardCategoryLimits`. */
  const AllCategories: seq<Category> := [Attributes, Skills, Resonances, Gear, Fate]

  /** `cardCategoryLimits`. */
  function Limit(c: Category): nat {
    match c
    case Attributes => 4
    case Skills => 2
    case Resonances => 1
    case Gear => 2
    case Fate => 1
  }

  lemma AllCategoriesListed()
    ensures forall c: Category :: c in AllCategories
  {
    forall c: Category ensures c in AllCategories {
      match c
      case Attributes =>
      case Skills =>
      case Resonances =>
      case Gear =>
      case Fate =>
    }
  }

  /** The actor's profile, read by the profile gate. */
  datatype Profile = Profile(concept: string, background: string, motivation: string)

  /** `profile.concept && profile.background && profile.motivation` are all truthy. */
  predicate ProfileFilled(p: Profile) {
    p.concept != "" && p.background != "" && p.motivation != ""
  }

  // ---------------------------------------------------------------------
  // Navigation
  // ---------------------------------------------------------------------

  /** `steps.findIndex(step => step.id === stepId)`. */
  function FindStepIndex(stepId: string): (i: int)
    ensures -1 <= i < |StepIds|
    ensures i == -1 <==> stepId !in StepIds
    ensures i >= 0 ==> StepIds[i] == stepId
  {
    FindStepFrom(stepId, 0)
  }

  function FindStepFrom(stepId: string, k: nat): (i: int)
    requires k <= |StepIds|
    ensures i == -1 || k <= i < |StepIds|
    ensures i == -1 <==> stepId !in StepIds[k..]
    ensures i >= 0 ==> StepIds[i] == stepId
    decreases |StepIds| - k
  {
    if k == |StepIds| then -1
    else if StepIds[k] == stepId then k
    else FindStepFrom(stepId, k + 1)
  }

  /** The index `_onOverviewStepClick` moves to, or None when it warns instead. */
  function OverviewTarget(current: int, stepId: string): (r: Option<int>)
    ensures r.Some? <==> stepId in StepIds && FindStepIndex(stepId) <= current + 1
    ensures r.Some? ==> 0 <= r.value <= LastStep && StepIds[r.value] == stepId
  {
    var target := FindStepIndex(stepId);
    if target != -1 && target <= current + 1 then Some(target) else None
  }

  /**
   * The index `_onNextStep` moves to, or None when it stops: at the profile
   * step with an empty profile field, or when the index names no step (the
   * lookup `steps[currentStepIndex].id` throws).
   */
  function NextIndex(current: int, profile: Profile): (r: Option<int>)
    ensures r.None? <==> !(0 <= current <= LastStep) || (current == ProfileStep && !ProfileFilled(profile))
    ensures r.Some? ==> r.value == if current < LastStep then current + 1 else LastStep
  {
    if !(0 <= current <= LastStep) then None
    else if StepIds[current] == "profile" && !ProfileFilled(profile) then None
    else Some(if current + 1 < LastStep then current + 1 else LastStep)
  }

  /** `Math.max(currentStepIndex - 1, 0)`. */
  function PrevIndex(current: int): (r: int)
    ensures r >= 0
    ensures current > 0 ==> r == current - 1
    ensures current <= 0 ==> r == 0
  {
    if current - 1 > 0 then current - 1 else 0
  }

  /** Going forward one step and then back one returns to the step left. */
  lemma NextThenPrev(current: int, profile: Profile)
    requires 0 <= current < LastStep
    requires current != ProfileStep || ProfileFilled(profile)
    ensures NextIndex(current, profile).Some? && PrevIndex(NextIndex(current, profile).value) == current
  {
  }

  /** Every navigation operation keeps a position that names a step on one that names a step. */
  lemma NavigationStaysOnSteps(current: int, profile: Profile, stepId: string)
    requires 0 <= current <= LastStep
    ensures NextIndex(current, profile).Some? ==> 0 <= NextIndex(current, profile).value <= LastStep
    ensures 0 <= PrevIndex(current) <= LastStep
    ensures OverviewTarget(current, stepId).Some? ==> 0 <= OverviewTarget(current, stepId).value <= LastStep
  {
  }

  /**
   * The profile gate of `_onNextStep` is the only one: from the profile step
   * an overview link reaches the card-allocation step whatever the profile holds.
   */
  lemma OverviewLinkPassesProfileGate(profile: Profile)
    requires !ProfileFilled(profile)
    ensures NextIndex(ProfileStep, profile) == None
    ensures OverviewTarget(ProfileStep, "card-allocation") == Some(2)
  {
    assert StepIds[2] == "card-allocation";
    assert FindStepFrom("card-allocation", 2) == 2;
    assert FindStepFrom("card-allocation", 1) == 2;
    assert FindStepFrom("card-allocation", 0) == 2;
  }

  /** The creation-mode flag: `_characterCreation?.inProgress ?? true` (None: record or flag missing). */
  function CreationMode(inProgress: Option<bool>): (r: bool)
    ensures !r <==> inProgress == Some(false)
  {
    inProgress.GetOr(true)
  }

  // ---------------------------------------------------------------------
  // The card ledger
  // ---------------------------------------------------------------------

  /** `drawnCards.find(c => c.id === id)`, as the position found. */
  function FindCard(drawn: seq<Card>, id: string): (r: Option<nat>)
    ensures r.Some? ==> r.value < |drawn| && drawn[r.value].id == id
    ensures r.Some? ==> forall k :: 0 <= k < r.value ==> drawn[k].id != id
    ensures r.None? <==> forall k :: 0 <= k < |drawn| ==> drawn[k].id != id
  {
    if drawn == [] then None
    else if drawn[0].id == id then Some(0)
    else match FindCard(drawn[1..], id)
      case None => None
      case Some(k) => Some(k + 1)
  }

  /** The category a card is assigned to, if any (`'none'` and `null` give None). */
  function CategoryOf(card: Card): Option<Category> {
    match card.allocatedTo
    case Some(Assign(c)) => Some(c)
    case _ => None
  }

  /** `ids.filter(cId => cId !== id)`. */
  function WithoutId(ids: seq<string>, id: string): (r: seq<string>)
    ensures forall x :: x in r <==> x in ids && x != id
    ensures Distinct(ids) ==> Distinct(r)
    ensures id in ids && Distinct(ids) ==> |r| == |ids| - 1
    ensures id !in ids ==> r == ids
  {
    if ids == [] then []
    else
      var rest := WithoutId(ids[1..], id);
      assert ids[0] in ids && forall x :: x in ids[1..] ==> x in ids;
      DistinctCons(ids);
      if ids[0] == id then rest
      else
        var r := [ids[0]] + rest;
        assert r[1..] == rest;
        DistinctCons(r);
        r
  }

  /** The lists after `allocatedCards` gets an empty array for every missing category. */
  function WithAllCategories(m: map<Category, seq<string>>): (r: map<Category, seq<string>>)
    ensures forall c :: c in r
    ensures forall c :: c in m ==> r[c] == m[c]
    ensures forall c :: c !in m ==> r[c] == []
  {
    AllCategoriesListed();
    map c | c in AllCategories :: if c in m then m[c] else []
  }

  /** The loop over `cardCategoryLimits` that gives every missing category an empty list. */
  method FillMissingCategories(m: map<Category, seq<string>>) returns (r: map<Category, seq<string>>)
    ensures r == WithAllCategories(m)
  {
    r := m;
    var i := 0;
    while i < |AllCategories|
      invariant 0 <= i <= |AllCategories|
      invariant forall c :: c in r <==> c in m || c in AllCategories[..i]
      invariant forall c :: c in m ==> r[c] == m[c]
      invariant forall c :: c in r && c !in m ==> r[c] == []
    {
      if AllCategories[i] !in r {
        r := r[AllCategories[i] := []];
      }
      i := i + 1;
    }
    AllCategoriesListed();
  }

  /** Some id in `ids` names a drawn card of suit `s` (`currentAttributeCards.some(...)`). */
  predicate SuitTaken(drawn: seq<Card>, ids: seq<string>, s: Suit) {
    exists i :: 0 <= i < |ids| && FindCard(drawn, ids[i]).Some? && drawn[FindCard(drawn, ids[i]).value].suit == s
  }

  datatype Outcome = Reallocated | UnknownCard | OverCapacity | SuitClash

  /** What `_onCardAllocationChange` persists: the outcome and the new drawn cards and lists. */
  datatype Reallocation = Reallocation(outcome: Outcome, drawn: seq<Card>, lists: map<Category, seq<string>>)

  /**
   * `_onCardAllocationChange(cardId, choice)` on values: find the card,
   * remove its id from its old category, refuse a full new category or an
   * attribute suit already taken, otherwise record the choice on the card
   * and append the id to the new category. A refusal persists nothing.
   */
  function Reallocate(drawn: seq<Card>, m: map<Category, seq<string>>, cardId: string, choice: Choice): (r: Reallocation)
    ensures r.outcome == UnknownCard <==> FindCard(drawn, cardId).None?
    ensures r.outcome != Reallocated ==> r.drawn == drawn && r.lists == m
    ensures r.outcome == Reallocated ==>
      var k := FindCard(drawn, cardId).value;
      |r.drawn| == |drawn| && r.drawn[k] == drawn[k].(allocatedTo := Some(choice)) &&
      (forall j :: 0 <= j < |drawn| && j != k ==> r.drawn[j] == drawn[j]) &&
      (forall c :: c in r.lists)
  {
    match FindCard(drawn, cardId)
    case None => Reallocation(UnknownCard, drawn, m)
    case Some(k) =>
      var card := drawn[k];
      var cleared := Cleared(drawn, m, k);
      if choice.Assign? && |cleared[choice.category]| >= Limit(choice.category) then
        Reallocation(OverCapacity, drawn, m)
      else if choice == Assign(Attributes) && IsStandard(card.suit) && SuitTaken(drawn, cleared[Attributes], card.suit) then
        Reallocation(SuitClash, drawn, m)
      else
        Reallocation(Reallocated, Placed(drawn, k, choice), Appended(cleared, choice, card.id))
  }

  /** The drawn cards once the card at `k` records `choice` in `allocatedTo`. */
  function Placed(drawn: seq<Card>, k: nat, choice: Choice): (r: seq<Card>)
    requires k < |drawn|
    ensures |r| == |drawn| && forall j :: 0 <= j < |r| ==> r[j].id == drawn[j].id
  {
    drawn[k := drawn[k].(allocatedTo := Some(choice))]
  }

  /** The lists once `id` is pushed onto the chosen category (unchanged for `'none'`). */
  function Appended(lists: map<Category, seq<string>>, choice: Choice, id: string): (r: map<Category, seq<string>>)
    requires choice.Assign? ==> choice.category in lists
    ensures r.Keys == lists.Keys
  {
    if choice.Assign? then lists[choice.category := lists[choice.category] + [id]] else lists
  }

  /** The lists once every category exists and the card at `k` has left its old category. */
  function Cleared(drawn: seq<Card>, m: map<Category, seq<string>>, k: nat): (r: map<Category, seq<string>>)
    requires k < |drawn|
    ensures forall c :: c in r
    ensures forall c :: Some(c) != CategoryOf(drawn[k]) ==> r[c] == WithAllCategories(m)[c]
    ensures forall c :: Some(c) == CategoryOf(drawn[k]) ==> r[c] == WithoutId(WithAllCategories(m)[c], drawn[k].id)
  {
    var lists := WithAllCategories(m);
    match CategoryOf(drawn[k])
    case Some(prior) => lists[prior := WithoutId(lists[prior], drawn[k].id)]
    case None => lists
  }

  // ---------------------------------------------------------------------
  // The ledger invariant
  // ---------------------------------------------------------------------

  /** The id `id` is in the list of category `c`. */
  predicate Listed(m: map<Category, seq<string>>, c: Category, id: string) {
    c in m && id in m[c]
  }

  /** No two attribute cards share a standard suit. */
  predicate AttributeSuitsDistinct(drawn: seq<Card>) {
    forall a, b ::
      (0 <= a < b < |drawn| && CategoryOf(drawn[a]) == Some(Attributes) &&
       CategoryOf(drawn[b]) == Some(Attributes) && IsStandard(drawn[a].suit))
      ==> drawn[a].suit != drawn[b].suit
  }

  /**
   * The ledger invariant: card ids are unique, every list is duplicate-free
   * and within its limit, an id is listed under `c` exactly when its card is
   * assigned to `c`, and the attribute cards have different standard suits.
   */
  ghost predicate Consistent(drawn: seq<Card>, m: map<Category, seq<string>>) {
    DistinctIds(drawn) &&
    (forall c :: c in m ==> Distinct(m[c]) && |m[c]| <= Limit(c)) &&
    (forall c, id :: Listed(m, c, id) ==>
      FindCard(drawn, id).Some? && CategoryOf(drawn[FindCard(drawn, id).value]) == Some(c)) &&
    (forall k :: 0 <= k < |drawn| && CategoryOf(drawn[k]).Some? ==> Listed(m, CategoryOf(drawn[k]).value, drawn[k].id)) &&
    AttributeSuitsDistinct(drawn)
  }

  /** With unique ids, `find` returns the one card holding the id. */
  lemma FindUnique(drawn: seq<Card>, k: nat)
    requires DistinctIds(drawn) && k < |drawn|
    ensures FindCard(drawn, drawn[k].id) == Some(k)
  {
  }

  /** Under the invariant an id sits in at most one category list. */
  lemma AtMostOneList(drawn: seq<Card>, m: map<Category, seq<string>>, id: string, c1: Category, c2: Category)
    requires Consistent(drawn, m)
    requires Listed(m, c1, id) && Listed(m, c2, id)
    ensures c1 == c2
  {
  }

  /** Filling in missing categories with empty lists keeps the invariant. */
  lemma FillKeepsConsistent(drawn: seq<Card>, m: map<Category, seq<string>>)
    requires Consistent(drawn, m)
    ensures Consistent(drawn, WithAllCategories(m))
  {
    var w := WithAllCategories(m);
    forall c, id | Listed(w, c, id) ensures Listed(m, c, id) {
    }
  }

  /** Changing one card's allocation keeps `find` on every id. */
  lemma FindAfterUpdate(drawn: seq<Card>, k: nat, card: Card, id: string)
    requires k < |drawn| && card.id == drawn[k].id
    ensures FindCard(drawn[k := card], id) == FindCard(drawn, id)
  {
    var d2 := drawn[k := card];
    forall j | 0 <= j < |drawn| ensures d2[j].id == drawn[j].id {
    }
    match FindCard(drawn, id)
    case None =>
    case Some(i) =>
      assert d2[i].id == id;
  }

  /**
   * After the card at `k` leaves its old category, its id is in no list,
   * every list is still duplicate-free and within its limit, and a list holds
   * exactly the other cards allocated to its category.
   */
  lemma ClearedFacts(drawn: seq<Card>, m: map<Category, seq<string>>, k: nat)
    requires Consistent(drawn, m) && k < |drawn|
    ensures forall c :: drawn[k].id !in Cleared(drawn, m, k)[c]
    ensures forall c :: Distinct(Cleared(drawn, m, k)[c]) && |Cleared(drawn, m, k)[c]| <= Limit(c)
    ensures forall c, id :: id in Cleared(drawn, m, k)[c] ==> Listed(m, c, id)
    ensures forall j :: 0 <= j < |drawn| && j != k && CategoryOf(drawn[j]).Some? ==>
      drawn[j].id in Cleared(drawn, m, k)[CategoryOf(drawn[j]).value]
  {
    var w := WithAllCategories(m);
    var cleared := Cleared(drawn, m, k);
    FillKeepsConsistent(drawn, m);
    FindUnique(drawn, k);
    forall c ensures drawn[k].id !in cleared[c] && Distinct(cleared[c]) && |cleared[c]| <= Limit(c) {
      if Some(c) != CategoryOf(drawn[k]) {
        assert !Listed(w, c, drawn[k].id);
      }
    }
    forall c, id | id in cleared[c] ensures Listed(m, c, id) {
      assert Listed(w, c, id);
    }
    forall j | 0 <= j < |drawn| && j != k && CategoryOf(drawn[j]).Some?
      ensures drawn[j].id in cleared[CategoryOf(drawn[j]).value]
    {
      assert Listed(w, CategoryOf(drawn[j]).value, drawn[j].id);
      assert drawn[j].id != drawn[k].id;
    }
  }

  /** Placing the card keeps ids unique and leaves `find` unchanged for every id. */
  lemma PlacedFind(drawn: seq<Card>, k: nat, choice: Choice)
    requires DistinctIds(drawn) && k < |drawn|
    ensures DistinctIds(Placed(drawn, k, choice))
    ensures forall id :: FindCard(Placed(drawn, k, choice), id) == FindCard(drawn, id)
  {
    var d2 := Placed(drawn, k, choice);
    forall id ensures FindCard(d2, id) == FindCard(drawn, id) {
      FindAfterUpdate(drawn, k, d2[k], id);
    }
  }

  /** The conditions under which `Reallocate` succeeds for the card at `k`. */
  ghost predicate Admitted(drawn: seq<Card>, m: map<Category, seq<string>>, k: nat, choice: Choice)
    requires k < |drawn|
  {
    var cleared := Cleared(drawn, m, k);
    (choice.Assign? ==> |cleared[choice.category]| < Limit(choice.category)) &&
    !(choice == Assign(Attributes) && IsStandard(drawn[k].suit) && SuitTaken(drawn, cleared[Attributes], drawn[k].suit))
  }

  /** A successful reallocation keeps every list duplicate-free and within its limit. */
  lemma AppendedWithinLimits(drawn: seq<Card>, m: map<Category, seq<string>>, k: nat, choice: Choice)
    requires Consistent(drawn, m) && k < |drawn| && Admitted(drawn, m, k, choice)
    ensures forall c :: c in Appended(Cleared(drawn, m, k), choice, drawn[k].id) ==>
      var l := Appended(Cleared(drawn, m, k), choice, drawn[k].id)[c];
      Distinct(l) && |l| <= Limit(c)
  {
    ClearedFacts(drawn, m, k);
    var cleared := Cleared(drawn, m, k);
    var lists := Appended(cleared, choice, drawn[k].id);
    forall c ensures Distinct(lists[c]) && |lists[c]| <= Limit(c) {
      if choice == Assign(c) {
        assert lists[c] == cleared[c] + [drawn[k].id];
      }
    }
  }

  /** After a successful reallocation a listed id belongs to a card allocated to that category. */
  lemma AppendedListedAllocated(drawn: seq<Card>, m: map<Category, seq<string>>, k: nat, choice: Choice)
    requires Consistent(drawn, m) && k < |drawn|
    ensures forall c, id :: Listed(Appended(Cleared(drawn, m, k), choice, drawn[k].id), c, id) ==>
      var d2 := Placed(drawn, k, choice);
      FindCard(d2, id).Some? && CategoryOf(d2[FindCard(d2, id).value]) == Some(c)
  {
    ClearedFacts(drawn, m, k);
    PlacedFind(drawn, k, choice);
    FindUnique(drawn, k);
    var d2 := Placed(drawn, k, choice);
    var cleared := Cleared(drawn, m, k);
    var lists := Appended(cleared, choice, drawn[k].id);
    forall c, id | Listed(lists, c, id)
      ensures FindCard(d2, id).Some? && CategoryOf(d2[FindCard(d2, id).value]) == Some(c)
    {
      if id != drawn[k].id {
        assert id in cleared[c];
        var j := FindCard(drawn, id).value;
        assert j != k;
      }
    }
  }

  /** After a successful reallocation every allocated card is listed under its category. */
  lemma PlacedAllocatedListed(drawn: seq<Card>, m: map<Category, seq<string>>, k: nat, choice: Choice)
    requires Consistent(drawn, m) && k < |drawn|
    ensures forall j :: 0 <= j < |drawn| && CategoryOf(Placed(drawn, k, choice)[j]).Some? ==>
      Listed(Appended(Cleared(drawn, m, k), choice, drawn[k].id), CategoryOf(Placed(drawn, k, choice)[j]).value, drawn[j].id)
  {
    ClearedFacts(drawn, m, k);
  }

  /** A successful reallocation keeps the attribute cards on different standard suits. */
  lemma PlacedSuitsDistinct(drawn: seq<Card>, m: map<Category, seq<string>>, k: nat, choice: Choice)
    requires Consistent(drawn, m) && k < |drawn| && Admitted(drawn, m, k, choice)
    ensures AttributeSuitsDistinct(Placed(drawn, k, choice))
  {
    ClearedFacts(drawn, m, k);
    var d2 := Placed(drawn, k, choice);
    var cleared := Cleared(drawn, m, k);
    forall a, b | 0 <= a < b < |d2| && CategoryOf(d2[a]) == Some(Attributes) &&
      CategoryOf(d2[b]) == Some(Attributes) && IsStandard(d2[a].suit)
      ensures d2[a].suit != d2[b].suit
    {
      if a == k || b == k {
        var other := if a == k then b else a;
        assert drawn[other].id in cleared[Attributes];
        var i :| 0 <= i < |cleared[Attributes]| && cleared[Attributes][i] == drawn[other].id;
        FindUnique(drawn, other);
      }
    }
  }

  /**
   * Every reallocation keeps the ledger invariant, and after a successful
   * one the card's id is listed under the chosen category and under no other
   * (under none when the choice is `'none'`).
   */
  lemma ReallocateKeepsConsistent(drawn: seq<Card>, m: map<Category, seq<string>>, cardId: string, choice: Choice)
    requires Consistent(drawn, m)
    ensures Consistent(Reallocate(drawn, m, cardId, choice).drawn, Reallocate(drawn, m, cardId, choice).lists)
    ensures Reallocate(drawn, m, cardId, choice).outcome == Reallocated ==>
      forall c :: Listed(Reallocate(drawn, m, cardId, choice).lists, c, cardId) <==> choice == Assign(c)
  {
    var r := Reallocate(drawn, m, cardId, choice);
    if r.outcome == Reallocated {
      var k := FindCard(drawn, cardId).value;
      assert Admitted(drawn, m, k, choice);
      PlacedFind(drawn, k, choice);
      AppendedWithinLimits(drawn, m, k, choice);
      AppendedListedAllocated(drawn, m, k, choice);
      PlacedAllocatedListed(drawn, m, k, choice);
      PlacedSuitsDistinct(drawn, m, k, choice);
      ClearedFacts(drawn, m, k);
    }
  }

  /**
   * The limit is checked after the card leaves its old category, so choosing
   * a card's current category again succeeds even when that category is full.
   */
  lemma ReselectCurrentCategory(drawn: seq<Card>, m: map<Category, seq<string>>, k: nat)
    requires Consistent(drawn, m) && k < |drawn| && CategoryOf(drawn[k]).Some?
    ensures Reallocate(drawn, m, drawn[k].id, Assign(CategoryOf(drawn[k]).value)).outcome == Reallocated
  {
    var card := drawn[k];
    var c := CategoryOf(card).value;
    FindUnique(drawn, k);
    FillKeepsConsistent(drawn, m);
    var w := WithAllCategories(m);
    var cleared := Cleared(drawn, m, k);
    assert Listed(w, c, card.id);
    assert |cleared[c]| == |w[c]| - 1;
    if c == Attributes && IsStandard(card.suit) {
      forall i | 0 <= i < |cleared[Attributes]| && FindCard(drawn, cleared[Attributes][i]).Some?
        ensures drawn[FindCard(drawn, cleared[Attributes][i]).value].suit != card.suit
      {
        var id := cleared[Attributes][i];
        assert id in cleared[Attributes];
        assert Listed(w, Attributes, id) && id != card.id;
        var j := FindCard(drawn, id).value;
        assert j != k;
        if j < k {
          assert IsStandard(drawn[j].suit) ==> drawn[j].suit != drawn[k].suit;
        } else {
          assert drawn[k].suit != drawn[j].suit;
        }
      }
    }
  }

  /** Moving a card into a full category it is not in is refused, and nothing changes. */
  lemma MoveIntoFullCategory(drawn: seq<Card>, m: map<Category, seq<string>>, k: nat, c: Category)
    requires DistinctIds(drawn) && k < |drawn| && CategoryOf(drawn[k]) != Some(c)
    requires |WithAllCategories(m)[c]| >= Limit(c)
    ensures Reallocate(drawn, m, drawn[k].id, Assign(c)) == Reallocation(OverCapacity, drawn, m)
  {
    FindUnique(drawn, k);
  }

  /** A standard-suit card whose suit attributes already hold is refused there, and nothing changes. */
  lemma SecondAttributeOfSuit(drawn: seq<Card>, m: map<Category, seq<string>>, k: nat, j: nat)
    requires Consistent(drawn, m) && k < |drawn| && j < |drawn| && j != k
    requires CategoryOf(drawn[j]) == Some(Attributes) && CategoryOf(drawn[k]) != Some(Attributes)
    requires IsStandard(drawn[k].suit) && drawn[j].suit == drawn[k].suit
    ensures var r := Reallocate(drawn, m, drawn[k].id, Assign(Attributes));
      r.outcome in {OverCapacity, SuitClash} && r.drawn == drawn && r.lists == m
  {
    FindUnique(drawn, k);
    FindUnique(drawn, j);
    FillKeepsConsistent(drawn, m);
    var w := WithAllCategories(m);
    var cleared := Cleared(drawn, m, k);
    assert Listed(w, Attributes, drawn[j].id);
    assert cleared[Attributes] == w[Attributes];
    var i :| 0 <= i < |cleared[Attributes]| && cleared[Attributes][i] == drawn[j].id;
    assert SuitTaken(drawn, cleared[Attributes], drawn[k].suit);
  }

  /**
   * Once every category exists, removing the card's id from its old category
   * is the same as filtering it out of every list: no other list holds it.
   */
  lemma ClearedIsWithout(drawn: seq<Card>, m: map<Category, seq<string>>, k: nat)
    requires Consistent(drawn, m) && k < |drawn|
    ensures forall c :: Cleared(drawn, m, k)[c] == WithoutId(WithAllCategories(m)[c], drawn[k].id)
    ensures forall c ::
      |Cleared(drawn, m, k)[c]| == |WithAllCategories(m)[c]| - (if CategoryOf(drawn[k]) == Some(c) then 1 else 0)
  {
    var w := WithAllCategories(m);
    FillKeepsConsistent(drawn, m);
    ClearedFacts(drawn, m, k);
    FindUnique(drawn, k);
    forall c ensures Cleared(drawn, m, k)[c] == WithoutId(w[c], drawn[k].id) {
    }
    if CategoryOf(drawn[k]).Some? {
      assert Listed(w, CategoryOf(drawn[k]).value, drawn[k].id);
    }
  }

  /**
   * Category `c` has room for the card at `k`: the card is already there (it
   * is removed before the check) or the list is below the limit.
   */
  predicate HasRoom(drawn: seq<Card>, m: map<Category, seq<string>>, k: nat, c: Category)
    requires k < |drawn|
  {
    CategoryOf(drawn[k]) == Some(c) || |WithAllCategories(m)[c]| < Limit(c)
  }

  /** Some card other than the one at `k` is assigned to attributes and has suit `s`. */
  ghost predicate AttributeSuitHeld(drawn: seq<Card>, k: nat, s: Suit) {
    exists j :: 0 <= j < |drawn| && j != k && CategoryOf(drawn[j]) == Some(Attributes) && drawn[j].suit == s
  }

  /** The suit check over the cleared attribute list sees exactly the other attribute cards. */
  lemma SuitTakenIff(drawn: seq<Card>, m: map<Category, seq<string>>, k: nat, s: Suit)
    requires Consistent(drawn, m) && k < |drawn|
    ensures SuitTaken(drawn, Cleared(drawn, m, k)[Attributes], s) <==> AttributeSuitHeld(drawn, k, s)
  {
    var ids := Cleared(drawn, m, k)[Attributes];
    ClearedFacts(drawn, m, k);
    if SuitTaken(drawn, ids, s) {
      var i :| 0 <= i < |ids| && FindCard(drawn, ids[i]).Some? && drawn[FindCard(drawn, ids[i]).value].suit == s;
      assert ids[i] in ids;
      var j := FindCard(drawn, ids[i]).value;
      assert j != k && CategoryOf(drawn[j]) == Some(Attributes);
    }
    if AttributeSuitHeld(drawn, k, s) {
      var j :| 0 <= j < |drawn| && j != k && CategoryOf(drawn[j]) == Some(Attributes) && drawn[j].suit == s;
      var i :| 0 <= i < |ids| && ids[i] == drawn[j].id;
      FindUnique(drawn, j);
    }
  }

  /**
   * A reallocation of a drawn card is refused for capacity exactly when it
   * chooses a category other than the card's own whose list is already at
   * the limit.
   */
  lemma OverCapacityIff(drawn: seq<Card>, m: map<Category, seq<string>>, k: nat, choice: Choice)
    requires Consistent(drawn, m) && k < |drawn|
    ensures Reallocate(drawn, m, drawn[k].id, choice).outcome == OverCapacity <==>
      choice.Assign? && !HasRoom(drawn, m, k, choice.category)
  {
    FindUnique(drawn, k);
    ClearedIsWithout(drawn, m, k);
  }

  /**
   * A reallocation of a drawn card is refused on suit exactly when it
   * chooses attributes, attributes have room for it, the card has a standard
   * suit (black, red and multi are exempt) and another attribute card already
   * has that suit.
   */
  lemma SuitClashIff(drawn: seq<Card>, m: map<Category, seq<string>>, k: nat, choice: Choice)
    requires Consistent(drawn, m) && k < |drawn|
    ensures Reallocate(drawn, m, drawn[k].id, choice).outcome == SuitClash <==>
      choice == Assign(Attributes) && HasRoom(drawn, m, k, Attributes) &&
      IsStandard(drawn[k].suit) && AttributeSuitHeld(drawn, k, drawn[k].suit)
  {
    FindUnique(drawn, k);
    ClearedIsWithout(drawn, m, k);
    SuitTakenIff(drawn, m, k, drawn[k].suit);
  }

  /**
   * A successful reallocation records the choice on the card and leaves each
   * category's list as it was without the card's id, with the id appended to
   * the chosen category (to none for `'none'`).
   */
  lemma ReallocatedLists(drawn: seq<Card>, m: map<Category, seq<string>>, k: nat, choice: Choice)
    requires Consistent(drawn, m) && k < |drawn|
    ensures var r := Reallocate(drawn, m, drawn[k].id, choice);
      r.outcome != UnknownCard &&
      (r.outcome == Reallocated ==>
        r.drawn == drawn[k := drawn[k].(allocatedTo := Some(choice))] &&
        forall c :: c in r.lists &&
          r.lists[c] == WithoutId(WithAllCategories(m)[c], drawn[k].id) + (if choice == Assign(c) then [drawn[k].id] else []))
  {
    FindUnique(drawn, k);
    var r := Reallocate(drawn, m, drawn[k].id, choice);
    if r.outcome == Reallocated {
      var cleared := Cleared(drawn, m, k);
      assert r.drawn == Placed(drawn, k, choice);
      assert r.lists == Appended(cleared, choice, drawn[k].id);
      ClearedIsWithout(drawn, m, k);
      AppendedLists(cleared, choice, drawn[k].id);
    }
  }

  /** Appending to the chosen category leaves every other list as it was. */
  lemma AppendedLists(lists: map<Category, seq<string>>, choice: Choice, id: string)
    requires forall c :: c in lists
    ensures forall c ::
      c in Appended(lists, choice, id) && Appended(lists, choice, id)[c] == lists[c] + (if choice == Assign(c) then [id] else [])
  {
    forall c ensures Appended(lists, choice, id)[c] == lists[c] + (if choice == Assign(c) then [id] else []) {
      if choice != Assign(c) {
        assert lists[c] + [] == lists[c];
      }
    }
  }

  /**
   * A freshly drawn hand, with no lists yet or with every list empty, meets
   * the ledger invariant.
   */
  lemma DrawnHandConsistent(cards: seq<Card>)
    requires ValidDraw(cards)
    ensures Consistent(cards, map[])
    ensures Consistent(cards, WithAllCategories(map[]))
  {
    forall k | 0 <= k < |cards| ensures CategoryOf(cards[k]) == None {
      assert cards[k] in cards;
    }
    FillKeepsConsistent(cards, map[]);
  }

  // ---------------------------------------------------------------------
  // The wizard's persisted state
  // ---------------------------------------------------------------------

  /** The actor's `_characterCreation` record as this wizard reads and writes it, plus its profile. */
  class CreationState {
    var currentStepIndex: int
    var drawnCards: seq<Card>
    var allocatedCards: map<Category, seq<string>>
    var profile: Profile

    ghost predicate Valid()
      reads this
    {
      0 <= currentStepIndex <= LastStep && Consistent(drawnCards, allocatedCards)
    }

    /** `_onBeginProcess`: to the overview step once the profile is filled. */
    method BeginProcess() returns (accepted: bool)
      modifies this`currentStepIndex
      ensures accepted <==> ProfileFilled(profile)
      ensures currentStepIndex == if accepted then 0 else old(currentStepIndex)
      ensures old(Valid()) ==> Valid()
    {
      if profile.concept == "" || profile.background == "" || profile.motivation == "" {
        return false;
      }
      currentStepIndex := 0;
      accepted := true;
    }

    /** `_onOverviewStepClick`: jump to a known step at most one past the current one. */
    method OverviewStepClick(stepId: string) returns (accepted: bool)
      modifies this`currentStepIndex
      ensures accepted <==> OverviewTarget(old(currentStepIndex), stepId).Some?
      ensures currentStepIndex == OverviewTarget(old(currentStepIndex), stepId).GetOr(old(currentStepIndex))
      ensures old(Valid()) ==> Valid()
    {
      var targetStepIndex := FindStepIndex(stepId);
      if targetStepIndex != -1 && targetStepIndex <= currentStepIndex + 1 {
        currentStepIndex := targetStepIndex;
        return true;
      }
      accepted := false;
    }

    /** `_onNextStep`. */
    method NextStep() returns (accepted: bool)
      modifies this`currentStepIndex
      ensures accepted <==> NextIndex(old(currentStepIndex), profile).Some?
      ensures currentStepIndex == NextIndex(old(currentStepIndex), profile).GetOr(old(currentStepIndex))
      ensures old(Valid()) ==> Valid()
    {
      if !(0 <= currentStepIndex < |StepIds|) {
        return false;
      }
      var nextStepIndex := if currentStepIndex + 1 < |StepIds| - 1 then currentStepIndex + 1 else |StepIds| - 1;
      if StepIds[currentStepIndex] == "profile" && !ProfileFilled(profile) {
        return false;
      }
      currentStepIndex := nextStepIndex;
      accepted := true;
    }

    /** `_onPrevStep`. */
    method PrevStep()
      modifies this`currentStepIndex
      ensures currentStepIndex == PrevIndex(old(currentStepIndex))
      ensures old(Valid()) ==> Valid()
    {
      currentStepIndex := if currentStepIndex - 1 > 0 then currentStepIndex - 1 else 0;
    }

    /** `_onCardAllocationChange` for the radio button `choice` of card `cardId`. */
    method CardAllocationChange(cardId: string, choice: Choice) returns (outcome: Outcome)
      modifies this`drawnCards, this`allocatedCards
      ensures Reallocate(old(drawnCards), old(allocatedCards), cardId, choice) == Reallocation(outcome, drawnCards, allocatedCards)
      ensures old(Valid()) ==> Valid()
    {
      if Consistent(drawnCards, allocatedCards) {
        ReallocateKeepsConsistent(drawnCards, allocatedCards, cardId, choice);
      }
      var currentDrawnCards := drawnCards;
      var currentAllocatedCards := FillMissingCategories(allocatedCards);
      var found := FindCard(currentDrawnCards, cardId);
      if found.None? {
        return UnknownCard;
      }
      var k := found.value;
      var cardToMove := currentDrawnCards[k];
      if cardToMove.allocatedTo.Some? && cardToMove.allocatedTo.value.Assign? {
        var oldCategory := cardToMove.allocatedTo.value.category;
        currentAllocatedCards := currentAllocatedCards[oldCategory := WithoutId(currentAllocatedCards[oldCategory], cardId)];
      }
      assert currentAllocatedCards == Cleared(drawnCards, allocatedCards, k);
      if choice.Assign? && |currentAllocatedCards[choice.category]| >= Limit(choice.category) {
        return OverCapacity;
      }
      if choice == Assign(Attributes) && IsStandard(cardToMove.suit) &&
         SuitTaken(currentDrawnCards, currentAllocatedCards[Attributes], cardToMove.suit) {
        return SuitClash;
      }
      currentDrawnCards := currentDrawnCards[k := cardToMove.(allocatedTo := Some(choice))];
      if choice.Assign? {
        currentAllocatedCards := currentAllocatedCards[choice.category := currentAllocatedCards[choice.category] + [cardId]];
      }
      drawnCards := currentDrawnCards;
      allocatedCards := currentAllocatedCards;
      outcome := Reallocated;
    }
  }
}
