/**
 * The drag-and-drop character-creation sheet
 * (scripts/CharacterCreationWizardSheet.mjs): the nine-step wizard keyed by
 * step name, the per-step completion checks, the ten-card draw, card drops
 * into capacity-limited areas, the skill-point pool and the gear list.
 *
 * Class `CreationSheet` holds the actor's `system._characterCreation`
 * record; each handler that ends in `actor.update` becomes a method that
 * assigns the fields it writes.
 */
module SheetWizard {
  import opened Common
  import opened SheetCards

  // ---------------------------------------------------------------------
  // Steps and progress
  // ---------------------------------------------------------------------

  datatype Step =
    | Profile | Overview | CardAllocation | AttributesDisplay | SkillAllocation
    | ResonanceAllocation | GearAllocation | FateCardDisplay | Complete

  /** `stepOrder` of `_onNextStep` and `_onPrevStep`. */
  const StepOrder: seq<Step> :=
    [Profile, Overview, CardAllocation, AttributesDisplay, SkillAllocation,
     ResonanceAllocation, GearAllocation, FateCardDisplay, Complete]

  /** `requiredSteps` of `_validateCompletion`: every step but the last. */
  const RequiredSteps: seq<Step> := StepOrder[..8]

  /** `stepOrder.indexOf(step)`. */
  function StepIndex(s: Step): (i: nat)
    ensures i < |StepOrder| && StepOrder[i] == s
    ensures forall j :: 0 <= j < i ==> StepOrder[j] != s
  {
    match s
    case Profile => 0
    case Overview => 1
    case CardAllocation => 2
    case AttributesDisplay => 3
    case SkillAllocation => 4
    case ResonanceAllocation => 5
    case GearAllocation => 6
    case FateCardDisplay => 7
    case Complete => 8
  }

  /** The step `_onNextStep` moves to: the next in order, staying on `complete`. */
  function NextOf(s: Step): (n: Step)
    ensures StepIndex(n) == if StepIndex(s) < 8 then StepIndex(s) + 1 else 8
  {
    var i := StepIndex(s) + 1;
    StepOrder[if i >= |StepOrder| then |StepOrder| - 1 else i]
  }

  /** The step `_onPrevStep` moves to: the previous in order, staying on `profile`. */
  function PrevOf(s: Step): (p: Step)
    ensures StepIndex(p) == if StepIndex(s) > 0 then StepIndex(s) - 1 else 0
  {
    var i := StepIndex(s) - 1;
    StepOrder[if i < 0 then 0 else i]
  }

  /** `completedSteps[step] === true`; a missing key is not done. */
  predicate IsDone(m: map<Step, bool>, s: Step) {
    s in m && m[s]
  }

  /** `_validateCompletion`: every required step is flagged done. */
  predicate AllRequiredDone(m: map<Step, bool>) {
    forall s | s in RequiredSteps :: IsDone(m, s)
  }

  /** The wizard's progress: `currentStep`, `completedSteps` and `inProgress`. */
  datatype Progress = Progress(currentStep: Step, completedSteps: map<Step, bool>, inProgress: bool)

  /** The flag `_onNextStep` sets for a step whose check passed; `complete` has none. */
  function MarkDone(m: map<Step, bool>, s: Step): map<Step, bool> {
    if s == Complete then m else m[s := true]
  }

  /**
   * The progress after `_onNextStep`, given the outcome of the current step's
   * check: `None` when the check throws before anything is written,
   * `Some(false)` when it fails, `Some(true)` when it passes.
   */
  function AfterNext(p: Progress, check: Option<bool>): (r: Progress)
    // a refused or throwing check never moves the wizard
    ensures check != Some(true) ==> r.currentStep == p.currentStep && r.inProgress == p.inProgress
    // a failed check rewrites at most the profile flag, and only to false
    ensures check != Some(true) ==>
      forall s :: s != Profile ==>
        (s in r.completedSteps <==> s in p.completedSteps) &&
        (s in p.completedSteps ==> r.completedSteps[s] == p.completedSteps[s])
    ensures check == Some(false) && p.currentStep == Profile ==> !IsDone(r.completedSteps, Profile)
    // a passing check flags the current step and keeps every other flag
    ensures check == Some(true) ==>
      (p.currentStep != Complete ==> IsDone(r.completedSteps, p.currentStep)) &&
      forall s :: s != p.currentStep ==>
        (s in r.completedSteps <==> s in p.completedSteps) &&
        (s in p.completedSteps ==> r.completedSteps[s] == p.completedSteps[s])
    // the wizard moves at most one step forward
    ensures StepIndex(r.currentStep) == StepIndex(p.currentStep) ||
            StepIndex(r.currentStep) == StepIndex(p.currentStep) + 1
    // creation ends only on `complete`, only with every required flag set, and is never reopened
    ensures r.inProgress ==> p.inProgress
    ensures !r.inProgress && p.inProgress ==> r.currentStep == Complete && AllRequiredDone(r.completedSteps)
    // `complete` is entered only by finishing creation
    ensures r.currentStep == Complete && p.currentStep != Complete ==> !r.inProgress
  {
    match check
    case None => p
    case Some(false) =>
      if p.currentStep == Profile then p.(completedSteps := p.completedSteps[Profile := false]) else p
    case Some(true) =>
      var marked := MarkDone(p.completedSteps, p.currentStep);
      var next := NextOf(p.currentStep);
      if next != Complete then Progress(next, marked, p.inProgress)
      else if AllRequiredDone(marked) then Progress(Complete, marked, false)
      else Progress(p.currentStep, marked, p.inProgress)
  }

  /**
   * On `complete` after creation has ended, further `_onNextStep` calls
   * change nothing, whichever flags have been cleared since.
   */
  lemma TerminalIdempotent(p: Progress)
    requires p.currentStep == Complete && !p.inProgress
    ensures AfterNext(p, Some(true)) == p
  {
  }

  /**
   * From `fateCardDisplay` with a passing check, creation ends exactly when
   * the seven earlier steps are flagged done; otherwise the wizard stays put.
   */
  lemma {:induction false} FinishFromFateCard(p: Progress)
    requires p.currentStep == FateCardDisplay && p.inProgress
    ensures var r := AfterNext(p, Some(true));
      (!r.inProgress <==> forall i :: 0 <= i < 7 ==> IsDone(p.completedSteps, StepOrder[i])) &&
      (r.inProgress ==> r.currentStep == FateCardDisplay) &&
      IsDone(r.completedSteps, FateCardDisplay)
  {
    var marked := MarkDone(p.completedSteps, FateCardDisplay);
    assert RequiredSteps == StepOrder[..7] + [FateCardDisplay];
    if forall i :: 0 <= i < 7 ==> IsDone(p.completedSteps, StepOrder[i]) {
      forall s | s in RequiredSteps ensures IsDone(marked, s) {
        var i :| 0 <= i < 8 && RequiredSteps[i] == s;
        if i < 7 {
          assert IsDone(p.completedSteps, StepOrder[i]);
        }
      }
    } else {
      var i :| 0 <= i < 7 && !IsDone(p.completedSteps, StepOrder[i]);
      assert StepOrder[i] in RequiredSteps && StepOrder[i] != FateCardDisplay;
      assert !IsDone(marked, StepOrder[i]);
    }
  }

  // ---------------------------------------------------------------------
  // Per-step completion checks
  // ---------------------------------------------------------------------

  /** The three profile fields; a missing field reads as the empty string. */
  datatype ProfileFields = ProfileFields(concept: string, background: string, motivation: string)

  /** `_validateProfileCompletion`: all three fields are filled in. */
  predicate ProfileComplete(p: ProfileFields) {
    p.concept != "" && p.background != "" && p.motivation != ""
  }

  /** `_validateCardAllocationCompletion`: no card left to allocate and exactly ten allocated. */
  predicate CardAllocationComplete(drawn: seq<Card>, b: seq<Bucket>) {
    !(|drawn| > 0) && Total(b) == 10
  }

  /** `_validateAttributesCompletion`: exactly four attribute cards. */
  predicate AttributesComplete(b: seq<Bucket>) {
    |Lookup(b, Attributes)| == 4
  }

  /** `_validateSkillAllocationCompletion`: no skill points left. */
  predicate SkillAllocationComplete(skillPool: int) {
    !(skillPool > 0)
  }

  /** A resonance entry: a checkbox or the text of a unique resonance power. */
  datatype ResonanceValue = Checked(on: bool) | Text(text: string)

  /** The characters `String.prototype.trim` removes. */
  predicate IsTrimmed(c: char) {
    c == ' ' || c == '\t' || c == '\n' || c == '\r' || c == '\U{000B}' || c == '\U{000C}' ||
    c == '\U{00A0}' || c == '\U{1680}' || ('\U{2000}' <= c <= '\U{200A}') ||
    c == '\U{2028}' || c == '\U{2029}' || c == '\U{202F}' || c == '\U{205F}' ||
    c == '\U{3000}' || c == '\U{FEFF}'
  }

  /** `val === true || (typeof val === 'string' && val.trim() !== '')`. */
  predicate Selected(v: ResonanceValue) {
    match v
    case Checked(on) => on
    case Text(t) => exists i | 0 <= i < |t| :: !IsTrimmed(t[i])
  }

  /** `_validateResonanceAllocationCompletion`: some resonance is selected. */
  predicate ResonanceAllocationComplete(m: map<string, ResonanceValue>) {
    exists k | k in m :: Selected(m[k])
  }

  /** `_validateGearAllocationCompletion`: no gear points left (an empty gear list only warns). */
  predicate GearAllocationComplete(gearPool: int) {
    !(gearPool > 0)
  }

  /** Every area holds only what validated drops admit. */
  ghost predicate AllWithinRules(b: seq<Bucket>) {
    forall a :: AreaWithinRules(a, Lookup(b, a))
  }

  /** Every key of `allocatedCards` is one of the five named areas. */
  predicate OnlyFiveAreas(b: seq<Bucket>) {
    forall i :: 0 <= i < |b| ==> b[i].area in FiveAreas
  }

  function FiveSum(b: seq<Bucket>): nat {
    |Lookup(b, Attributes)| + |Lookup(b, Skills)| + |Lookup(b, Resonances)| +
    |Lookup(b, Gear)| + |Lookup(b, Fate)|
  }

  lemma {:induction false} TotalIsFiveSum(b: seq<Bucket>)
    requires DistinctAreas(b) && OnlyFiveAreas(b)
    ensures Total(b) == FiveSum(b)
  {
    if b != [] {
      var t := b[1..];
      assert DistinctAreas(t) && OnlyFiveAreas(t) by {
        forall i, j | 0 <= i < j < |t| ensures t[i].area != t[j].area {
          assert t[i] == b[i + 1] && t[j] == b[j + 1];
        }
        forall i | 0 <= i < |t| ensures t[i].area in FiveAreas {
          assert t[i] == b[i + 1];
        }
      }
      TotalIsFiveSum(t);
      var a0 := b[0].area;
      assert !HasArea(t, a0) by {
        forall k | 0 <= k < |t| ensures t[k].area != a0 {
          assert t[k] == b[k + 1];
        }
      }
      assert Lookup(t, a0) == [];
      assert forall x :: Lookup(b, x) == if x == a0 then b[0].cards else Lookup(t, x);
      assert FiveSum(b) == |b[0].cards| + FiveSum(t) by {
        assert a0 == Attributes || a0 == Skills || a0 == Resonances || a0 == Gear || a0 == Fate;
      }
    }
  }

  /**
   * With the five areas within their capacities (4, 2, 1, 2, 1) and nothing
   * elsewhere, a complete card allocation fills every area to capacity; in
   * particular the attributes step's check then passes.
   */
  lemma FullAllocationFillsEveryArea(drawn: seq<Card>, b: seq<Bucket>)
    requires DistinctAreas(b) && OnlyFiveAreas(b) && AllWithinRules(b)
    requires CardAllocationComplete(drawn, b)
    ensures forall a | a in FiveAreas :: |Lookup(b, a)| == Capacity(a).value
    ensures AttributesComplete(b)
  {
    TotalIsFiveSum(b);
    assert AreaWithinRules(Attributes, Lookup(b, Attributes));
    assert AreaWithinRules(Skills, Lookup(b, Skills));
    assert AreaWithinRules(Resonances, Lookup(b, Resonances));
    assert AreaWithinRules(Gear, Lookup(b, Gear));
    assert AreaWithinRules(Fate, Lookup(b, Fate));
  }

  // ---------------------------------------------------------------------
  // Drop handling helpers
  // ---------------------------------------------------------------------

  /** `findIndex` of the first card with the dropped card's suit and rank. */
  function FirstIndex(s: seq<Card>, c: Card): (k: nat)
    requires c in s
    ensures k < |s| && s[k] == c
    ensures forall i :: 0 <= i < k ==> s[i] != c
  {
    if s[0] == c then 0 else 1 + FirstIndex(s[1..], c)
  }

  /** What the drop event says about its target: no `.allocation-area`, no type on it, or a typed area. */
  datatype DropTarget = OutsideArea | UntypedArea | TypedArea(area: Area)

  /**
   * How `_onDropCard` reads its target: no enclosing `.allocation-area`, an
   * area whose `data-allocation-type` is missing or empty (both falsy), or the
   * area that type names.
   */
  function TargetOf(inArea: bool, allocationType: string): (t: DropTarget)
    ensures t.OutsideArea? <==> !inArea
    ensures t.UntypedArea? <==> inArea && allocationType == ""
    ensures t.TypedArea? ==> WellNamed(t.area) && AreaKey(t.area) == allocationType
  {
    if !inArea then OutsideArea
    else if allocationType == "" then UntypedArea
    else TypedArea(AreaNamed(allocationType))
  }

  /** A target some drop event can produce. */
  predicate ReadableTarget(t: DropTarget) {
    t.TypedArea? ==> WellNamed(t.area)
  }

  /** Every readable target is what `TargetOf` makes of its own area flag and key. */
  lemma ReadableTargetDecoded(t: DropTarget)
    requires ReadableTarget(t)
    ensures TargetOf(!t.OutsideArea?, if t.TypedArea? then AreaKey(t.area) else "") == t
  {
    if t.TypedArea? {
      AreaKeyRoundTrip(t.area);
    }
  }

  datatype DropOutcome = Allocated | InvalidTarget | MissingType | NotDrawn | Rejected

  // ---------------------------------------------------------------------
  // Gear list
  // ---------------------------------------------------------------------

  datatype GearItem = GearItem(name: string, description: string)
  datatype GearField = Name | Description

  /** `array.splice(index, 1)`: a negative index counts from the end; one past the end removes nothing. */
  function SpliceOne<T>(s: seq<T>, index: int): (r: seq<T>)
    ensures 0 <= index < |s| ==>
      |r| == |s| - 1 && (forall i :: 0 <= i < index ==> r[i] == s[i]) &&
      (forall i :: index <= i < |r| ==> r[i] == s[i + 1])
    ensures index >= |s| ==> r == s
  {
    var start := if index < 0 then (if |s| + index < 0 then 0 else |s| + index) else index;
    if start < |s| then s[..start] + s[start + 1..] else s
  }

  /**
   * The index rule of `splice`: a negative index counts back from the end,
   * one further back than the length clamps to the first element, and the
   * element removed at a valid index is the only one that leaves.
   */
  lemma SpliceOneIndexRule<T>(s: seq<T>, index: int)
    ensures -|s| <= index < 0 ==> SpliceOne(s, index) == SpliceOne(s, |s| + index)
    ensures index < -|s| && s != [] ==> SpliceOne(s, index) == s[1..]
    ensures index < -|s| && s == [] ==> SpliceOne(s, index) == []
    ensures 0 <= index < |s| ==> multiset(SpliceOne(s, index)) + multiset{s[index]} == multiset(s)
  {
    if 0 <= index < |s| {
      assert s == s[..index] + [s[index]] + s[index + 1..];
    }
  }

  function Max(a: int, b: int): int {
    if a < b then b else a
  }

  // ---------------------------------------------------------------------
  // The sheet
  // ---------------------------------------------------------------------

  class CreationSheet {
    var inProgress: bool
    var currentStep: Step
    var completedSteps: map<Step, bool>
    /** `_characterCreation.profile`, which the profile check reads; absent unless written elsewhere. */
    var profile: Option<ProfileFields>
    var drawnCards: seq<Card>
    var allocatedCards: seq<Bucket>
    var skillPool: int
    var resonancePool: int
    var gearPool: int
    var skillAllocations: map<string, int>
    var resonanceAllocations: map<string, ResonanceValue>
    var gearAllocations: seq<GearItem>

    /** `allocatedCards` is an object: no key twice. */
    ghost predicate Valid()
      reads this
    {
      DistinctAreas(allocatedCards)
    }

    function CurrentProgress(): Progress
      reads this
    {
      Progress(currentStep, completedSteps, inProgress)
    }

    /** The value of `skillAllocations[path] || 0`. */
    function SkillValue(path: string): int
      reads this
    {
      if path in skillAllocations then skillAllocations[path] else 0
    }

    /**
     * The outcome of the current step's check in `_onNextStep`: `None` when
     * the profile check throws because `_characterCreation.profile` is absent.
     */
    function StepCheck(): Option<bool>
      reads this
    {
      match currentStep
      case Profile => if profile.None? then None else Some(ProfileComplete(profile.value))
      case Overview => Some(true)
      case CardAllocation => Some(CardAllocationComplete(drawnCards, allocatedCards))
      case AttributesDisplay => Some(AttributesComplete(allocatedCards))
      case SkillAllocation => Some(SkillAllocationComplete(skillPool))
      case ResonanceAllocation => Some(ResonanceAllocationComplete(resonanceAllocations))
      case GearAllocation => Some(GearAllocationComplete(gearPool))
      case FateCardDisplay => Some(true)
      case Complete => Some(true)
    }

    /** The record `getData` creates when the actor has none. */
    constructor ()
      ensures Valid()
      ensures inProgress && currentStep == Profile
      ensures forall s :: s in completedSteps <==> s in RequiredSteps
      ensures forall s :: s in completedSteps ==> !completedSteps[s]
      ensures profile == None && drawnCards == [] && Total(allocatedCards) == 0
      ensures |allocatedCards| == 5 && AllWithinRules(allocatedCards)
      ensures forall i :: 0 <= i < 5 ==> allocatedCards[i] == Bucket(FiveAreas[i], [])
      ensures skillPool == 0 && resonancePool == 0 && gearPool == 0
      ensures skillAllocations == map[] && resonanceAllocations == map[] && gearAllocations == []
    {
      inProgress := true;
      currentStep := Profile;
      completedSteps := map s | s in RequiredSteps :: false;
      profile := None;
      drawnCards := [];
      allocatedCards := [Bucket(Attributes, []), Bucket(Skills, []), Bucket(Resonances, []),
                         Bucket(Gear, []), Bucket(Fate, [])];
      skillPool, resonancePool, gearPool := 0, 0, 0;
      skillAllocations := map[];
      resonanceAllocations := map[];
      gearAllocations := [];
      new;
      forall a ensures AreaWithinRules(a, Lookup(allocatedCards, a)) {
        LookupAllEmpty(allocatedCards, a);
      }
    }

    /** `_onNextStep`. */
    method NextStep()
      modifies this
      ensures CurrentProgress() == AfterNext(old(CurrentProgress()), old(StepCheck()))
      ensures profile == old(profile) && drawnCards == old(drawnCards)
      ensures allocatedCards == old(allocatedCards)
      ensures skillPool == old(skillPool) && resonancePool == old(resonancePool) && gearPool == old(gearPool)
      ensures skillAllocations == old(skillAllocations) && resonanceAllocations == old(resonanceAllocations)
      ensures gearAllocations == old(gearAllocations)
    {
      var check := StepCheck();
      if check.None? {
        return;  // reading a field of the absent profile record throws
      }
      var step := currentStep;
      var completed := completedSteps;
      var passed := check.value;
      if step == Profile {
        // the profile check writes its own outcome into the flag before returning
        if !passed {
          completedSteps := completedSteps[Profile := false];
        }
      }
      if passed && step != Complete {
        completed := completed[step := true];
      }
      if !passed {
        return;
      }
      var nextIndex := StepIndex(step) + 1;
      if nextIndex >= |StepOrder| {
        nextIndex := |StepOrder| - 1;
      }
      var next := StepOrder[nextIndex];
      currentStep, completedSteps := next, completed;
      if next == Complete {
        if AllRequiredDone(completedSteps) {
          inProgress := false;
        } else {
          currentStep := step;  // revert to the step the call started on
        }
      }
    }

    /** `_onPrevStep`. */
    method PrevStep()
      modifies this`currentStep
      ensures currentStep == PrevOf(old(currentStep))
    {
      var prevIndex := StepIndex(currentStep) - 1;
      if prevIndex < 0 {
        prevIndex := 0;
      }
      currentStep := StepOrder[prevIndex];
    }

    /** `_onStageLinkClick`: jumps to the linked step with no check. */
    method StageLinkClick(target: Step)
      modifies this`currentStep
      ensures currentStep == target
    {
      currentStep := target;
    }

    /**
     * `_onDrawCards`: a Fisher-Yates shuffle of a fresh 54-card deck, then ten
     * cards popped off its end. The allocation areas are left as they are.
     */
    method DrawCards(rolls: seq<nat>)
      modifies this`drawnCards, this`completedSteps
      ensures |drawnCards| == 10 && Distinct(drawnCards)
      ensures forall c :: c in drawnCards ==> c in FullDeck()
      ensures completedSteps == old(completedSteps)[CardAllocation := false]
    {
      var deck := FullDeck();
      var a := new Card[|deck|](i requires 0 <= i < |deck| => deck[i]);
      assert a[..] == deck;
      ShuffleInPlace(a, rolls);
      var drawn: seq<Card> := [];
      var n := a.Length;
      var t := 0;
      while t < 10 && n > 0
        invariant 0 <= t <= 10 && n == a.Length - t
        invariant |drawn| == t
        invariant forall u :: 0 <= u < t ==> drawn[u] == a[a.Length - 1 - u]
      {
        drawn := drawn + [a[n - 1]];
        n, t := n - 1, t + 1;
      }
      PoppedFromShuffledDeck(a[..], drawn);
      drawnCards := drawn;
      completedSteps := completedSteps[CardAllocation := false];
    }

    /**
     * `_onDropCard` (the definition at line 400, which replaces the earlier
     * one): moves the first drawn card with the dropped suit and rank into the
     * target area when `_validateAllocation` accepts the area with the card
     * appended. A typed area missing from `allocatedCards` is first created
     * empty, even when the drop is then refused.
     */
    method DropCard(target: DropTarget, dropped: Card) returns (outcome: DropOutcome)
      requires Valid() && ReadableTarget(target)
      modifies this`drawnCards, this`allocatedCards
      ensures Valid()
      ensures outcome == InvalidTarget <==> target == OutsideArea
      ensures outcome == MissingType <==> target == UntypedArea
      ensures outcome == NotDrawn <==> target.TypedArea? && dropped !in old(drawnCards)
      ensures outcome == Rejected <==>
        target.TypedArea? && dropped in old(drawnCards) &&
        !ValidateAllocation(target.area, old(Lookup(allocatedCards, target.area)) + [dropped], dropped)
      ensures outcome != Allocated ==>
        drawnCards == old(drawnCards) &&
        (forall x :: Lookup(allocatedCards, x) == Lookup(old(allocatedCards), x)) &&
        Total(allocatedCards) == Total(old(allocatedCards))
      ensures outcome == Allocated ==>
        target.TypedArea? && dropped in old(drawnCards) &&
        (var k := FirstIndex(old(drawnCards), dropped);
         drawnCards == old(drawnCards)[..k] + old(drawnCards)[k + 1..]) &&
        Lookup(allocatedCards, target.area) == Lookup(old(allocatedCards), target.area) + [dropped] &&
        (forall x :: x != target.area ==> Lookup(allocatedCards, x) == Lookup(old(allocatedCards), x))
      ensures |drawnCards| + Total(allocatedCards) == old(|drawnCards| + Total(allocatedCards))
      ensures AllWithinRules(old(allocatedCards)) ==> AllWithinRules(allocatedCards)
      ensures OnlyFiveAreas(old(allocatedCards)) && target.TypedArea? && target.area in FiveAreas ==>
        OnlyFiveAreas(allocatedCards)
    {
      if target.TypedArea? && !HasArea(allocatedCards, target.area) {
        EnsureArea(target.area);
      }
      var current := allocatedCards;
      var drawn := drawnCards;
      if target.OutsideArea? {
        outcome := InvalidTarget;
        return;
      }
      if target.UntypedArea? {
        outcome := MissingType;
        return;
      }
      var area := target.area;
      if dropped !in drawn {
        outcome := NotDrawn;
        return;
      }
      var k := FirstIndex(drawn, dropped);
      var proposed := Lookup(current, area) + [dropped];
      if !ValidateAllocation(area, proposed, dropped) {
        outcome := Rejected;
        return;
      }
      drawn := drawn[..k] + drawn[k + 1..];
      current := Store(current, area, proposed);
      forall x ensures Lookup(current, x) == if x == area then proposed else Lookup(allocatedCards, x) {
        LookupStore(allocatedCards, area, proposed, x);
      }
      TotalStore(allocatedCards, area, proposed);
      StoreDistinct(allocatedCards, area, proposed);
      if OnlyFiveAreas(allocatedCards) && area in FiveAreas {
        StoreKeepsFive(allocatedCards, area, proposed);
      }
      if AllWithinRules(allocatedCards) {
        DropKeepsRules(area, Lookup(allocatedCards, area), dropped);
      }
      drawnCards, allocatedCards := drawn, current;
      outcome := Allocated;
    }

    /** The defensive `allocatedCards[type] = []` of `_onDropCard`. */
    method EnsureArea(a: Area)
      requires Valid() && !HasArea(allocatedCards, a)
      modifies this`allocatedCards
      ensures Valid()
      ensures HasArea(allocatedCards, a)
      ensures forall x :: Lookup(allocatedCards, x) == Lookup(old(allocatedCards), x)
      ensures Total(allocatedCards) == Total(old(allocatedCards))
      ensures OnlyFiveAreas(old(allocatedCards)) && a in FiveAreas ==> OnlyFiveAreas(allocatedCards)
    {
      var b := allocatedCards;
      forall x ensures Lookup(Store(b, a, []), x) == Lookup(b, x) && (x == a ==> HasArea(Store(b, a, []), x)) {
        LookupStore(b, a, [], x);
      }
      TotalStore(b, a, []);
      StoreDistinct(b, a, []);
      if OnlyFiveAreas(b) && a in FiveAreas {
        StoreKeepsFive(b, a, []);
      }
      allocatedCards := Store(b, a, []);
    }

    /**
     * `_onSkillPointChange`: the entered value, clamped at zero (a
     * non-number reads as 0), replaces the skill's value when the pool can pay
     * the difference; the pool pays exactly the difference.
     */
    method SkillPointChange(skillPath: string, input: Option<int>) returns (accepted: bool)
      modifies this`skillPool, this`skillAllocations
      ensures accepted <==> old(skillPool) - (Max(0, input.GetOr(0)) - old(SkillValue(skillPath))) >= 0
      ensures accepted ==>
        skillAllocations == old(skillAllocations)[skillPath := Max(0, input.GetOr(0))] &&
        skillAllocations[skillPath] >= 0 && skillPool >= 0 &&
        skillPool + skillAllocations[skillPath] == old(skillPool) + old(SkillValue(skillPath))
      ensures !accepted ==> skillAllocations == old(skillAllocations) && skillPool == old(skillPool)
    {
      var newValue := input.GetOr(0);
      newValue := Max(0, newValue);
      var currentValue := SkillValue(skillPath);
      var change := newValue - currentValue;
      if skillPool - change < 0 {
        return false;
      }
      skillAllocations := skillAllocations[skillPath := newValue];
      skillPool := skillPool - change;
      return true;
    }

    /** `_onAddGear`: appends an empty entry. */
    method AddGear()
      modifies this`gearAllocations
      ensures gearAllocations == old(gearAllocations) + [GearItem("", "")]
    {
      gearAllocations := gearAllocations + [GearItem("", "")];
    }

    /** `_onRemoveGear`: `splice(index, 1)` on the gear list. */
    method RemoveGear(index: int)
      modifies this`gearAllocations
      ensures gearAllocations == SpliceOne(old(gearAllocations), index)
      ensures |gearAllocations| <= |old(gearAllocations)| <= |gearAllocations| + 1
    {
      gearAllocations := SpliceOne(gearAllocations, index);
    }

    /** `_onGearChange`: sets one field of an existing entry; an index with no entry changes nothing. */
    method GearChange(index: int, field: GearField, value: string)
      modifies this`gearAllocations
      ensures |gearAllocations| == |old(gearAllocations)|
      ensures forall i :: 0 <= i < |gearAllocations| && i != index ==> gearAllocations[i] == old(gearAllocations)[i]
      ensures 0 <= index < |gearAllocations| ==>
        gearAllocations[index] == match field
          case Name => old(gearAllocations)[index].(name := value)
          case Description => old(gearAllocations)[index].(description := value)
    {
      if 0 <= index < |gearAllocations| {
        var item := gearAllocations[index];
        item := match field
          case Name => item.(name := value)
          case Description => item.(description := value);
        gearAllocations := gearAllocations[index := item];
      }
    }
  }

  /** The swap loop of `_onDrawCards`: from the last position down to 1, swap with a position at or below it. */
  method ShuffleInPlace(a: array<Card>, rolls: seq<nat>)
    modifies a
    ensures multiset(a[..]) == old(multiset(a[..]))
  {
    var i := a.Length - 1;
    var k := 0;
    while i > 0
      invariant i < a.Length
      invariant multiset(a[..]) == old(multiset(a[..]))
    {
      var j := Pick(rolls, k, i + 1);
      a[i], a[j] := a[j], a[i];
      i, k := i - 1, k + 1;
    }
  }

  /** Cards popped off the end of a shuffled deck are different cards of the deck. */
  lemma PoppedFromShuffledDeck(shuffled: seq<Card>, drawn: seq<Card>)
    requires multiset(shuffled) == multiset(FullDeck())
    requires |drawn| <= |shuffled|
    requires forall u :: 0 <= u < |drawn| ==> drawn[u] == shuffled[|shuffled| - 1 - u]
    ensures Distinct(drawn)
    ensures forall c :: c in drawn ==> c in FullDeck()
  {
    FullDeckDistinct();
    DistinctPermutation(shuffled, FullDeck());
    forall c | c in drawn ensures c in FullDeck() {
      var u :| 0 <= u < |drawn| && drawn[u] == c;
      assert c in multiset(shuffled);
    }
  }

  lemma LookupAllEmpty(b: seq<Bucket>, a: Area)
    requires forall i :: 0 <= i < |b| ==> b[i].cards == []
    ensures Lookup(b, a) == []
  {
    if b != [] && b[0].area != a {
      LookupAllEmpty(b[1..], a);
    }
  }

  lemma StoreKeepsFive(b: seq<Bucket>, a: Area, cs: seq<Card>)
    requires OnlyFiveAreas(b) && a in FiveAreas
    ensures OnlyFiveAreas(Store(b, a, cs))
  {
    forall x | HasArea(Store(b, a, cs), x) ensures x in FiveAreas {
      LookupStore(b, a, cs, x);
      if x != a {
        var i :| 0 <= i < |b| && b[i].area == x;
      }
    }
    var s := Store(b, a, cs);
    forall i | 0 <= i < |s| ensures s[i].area in FiveAreas {
      assert HasArea(s, s[i].area);
    }
  }
}
