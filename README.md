# Resonance Zero SRP — character creation and solitaire, modelled in Dafny

This project models the rule-bearing core of the Resonance Zero SRP Foundry VTT
system. It covers three pieces:

- **The drag-and-drop character-creation sheet**
  (`scripts/CharacterCreationWizardSheet.mjs`).
  - A 54-card deck.
  - Ten cards drawn for the character.
  - Cards dropped into five allocation areas. Those areas have capacities and a
    rule that attribute cards must have distinct suits.
  - A step-by-step progress record, gated by a per-step completion check.
  - A skill point pool and a gear list.
  - Modules `SheetCards` and `SheetWizard`.
- **The form-based character-creation wizard**
  (`scripts/character-creation-wizard.mjs`).
  - A 55-card catalog with string ids.
  - A ten-card draw that must show all four standard suits. It makes up to 500
    random attempts, then falls back to a forced draw.
  - A radio-button reallocation ledger. It keeps every card in at most one
    category list, within the per-category limits, with attribute suits
    distinct.
  - Index-based step navigation with a profile gate.
  - The actor sheet's creation-mode flag.
  - Modules `WizardCatalog` and `WizardLedger`.
- **The questing-phase solitaire module** (`rz-solitaire.mjs`).
  - A 52-card deck that is shuffled, drawn from and refilled in place.
  - A board: a hand, a discard pile and seven tableau stacks. The proofs show
    that no card is ever created or lost, measured as a multiset of (suit, rank)
    faces.
  - Module `Solitaire`.

`Common` holds an `Option` type, a distinctness predicate and `Pick`. `Pick`
stands in for `Math.random` and the seeded generator. Every random choice is
read from a stream of rolls that the caller supplies, so every property is
proved for all random outcomes.

Objects that the source updates in place are Dafny classes whose methods carry
`modifies` clauses:

- the sheet's `_characterCreation` record (`SheetWizard.CreationSheet`);
- the wizard's creation state (`WizardLedger.CreationState`);
- the solitaire deck (`Solitaire.CardDeck`);
- the solitaire application (`Solitaire.SolitaireApp`).

Each method is specified against a pure function (`AfterNext`, `NextIndex`,
`Reallocate`, `FullDeck`, `NewDeck`, `SpliceOne`, ...), and the lemmas about
those functions state what the game rules promise.

In these places the code behaves in ways a reader may not expect; the model follows the code:

- The sheet's `_onDrawCards` does not clear earlier allocations when it draws
  again.
- The sheet's profile check reads `_characterCreation.profile`, which the sheet
  never creates. A missing record makes the check throw, so the step does not
  advance (`SheetWizard.CreationSheet.NextStep`).
- The wizard's overview links pass the profile gate that `_onNextStep` enforces
  (`WizardLedger.OverviewLinkPassesProfileGate`).
- In the solitaire, `_onMakeMove` with a non-empty hand works before any deck
  exists, because of the short-circuit test at line 203.
- The sheet's `activateListeners` binds `this._onNavigateWizard` at line 66, but
  the class defines no such method. The `.bind` call throws, so no listener from
  line 66 on is attached: not next, previous, draw, drag or drop. Line 89 also
  binds the undefined `_onDragEnterCard`. The handlers are still modelled from
  their bodies, as they would run if they were wired.
- The wizard never calls `_drawInitialCards`, and `activateListeners` (lines
  125-141) binds no listener to `_onCardAllocationChange`. Nothing in the wizard
  creates `_characterCreation` either. The drawing and the reallocation are
  modelled from their bodies; `WizardLedger.DrawnHandConsistent` states that
  a drawn hand would start the ledger in a consistent state.

## Model

| member | source | states |
|---|---|---|
| SheetCards.FullDeck | system/resonance-zero-srp/scripts/CharacterCreationWizardSheet.mjs:255-275 | the deck has 54 cards |
| SheetCards.FullDeckDistinct | system/resonance-zero-srp/scripts/CharacterCreationWizardSheet.mjs:255-275 | the 54 cards are pairwise different; the first 52 are standard and the last two are the wild fool and joker |
| SheetCards.FullDeckComplete | system/resonance-zero-srp/scripts/CharacterCreationWizardSheet.mjs:255-275 | every standard suit and rank pair is in the deck |
| SheetCards.Lookup | system/resonance-zero-srp/scripts/CharacterCreationWizardSheet.mjs:444 | reading an area whose key is absent gives no cards |
| SheetCards.LookupStore | system/resonance-zero-srp/scripts/CharacterCreationWizardSheet.mjs:453-456 | writing an area changes what that area holds and no other area, and adds its key if it was missing |
| SheetCards.StoreDistinct | system/resonance-zero-srp/scripts/CharacterCreationWizardSheet.mjs:453-456 | after a write, no area key appears twice |
| SheetCards.TotalStore | system/resonance-zero-srp/scripts/CharacterCreationWizardSheet.mjs:555-589 | the allocated total changes by exactly the change in the written area's size |
| SheetCards.SuitCountAppend | system/resonance-zero-srp/scripts/CharacterCreationWizardSheet.mjs:481-535 | adding one card raises the count for its own suit by one and leaves every other suit's count unchanged |
| SheetCards.SuitCountZero | system/resonance-zero-srp/scripts/CharacterCreationWizardSheet.mjs:481-535 | a suit count is zero exactly when no card of that suit is present |
| SheetCards.AreaNamed | system/resonance-zero-srp/scripts/CharacterCreationWizardSheet.mjs:414-417 | a non-empty `data-allocation-type` string names a well-named area whose key is that string |
| SheetCards.AreaKeyRoundTrip | system/resonance-zero-srp/scripts/CharacterCreationWizardSheet.mjs:414-417 | every well-named area is the area its own key names, so area keys and areas correspond one to one |
| SheetCards.DropAcceptedIff | system/resonance-zero-srp/scripts/CharacterCreationWizardSheet.mjs:481-535 | a drop is accepted iff the area stays within its capacity and, for attributes, the new standard-suit card shares its suit with no card already there |
| SheetCards.DropKeepsRules | system/resonance-zero-srp/scripts/CharacterCreationWizardSheet.mjs:481-535 | an accepted drop keeps the area within its capacity, and keeps attribute suits distinct |
| SheetWizard.StepIndex | system/resonance-zero-srp/scripts/CharacterCreationWizardSheet.mjs:174-175 | the position of the first occurrence of a step in the step order |
| SheetWizard.NextOf | system/resonance-zero-srp/scripts/CharacterCreationWizardSheet.mjs:174-183 | "next" moves one position forward and stays on `complete` |
| SheetWizard.PrevOf | system/resonance-zero-srp/scripts/CharacterCreationWizardSheet.mjs:209-217 | "previous" moves one position back and stays on `profile` |
| SheetWizard.AfterNext | system/resonance-zero-srp/scripts/CharacterCreationWizardSheet.mjs:122-205 | a failed or throwing check never moves the wizard, and only the profile check clears its own flag. A passing check flags the current step and keeps every other flag. The wizard moves at most one step. Creation ends only on `complete` with every required flag set, is never reopened, and `complete` is reached only by ending creation |
| SheetWizard.TerminalIdempotent | system/resonance-zero-srp/scripts/CharacterCreationWizardSheet.mjs:122-205 | "next" on a finished wizard changes nothing |
| SheetWizard.FinishFromFateCard | system/resonance-zero-srp/scripts/CharacterCreationWizardSheet.mjs:122-205 | passing the last check with every earlier flag set ends creation on `complete` |
| SheetWizard.TotalIsFiveSum | system/resonance-zero-srp/scripts/CharacterCreationWizardSheet.mjs:555-589 | with only the five named areas, the allocated total is the sum of their sizes |
| SheetWizard.FullAllocationFillsEveryArea | system/resonance-zero-srp/scripts/CharacterCreationWizardSheet.mjs:555-605 | when ten cards are allocated within the rules, each of the five areas is exactly full, so the attributes check passes too |
| SheetWizard.FirstIndex | system/resonance-zero-srp/scripts/CharacterCreationWizardSheet.mjs:437-439 | the index of the first drawn card with the dropped card's suit and rank |
| SheetWizard.SpliceOne | system/resonance-zero-srp/scripts/CharacterCreationWizardSheet.mjs:755-761 | at an index naming an element, the list loses exactly that element and keeps the others in order; at an index past the end it is unchanged |
| SheetWizard.SpliceOneIndexRule | system/resonance-zero-srp/scripts/CharacterCreationWizardSheet.mjs:759 | a negative index counts back from the end, one beyond the length removes the first element, and at a valid index the removed element is the only one that leaves the multiset |
| SheetWizard.CreationSheet.constructor | system/resonance-zero-srp/scripts/CharacterCreationWizardSheet.mjs:29-49 | the initial record: creation in progress on `profile`, every required flag false, no cards, five empty areas, empty pools and lists |
| SheetWizard.CreationSheet.NextStep | system/resonance-zero-srp/scripts/CharacterCreationWizardSheet.mjs:122-205 | the progress becomes `AfterNext` of the old progress and the current step's check; nothing else changes |
| SheetWizard.CreationSheet.PrevStep | system/resonance-zero-srp/scripts/CharacterCreationWizardSheet.mjs:206-225 | the step moves back one place, without going before `profile` |
| SheetWizard.CreationSheet.StageLinkClick | system/resonance-zero-srp/scripts/CharacterCreationWizardSheet.mjs:242-254 | jumps to the linked step without any check |
| SheetWizard.CreationSheet.DrawCards | system/resonance-zero-srp/scripts/CharacterCreationWizardSheet.mjs:276-305 | ten different cards from the deck are drawn, and the card-allocation flag is reset to false |
| SheetWizard.ShuffleInPlace | system/resonance-zero-srp/scripts/CharacterCreationWizardSheet.mjs:282-285 | the in-place shuffle permutes the array |
| SheetWizard.PoppedFromShuffledDeck | system/resonance-zero-srp/scripts/CharacterCreationWizardSheet.mjs:287-290 | ten cards popped from a shuffled copy of the deck are ten different deck cards |
| SheetWizard.TargetOf | system/resonance-zero-srp/scripts/CharacterCreationWizardSheet.mjs:413-433 | a drop outside an allocation area, on an area with a missing or empty type, and on a typed area are told apart. A typed area is the well-named area its type string names |
| SheetWizard.ReadableTargetDecoded | system/resonance-zero-srp/scripts/CharacterCreationWizardSheet.mjs:413-433 | every target the drop handler accepts as input is the decoding of some area flag and type string |
| SheetWizard.CreationSheet.DropCard | system/resonance-zero-srp/scripts/CharacterCreationWizardSheet.mjs:400-480 | for a target read from a drop event, each outcome happens iff its condition holds (no area, untyped area, card not drawn, validation refused). A refused drop changes no cards. An accepted drop moves the first matching card from the drawn cards to the end of the target area. The drawn-plus-allocated count is preserved, and area rules and area keys are kept |
| SheetWizard.CreationSheet.EnsureArea | system/resonance-zero-srp/scripts/CharacterCreationWizardSheet.mjs:415-417 | the defensive initialisation adds the area key without changing any area's cards or the total |
| SheetWizard.CreationSheet.SkillPointChange | system/resonance-zero-srp/scripts/CharacterCreationWizardSheet.mjs:637-669 | a change is accepted iff the pool would stay non-negative. If accepted, the skill's value is the clamped input and the pool is paid the difference; if refused, nothing changes |
| SheetWizard.CreationSheet.AddGear | system/resonance-zero-srp/scripts/CharacterCreationWizardSheet.mjs:743-754 | appends one empty gear entry |
| SheetWizard.CreationSheet.RemoveGear | system/resonance-zero-srp/scripts/CharacterCreationWizardSheet.mjs:755-767 | removes at most one entry, as `splice(index, 1)` |
| SheetWizard.CreationSheet.GearChange | system/resonance-zero-srp/scripts/CharacterCreationWizardSheet.mjs:725-742 | sets one field of an existing entry; every other entry and the list length stay the same |
| WizardCatalog.Lower | system/resonance-zero-srp/scripts/character-creation-wizard.mjs:252 | lower-casing keeps the length of a rank key |
| WizardCatalog.FullDeck | system/resonance-zero-srp/scripts/character-creation-wizard.mjs:224-271 | the catalog has 55 cards |
| WizardCatalog.CatalogCardAt | system/resonance-zero-srp/scripts/character-creation-wizard.mjs:250-263 | the card at row `i`, column `j` is rank `j` of standard suit `i` |
| WizardCatalog.GetFullDeck | system/resonance-zero-srp/scripts/character-creation-wizard.mjs:224-271 | the nested loops build exactly the catalog |
| WizardCatalog.CountSuitAppend | system/resonance-zero-srp/scripts/character-creation-wizard.mjs:224-271 | suit counts add over concatenation |
| WizardCatalog.CountSuitUniform | system/resonance-zero-srp/scripts/character-creation-wizard.mjs:224-271 | a run of one suit counts its full length for that suit and zero for every other suit |
| WizardCatalog.LowerRankKeys | system/resonance-zero-srp/scripts/character-creation-wizard.mjs:232-252 | the lower-cased rank keys are short, contain no dash, and are pairwise different |
| WizardCatalog.DashJoinInjective | system/resonance-zero-srp/scripts/character-creation-wizard.mjs:252 | when neither rank key contains a dash, two `rank-suit` ids are equal iff both parts are equal |
| WizardCatalog.SuitKeysDistinct | system/resonance-zero-srp/scripts/character-creation-wizard.mjs:225-230 | different suits have different keys |
| WizardCatalog.RowCount | system/resonance-zero-srp/scripts/character-creation-wizard.mjs:250-263 | each 13-card row holds exactly its own suit |
| WizardCatalog.FullDeckSuitCounts | system/resonance-zero-srp/scripts/character-creation-wizard.mjs:224-271 | 13 cards of each standard suit and one each of black, red and multi |
| WizardCatalog.TailCount | system/resonance-zero-srp/scripts/character-creation-wizard.mjs:266-268 | the three special cards are one of each non-standard suit |
| WizardCatalog.FullDeckValues | system/resonance-zero-srp/scripts/character-creation-wizard.mjs:224-271 | every catalog card is unallocated; standard values run 2 to 14, the jokers are worth 15 and the fool 16 |
| WizardCatalog.StandardIdsDiffer | system/resonance-zero-srp/scripts/character-creation-wizard.mjs:250-252 | two standard cards of different suit or rank get different ids |
| WizardCatalog.StandardIdNotSpecial | system/resonance-zero-srp/scripts/character-creation-wizard.mjs:252-268 | no standard id equals the id of a joker or of the fool |
| WizardCatalog.FullDeckIdsDistinct | system/resonance-zero-srp/scripts/character-creation-wizard.mjs:250-268 | no two catalog cards share an id |
| WizardCatalog.CatalogIdDetermines | system/resonance-zero-srp/scripts/character-creation-wizard.mjs:347-350 | two catalog cards have the same id iff they are the same card, so the by-id lookup loses nothing |
| WizardCatalog.DistinctCatalogCardsHaveDistinctIds | system/resonance-zero-srp/scripts/character-creation-wizard.mjs:347-350 | different catalog cards have different ids |
| WizardCatalog.Indices | system/resonance-zero-srp/scripts/character-creation-wizard.mjs:291 | the index array holds 0 to n-1, in order and without repetition |
| WizardCatalog.PickedDistinct | system/resonance-zero-srp/scripts/character-creation-wizard.mjs:292-301 | cards picked at indices spliced out of the index array have distinct ids |
| WizardCatalog.SampleTen | system/resonance-zero-srp/scripts/character-creation-wizard.mjs:287-301 | one attempt draws ten cards of the deck with distinct ids, and the suit set is exactly the standard suits among them |
| WizardCatalog.AllStandardSuitsPresent | system/resonance-zero-srp/scripts/character-creation-wizard.mjs:304-311 | true iff all four standard suits were seen |
| WizardCatalog.FilterSuit | system/resonance-zero-srp/scripts/character-creation-wizard.mjs:327 | exactly the cards of the given suit |
| WizardCatalog.IndexOf | system/resonance-zero-srp/scripts/character-creation-wizard.mjs:331 | the first position of the card |
| WizardCatalog.StandardCardsInCatalog | system/resonance-zero-srp/scripts/character-creation-wizard.mjs:250-263 | every standard card is in the catalog |
| WizardCatalog.RemovalKeepsLaterSuits | system/resonance-zero-srp/scripts/character-creation-wizard.mjs:325-333 | removing a card of one suit leaves every card of the later suits available |
| WizardCatalog.FallbackSuits | system/resonance-zero-srp/scripts/character-creation-wizard.mjs:325-333 | the forced phase picks one card of each standard suit in order, and the rest of the deck is everything else |
| WizardCatalog.FallbackDraw | system/resonance-zero-srp/scripts/character-creation-wizard.mjs:320-342 | the fallback yields ten different deck cards whose first four are clubs, diamonds, hearts and spades |
| WizardCatalog.IndexById | system/resonance-zero-srp/scripts/character-creation-wizard.mjs:347-350 | the lookup's keys are the drawn ids, and each maps to the drawn card with that id |
| WizardCatalog.DrawInitialCards | system/resonance-zero-srp/scripts/character-creation-wizard.mjs:277-353 | ten unallocated catalog cards with distinct ids covering all four standard suits, and a by-id lookup that returns each of them |
| WizardCatalog.FullDeckValues_All | system/resonance-zero-srp/scripts/character-creation-wizard.mjs:345 | every card drawn from the catalog starts unallocated |
| WizardLedger.AllCategoriesListed | system/resonance-zero-srp/scripts/character-creation-wizard.mjs:49-55 | every category has a limit entry |
| WizardLedger.FindStepIndex | system/resonance-zero-srp/scripts/character-creation-wizard.mjs:168 | `findIndex` gives -1 iff the id is not a step, and otherwise the first step with that id |
| WizardLedger.OverviewTarget | system/resonance-zero-srp/scripts/character-creation-wizard.mjs:165-177 | an overview link is followed iff it names a step no further than one past the current one, and then lands on that step |
| WizardLedger.NextIndex | system/resonance-zero-srp/scripts/character-creation-wizard.mjs:182-201 | "next" is refused iff the index names no step, or the wizard is on the profile step with a field missing; otherwise it moves one step, capped at the last |
| WizardLedger.PrevIndex | system/resonance-zero-srp/scripts/character-creation-wizard.mjs:206-212 | "previous" moves one step back, never below 0 |
| WizardLedger.NextThenPrev | system/resonance-zero-srp/scripts/character-creation-wizard.mjs:182-212 | "previous" undoes an accepted "next" before the last step |
| WizardLedger.NavigationStaysOnSteps | system/resonance-zero-srp/scripts/character-creation-wizard.mjs:165-212 | every navigation from a valid step lands on a valid step |
| WizardLedger.OverviewLinkPassesProfileGate | system/resonance-zero-srp/scripts/character-creation-wizard.mjs:165-201 | with the profile incomplete, "next" is refused but the card-allocation link still moves the wizard forward |
| WizardLedger.CreationMode | system/resonance-zero-srp/scripts/character-creation-wizard.mjs:463 | the sheet leaves creation mode only when `inProgress` is explicitly false |
| WizardLedger.FindCard | system/resonance-zero-srp/scripts/character-creation-wizard.mjs:374 | `find` gives the first drawn card with the id, or nothing iff no drawn card has it |
| WizardLedger.WithoutId | system/resonance-zero-srp/scripts/character-creation-wizard.mjs:382-385 | removes exactly the id, shortening a duplicate-free list by one, and changes nothing when the id is absent |
| WizardLedger.WithAllCategories | system/resonance-zero-srp/scripts/character-creation-wizard.mjs:366-371 | every category gets a list, and existing lists are kept |
| WizardLedger.FillMissingCategories | system/resonance-zero-srp/scripts/character-creation-wizard.mjs:366-371 | the loop fills in exactly the missing lists |
| WizardLedger.Reallocate | system/resonance-zero-srp/scripts/character-creation-wizard.mjs:359-433 | an unknown card is refused iff it is not drawn. Any refusal changes nothing. On success the card records the choice and no other card changes, and every category has a list. The refusal conditions and the new lists are stated by `OverCapacityIff`, `SuitClashIff` and `ReallocatedLists` |
| WizardLedger.Placed | system/resonance-zero-srp/scripts/character-creation-wizard.mjs:420-424 | placing a card keeps every id in place |
| WizardLedger.Cleared | system/resonance-zero-srp/scripts/character-creation-wizard.mjs:382-385 | only the card's old category loses its id |
| WizardLedger.FindUnique | system/resonance-zero-srp/scripts/character-creation-wizard.mjs:374 | with distinct ids, looking up a card's id finds that card |
| WizardLedger.AtMostOneList | system/resonance-zero-srp/scripts/character-creation-wizard.mjs:359-433 | in a consistent ledger an id is in at most one category list |
| WizardLedger.FillKeepsConsistent | system/resonance-zero-srp/scripts/character-creation-wizard.mjs:366-371 | filling missing lists keeps the ledger consistent |
| WizardLedger.ClearedFacts | system/resonance-zero-srp/scripts/character-creation-wizard.mjs:382-385 | after removal, the card is in no list, every list is duplicate-free and within its limit, and other cards stay listed under their category |
| WizardLedger.PlacedFind | system/resonance-zero-srp/scripts/character-creation-wizard.mjs:420-424 | placing a card changes no id lookup |
| WizardLedger.AppendedWithinLimits | system/resonance-zero-srp/scripts/character-creation-wizard.mjs:387-400 | an admitted card keeps every list within its limit and duplicate-free |
| WizardLedger.AppendedListedAllocated | system/resonance-zero-srp/scripts/character-creation-wizard.mjs:420-424 | every listed id belongs to a drawn card allocated to that category |
| WizardLedger.PlacedAllocatedListed | system/resonance-zero-srp/scripts/character-creation-wizard.mjs:420-424 | every allocated card is listed under its category |
| WizardLedger.PlacedSuitsDistinct | system/resonance-zero-srp/scripts/character-creation-wizard.mjs:402-418 | an admitted attribute card keeps the attribute suits distinct |
| WizardLedger.ClearedIsWithout | system/resonance-zero-srp/scripts/character-creation-wizard.mjs:366-385 | for a consistent ledger, removing the card from its old category equals filtering its id out of every list. That list shrinks by one and every other list keeps its length |
| WizardLedger.SuitTakenIff | system/resonance-zero-srp/scripts/character-creation-wizard.mjs:402-418 | the suit check over the attribute list, once the card has left it, finds a suit iff another card assigned to attributes has that suit |
| WizardLedger.OverCapacityIff | system/resonance-zero-srp/scripts/character-creation-wizard.mjs:387-400 | for a drawn card of a consistent ledger, the capacity refusal happens iff the choice is a category other than the card's own whose list is at its limit |
| WizardLedger.SuitClashIff | system/resonance-zero-srp/scripts/character-creation-wizard.mjs:402-418 | the suit refusal happens iff the choice is attributes, attributes have room, the card has a standard suit (line 407 exempts black, red and multi), and another attribute card has that suit |
| WizardLedger.ReallocatedLists | system/resonance-zero-srp/scripts/character-creation-wizard.mjs:382-424 | a drawn card is never unknown. On success the card records the choice, the other cards are unchanged, and each category's list is the old list without the card's id, with the id appended exactly for the chosen category |
| WizardLedger.AppendedLists | system/resonance-zero-srp/scripts/character-creation-wizard.mjs:420-424 | pushing the id onto the chosen category appends it there and leaves every other list as it was |
| WizardLedger.DrawnHandConsistent | system/resonance-zero-srp/scripts/character-creation-wizard.mjs:277-353 | a freshly drawn hand, with no lists or with five empty lists, meets the ledger invariant, so a creation state holding it is valid once its step index is in range |
| WizardLedger.ReallocateKeepsConsistent | system/resonance-zero-srp/scripts/character-creation-wizard.mjs:359-433 | every reallocation keeps the ledger consistent: lists within limits, no id in two lists, listed iff allocated, attribute suits distinct. On success the card is listed under a category iff it was assigned there |
| WizardLedger.ReselectCurrentCategory | system/resonance-zero-srp/scripts/character-creation-wizard.mjs:382-418 | re-selecting a card's own category always succeeds, even when that category is full |
| WizardLedger.MoveIntoFullCategory | system/resonance-zero-srp/scripts/character-creation-wizard.mjs:387-400 | moving a card into a full category is refused and changes nothing |
| WizardLedger.SecondAttributeOfSuit | system/resonance-zero-srp/scripts/character-creation-wizard.mjs:402-418 | a second standard-suit attribute card of the same suit is refused (for capacity or for suit) and changes neither the cards nor the lists |
| WizardLedger.CreationState.BeginProcess | system/resonance-zero-srp/scripts/character-creation-wizard.mjs:146-160 | the wizard starts at step 0 iff the three profile fields are filled; otherwise nothing changes |
| WizardLedger.CreationState.OverviewStepClick | system/resonance-zero-srp/scripts/character-creation-wizard.mjs:165-177 | the index moves to `OverviewTarget` when that target exists; otherwise nothing changes |
| WizardLedger.CreationState.NextStep | system/resonance-zero-srp/scripts/character-creation-wizard.mjs:182-201 | the index moves to `NextIndex` when that exists; otherwise nothing changes |
| WizardLedger.CreationState.PrevStep | system/resonance-zero-srp/scripts/character-creation-wizard.mjs:206-212 | the index moves to `PrevIndex` |
| WizardLedger.CreationState.CardAllocationChange | system/resonance-zero-srp/scripts/character-creation-wizard.mjs:359-433 | the new drawn cards, lists and outcome are those of `Reallocate`, and the ledger stays consistent |
| Solitaire.FaceListAppend | module/rz-solitaire-module/rz-solitaire.mjs:71-73 | faces distribute over concatenation |
| Solitaire.NewDeck | module/rz-solitaire-module/rz-solitaire.mjs:34-42 | a new deck has 52 cards |
| Solitaire.NewDeckAt | module/rz-solitaire-module/rz-solitaire.mjs:34-42 | card `13i + j` is rank `j` of suit `i`, face down |
| Solitaire.NewDeckComplete | module/rz-solitaire-module/rz-solitaire.mjs:34-42 | a new deck is face down, and holds every suit and rank pair exactly once |
| Solitaire.SwapKeepsMultiset | module/rz-solitaire-module/rz-solitaire.mjs:53-57 | the swap step of the shuffle loses no card |
| Solitaire.CardDeck.constructor | module/rz-solitaire-module/rz-solitaire.mjs:26-32 | a constructed deck is a shuffled permutation of the 52 new cards |
| Solitaire.CardDeck.CreateDeck | module/rz-solitaire-module/rz-solitaire.mjs:34-42 | the nested loops build the new deck |
| Solitaire.CardDeck.Shuffle | module/rz-solitaire-module/rz-solitaire.mjs:44-60 | the shuffle permutes the deck, so both its cards and its faces are kept |
| Solitaire.CardDeck.Draw | module/rz-solitaire-module/rz-solitaire.mjs:62-68 | draws the first `min(num, size)` cards off the top, so drawn plus remainder is the old deck; an empty deck yields nothing |
| Solitaire.CardDeck.AddCards | module/rz-solitaire-module/rz-solitaire.mjs:71-73 | the added cards go under the deck, in order |
| Solitaire.TableauFacesSize | module/rz-solitaire-module/rz-solitaire.mjs:81-97 | the tableau's face multiset has as many elements as the stacks hold cards |
| Solitaire.TableauFacesPointwise | module/rz-solitaire-module/rz-solitaire.mjs:171-190 | stacks with the same faces give the same tableau faces |
| Solitaire.RevealLast | module/rz-solitaire-module/rz-solitaire.mjs:243-251 | a dealt stack keeps its faces, and only its last card is face up |
| Solitaire.TopToHandKeepsFaces | module/rz-solitaire-module/rz-solitaire.mjs:143-153 | drawing the top card into the hand keeps the board's faces |
| Solitaire.TopToDiscardKeepsFaces | module/rz-solitaire-module/rz-solitaire.mjs:212-220 | moving the top card to the discard pile keeps the board's faces |
| Solitaire.HandToDiscardKeepsFaces | module/rz-solitaire-module/rz-solitaire.mjs:209-211 | moving the last hand card to the discard pile keeps the board's faces |
| Solitaire.DiscardToDeckKeepsFaces | module/rz-solitaire-module/rz-solitaire.mjs:154-160 | recycling the discard pile into the deck keeps the board's faces |
| Solitaire.FlipKeepsFaces | module/rz-solitaire-module/rz-solitaire.mjs:180-183 | flipping a tableau card keeps the board's faces |
| Solitaire.DealKeepsFaces | module/rz-solitaire-module/rz-solitaire.mjs:243-251 | dealing a stack off the deck keeps the board's faces |
| Solitaire.DealShapeStep | module/rz-solitaire-module/rz-solitaire.mjs:243-251 | adding the next stack keeps the dealt shape: stack `k` has `k + 1` cards and only its last card is face up |
| Solitaire.DealtValues | module/rz-solitaire-module/rz-solitaire.mjs:243-251 | the seven stacks take 28 cards, and the deck still has enough cards before each stack |
| Solitaire.SolitaireApp.ConservedCount | module/rz-solitaire-module/rz-solitaire.mjs:81-253 | a conserved board holds exactly 52 cards across the deck, hand, discard and tableau |
| Solitaire.SolitaireApp.constructor | module/rz-solitaire-module/rz-solitaire.mjs:81-97 | a new application has no deck, an empty hand and discard pile, and seven empty stacks |
| Solitaire.SolitaireApp.DrawCard | module/rz-solitaire-module/rz-solitaire.mjs:143-163 | a non-empty deck moves its top card face up onto the hand. An empty deck is refilled from the shuffled discard pile, or nothing changes if that pile is empty too. Without a deck the action fails. The board's faces are conserved |
| Solitaire.SolitaireApp.CardClick | module/rz-solitaire-module/rz-solitaire.mjs:171-190 | a card is flipped iff it is the face-down last card of its stack. Only that card changes. A click without indices is ignored. A click faults (the handler throws) iff both indices parse but name no card; any other click on an existing card goes to the challenge phase. The board's faces are conserved |
| Solitaire.SolitaireApp.MakeMove | module/rz-solitaire-module/rz-solitaire.mjs:199-230 | the last hand card goes to the discard pile. Otherwise the deck's top card goes there face up. Nothing moves when both the hand and the deck are empty, or when there is no deck. The board's faces are conserved |
| Solitaire.SolitaireApp.ResetGame | module/rz-solitaire-module/rz-solitaire.mjs:236-253 | a fresh shuffled deck, then seven stacks of sizes 1 to 7 with only their last card face up, and 24 cards left in the deck. The board holds the 52 new faces |

## Left out

- Rendering, templates, DOM event decoding, notifications, console output and actor updates are left out. Every handler works directly on the modelled record, and an `await this.actor.update` is a field assignment.
- `Math.random` and the string-seeded xorshift generator in `rz-solitaire.mjs` (lines 8-23) are left out. They are replaced by a caller-supplied roll stream (`Common.Pick`), so the shuffles' uniformity is not modelled.
- Solitaire challenge phase, its dialog and roll handler (`_triggerChallengePhase`, the `renderChatMessage` hook) are left out: they are Foundry UI and dice I/O.
- `gameState.deck` is left out: it is initialised and never read. The board's deck is `cardDeck.deck`.
- The card `img` fields are left out: they carry only image paths.
- The first `_onDropCard` definition of the sheet (lines 322-383) is left out: the later definition at line 400 replaces it on the class.
- Sheet handlers that only copy form values are left out: `_onUpdateProfile`, `_onAttributeRankChange` and `_onResonanceChange`.
- The wizard's `_updateObject` is left out for the same reason.
- The wizard's per-step completion checks other than the profile gate are left out, because the wizard's source defines none.
- SheetWizard.CreationSheet.StageLinkClick: only links that name one of the nine steps are modelled; any other `data-stage` string is not.
- SheetWizard.CreationSheet.GearChange: only the name and description fields of a gear entry are modelled.
- SheetWizard.CreationSheet.SkillPointChange: dotted skill paths are treated as flat keys; nested objects are not modelled.
- WizardCatalog.FallbackSuits: `foundry.utils.inplaceSplice` is not part of this model. It is taken to remove the one element at the given index.
- The actor-sheet registration, settings and hooks in `resonance-zero-srp.mjs` are not part of this model.
- WizardLedger.CreationState.NextStep: an index that names no step makes the source throw; the model refuses the move and changes nothing.
- SheetWizard.CreationSheet.DropCard: takes the target already decoded. `SheetWizard.TargetOf` models the decoding of the area and its `data-allocation-type`, and the method accepts exactly the targets that decoding produces.
