# GlicoHack meal planner, modelled in Dafny

This project models the meal-planning core of GlicoHack (ModyMate). It is a
web app that plans five meals a day for people with diabetes (MODY, type 1,
type 2, gestational, LADA) or without it. The modules follow the app's own
files:

| module | file | what it models |
|---|---|---|
| `Common` | — | JavaScript behaviour the rest relies on: truthiness, `Array.filter`, a stable sort by an integer key, `toLowerCase`, `trim`, `includes` on strings |
| `Catalog` | `src/data/meals.js` | the eight dish pools, and the facts about them the engine relies on |
| `Engine` | `src/utils/menuGenerator.js` | allergen filtering, the anti-repetition picker, the lunch rotation, carbohydrate compensation at dinner, day generation, the fifteen-day initial plan, and the rolling-window sync |
| `Swap` | `src/utils/menuGenerator.js` | `getAlternativeMeal`, the one-dish swap |
| `Shopping` | `src/utils/menuGenerator.js` | `generateShoppingList`: counting ingredients and grouping them by aisle |
| `App` | `src/App.jsx` | applying a swap to a plan, and ticking meals and medication doses |
| `Onboarding` | `src/components/OnboardingWizard.jsx` | the three-step wizard: step navigation, the allergy toggle, the submitted profile |
| `ProfileScreen` | `src/components/Profile.jsx` | body-mass index, its band and coach tips, and saving the profile |
| `Glucose` | `src/components/GlucoseModal.jsx` | the live colour and label of a typed glucose reading |
| `Seed` | `seedMeals.js` | the recipe seeder: weighted glycaemic index, suitability per diabetes type, dietary tags, and the de-duplicating batch generator |

Modelling choices:

- **Randomness.** Every `Math.random` draw becomes a parameter. A single pick is an index `k` taken modulo the list length. A day's five picks come from `rng(dayIndex)`. A shuffle is a permutation of the input.
- **Dates.** Dates are integer day numbers. Sorting `yyyy-MM-dd` strings with `localeCompare` is the same as a stable sort by that number.
- **Absent fields.** The source reads `allergens`, `hasCarbs`, `synjardy` and `alergias` only by truthiness. The model stores an absent field as the empty list or `false`.
- **Numbers.** A JavaScript number read from a form is `Num`: either `NaN` or a real value. `parseFloat` is a parameter, because its parsing is not modelled.

The engine's guarantees are stated for any catalog and then instantiated on the shipped one:

- Each generated day takes its lunch from the pool of its pattern. The pattern rotates carbs → legumes → vegetables by day index.
- A profile with diabetes gets a low-carb dinner after a carbohydrate lunch.
- Within any four consecutive days, no slot repeats a dish when the pool allows it.
- A sync drops the days before yesterday and keeps the rest. It appends one day for each date from the last surviving date plus one to today plus fourteen; when no day survives it starts at today plus one, so today is missing (see Findings; the app's loader only hands it days from yesterday on, so this needs a stale input). Gaps between surviving days are never refilled. The result is sorted by date.

No dish in the shipped catalog declares an allergen. So on that catalog the allergen filter removes nothing, whatever the user declares (`Engine.ShippedFilterIsNoOp`).

## Model

| member | source | states |
|---|---|---|
| Common.Filter | src/utils/menuGenerator.js:31-33 | an element is kept exactly when it is in the input and passes the test; the result is a sub-sequence of the input, so the kept elements keep their order |
| Common.FilterSingle | src/utils/menuGenerator.js:31-33 | one element is kept exactly when it passes |
| Common.FilterAppend | src/utils/menuGenerator.js:31-33 | filtering a concatenation is filtering each part, in the same order |
| Common.FilterIsTheSubsequence | src/utils/menuGenerator.js:31-33 | the filter is the only sub-sequence of passing elements that keeps every copy of each passing value |
| Common.SortBySorted | src/utils/menuGenerator.js:203 | the stable sort leaves a list that is already sorted by date unchanged |
| Common.TrimIdempotent | src/components/OnboardingWizard.jsx:57 | trimming a trimmed name changes nothing |
| Catalog.ShippedPoolSizes | src/data/meals.js:8-325 | the shipped pools hold 10, 10, 10, 5, 7, 10, 12 and 11 dishes |
| Catalog.ShippedIsSound | src/data/meals.js:8-325 | the shipped pools are all non-empty, have distinct ids and at least five dishes each, declare no allergen, and flag exactly the carbohydrate lunches with `hasCarbs` |
| Catalog.ShippedStocked | src/data/meals.js:8-325 | every shipped pool is non-empty, has distinct ids and holds at least five dishes |
| Catalog.ShippedPlain | src/data/meals.js:8-325 | no shipped dish declares an allergen |
| Catalog.NonEmptyPoolsSizes | src/utils/menuGenerator.js:81-92 | a set of pools is non-empty exactly when each of its eight pools has a dish |
| Catalog.DesayunosDistinct | src/data/meals.js:8-69 | the breakfast ids are pairwise distinct |
| Catalog.DesayunosPlain | src/data/meals.js:8-69 | no breakfast declares an allergen |
| Catalog.MediaMananaDistinct | src/data/meals.js:72-83 | the mid-morning ids are pairwise distinct |
| Catalog.MediaMananaPlain | src/data/meals.js:72-83 | no mid-morning dish declares an allergen |
| Catalog.ComidasCarbsDistinct | src/data/meals.js:86-147 | the carbohydrate lunch ids are pairwise distinct |
| Catalog.ComidasCarbsPlain | src/data/meals.js:86-147 | no carbohydrate lunch declares an allergen |
| Catalog.ComidasLegumbresDistinct | src/data/meals.js:150-181 | the legume lunch ids are pairwise distinct |
| Catalog.ComidasLegumbresPlain | src/data/meals.js:150-181 | no legume lunch declares an allergen |
| Catalog.ComidasVerduraDistinct | src/data/meals.js:184-227 | the vegetable lunch ids are pairwise distinct |
| Catalog.ComidasVerduraPlain | src/data/meals.js:184-227 | no vegetable lunch declares an allergen |
| Catalog.MeriendasDistinct | src/data/meals.js:230-241 | the afternoon snack ids are pairwise distinct |
| Catalog.MeriendasPlain | src/data/meals.js:230-241 | no afternoon snack declares an allergen |
| Catalog.CenasLowCarbDistinct | src/data/meals.js:244-305 | the low-carb dinner ids are pairwise distinct |
| Catalog.CenasLowCarbPlain | src/data/meals.js:244-305 | no low-carb dinner declares an allergen |
| Catalog.CenasFlexiblesDistinct | src/data/meals.js:308-325 | the free dinner ids are pairwise distinct, including the eight borrowed low-carb dinners |
| Catalog.CenasFlexiblesPlain | src/data/meals.js:308-325 | no free dinner declares an allergen |
| Catalog.LunchCarbFlags | src/data/meals.js:85-227 | every carbohydrate lunch is flagged `hasCarbs`; no legume or vegetable lunch is |
| Catalog.FlexibleDinnersLayout | src/data/meals.js:308-325 | the free dinners are three of their own followed by the first eight low-carb dinners |
| Engine.FilterByAllergens | src/utils/menuGenerator.js:29-36 | the result only holds dishes of the input and is never empty when the input is not |
| Engine.FilterByAllergensKeeps | src/utils/menuGenerator.js:29-36 | with no allergens, or when every dish is safe, the list is unchanged; when no dish is safe the whole list is returned; otherwise the safe dishes are kept, every copy of each, and (by FilterByAllergens) in their order |
| Engine.BuildFilteredMeals | src/utils/menuGenerator.js:81-92 | filtering the eight pools keeps every pool non-empty |
| Engine.PlainPoolKept | src/utils/menuGenerator.js:29-36 | a pool where no dish declares an allergen passes whole |
| Engine.FilterNoOp | src/utils/menuGenerator.js:81-92 | with no user allergens, or with no dish declaring one, filtering returns the catalog itself |
| Engine.ShippedFilterIsNoOp | src/utils/menuGenerator.js:81-92 | filtering the shipped catalog returns it unchanged for any allergy list |
| Engine.FilteredPoolsSound | src/utils/menuGenerator.js:81-92 | each filtered pool is a sub-pool of the original, so honest carbohydrate flags and allergen-free pools stay so |
| Engine.SliceLast | src/utils/menuGenerator.js:41 | `slice(-n)` is the last `n` elements, the whole list when it is shorter, and the whole list for `n = 0` |
| Engine.SliceLastAt | src/utils/menuGenerator.js:41 | each element of the slice is the element at the same distance from the end of the list |
| Engine.PickRandom | src/utils/menuGenerator.js:40-45 | nothing only from an empty list; the pick is in the list, and it avoids the recent ids whenever some dish does |
| Engine.HistoryWindowIsThree | src/utils/menuGenerator.js:40-45 | only the last three ids of a history affect the pick |
| Engine.FreshDishExists | src/utils/menuGenerator.js:42-43 | a pool with more distinct ids than ids to avoid has a dish outside them |
| Engine.PickNeverFallsBack | src/utils/menuGenerator.js:42-43 | on a pool of more than three distinct ids the fallback to the whole pool is never taken |
| Engine.ParsePattern | src/utils/menuGenerator.js:332-336 | a pattern name reads back as its pattern; a missing or unknown name reads as the vegetable pattern |
| Engine.GetComidaPattern | src/utils/menuGenerator.js:47-51 | the pattern name of day `dayIndex` is `['carbs', 'legumbres', 'verdura'][dayIndex % 3]` |
| Engine.PatternCycle | src/utils/menuGenerator.js:47-51 | lunch patterns repeat every three days, and three consecutive days see all three |
| Engine.PickComida | src/utils/menuGenerator.js:53-64 | the lunch comes from the pool of the pattern and avoids its recent ids when it can |
| Engine.PickCena | src/utils/menuGenerator.js:66-76 | the dinner comes from the low-carb pool after a carbohydrate lunch for a profile with diabetes, otherwise from the free pool, and avoids its recent ids when it can |
| Engine.SlotOf | src/utils/menuGenerator.js:318-352 | a slot key names exactly one slot, and an unknown key names none |
| Engine.PushAllHistory | src/utils/menuGenerator.js:106-110 | recording a run of days appends exactly that run's ids, in order, to every history |
| Engine.GenerateSingleDay | src/utils/menuGenerator.js:96-131 | the day carries its date and the pattern of its index, follows the lunch and dinner rules, avoids each slot's last three ids when the pool allows, marks the medication reminder unless there is no diabetes, and records its ids |
| Engine.RunDatedSorted | src/utils/menuGenerator.js:153-156 | consecutive dates make a run sorted by date |
| Engine.RunDatesConsecutive | src/utils/menuGenerator.js:153-156 | a generated run is dated day after day and follows the lunch rotation |
| Engine.RunExtends | src/utils/menuGenerator.js:153-156 | a generated run extended by the next generated day is still a generated run |
| Engine.NextDayInRun | src/utils/menuGenerator.js:153-156 | the day generated from the histories a run left takes its place in the run |
| Engine.GenerateFrom | src/utils/menuGenerator.js:153-156 | `n` days, each generated against the histories left by the days before it, dated consecutively, with the histories they leave |
| Engine.InitialRun | src/utils/menuGenerator.js:140-159 | fifteen days from empty histories |
| Engine.GenerateInitialPlan | src/utils/menuGenerator.js:140-159 | fifteen days drawn from the catalog filtered for the profile's allergies |
| Engine.InitialRunGenerated | src/utils/menuGenerator.js:140-159 | every day of the initial plan follows the rules and is fresh against the days before it |
| Engine.InitialRunDated | src/utils/menuGenerator.js:140-159 | the initial plan is dated from the start day on and its rotation starts at carbohydrates |
| Engine.CarbFlagFollowsPattern | src/utils/menuGenerator.js:101-122 | with honest flags a day's lunch has carbohydrate exactly when its pattern is the carbohydrate one |
| Engine.DinnerCompensates | src/utils/menuGenerator.js:66-76 | with diabetes a carbohydrate day gets a low-carb dinner; otherwise a free one |
| Engine.DayCompensates | src/utils/menuGenerator.js:47-76 | a day of index `i` has a carbohydrate lunch exactly when `i mod 3 = 0`, and its dinner compensates |
| Engine.RunCompensates | src/utils/menuGenerator.js:140-159 | in the initial plan, day `i` has a carbohydrate lunch exactly when `i mod 3 = 0`, and with diabetes those days get low-carb dinners |
| Engine.InitialPlanOnPlainCatalog | src/utils/menuGenerator.js:140-159 | on a catalog without allergens the plan ignores the allergy list |
| Engine.FreshInSlot | src/utils/menuGenerator.js:96-110 | a fresh day avoids each slot's recent ids when that slot's pool allows |
| Engine.ShippedFilteredAvoidable | src/utils/menuGenerator.js:81-92 | the pools built from the shipped catalog have distinct ids and more than three dishes each, for any allergies |
| Engine.InSliceLast | src/utils/menuGenerator.js:41 | an entry among the last three of a history is in the avoided slice |
| Engine.HistoryEntry | src/utils/menuGenerator.js:106-110 | in a history extended by a run, the entry `i` places after the old history holds day `i`'s id |
| Engine.RunNoRepeats | src/utils/menuGenerator.js:40-45 | on pools with distinct ids and more than three dishes, a generated run never serves the same dish in a slot twice within four consecutive days |
| Engine.MaxDate | src/utils/menuGenerator.js:180-181 | the latest date of a non-empty plan: no day is later, and some day has it |
| Engine.Survivors | src/utils/menuGenerator.js:172-175 | exactly the stored days not before yesterday are kept, with their multiplicities, as a sub-sequence of the stored plan in its order |
| Engine.SurvivorsAppend | src/utils/menuGenerator.js:172-175 | the survivors of two runs of days are the first run's survivors followed by the second's |
| Engine.LastDate | src/utils/menuGenerator.js:177-182 | today when nothing was kept, otherwise the latest kept date |
| Engine.RecentIds | src/utils/menuGenerator.js:212-221 | at most five ids, none empty, each served in the slot on one of the plan's last five days |
| Engine.BuildRecentFromPlan | src/utils/menuGenerator.js:212-221 | the five rebuilt histories; RecentHistory states each is its slot's recent window of at most five ids |
| Engine.RecentIdsComplete | src/utils/menuGenerator.js:212-221 | with no empty id the rebuilt history is the slot's ids over the last five days, in order |
| Engine.RecentHistory | src/utils/menuGenerator.js:212-221 | each of the five rebuilt histories is its slot's |
| Engine.NewDays | src/utils/menuGenerator.js:188-200 | one new day for each date after the last kept one up to today plus fourteen |
| Engine.NewDaysGenerated | src/utils/menuGenerator.js:188-200 | the new days follow the rules and are fresh against the rebuilt histories and the new days before them |
| Engine.NewDaysDated | src/utils/menuGenerator.js:188-200 | the new days are dated from the day after the last kept date, and the rotation continues from the number of kept days |
| Engine.MergeShape | src/utils/menuGenerator.js:203 | sorting kept days with later consecutive new days puts the new days last, untouched |
| Engine.ExtendedPlanFacts | src/utils/menuGenerator.js:167-206 | kept days in some order followed by the new run have one day per new date and keep the rotation |
| Engine.MergeLayout | src/utils/menuGenerator.js:167-206 | the sorted plan is the kept days followed by one day per new date, with the rotation kept |
| Engine.Sync | src/utils/menuGenerator.js:167-206 | the synced plan is sorted by date and is, as a multiset, the kept days plus the new days |
| Engine.SyncExtends | src/utils/menuGenerator.js:167-206 | the kept days come first, then one day per date after the last kept one up to today plus fourteen; gaps before that are not refilled |
| Engine.SyncPlan | src/utils/menuGenerator.js:167-206 | the synced plan is sorted by date |
| Engine.SyncShape | src/utils/menuGenerator.js:188-203 | the synced plan is the sorted kept days followed by the new days |
| Engine.LastDateNotBeforeYesterday | src/utils/menuGenerator.js:172-182 | generation never continues from before yesterday |
| Engine.NoSurvivors | src/utils/menuGenerator.js:172-175 | nothing is kept when every stored day is before yesterday |
| Engine.LayoutFrom | src/utils/menuGenerator.js:167-206 | a plan laid out that way has no day earlier than its kept days and its last kept date |
| Engine.SyncDropsStale | src/utils/menuGenerator.js:170-175 | after a sync no day is before yesterday |
| Engine.CoveredOnce | src/utils/menuGenerator.js:194-198 | each new date is covered by exactly one day |
| Engine.SyncCoversDate | src/utils/menuGenerator.js:185-198 | every date after the last kept one up to today plus fourteen is in the synced plan |
| Engine.SyncCoversOnce | src/utils/menuGenerator.js:185-198 | ... and appears there only once |
| Engine.MergeNothing | src/utils/menuGenerator.js:203 | with nothing new, the merge only sorts |
| Engine.SyncNothingToAdd | src/utils/menuGenerator.js:188 | when the kept days already reach today plus fourteen, a sync only sorts them |
| Engine.LayoutAlone | src/utils/menuGenerator.js:194-198 | with nothing kept, the plan is the new run alone |
| Engine.SyncEmptySkipsToday | src/utils/menuGenerator.js:177-194 | as written: when every stored day is before yesterday, the synced plan has fourteen days starting tomorrow, and none of them is today |
| Engine.LastDateFixed | src/utils/menuGenerator.js:177-182 | corrected: yesterday when nothing was kept, otherwise the latest kept date |
| Engine.NewDaysFixed | src/utils/menuGenerator.js:188-200 | corrected: one new day for each date after the corrected last date up to today plus fourteen |
| Engine.NewDaysFixedGenerated | src/utils/menuGenerator.js:188-200 | corrected: the new days are a generated run dated from the day after the corrected last date |
| Engine.SyncFixed | src/utils/menuGenerator.js:167-206 | corrected: sorted by date, the kept days followed by one day per date after the corrected last date |
| Engine.SyncFixedCoversDate | src/utils/menuGenerator.js:185-198 | corrected: every date after the corrected last date up to today plus fourteen is in the plan |
| Engine.SyncFixedCoversOnce | src/utils/menuGenerator.js:185-198 | corrected: ... exactly once |
| Engine.LastDateFixedStale | src/utils/menuGenerator.js:172-182 | corrected: a stored plan with nothing from today on continues from yesterday |
| Engine.SyncFixedCoversToday | src/utils/menuGenerator.js:167-206 | corrected: a stored plan with nothing from today on, even one entirely before yesterday, is synced to a plan with a day for today |
| Engine.SyncPlanFixed | src/utils/menuGenerator.js:167-206 | corrected: sorted by date, and a stale stored plan comes back with a day for today |
| Swap.Candidates | src/utils/menuGenerator.js:356-358 | exactly the pool dishes that are neither the current dish nor blacklisted |
| Swap.GetAlternativeMeal | src/utils/menuGenerator.js:318-370 | an alternative is never the current dish nor blacklisted; an unknown slot key gives none |
| Swap.AlternativeNone | src/utils/menuGenerator.js:325-360 | there is no alternative exactly when the key is unknown or the slot's filtered pool has no candidate |
| Swap.AlternativeFromPool | src/utils/menuGenerator.js:356-369 | the alternative is a candidate of the slot's pool, its medication flag set to "not without diabetes" when the current dish had it |
| Swap.AlternativeLunchFollowsPattern | src/utils/menuGenerator.js:332-338 | a lunch alternative comes from the pool of the day's pattern, vegetables when the pattern is missing |
| Swap.AlternativeDinnerCompensates | src/utils/menuGenerator.js:343-350 | a dinner alternative is low-carb after a carbohydrate lunch for a profile with diabetes, and free otherwise |
| Swap.SwapPoolStocked | src/utils/menuGenerator.js:325-351 | every slot's pool of stocked pools has distinct ids and enough dishes |
| Swap.AlternativeExists | src/utils/menuGenerator.js:356-360 | on pools with distinct ids and more than three dishes there is an alternative for any known slot and a blacklist of up to two ids |
| Swap.ShippedAlwaysHasAlternative | src/utils/menuGenerator.js:318-370 | on the shipped catalog every known slot always has an alternative |
| App.FindDay | src/App.jsx:129-130 | the index of the first day with the date, or none exactly when no day has it |
| App.SwapInDay | src/App.jsx:141-149 | only the swapped slot changes; swapping the lunch also updates the day's carbohydrate flag |
| App.SwapMeal | src/App.jsx:125-164 | the plan keeps its length and every other day |
| App.SwapMissingDate | src/App.jsx:129-130 | a date not in the plan leaves it unchanged |
| App.SwapUnknownSlot | src/App.jsx:132-133 | an unknown slot leaves the plan unchanged |
| App.SwapWithoutAlternative | src/App.jsx:136-139 | with no alternative the plan is unchanged |
| App.SwapChangesOneSlot | src/App.jsx:125-164 | a swap changes exactly one slot of one day, to a dish with another id; the carbohydrate flag follows the new lunch |
| App.SwapDinnerCompensates | src/App.jsx:135-136 | a swapped dinner follows the compensation rule for the day's own lunch |
| App.ToggleKey | src/App.jsx:97-123 | the key's tick flips, and every other entry of every day is untouched |
| App.ToggleMeal | src/App.jsx:97-109 | ticking a meal flips its tick |
| App.MedKey | src/App.jsx:116 | the medication key is `med_` followed by exactly the slot name |
| App.ToggleMed | src/App.jsx:111-123 | ticking a dose flips its tick |
| App.ToggleTwice | src/App.jsx:97-123 | ticking twice restores every tick |
| App.ToggleOnlyOne | src/App.jsx:97-123 | ticking one key leaves every other key of every day as it was |
| App.MedNeverTicksMeal | src/App.jsx:111-123 | ticking a dose never changes a meal's tick |
| Shopping.Keyed | src/utils/menuGenerator.js:389-390 | each ingredient paired with its lower-cased, trimmed key |
| Shopping.FindKey | src/utils/menuGenerator.js:391 | the position of an entry with the key, or none exactly when there is none |
| Shopping.Tally | src/utils/menuGenerator.js:385-398 | the entries in order of first occurrence; TallyCounts states their keys, counts and names |
| Shopping.TallyCounts | src/utils/menuGenerator.js:385-398 | one entry per distinct key and none for other keys, its count the number of occurrences, its name the spelling of the key's first occurrence |
| Shopping.AisleFrom | src/utils/menuGenerator.js:415-421 | the first aisle, from a given one on, with a keyword in the lower-cased name |
| Shopping.BucketSpec | src/utils/menuGenerator.js:410-424 | an item goes to "Otros" exactly when no aisle matches, otherwise to the first aisle that does |
| Shopping.Bucket | src/utils/menuGenerator.js:413-424 | the group an item lands in; BucketSpec states it is the first matching aisle, or Otros |
| Shopping.AisleNamesDistinct | src/utils/menuGenerator.js:401-408 | the six aisle names are distinct and none is "Otros" |
| Shopping.Place | src/utils/menuGenerator.js:413-421 | placing an item adds its aisle to the aisle list only when it is new |
| Shopping.PlaceAddsOnce | src/utils/menuGenerator.js:413-421 | placing adds the item exactly once |
| Shopping.PlaceHomogeneous | src/utils/menuGenerator.js:413-421 | every item sits in its own aisle |
| Shopping.PlaceKeepsNonEmpty | src/utils/menuGenerator.js:413-421 | no aisle is ever listed empty |
| Shopping.Distribute | src/utils/menuGenerator.js:410-421 | aisle names are listed once each, and "Otros" is not among them |
| Shopping.DistributeKeepsAll | src/utils/menuGenerator.js:410-421 | the aisles and the uncategorised list together hold every item exactly once |
| Shopping.DistributeLabels | src/utils/menuGenerator.js:410-421 | each item is filed under its own aisle, and the uncategorised ones are those of "Otros" |
| Shopping.DistributeNonEmpty | src/utils/menuGenerator.js:410-421 | no aisle is listed empty |
| Shopping.SortGroups | src/utils/menuGenerator.js:428-430 | each aisle keeps its name and its items, sorted by collation |
| Shopping.GenerateShoppingList | src/utils/menuGenerator.js:383-433 | aisle names are distinct and every aisle is sorted |
| Shopping.GroupedNames | src/utils/menuGenerator.js:410-426 | aisle names are distinct, "Otros" included |
| Shopping.GroupedKeepsAll | src/utils/menuGenerator.js:410-426 | grouping keeps every item exactly once |
| Shopping.FlattenPermuted | src/utils/menuGenerator.js:428-430 | sorting inside aisles keeps the items |
| Shopping.ShoppingListKeepsAll | src/utils/menuGenerator.js:383-433 | the list holds every tallied ingredient exactly once |
| Shopping.ShoppingListPlacement | src/utils/menuGenerator.js:410-426 | every listed item sits under its own aisle |
| Shopping.TallyKeys | src/utils/menuGenerator.js:389-395 | each entry's key is the normalised form of its name |
| Shopping.PlanItemsDistinct | src/utils/menuGenerator.js:385-398 | no ingredient is tallied twice |
| Shopping.ShoppingListInOneGroup | src/utils/menuGenerator.js:410-426 | no item appears in two aisles |
| Shopping.ShoppingListCounts | src/utils/menuGenerator.js:385-398 | every listed item's count is the number of times its key occurs in the plan |
| Shopping.PlanItemCount | src/utils/menuGenerator.js:385-398 | every tallied item's count is the number of occurrences of its key |
| Shopping.ShoppingListComplete | src/utils/menuGenerator.js:383-433 | every ingredient of the plan is listed under its key in some aisle |
| Shopping.FlattenMember | src/utils/menuGenerator.js:410-426 | an item of the list belongs to one of its aisles |
| Onboarding.CanProceedFirstStep | src/components/OnboardingWizard.jsx:56-60 | the first step can go on exactly when the name has a non-blank character |
| Onboarding.CanProceed | src/components/OnboardingWizard.jsx:56-60 | Next is enabled on step 1 for a name not blank after trimming, on step 2 once a treatment is chosen, and always after that |
| Onboarding.UnicodeSpacesAreBlank | src/components/OnboardingWizard.jsx:57 | a name of Unicode space separators only (ideographic space, en quad, ogham mark, math space) does not enable Next |
| Onboarding.HandleNext | src/components/OnboardingWizard.jsx:62-71 | without diabetes the first step jumps to allergies, with the no-diabetes treatment and no medication; otherwise the step advances, stopping at three |
| Onboarding.HandleBack | src/components/OnboardingWizard.jsx:73-80 | without diabetes the allergies step goes back to the first; otherwise the step goes back, stopping at one; nothing else changes |
| Onboarding.PressNext | src/components/OnboardingWizard.jsx:56-71 | a press on a blocked or last step changes nothing |
| Onboarding.SinDiabetesSkipsTreatment | src/components/OnboardingWizard.jsx:62-80 | without diabetes the treatment step is never shown |
| Onboarding.BackUndoesNext | src/components/OnboardingWizard.jsx:62-80 | with diabetes Back undoes Next on the first two steps |
| Onboarding.StaleTreatmentReachable | src/components/OnboardingWizard.jsx:62-72 | choosing no diabetes, going on and back, then choosing a type shows the treatment step with a treatment it does not offer |
| Onboarding.ToggleAlergia | src/components/OnboardingWizard.jsx:50-54 | a selected key is removed, an unselected one appended; no duplicates arise |
| Onboarding.ToggleAlergiaTwice | src/components/OnboardingWizard.jsx:50-54 | toggling twice selects the same keys |
| Onboarding.ToggleAlergiaTwiceAbsent | src/components/OnboardingWizard.jsx:50-54 | toggling an unselected key twice restores the list exactly |
| Onboarding.FilterAppendLast | src/components/OnboardingWizard.jsx:52 | filtering out an appended element gives the filter of the list |
| Onboarding.MedicationName | src/components/OnboardingWizard.jsx:92 | no medication for diet alone or no diabetes; otherwise the trimmed name, none when blank |
| Onboarding.Submit | src/components/OnboardingWizard.jsx:82-97 | the trimmed name; weight and height parsed only when typed; the diabetes type and treatment passed through; the medication rule; the allergies; both glucose targets parsed; the completion flag |
| Onboarding.SinDiabetesSubmitsNoMedication | src/components/OnboardingWizard.jsx:62-97 | going on without diabetes submits no medication and the no-diabetes treatment |
| ProfileScreen.CalcImc | src/components/Profile.jsx:33-37 | no index when weight or height is missing; otherwise the index times the height in metres squared is the weight |
| ProfileScreen.ImcGrowsWithWeight | src/components/Profile.jsx:33-37 | at one height a heavier weight gives a higher, positive index |
| ProfileScreen.BandOf | src/components/Profile.jsx:39-45 | the band of an index by the thresholds 18.5, 25 and 30 |
| ProfileScreen.ImcCategory | src/components/Profile.jsx:39-45 | no category without an index; below 18.5 Bajo Peso/blue, below 25 Saludable/green, below 30 Sobrepeso/orange, from 30 on Obesidad/red |
| ProfileScreen.BandMonotone | src/components/Profile.jsx:39-45 | a higher index never lands in a lighter band |
| ProfileScreen.CategoryIdentifiesBand | src/components/Profile.jsx:39-45 | label and colour each tell the bands apart |
| ProfileScreen.CoachTips | src/components/Profile.jsx:47-72 | no tips without a category; the blue, green, orange and red tip lists for those colours, and the green list for any other colour |
| ProfileScreen.TipsIdentifyBand | src/components/Profile.jsx:47-72 | two indices get the same tips exactly when they share a band |
| ProfileScreen.HandleSave | src/components/Profile.jsx:129-150 | the trimmed name and chosen type; a typed weight or height replaces the stored one; the weight is logged exactly when it changed |
| ProfileScreen.LogWeight | src/components/Profile.jsx:145-150 | the history is kept, with the new weight appended when it changed |
| ProfileScreen.SaveTwiceNoChange | src/components/Profile.jsx:132-150 | saving the same form again once stored logs no new weight |
| ProfileScreen.ChooseDiabetes | src/components/Profile.jsx:74-76 | as written: no option of the editor is read by the engine as "no diabetes" |
| ProfileScreen.EditorNoDiabetesIgnored | src/components/Profile.jsx:74-76 | as written: choosing "Sin diabetes" and saving keeps the carbohydrate rules on |
| ProfileScreen.ChooseDiabetesFixed | src/components/Profile.jsx:74-76 | corrected: same labels; the engine reads the stored value as no diabetes exactly for "Sin diabetes" |
| ProfileScreen.EditorNoDiabetesFixed | src/components/Profile.jsx:74-76 | corrected: choosing "Sin diabetes" and saving switches the carbohydrate rules off |
| Glucose.Classify | src/components/GlucoseModal.jsx:62-77 | unread for an empty or unparsable reading, then the bands below 70, up to 140, up to 180, above |
| Glucose.ValorColor | src/components/GlucoseModal.jsx:63-69 | the colour of each band by the same thresholds |
| Glucose.ValorLabel | src/components/GlucoseModal.jsx:71-77 | the label of each band by the same thresholds |
| Glucose.ColorAndLabelFollowBand | src/components/GlucoseModal.jsx:62-77 | colour and label are functions of the band |
| Glucose.SameBoundaries | src/components/GlucoseModal.jsx:62-77 | two readings share a colour exactly when they share a label, exactly when they share a band |
| Glucose.BandsApart | src/components/GlucoseModal.jsx:62-77 | different bands have different colours and labels |
| Glucose.BandMonotone | src/components/GlucoseModal.jsx:62-77 | a higher reading never falls in a lower band |
| Seed.Pick | seedMeals.js:178-180 | nothing only from an empty list, otherwise an element of it |
| Seed.PickN | seedMeals.js:182-185 | the first `n` of a shuffle, or all of it: a sub-multiset of the input |
| Seed.PickNDistinct | seedMeals.js:182-185 | picking from a list without duplicates gives no duplicates |
| Seed.NoDupAtMostOnce | seedMeals.js:182-185 | a list without duplicates holds each value at most once |
| Seed.WeightedGi | seedMeals.js:188-197 | 15 for a carbohydrate-free meal, otherwise the carbohydrate-weighted mean index |
| Seed.WeightedGiBounds | seedMeals.js:188-197 | the weighted index lies between the least and greatest index of the carbohydrate ingredients |
| Seed.TotalCarbsNonNegative | seedMeals.js:191-193 | non-negative carbohydrates sum to a non-negative total |
| Seed.GiSumBounds | seedMeals.js:191-194 | the weighted sum lies between the bounds times the total |
| Seed.SuitableFor | seedMeals.js:219-239 | a type is listed exactly when its rule holds, each at most once |
| Seed.SuitabilityThresholds | seedMeals.js:219-239 | no-diabetes first and always; each type by its own carbohydrate and index thresholds |
| Seed.SuitabilityNested | seedMeals.js:219-239 | whatever suits gestational also suits type 2, type 1 and MODY; whatever suits LADA suits type 1 |
| Seed.SuitLabelsDistinct | seedMeals.js:220-238 | the stored labels tell the types apart |
| Seed.SumFrom | seedMeals.js:201-208 | the loop's running sums advance by exactly the total of each quantity over the remaining ingredients |
| Seed.SumNutrition | seedMeals.js:200-216 | calories, carbohydrates, protein, fat and price are each the ingredients' total of that quantity |
| Seed.ComputeTags | seedMeals.js:242-269 | a tag is listed exactly when its rule holds, each once |
| Seed.DietTags | seedMeals.js:246-253 | gluten-free and vegan exactly when every ingredient is so tagged; vegetarian exactly with vegan |
| Seed.FreeOfTags | seedMeals.js:256-260 | each free-of tag exactly when no ingredient mentions its words |
| Seed.NutrientTags | seedMeals.js:263-266 | each nutrient tag exactly at its threshold |
| Seed.Describe | seedMeals.js:297-305 | the recipe keeps its name, type and ingredients; its nutrition is the five ingredient totals, its index the weighted index, its suitability and tags those computed from them; it always suits no diabetes |
| Seed.LowCarbSuitsEveryone | seedMeals.js:219-266 | a low-carb recipe with index at most 55 suits every type |
| Seed.KeepUnique | seedMeals.js:400-422 | at most `count` items after at most `10 × count` attempts, distinct keys, each kept item a draw in order and the first draw with its key, every draw's key kept, and all attempts used when short |
| Seed.GenerateUniqueByType | seedMeals.js:400-422 | at most `count` recipes with distinct normalised names, each the first draw with its name, every drawn name kept, and all attempts used when short |

## Left out

- Supabase reads and writes, React state, toasts, timers and `console` output are left out. Each screen's logic is modelled as a pure function from the form fields to the saved record.
- The clock is a parameter (`today`, `start`), and so is every `Math.random` draw.
- The uuid and the formatted date labels of a day (`dateFormatted`, `dayName`, `dayNumber`, `monthShort`) are not modelled; they are outputs of date-fns and uuid that no rule reads.
- Engine.PickRandom: the draw is an index taken modulo the pool length, not a uniform random choice; no statement here is probabilistic.
- Shopping.SortGroups: `localeCompare(…, 'es')` is a collation rank parameter, so the Spanish collation order itself is not modelled.
- Common.Lower: `toLowerCase` is modelled for ASCII and Latin-1 letters only. That covers every ingredient and recipe name of the catalog and the seeder, so Shopping.Keyed, Seed.ComputeTags and Seed.GenerateUniqueByType lose nothing by it.
- Shopping.GenerateShoppingList: the JavaScript object's key order is modelled as insertion order, with "Otros" last, as `Object.keys` yields it for these non-numeric keys.
- Seed.WeightedGi: `Math.round` is not modelled; the result is the exact weighted mean.
- Seed.SumNutrition: the rounding by `toFixed` and `Math.round` is not modelled; the tags are computed on the exact sums.
- ProfileScreen.CalcImc: the `toFixed(1)` of the index is not modelled; the bands are computed on the exact index.
- ProfileScreen.CoachTips: the lookup by colour through a plain object is modelled as a fixed table; inherited object keys are not.
- Seed.FreeOfTags: the regular expressions are modelled as literal substring search over their alternatives.
- Seed.ComputeTags: the tags come back in a fixed order; the source's `Set` keeps insertion order, which is the same order.
- Catalog.Dish: the breakfast entries' qualitative `carbs` field ('medio' or 'bajo') is not modelled, because the generator never reads it.
- Seed.KeepUnique: it also returns the indices of the kept draws (`picks`), which the source does not return; it is there to state which draws were kept.
- Seed.Pick: on an empty list it gives nothing, where the source gives `undefined`.
- The recipe generators' name templates and ingredient tables (`generateBreakfast` and the others), `toJSONBIngredient` and the batch upload of `seedMeals.js` are left out. They are data and I/O; `Seed.Describe` models the record they build.
- `GlucoseChart.jsx`, `DayDetail.jsx`, `HeroToday.jsx`, `ShoppingList.jsx` and the other screens are left out; they only render.
- The style classes of the profile and glucose screens are left out.
- Onboarding.HandleNext: a treatment left at "no diabetes" after the profile changes back to a diabetes type is kept, as in the source; `Onboarding.StaleTreatmentReachable` shows it.
- App.SwapMeal: a day always holds all five dishes, so the source's early return for a slot with no dish is modelled only for a key that names no slot (`App.SwapUnknownSlot`).
- Engine.Sync: stored plans with two days on one date are kept as they are, as in the source; no statement here assumes distinct stored dates.
- Window size: the code extends the plan to today plus fourteen (fifteen days from today). The model follows the code, not a window counted from yesterday.
- Allergy keys: the model takes the keys the onboarding wizard offers (gluten, lactosa, frutos_secos, marisco, huevo).

## Findings

| source | as written | input that shows it | evidently intended | confidence | as-written member | corrected member |
|---|---|---|---|---|---|---|
| src/components/Profile.jsx:74-76 | the editor's type list stores the text "Sin diabetes", but the engine switches the carbohydrate rules off only for `sin_diabetes` (src/utils/menuGenerator.js:151) | choose "Sin diabetes" in the profile editor and save | store `sin_diabetes` and show "Sin diabetes", as the onboarding wizard does | high; not executed | ProfileScreen.EditorNoDiabetesIgnored | ProfileScreen.EditorNoDiabetesFixed |
| src/utils/menuGenerator.js:177-194 | when no stored day survives, generation starts from `today + 1`, so the synced plan has no day for today | `syncPlan` called on a plan with no day dated yesterday or later (e.g. `syncPlan([])`); from src/App.jsx:46-50 only if midnight passes between `loadPlanFromSupabase`, which returns only days from yesterday on, and `syncPlan`, so the defect is latent in the app | start from yesterday when nothing survives, so that the new days begin today | high for `syncPlan` itself, latent in the app; not executed | Engine.SyncEmptySkipsToday | Engine.SyncFixedCoversToday |
