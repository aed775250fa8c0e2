# cr-tools estimation engine in Dafny

This project models the logic of cr-tools, a card-progress planner for a
collectible card game. For each card the player enters its level and how
many copies they have, and the app derives from the level how many the next
upgrade needs. The engine works out how many cards and requests remain, and
how many weeks and days that takes at the weekly request rate of the card's
rarity in the player's arena. It then sorts the cards by days remaining,
with Legendary cards last. Finally it walks the sorted list and writes a
cumulative "done in order" schedule into every non-Legendary card; Legendary
cards are skipped. Common and Rare cards share one running total; Epic cards have their own.

Files:

- `wrappers.dfy`, module `Wrappers`: the `Option` type.
- `types.dfy`, module `Types` (src/logic/types.rs): rarities, the fourteen
  arenas in declared order, and the request-size, donation-size,
  donation-limit and request-frequency tables. It also proves the shape of
  each table: zero at TrainingCamp, bounded, and non-decreasing with arena
  rank. Every table except the common donation size at GoblinStadium is
  shown to be a function of the arena's tier, a closed form given by `Tier`.
- `calc.dfy`, module `Calc` (src/logic/calc.rs): the card records, the
  per-card estimate `CalcRemaining`, the in-place pass `ComputeAll`, the
  comparator `SortByRemaining` and the in-place scheduler `SumAll`. The two
  passes are methods over an `array<CardEntry>`. Each is proved against a
  function of the old list: `EstimateAll` for `ComputeAll`, and
  `FirstMissing`, `Elapsed` and `Scheduled` for `SumAll`.

Modelling choices:

- Cards are datatype values in an array. A `Vec<CardEntry>` owns its
  records, so there is no aliasing to model.
- `CardEntry.needed` stands for `get_needed_cards()`. The level-to-needed
  table is not part of this model, so `needed` is an opaque `nat`.
- `CardEntry.computed` is the cached estimate that calc.rs reads and writes.
- Weeks and days are exact rationals (`real`). Every input is an integer and
  every divisor is 20, 1 or a request size, so exact arithmetic is what the
  floating-point code intends.
- The clock is a parameter `now`, an integer day number. "now + n days" is
  `now + n`.
- At TrainingCamp the request size is 0. When no cards remain, the source
  computes 0.0 / 0.0 = NaN, and the cast to `usize` makes that 0. The model
  gives 0 requests in that case. When cards do remain, the source gets
  infinity and saturates to `usize::MAX` requests. What happens next
  depends on the width of `usize`. With a 64-bit `usize`, chrono's
  `Duration::days` panics on the resulting day count. With a 32-bit `usize`
  (a wasm32 build), the day count fits, but the date addition at calc.rs:59
  fails. `calc_remaining` then returns `None` for a non-Legendary card. After
  `compute_all`, `sum_all` rejects that card with `MissingCalculatedValues`
  (calc.rs:135), and the comparator panics in its `unwrap` (calc.rs:99). The
  predicate `CanEstimate` excludes exactly this case, and `CalcRemaining`,
  `ComputeAll` and the comparator require it.
- The code has no error for TrainingCamp other than the outcomes in the
  previous bullet. A date overflow makes `calc_remaining` return `None`
  (calc.rs:59), and `sum_all` reports it as `MissingCalculatedValues`
  (calc.rs:129). Day numbers here do not overflow, so the model has no
  such path.
- The comparator computes a missing estimate on demand. It only reads the
  days remaining and does not store them, as the source does with its clone.
  The clock `now` feeds only the estimate's done-on day, so the comparison
  does not depend on it (`SortByRemainingIgnoresClock`).

## Model

| member | source | states |
|---|---|---|
| `Types.Rank` | src/logic/types.rs:37-52 | an arena's discriminant is below 14; it is 0 exactly for TrainingCamp and 13 exactly for LegendaryArena |
| `Types.RankInjective` | src/logic/types.rs:37-52 | distinct arenas have distinct positions, so rank totally orders the arenas |
| `Types.Tier` | src/logic/types.rs:105-127 | the arena groups of three (four for the last) are numbered 0 to 4, and tier 0 is exactly TrainingCamp |
| `Types.TierMonotone` | src/logic/types.rs:37-52 | tiers never decrease along the declared arena order |
| `Types.GetDonationLimit` | src/logic/types.rs:65-82 | the daily donation limit is one of 0, 90, 180, 270, 360, and it is 0 exactly at TrainingCamp |
| `Types.GetDonationSize` | src/logic/types.rs:85-102 | rare donation size is 0 exactly at TrainingCamp and 1 elsewhere; common is at most 8 and 0 exactly at TrainingCamp |
| `Types.GetRequestSize` | src/logic/types.rs:105-127 | request size is {0, 0} exactly at TrainingCamp; everywhere else rare is in 1..4 and common is ten times rare |
| `Types.RequestFrequencyValues` | src/logic/types.rs:137-142 | the constant `REQUEST_FREQUENCY` holds the weekly request frequency: 20 for Common and Rare (6*3+2), 1 for Epic and 0 for Legendary |
| `Types.TablesFollowTier` | src/logic/types.rs:65-127 | request sizes are (10t, t), the donation limit is 90t, and the rare donation size is 1 from tier t = 1 on; the common donation size is 2t except 1 at GoblinStadium |
| `Types.RequestSizeMonotone` | src/logic/types.rs:105-127 | common and rare request sizes are non-decreasing along arena order |
| `Types.DonationLimitMonotone` | src/logic/types.rs:65-82 | the daily donation limit is non-decreasing along arena order |
| `Types.DonationSizeMonotone` | src/logic/types.rs:85-102 | common and rare donation sizes are non-decreasing along arena order |
| `Calc.Ceil` | src/logic/calc.rs:46 | the result is the least integer not below its argument |
| `Calc.CardsRemaining` | src/logic/calc.rs:34-38 | saturating subtraction: have + r reaches needed, and r is 0 or exactly needed - have |
| `Calc.RequestSizeFor` | src/logic/calc.rs:32-45 | the divisor is ten times the arena's tier for Common cards and the tier itself otherwise (the common and rare request sizes, by `TablesFollowTier`); it is 0 exactly at TrainingCamp, a multiple of ten up to 40 for Common, at most 4 otherwise, and with no arena the LegendaryArena sizes 40 and 4 |
| `Calc.CeilOfQuotient` | src/logic/calc.rs:40-46 | the ceiling of cards / size is a non-negative n with n*size >= cards > (n-1)*size |
| `Calc.RequestsRemaining` | src/logic/calc.rs:40-46 | requests are the least n whose yield n*size covers the remaining cards, and 0 when no cards remain, also at size 0 |
| `Calc.WeeklyFrequency` | src/logic/calc.rs:48-54 | the frequency selected by rarity is positive (at least 1) exactly for non-Legendary cards |
| `Calc.CalcRemaining` | src/logic/calc.rs:25-70 | None exactly for Legendary cards; otherwise the cards remaining saturate, the requests are the least covering count, weeks * frequency = requests, days = weeks * 7 >= 0, the done-on day is now plus the ceiling of days, and the in-order fields are None |
| `Calc.AbsentArenaIsLegendaryArena` | src/logic/calc.rs:31-32 | with no arena the estimate equals the LegendaryArena estimate |
| `Calc.CompleteCardIsDoneNow` | src/logic/calc.rs:34-69 | a non-Legendary card with have >= needed has 0 cards, 0 requests, 0 weeks, 0 days and is done today |
| `Calc.TrainingCampHasNoCapacity` | src/logic/calc.rs:40-46 | at TrainingCamp a non-Legendary card can be estimated exactly when it needs no more cards |
| `Calc.RoyalArenaCommonExample` | src/logic/calc.rs:25-70 | a Common card at RoyalArena with 40 of 100 has 60 cards, 2 requests, 0.1 weeks, 0.7 days and is done tomorrow |
| `Calc.EstimateAll` | src/logic/calc.rs:72-76 | re-estimating every card keeps the list length |
| `Calc.WithEstimate` | src/logic/calc.rs:74 | the card with only `computed` replaced, which is None exactly for Legendary cards and otherwise has no in-order days and non-negative days remaining |
| `Calc.EstimateAllAt` | src/logic/calc.rs:72-76 | card k after the pass is card k with only `computed` replaced by its estimate, so order and all other fields are unchanged; it is None exactly for Legendary cards |
| `Calc.ComputeAll` | src/logic/calc.rs:72-76 | the array afterwards is `EstimateAll` of the array before |
| `Calc.SortByRemaining` | src/logic/calc.rs:80-105 | two Legendary cards are Equal; Legendary against non-Legendary is Greater and the reverse is Less; otherwise Less, Equal or Greater exactly as the days remaining (cached, else estimated on demand) compare |
| `Calc.GetRemaining` | src/logic/calc.rs:96-101 | the cached days remaining when `computed` is present; otherwise a fresh estimate, never negative, that equals 7 × the requests remaining / the weekly frequency |
| `Calc.SortByRemainingIgnoresClock` | src/logic/calc.rs:83-105 | the comparison gives the same result for every clock reading |
| `Calc.SortByRemainingReflexive` | src/logic/calc.rs:83-105 | every card compares Equal to itself |
| `Calc.SortByRemainingAntisymmetric` | src/logic/calc.rs:83-105 | cmp(a, b) is the reverse of cmp(b, a) |
| `Calc.SortByRemainingTransitive` | src/logic/calc.rs:83-105 | not-greater, equal and less are transitive, so the comparator is a total preorder |
| `Calc.SortedOrder` | src/logic/calc.rs:80-105 | in a list sorted by the comparator, every card after a Legendary card is Legendary, and non-Legendary cards come in non-decreasing days remaining |
| `Calc.FirstMissing` | src/logic/calc.rs:123-136 | the index of the first non-Legendary card without an estimate: no earlier card lacks one, and the card there does |
| `Calc.BucketOf` | src/logic/calc.rs:114-121 | Common and Rare cards share the regular total, Epic cards have their own, and Legendary cards have none |
| `Calc.ElapsedNonNegative` | src/logic/calc.rs:109-133 | the running total `Elapsed` of a bucket, the sum of its cards' days remaining over a list, is never negative when no card adds a negative day count |
| `Calc.InOrder` | src/logic/calc.rs:124-132 | only the in-order fields of the estimate change: the in-order days become the given total, and the done-in-order day is now plus its ceiling |
| `Calc.Scheduled` | src/logic/calc.rs:114-133 | card k after the pass differs from the old card only in `computed`; a Legendary card is unchanged, and any other card keeps an estimate |
| `Calc.SumAll` | src/logic/calc.rs:108-140 | succeeds exactly when no non-Legendary card lacks an estimate; cards before the first such card are scheduled, the rest are untouched |
| `Calc.ScheduledCard` | src/logic/calc.rs:114-133 | a scheduled non-Legendary card keeps every field and its days remaining, its in-order days are the running total of its bucket through it, and it is done in order on now plus the ceiling of that |
| `Calc.ScheduledDays` | src/logic/calc.rs:124-132 | a scheduled card of a bucket has as in-order days the running total of that bucket through it |
| `Calc.ElapsedStep` | src/logic/calc.rs:124-133 | visiting card k adds its days to its own bucket's running total and leaves the other total alone |
| `Calc.ElapsedAppend` | src/logic/calc.rs:109-133 | running totals add up over concatenated lists |
| `Calc.ElapsedOfOnlyBucket` | src/logic/calc.rs:114-116 | a bucket's running total equals the total over that bucket's cards alone |
| `Calc.BucketsAreIndependent` | src/logic/calc.rs:109-121 | two lists with the same bucket cards in the same order share that bucket's running total, so the Epic schedule ignores Common and Rare cards and vice versa |
| `Calc.ElapsedMonotone` | src/logic/calc.rs:124-133 | with non-negative days a running total never decreases along the list |
| `Calc.InOrderDaysNondecreasing` | src/logic/calc.rs:124-133 | within a bucket a later card's in-order days are at least an earlier card's |
| `Calc.SumAllExample` | src/logic/calc.rs:108-137 | Common/Rare cards of 3, 5 and 2 days get 3, 8 and 10 in-order days, and an Epic card of 7 among them gets 7 |
| `Calc.EstimateAllIsSchedulable` | src/logic/calc.rs:72-76 | after the estimate pass no card lacks an estimate and no day count is negative |
| `Calc.ReorderKeepsEstimates` | src/logic/calc.rs:123-136 | any reordering (such as the sort) of a fully estimated list is fully estimated, so the scheduler after estimating and sorting never fails |

## Left out

- The wall clock `Local::now()`, chrono time zones and date formatting. The clock is the parameter `now`. `ComputeAll`, the comparator and `SumAll` each use one reading for the whole pass, where the source reads the clock again for every card (in `sum_all` at calc.rs:127).
- Date overflow in `checked_add_signed`. Day numbers are unbounded integers, so the model's `CalcRemaining` never yields `None` for a non-Legendary card and `SumAll` never fails on a date, where the source's `?` at calc.rs:59 returns `None` and calc.rs:129 reports the overflow. With a 64-bit `usize`, chrono's `Duration::days` panics before that at any arena once a card needs more than about 1.07e11 days, for example an Epic card needing more than about 1.5e10 cards at rare size 1.
- IEEE-754 behaviour: rounding in the divisions and in `ceil`, and `usize` casts of large values. All arithmetic is exact. The rounding can change a result: in f64, 2.0 / 20.0 * 7.0 is 0.7000000000000001, so ten Common cards in a row at 2 requests each give `sum_all` a running total of 7.000000000000001, whose ceiling puts `done_in_order_on` at now + 8, where the model gives now + 7.
- `CalcRemaining`: does not model the infinite quotient and saturation to `usize::MAX` at TrainingCamp with cards remaining. With a 64-bit `usize` the source then panics in `Duration::days`. With a 32-bit `usize` it returns `None` from the failed date addition, which makes `sum_all` fail and the comparator panic. `CanEstimate` excludes that case instead.
- `SortByRemaining`: does not model the `partial_cmp().unwrap()` panic on NaN, because exact day counts are never NaN.
- `Vec::sort_by` itself, including its stability. The comparator's properties are proved, and `SortedOrder` states what any sort with it yields.
- The user interface in src/components/card_info.rs and src/components/card_input.rs: rendering, input parsing and callbacks. Its Legendary remaining-count display uses the same saturating subtraction as `CardsRemaining`.
- The level-to-needed table, the `CardType` field, and the serde, strum, anyhow and thiserror plumbing. These carry no logic the engine uses.
- Integer widths of `have` and `needed` (`usize`). Subtraction saturates, so nothing in the model can underflow.
