/**
 * The estimation and scheduling engine of src/logic/calc.rs: the per-card
 * estimate (`CalcRemaining`), the pass that stores it in every card
 * (`ComputeAll`), the comparator used to sort cards by time remaining
 * (`SortByRemaining`) and the pass that writes the cumulative "in order"
 * schedule back into a sorted list (`SumAll`).
 *
 * Times are exact rationals (`real`), and the clock is an injected day
 * number `now`, so a date is an `int` and "now + n days" is `now + n`.
 */
module Calc {
  import opened Types
  import opened Wrappers

  /** The estimate for one card. */
  datatype CardData = CardData(
    cardsRemaining: nat,
    requestsRemaining: nat,
    weeksRemaining: real,
    daysRemaining: real,
    doneOn: int,
    daysInOrder: Option<real>,
    doneInOrderOn: Option<int>)

  /**
   * One card of the player's collection.  `needed` stands for the count the
   * card needs at its next upgrade, which the source derives from the level;
   * `computed` is the cached estimate.
   */
  datatype CardEntry = CardEntry(
    name: string,
    have: nat,
    needed: nat,
    rarity: Rarity,
    computed: Option<CardData>)

  /** The result of a comparison, as `std::cmp::Ordering`. */
  datatype Ordering = Less | Equal | Greater {
    function Reverse(): Ordering {
      match this
      case Less => Greater
      case Equal => Equal
      case Greater => Less
    }
  }

  /** The one error `sum_all` reports. */
  datatype CalcError = MissingCalculatedValues

  /** `Result<()>`: success, or the error that aborted the pass. */
  datatype Outcome = Pass | Fail(error: CalcError)

  // ---------------------------------------------------------------------------
  // The per-card estimate
  // ---------------------------------------------------------------------------

  /** The least integer not below `x` (`f64::ceil`). */
  function Ceil(x: real): (n: int)
    ensures x <= n as real < x + 1.0
  {
    var f := x.Floor;
    if f as real == x then f else f + 1
  }

  /** Saturating subtraction `needed - have`: the fewest extra cards that reach `needed`. */
  function CardsRemaining(have: nat, needed: nat): (r: nat)
    ensures have + r >= needed
    ensures r == 0 || have + r == needed
  {
    if needed < have then 0 else needed - have
  }

  /**
   * The request size that divides a card's remaining count: the common size
   * for Common cards and the rare size for all others; an absent arena counts
   * as LegendaryArena.
   */
  function RequestSizeFor(rarity: Rarity, arena: Option<Arena>): (n: nat)
    ensures n == 0 <==> arena == Some(TrainingCamp)
    ensures rarity == Common ==> n in {0, 10, 20, 30, 40}
    ensures rarity != Common ==> n <= 4
    ensures arena.None? ==> n == if rarity == Common then 40 else 4
    ensures n == (if rarity == Common then 10 else 1) * Tier(arena.UnwrapOr(LegendaryArena))
  {
    TablesFollowTier(arena.UnwrapOr(LegendaryArena));
    var size := GetRequestSize(arena.UnwrapOr(LegendaryArena));
    if rarity == Common then size.common else size.rare
  }

  /** Multiplying by a positive factor keeps `<=`. */
  lemma MulLeft(x: real, y: real, d: real)
    requires d > 0.0 && x <= y
    ensures x * d <= y * d
  {
  }

  /** Multiplying by a positive factor keeps `<`. */
  lemma MulLeftStrict(x: real, y: real, d: real)
    requires d > 0.0 && x < y
    ensures x * d < y * d
  {
  }

  /** Converting a product to `real` multiplies the converted factors. */
  lemma IntMulAsReal(n: int, m: int)
    ensures (n * m) as real == n as real * m as real
  {
  }

  /** The ceiling of `c / d` times `d` covers `c` by less than one more `d`. */
  lemma CeilOfRealQuotient(c: real, d: real)
    requires c >= 0.0 && d > 0.0
    ensures var n := Ceil(c / d);
      0 <= n && n as real * d >= c && n as real * d < c + d
  {
    var q := c / d;
    var n := Ceil(q);
    assert q * d == c;
    MulLeft(q, n as real, d);
    var upper := q + 1.0;
    MulLeftStrict(n as real, upper, d);
    assert upper * d == q * d + d;
    assert n as real * d < c + d;
  }

  /** The ceiling of `cards / size` is the least count of requests whose yield covers `cards`. */
  lemma CeilOfQuotient(cards: nat, size: nat)
    requires size > 0
    ensures var n := Ceil(cards as real / size as real);
      0 <= n && n * size >= cards && n * size < cards + size
  {
    CeilOfRealQuotient(cards as real, size as real);
    IntMulAsReal(Ceil(cards as real / size as real), size);
  }

  /**
   * The number of requests that yield `cards` cards at `size` cards each: the
   * ceiling of the quotient, so the least count whose yield covers `cards`.
   * With `size == 0` only `cards == 0` is defined (0.0 / 0.0 is NaN, which the
   * cast to `usize` turns into 0).
   */
  function RequestsRemaining(cards: nat, size: nat): (n: nat)
    requires size > 0 || cards == 0
    ensures size > 0 ==> n * size >= cards && n * size < cards + size
    ensures cards == 0 ==> n == 0
  {
    if size == 0 then 0
    else
      CeilOfQuotient(cards, size);
      Ceil(cards as real / size as real)
  }

  /** Requests per week for a rarity, read from `REQUEST_FREQUENCY`. */
  function WeeklyFrequency(rarity: Rarity): (f: real)
    ensures f > 0.0 <==> rarity != Legendary
    ensures f == 0.0 <==> rarity == Legendary
    ensures rarity != Legendary ==> f >= 1.0
  {
    match rarity
    case Common => REQUEST_FREQUENCY.common
    case Rare => REQUEST_FREQUENCY.rare
    case Epic => REQUEST_FREQUENCY.epic
    case Legendary => REQUEST_FREQUENCY.legendary
  }

  /**
   * The source can estimate the card: it is Legendary (no estimate), or its
   * request size is positive, or it needs no more cards.  Otherwise the
   * division by a zero request size (TrainingCamp) gives infinity, which the
   * cast turns into `usize::MAX` requests.  With a 64-bit `usize` the day
   * count then overflows in `Duration::days`, which panics.  With a 32-bit
   * `usize` (wasm32) the date addition fails instead: `calc_remaining`
   * returns `None` for a non-Legendary card, which `sum_all` rejects and the
   * comparator's `unwrap` panics on.
   */
  predicate CanEstimate(card: CardEntry, arena: Option<Arena>) {
    card.rarity == Legendary
    || RequestSizeFor(card.rarity, arena) > 0
    || CardsRemaining(card.have, card.needed) == 0
  }

  /** `calc_remaining`: the estimate for one card, absent for Legendary cards. */
  function CalcRemaining(card: CardEntry, arena: Option<Arena>, now: int): (r: Option<CardData>)
    requires CanEstimate(card, arena)
    ensures r.None? <==> card.rarity == Legendary
    ensures r.Some? ==>
      var d := r.value;
      && card.have + d.cardsRemaining >= card.needed
      && (d.cardsRemaining == 0 || card.have + d.cardsRemaining == card.needed)
    ensures r.Some? ==>
      var d, size := r.value, RequestSizeFor(card.rarity, arena);
      && (size > 0 ==> d.requestsRemaining * size >= d.cardsRemaining
                       && d.requestsRemaining * size < d.cardsRemaining + size)
      && (d.cardsRemaining == 0 ==> d.requestsRemaining == 0)
    ensures r.Some? ==>
      var d := r.value;
      && d.weeksRemaining * WeeklyFrequency(card.rarity) == d.requestsRemaining as real
      && d.daysRemaining == d.weeksRemaining * 7.0
      && d.daysRemaining >= 0.0
    ensures r.Some? ==>
      var d := r.value;
      && now as real + d.daysRemaining <= d.doneOn as real < now as real + d.daysRemaining + 1.0
      && d.daysInOrder.None? && d.doneInOrderOn.None?
  {
    if card.rarity == Legendary then None
    else
      var size := RequestSizeFor(card.rarity, arena);
      var cards := CardsRemaining(card.have, card.needed);
      var requests := RequestsRemaining(cards, size);
      var weeks := requests as real / WeeklyFrequency(card.rarity);
      var days := weeks * 7.0;
      Some(CardData(cards, requests, weeks, days, now + Ceil(days), None, None))
  }

  /** With no arena selected the estimate is the one for LegendaryArena. */
  lemma AbsentArenaIsLegendaryArena(card: CardEntry, now: int)
    requires CanEstimate(card, None)
    ensures CanEstimate(card, Some(LegendaryArena))
    ensures CalcRemaining(card, None, now) == CalcRemaining(card, Some(LegendaryArena), now)
  {
  }

  /** A card that already has what it needs is estimated as done today. */
  lemma CompleteCardIsDoneNow(card: CardEntry, arena: Option<Arena>, now: int)
    requires card.rarity != Legendary && card.have >= card.needed
    ensures CanEstimate(card, arena)
    ensures CalcRemaining(card, arena, now) == Some(CardData(0, 0, 0.0, 0.0, now, None, None))
  {
    assert WeeklyFrequency(card.rarity) > 0.0;
    assert Ceil(0.0) == 0;
  }

  /** At TrainingCamp no request capacity exists: only a card that needs nothing can be estimated. */
  lemma TrainingCampHasNoCapacity(card: CardEntry)
    requires card.rarity != Legendary
    ensures CanEstimate(card, Some(TrainingCamp)) <==> card.have >= card.needed
  {
  }

  /** A Common card at RoyalArena that needs 100 and has 40. */
  lemma RoyalArenaCommonExample(now: int)
    ensures CalcRemaining(CardEntry("card", 40, 100, Common, None), Some(RoyalArena), now)
         == Some(CardData(60, 2, 0.1, 0.7, now + 1, None, None))
  {
    var card := CardEntry("card", 40, 100, Common, None);
    assert RequestSizeFor(Common, Some(RoyalArena)) == 30;
    assert CardsRemaining(40, 100) == 60;
    assert Ceil(60.0 / 30.0) == 2;
    assert RequestsRemaining(60, 30) == 2;
    assert Ceil(0.7) == 1;
  }

  // ---------------------------------------------------------------------------
  // compute_all
  // ---------------------------------------------------------------------------

  /** Every card of `s` can be estimated. */
  predicate AllEstimable(s: seq<CardEntry>, arena: Option<Arena>) {
    forall k :: 0 <= k < |s| ==> CanEstimate(s[k], arena)
  }

  /** The card with its `computed` slot overwritten by a fresh estimate. */
  function WithEstimate(card: CardEntry, arena: Option<Arena>, now: int): (r: CardEntry)
    requires CanEstimate(card, arena)
    ensures r == card.(computed := r.computed)
    ensures r.computed.None? <==> card.rarity == Legendary
    ensures r.computed.Some? ==> r.computed.value.daysInOrder.None? && r.computed.value.daysRemaining >= 0.0
  {
    card.(computed := CalcRemaining(card, arena, now))
  }

  /** The list after `compute_all`: every card re-estimated, in the same order. */
  function EstimateAll(s: seq<CardEntry>, arena: Option<Arena>, now: int): (r: seq<CardEntry>)
    requires AllEstimable(s, arena)
    ensures |r| == |s|
  {
    if s == [] then [] else [WithEstimate(s[0], arena, now)] + EstimateAll(s[1..], arena, now)
  }

  /** Each card of `EstimateAll` is the original card with only its `computed` slot replaced. */
  lemma {:induction false} EstimateAllAt(s: seq<CardEntry>, arena: Option<Arena>, now: int, k: nat)
    requires AllEstimable(s, arena) && k < |s|
    ensures EstimateAll(s, arena, now)[k] == s[k].(computed := CalcRemaining(s[k], arena, now))
    ensures EstimateAll(s, arena, now)[k].computed.None? <==> s[k].rarity == Legendary
  {
    if k > 0 {
      EstimateAllAt(s[1..], arena, now, k - 1);
    }
  }

  /** `compute_all`: fill in every card's estimate in place. */
  method ComputeAll(list: array<CardEntry>, arena: Option<Arena>, now: int)
    requires AllEstimable(list[..], arena)
    modifies list
    ensures list[..] == EstimateAll(old(list[..]), arena, now)
  {
    for i := 0 to list.Length
      invariant forall k :: 0 <= k < i ==> list[k] == WithEstimate(old(list[k]), arena, now)
      invariant forall k :: i <= k < list.Length ==> list[k] == old(list[k])
    {
      assert CanEstimate(old(list[..])[i], arena);
      list[i] := list[i].(computed := CalcRemaining(list[i], arena, now));
    }
    forall k | 0 <= k < list.Length
      ensures list[k] == EstimateAll(old(list[..]), arena, now)[k]
    {
      EstimateAllAt(old(list[..]), arena, now, k);
    }
  }

  // ---------------------------------------------------------------------------
  // sort_by_remaining
  // ---------------------------------------------------------------------------

  /** The comparator can rank the card: it is cached, or can be estimated on demand. */
  predicate Comparable(card: CardEntry, arena: Option<Arena>) {
    card.computed.Some? || CanEstimate(card, arena)
  }

  /**
   * The days remaining of a non-Legendary card: the cached value, else a fresh
   * estimate, which is never negative.  The fresh estimate is not stored.  The
   * clock `now` only feeds the estimate's done-on day, never its days remaining.
   */
  function GetRemaining(card: CardEntry, arena: Option<Arena>, now: int): (d: real)
    requires card.rarity != Legendary && Comparable(card, arena)
    ensures card.computed.Some? ==> d == card.computed.value.daysRemaining
    ensures card.computed.None? ==> d >= 0.0 && d * WeeklyFrequency(card.rarity) == 7.0 * RequestsRemaining(
      CardsRemaining(card.have, card.needed), RequestSizeFor(card.rarity, arena)) as real
  {
    match card.computed
    case Some(d) => d.daysRemaining
    case None => CalcRemaining(card, arena, now).value.daysRemaining
  }

  /**
   * The comparator returned by `sort_by_remaining`: Legendary cards after all
   * others and equal among themselves, other cards by days remaining.
   */
  function SortByRemaining(arena: Option<Arena>, now: int, a: CardEntry, b: CardEntry): (o: Ordering)
    requires Comparable(a, arena) && Comparable(b, arena)
    ensures a.rarity == Legendary && b.rarity == Legendary ==> o == Equal
    ensures a.rarity == Legendary && b.rarity != Legendary ==> o == Greater
    ensures a.rarity != Legendary && b.rarity == Legendary ==> o == Less
    ensures a.rarity != Legendary && b.rarity != Legendary ==>
      && (o == Less <==> GetRemaining(a, arena, now) < GetRemaining(b, arena, now))
      && (o == Equal <==> GetRemaining(a, arena, now) == GetRemaining(b, arena, now))
      && (o == Greater <==> GetRemaining(a, arena, now) > GetRemaining(b, arena, now))
  {
    if a.rarity == Legendary then
      if b.rarity == Legendary then Equal else Greater
    else if b.rarity == Legendary then
      Less
    else
      var x, y := GetRemaining(a, arena, now), GetRemaining(b, arena, now);
      if x < y then Less else if x == y then Equal else Greater
  }

  /** Every card compares equal to itself. */
  lemma SortByRemainingReflexive(arena: Option<Arena>, now: int, a: CardEntry)
    requires Comparable(a, arena)
    ensures SortByRemaining(arena, now, a, a) == Equal
  {
  }

  /** The comparison does not depend on the clock. */
  lemma SortByRemainingIgnoresClock(arena: Option<Arena>, now1: int, now2: int, a: CardEntry, b: CardEntry)
    requires Comparable(a, arena) && Comparable(b, arena)
    ensures SortByRemaining(arena, now1, a, b) == SortByRemaining(arena, now2, a, b)
  {
  }

  /** Swapping the arguments reverses the result. */
  lemma SortByRemainingAntisymmetric(arena: Option<Arena>, now: int, a: CardEntry, b: CardEntry)
    requires Comparable(a, arena) && Comparable(b, arena)
    ensures SortByRemaining(arena, now, a, b) == SortByRemaining(arena, now, b, a).Reverse()
  {
  }

  /** "Not greater", "equal" and "less" are each transitive, so the comparator is a total preorder. */
  lemma SortByRemainingTransitive(arena: Option<Arena>, now: int, a: CardEntry, b: CardEntry, c: CardEntry)
    requires Comparable(a, arena) && Comparable(b, arena) && Comparable(c, arena)
    ensures SortByRemaining(arena, now, a, b) != Greater && SortByRemaining(arena, now, b, c) != Greater
        ==> SortByRemaining(arena, now, a, c) != Greater
    ensures SortByRemaining(arena, now, a, b) == Equal && SortByRemaining(arena, now, b, c) == Equal
        ==> SortByRemaining(arena, now, a, c) == Equal
    ensures SortByRemaining(arena, now, a, b) == Less && SortByRemaining(arena, now, b, c) != Greater
        ==> SortByRemaining(arena, now, a, c) == Less
  {
  }

  /** Every card of `s` can be compared. */
  predicate AllComparable(s: seq<CardEntry>, arena: Option<Arena>) {
    forall k :: 0 <= k < |s| ==> Comparable(s[k], arena)
  }

  /** `s` is in the order `sort_by` establishes with this comparator. */
  predicate SortedByRemaining(s: seq<CardEntry>, arena: Option<Arena>, now: int)
    requires AllComparable(s, arena)
  {
    forall i, j :: 0 <= i < j < |s| ==> SortByRemaining(arena, now, s[i], s[j]) != Greater
  }

  /** A sorted list has all Legendary cards after all others, and the others by days remaining. */
  lemma SortedOrder(s: seq<CardEntry>, arena: Option<Arena>, now: int, i: nat, j: nat)
    requires AllComparable(s, arena) && SortedByRemaining(s, arena, now)
    requires i < j < |s|
    ensures s[i].rarity == Legendary ==> s[j].rarity == Legendary
    ensures s[i].rarity != Legendary && s[j].rarity != Legendary
        ==> GetRemaining(s[i], arena, now) <= GetRemaining(s[j], arena, now)
  {
    assert SortByRemaining(arena, now, s[i], s[j]) != Greater;
  }

  // ---------------------------------------------------------------------------
  // sum_all
  // ---------------------------------------------------------------------------

  /** The running totals of `sum_all`: Common and Rare share one, Epic has its own. */
  datatype Bucket = Regular | EpicOnly

  /** The running total a rarity belongs to; Legendary cards are skipped. */
  function BucketOf(rarity: Rarity): (b: Option<Bucket>)
    ensures b.None? <==> rarity == Legendary
    ensures b == Some(Regular) <==> rarity == Common || rarity == Rare
    ensures b == Some(EpicOnly) <==> rarity == Epic
  {
    match rarity
    case Common | Rare => Some(Regular)
    case Epic => Some(EpicOnly)
    case Legendary => None
  }

  /** A card the pass would schedule but that has no estimate. */
  predicate Missing(card: CardEntry) {
    card.rarity != Legendary && card.computed.None?
  }

  /** The index of the first card without an estimate, or `|s|` when there is none. */
  function FirstMissing(s: seq<CardEntry>): (m: nat)
    ensures m <= |s|
    ensures forall k :: 0 <= k < m ==> !Missing(s[k])
    ensures m < |s| ==> Missing(s[m])
  {
    if s == [] then 0
    else if Missing(s[0]) then 0
    else 1 + FirstMissing(s[1..])
  }

  /** The days a card adds to the running total of bucket `b`. */
  function DaysIn(card: CardEntry, b: Bucket): real {
    if BucketOf(card.rarity) == Some(b) && card.computed.Some? then card.computed.value.daysRemaining else 0.0
  }

  /** No card of `s` adds a negative day count to bucket `b`. */
  predicate NoNegativeDays(s: seq<CardEntry>, b: Bucket) {
    forall k :: 0 <= k < |s| ==> DaysIn(s[k], b) >= 0.0
  }

  /** The sum of `days_remaining` over the cards of `s` in bucket `b`. */
  function Elapsed(s: seq<CardEntry>, b: Bucket): real {
    if s == [] then 0.0 else Elapsed(s[..|s| - 1], b) + DaysIn(s[|s| - 1], b)
  }

  /** A running total is never negative when no day count in it is. */
  lemma {:induction false} ElapsedNonNegative(s: seq<CardEntry>, b: Bucket)
    requires NoNegativeDays(s, b)
    ensures Elapsed(s, b) >= 0.0
  {
    if s != [] {
      var init := s[..|s| - 1];
      forall k | 0 <= k < |init|
        ensures DaysIn(init[k], b) >= 0.0
      {
        assert init[k] == s[k];
      }
      ElapsedNonNegative(init, b);
      assert DaysIn(s[|s| - 1], b) >= 0.0;
    }
  }

  /** The card with its in-order schedule written into its estimate. */
  function InOrder(card: CardEntry, total: real, now: int): (r: CardEntry)
    requires card.computed.Some?
    ensures r == card.(computed := r.computed) && r.computed.Some?
    ensures var d := r.computed.value;
      && d == card.computed.value.(daysInOrder := d.daysInOrder, doneInOrderOn := d.doneInOrderOn)
      && d.daysInOrder == Some(total)
      && d.doneInOrderOn.Some?
      && now as real + total <= d.doneInOrderOn.value as real < now as real + total + 1.0
  {
    card.(computed := Some(card.computed.value.(daysInOrder := Some(total), doneInOrderOn := Some(now + Ceil(total)))))
  }

  /**
   * Card `k` of `s` after a successful visit of `sum_all`: its in-order days
   * are the sum over its bucket up to and including it; Legendary cards stay.
   */
  function Scheduled(s: seq<CardEntry>, k: nat, now: int): (c: CardEntry)
    requires k < |s| && !Missing(s[k])
    ensures c == s[k].(computed := c.computed)
    ensures s[k].rarity == Legendary ==> c == s[k]
    ensures s[k].rarity != Legendary ==> c.computed.Some?
  {
    match BucketOf(s[k].rarity)
    case None => s[k]
    case Some(b) => InOrder(s[k], Elapsed(s[..k + 1], b), now)
  }

  /**
   * `sum_all`: walk the sorted list once, keeping one running total for Common
   * and Rare cards and one for Epic cards, and store each card's cumulative days
   * and completion day.  Stops at the first card without an estimate, leaving
   * the cards before it updated and the rest untouched.
   */
  method SumAll(list: array<CardEntry>, now: int) returns (r: Outcome)
    modifies list
    ensures r == if FirstMissing(old(list[..])) == list.Length then Pass else Fail(MissingCalculatedValues)
    ensures forall k :: 0 <= k < FirstMissing(old(list[..])) ==> list[k] == Scheduled(old(list[..]), k, now)
    ensures forall k :: FirstMissing(old(list[..])) <= k < list.Length ==> list[k] == old(list[k])
  {
    ghost var s := list[..];
    var prevRegular, prevEpic := 0.0, 0.0;
    var i := 0;
    while i < list.Length
      invariant 0 <= i <= FirstMissing(s) <= list.Length
      invariant prevRegular == Elapsed(s[..i], Regular)
      invariant prevEpic == Elapsed(s[..i], EpicOnly)
      invariant forall k :: 0 <= k < i ==> list[k] == Scheduled(s, k, now)
      invariant forall k :: i <= k < list.Length ==> list[k] == s[k]
    {
      var card := list[i];
      assert s[..i + 1][..i] == s[..i];
      var regular: bool;
      match card.rarity {
        case Common | Rare => regular := true;
        case Epic => regular := false;
        case Legendary =>
          i := i + 1;
          continue;
      }
      if card.computed.None? {
        return Fail(MissingCalculatedValues);
      }
      var data := card.computed.value;
      var currentTime := data.daysRemaining + (if regular then prevRegular else prevEpic);
      list[i] := card.(computed := Some(data.(doneInOrderOn := Some(now + Ceil(currentTime)), daysInOrder := Some(currentTime))));
      if regular {
        prevRegular := currentTime;
      } else {
        prevEpic := currentTime;
      }
      i := i + 1;
    }
    return Pass;
  }

  /** Card `k` as `sum_all` leaves it: only the in-order fields of its estimate change. */
  lemma ScheduledCard(s: seq<CardEntry>, k: nat, now: int)
    requires k < |s| && !Missing(s[k])
    ensures s[k].rarity != Legendary ==>
      var c, b := Scheduled(s, k, now), BucketOf(s[k].rarity).value;
      && c.computed.value == s[k].computed.value.(daysInOrder := c.computed.value.daysInOrder,
                                                  doneInOrderOn := c.computed.value.doneInOrderOn)
      && c.computed.value.daysInOrder == Some(Elapsed(s[..k + 1], b))
      && c.computed.value.doneInOrderOn.Some?
      && Elapsed(s[..k + 1], b) <= c.computed.value.doneInOrderOn.value as real - now as real
      && c.computed.value.doneInOrderOn.value as real - now as real < Elapsed(s[..k + 1], b) + 1.0
  {
  }

  /** The running total over a prefix one card longer adds that card's days to its bucket only. */
  lemma ElapsedStep(s: seq<CardEntry>, k: nat, b: Bucket)
    requires k < |s|
    ensures Elapsed(s[..k + 1], b) == Elapsed(s[..k], b) + DaysIn(s[k], b)
    ensures BucketOf(s[k].rarity) != Some(b) ==> Elapsed(s[..k + 1], b) == Elapsed(s[..k], b)
  {
    assert s[..k + 1][..k] == s[..k];
  }

  /** Running totals add up over concatenation. */
  lemma {:induction false} ElapsedAppend(s: seq<CardEntry>, t: seq<CardEntry>, b: Bucket)
    ensures Elapsed(s + t, b) == Elapsed(s, b) + Elapsed(t, b)
    decreases |t|
  {
    if t != [] {
      var u := t[..|t| - 1];
      assert (s + t)[..|s + t| - 1] == s + u;
      ElapsedAppend(s, u, b);
    } else {
      assert s + t == s;
    }
  }

  /** The cards of `s` in bucket `b`, in list order. */
  function OnlyBucket(s: seq<CardEntry>, b: Bucket): seq<CardEntry> {
    if s == [] then []
    else OnlyBucket(s[..|s| - 1], b) + (if BucketOf(s[|s| - 1].rarity) == Some(b) then [s[|s| - 1]] else [])
  }

  /** A bucket's running total is determined by the cards of that bucket alone. */
  lemma {:induction false} ElapsedOfOnlyBucket(s: seq<CardEntry>, b: Bucket)
    ensures Elapsed(OnlyBucket(s, b), b) == Elapsed(s, b)
  {
    if s != [] {
      var init, last := s[..|s| - 1], s[|s| - 1];
      ElapsedOfOnlyBucket(init, b);
      var tail := if BucketOf(last.rarity) == Some(b) then [last] else [];
      ElapsedAppend(OnlyBucket(init, b), tail, b);
      if tail != [] {
        assert tail[..0] == [];
      }
    }
  }

  /**
   * Two lists with the same cards in bucket `b`, in the same order, have the
   * same running total for `b`: the Epic schedule is unaffected by Common and
   * Rare cards, and the other way round.
   */
  lemma BucketsAreIndependent(s: seq<CardEntry>, t: seq<CardEntry>, b: Bucket)
    requires OnlyBucket(s, b) == OnlyBucket(t, b)
    ensures Elapsed(s, b) == Elapsed(t, b)
  {
    ElapsedOfOnlyBucket(s, b);
    ElapsedOfOnlyBucket(t, b);
  }

  /** With no negative day counts, a running total never decreases along the list. */
  lemma {:induction false} ElapsedMonotone(s: seq<CardEntry>, i: nat, j: nat, b: Bucket)
    requires i <= j <= |s|
    requires NoNegativeDays(s, b)
    ensures Elapsed(s[..i], b) <= Elapsed(s[..j], b)
    decreases j - i
  {
    if i < j {
      ElapsedMonotone(s, i, j - 1, b);
      ElapsedStep(s, j - 1, b);
    }
  }

  /** Within a bucket, a later card is done in order no earlier than an earlier one. */
  lemma InOrderDaysNondecreasing(s: seq<CardEntry>, now: int, i: nat, j: nat)
    requires i < j < FirstMissing(s)
    requires s[i].rarity != Legendary && BucketOf(s[i].rarity) == BucketOf(s[j].rarity)
    requires NoNegativeDays(s, BucketOf(s[i].rarity).value)
    ensures Scheduled(s, i, now).computed.value.daysInOrder.value
         <= Scheduled(s, j, now).computed.value.daysInOrder.value
  {
    var b := BucketOf(s[i].rarity).value;
    calc {
      Scheduled(s, i, now).computed.value.daysInOrder.value;
    == { ScheduledDays(s, i, now, b); }
      Elapsed(s[..i + 1], b);
    <= { ElapsedMonotone(s, i + 1, j + 1, b); }
      Elapsed(s[..j + 1], b);
    == { ScheduledDays(s, j, now, b); }
      Scheduled(s, j, now).computed.value.daysInOrder.value;
    }
  }

  /** The in-order days of a scheduled card are the running total of its bucket. */
  lemma ScheduledDays(s: seq<CardEntry>, k: nat, now: int, b: Bucket)
    requires k < |s| && !Missing(s[k]) && BucketOf(s[k].rarity) == Some(b)
    ensures Scheduled(s, k, now).computed.value.daysInOrder == Some(Elapsed(s[..k + 1], b))
  {
  }

  /** Three Common cards of 3, 5 and 2 days with an Epic card of 7 days among them. */
  lemma SumAllExample(now: int)
    ensures var s := [ComputedCard(Common, 3.0), ComputedCard(Epic, 7.0),
                      ComputedCard(Common, 5.0), ComputedCard(Rare, 2.0)];
      && FirstMissing(s) == 4
      && Scheduled(s, 0, now).computed.value.daysInOrder == Some(3.0)
      && Scheduled(s, 1, now).computed.value.daysInOrder == Some(7.0)
      && Scheduled(s, 2, now).computed.value.daysInOrder == Some(8.0)
      && Scheduled(s, 3, now).computed.value.daysInOrder == Some(10.0)
  {
    var s := [ComputedCard(Common, 3.0), ComputedCard(Epic, 7.0),
              ComputedCard(Common, 5.0), ComputedCard(Rare, 2.0)];
    assert s[..0] == [];
    assert DaysIn(s[0], Regular) == 3.0 && DaysIn(s[0], EpicOnly) == 0.0;
    assert DaysIn(s[1], Regular) == 0.0 && DaysIn(s[1], EpicOnly) == 7.0;
    assert DaysIn(s[2], Regular) == 5.0 && DaysIn(s[3], Regular) == 2.0;
    ElapsedStep(s, 0, Regular);
    ElapsedStep(s, 0, EpicOnly);
    ElapsedStep(s, 1, Regular);
    ElapsedStep(s, 1, EpicOnly);
    ElapsedStep(s, 2, Regular);
    ElapsedStep(s, 3, Regular);
    assert Elapsed(s[..1], Regular) == 3.0;
    assert Elapsed(s[..2], EpicOnly) == 7.0;
    assert Elapsed(s[..3], Regular) == 8.0;
    assert Elapsed(s[..4], Regular) == 10.0;
  }

  /** A card of the given rarity whose estimate says `days` days remain. */
  function ComputedCard(rarity: Rarity, days: real): CardEntry {
    CardEntry("card", 0, 0, rarity, Some(CardData(0, 0, 0.0, days, 0, None, None)))
  }

  /** After `compute_all` no card lacks an estimate and no day count is negative. */
  lemma EstimateAllIsSchedulable(s: seq<CardEntry>, arena: Option<Arena>, now: int)
    requires AllEstimable(s, arena)
    ensures FirstMissing(EstimateAll(s, arena, now)) == |s|
    ensures forall k, b :: 0 <= k < |s| ==> DaysIn(EstimateAll(s, arena, now)[k], b) >= 0.0
  {
    var t := EstimateAll(s, arena, now);
    forall k | 0 <= k < |s|
      ensures !Missing(t[k]) && (t[k].computed.Some? ==> t[k].computed.value.daysRemaining >= 0.0)
    {
      EstimateAllAt(s, arena, now, k);
    }
  }

  /**
   * Reordering a list in which every card has its estimate (as `sort_by` does)
   * leaves a list in which every card has its estimate, so `sum_all` after
   * `compute_all` and a sort never fails.
   */
  lemma ReorderKeepsEstimates(s: seq<CardEntry>, t: seq<CardEntry>)
    requires FirstMissing(s) == |s|
    requires multiset(s) == multiset(t)
    ensures FirstMissing(t) == |t|
  {
    forall k | 0 <= k < |t|
      ensures !Missing(t[k])
    {
      assert t[k] in multiset(s);
    }
  }
}
