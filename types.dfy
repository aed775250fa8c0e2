/**
 * The game data of src/logic/types.rs: card rarities, the fourteen arenas in
 * their declared order, and the per-arena lookup tables for request sizes,
 * donation sizes and daily donation limits, plus the weekly request frequency
 * per rarity.
 */
module Types {

  datatype Rarity = Common | Rare | Epic | Legendary

  /** The arenas in declaration order; `TrainingCamp` has discriminant 0. */
  datatype Arena =
    | TrainingCamp
    | GoblinStadium
    | BonePit
    | BarbarianBowl
    | PekkasPlayhouse
    | SpellValley
    | BuildersWorkshop
    | RoyalArena
    | FrozenPeak
    | JungleArena
    | HogMountain
    | ElectroValley
    | SpookyTown
    | LegendaryArena

  /** The largest number of cards of each class one request may yield. */
  datatype RequestSize = RequestSize(common: nat, rare: nat)

  /** The largest number of cards of each class one donation may give. */
  datatype DonationSize = DonationSize(common: nat, rare: nat)

  /** Requests per week for each rarity, as floating-point counts in the source. */
  datatype RequestFrequency = RequestFrequency(common: real, rare: real, epic: real, legendary: real)

  /** The enum discriminant of an arena: its position in the declared order. */
  function Rank(arena: Arena): (r: nat)
    ensures r < 14
    ensures r == 0 <==> arena == TrainingCamp
    ensures r == 13 <==> arena == LegendaryArena
  {
    match arena
    case TrainingCamp => 0
    case GoblinStadium => 1
    case BonePit => 2
    case BarbarianBowl => 3
    case PekkasPlayhouse => 4
    case SpellValley => 5
    case BuildersWorkshop => 6
    case RoyalArena => 7
    case FrozenPeak => 8
    case JungleArena => 9
    case HogMountain => 10
    case ElectroValley => 11
    case SpookyTown => 12
    case LegendaryArena => 13
  }

  /** Distinct arenas have distinct positions, so `Rank` orders the arenas totally. */
  lemma RankInjective(a: Arena, b: Arena)
    ensures Rank(a) == Rank(b) ==> a == b
  {
  }

  /**
   * The tier an arena belongs to: the arenas come in groups of three after the
   * training camp, and the last group (from HogMountain on) has four.  This is a
   * closed form independent of the tables; the tables are proved to follow it.
   */
  function Tier(arena: Arena): (t: nat)
    ensures t <= 4
    ensures t == 0 <==> arena == TrainingCamp
  {
    var g := (Rank(arena) + 2) / 3;
    if g < 4 then g else 4
  }

  /** Tiers never decrease along the declared arena order. */
  lemma TierMonotone(a: Arena, b: Arena)
    requires Rank(a) <= Rank(b)
    ensures Tier(a) <= Tier(b)
  {
  }

  /** The daily donation limit of an arena. */
  function GetDonationLimit(arena: Arena): (limit: nat)
    ensures limit in {0, 90, 180, 270, 360}
    ensures limit == 0 <==> arena == TrainingCamp
  {
    match arena
    case TrainingCamp => 0
    case GoblinStadium => 90
    case BonePit => 90
    case BarbarianBowl => 90
    case PekkasPlayhouse => 180
    case SpellValley => 180
    case BuildersWorkshop => 180
    case RoyalArena => 270
    case FrozenPeak => 270
    case JungleArena => 270
    case HogMountain => 360
    case ElectroValley => 360
    case SpookyTown => 360
    case LegendaryArena => 360
  }

  /** The donation size limits of an arena. */
  function GetDonationSize(arena: Arena): (size: DonationSize)
    ensures size.rare == 0 <==> arena == TrainingCamp
    ensures arena != TrainingCamp ==> size.rare == 1
    ensures size.common <= 8
    ensures size.common == 0 <==> arena == TrainingCamp
  {
    match arena
    case TrainingCamp => DonationSize(0, 0)
    case GoblinStadium => DonationSize(1, 1)
    case BonePit => DonationSize(2, 1)
    case BarbarianBowl => DonationSize(2, 1)
    case PekkasPlayhouse => DonationSize(4, 1)
    case SpellValley => DonationSize(4, 1)
    case BuildersWorkshop => DonationSize(4, 1)
    case RoyalArena => DonationSize(6, 1)
    case FrozenPeak => DonationSize(6, 1)
    case JungleArena => DonationSize(6, 1)
    case HogMountain => DonationSize(8, 1)
    case ElectroValley => DonationSize(8, 1)
    case SpookyTown => DonationSize(8, 1)
    case LegendaryArena => DonationSize(8, 1)
  }

  /** The request size limits of an arena. */
  function GetRequestSize(arena: Arena): (size: RequestSize)
    ensures size == RequestSize(0, 0) <==> arena == TrainingCamp
    ensures arena != TrainingCamp ==> 1 <= size.rare <= 4 && size.common == 10 * size.rare
  {
    match arena
    case TrainingCamp => RequestSize(0, 0)
    case GoblinStadium | BonePit | BarbarianBowl => RequestSize(10, 1)
    case PekkasPlayhouse | SpellValley | BuildersWorkshop => RequestSize(20, 2)
    case RoyalArena | FrozenPeak | JungleArena => RequestSize(30, 3)
    case HogMountain | ElectroValley | SpookyTown | LegendaryArena => RequestSize(40, 4)
  }

  /** Requests per week: six a day for three days plus two, and one epic request. */
  const REQUEST_FREQUENCY: RequestFrequency :=
    RequestFrequency((6 * 3 + 2) as real, (6 * 3 + 2) as real, 1 as real, 0 as real)

  /** The weekly request frequencies have the values the game allots. */
  lemma RequestFrequencyValues()
    ensures REQUEST_FREQUENCY.common == REQUEST_FREQUENCY.rare == 20.0
    ensures REQUEST_FREQUENCY.epic == 1.0
    ensures REQUEST_FREQUENCY.legendary == 0.0
  {
  }

  /** Every table is a function of the arena's tier alone, except GoblinStadium's common donation size. */
  lemma TablesFollowTier(arena: Arena)
    ensures GetRequestSize(arena) == RequestSize(10 * Tier(arena), Tier(arena))
    ensures GetDonationLimit(arena) == 90 * Tier(arena)
    ensures GetDonationSize(arena).rare == (if Tier(arena) == 0 then 0 else 1)
    ensures GetDonationSize(arena).common == (if arena == GoblinStadium then 1 else 2 * Tier(arena))
  {
    match arena
    case TrainingCamp =>
    case GoblinStadium =>
    case BonePit =>
    case BarbarianBowl =>
    case PekkasPlayhouse =>
    case SpellValley =>
    case BuildersWorkshop =>
    case RoyalArena =>
    case FrozenPeak =>
    case JungleArena =>
    case HogMountain =>
    case ElectroValley =>
    case SpookyTown =>
    case LegendaryArena =>
  }

  /** Both request sizes are non-decreasing along the declared arena order. */
  lemma RequestSizeMonotone(a: Arena, b: Arena)
    requires Rank(a) <= Rank(b)
    ensures GetRequestSize(a).common <= GetRequestSize(b).common
    ensures GetRequestSize(a).rare <= GetRequestSize(b).rare
  {
    TablesFollowTier(a);
    TablesFollowTier(b);
    TierMonotone(a, b);
  }

  /** The daily donation limit is non-decreasing along the declared arena order. */
  lemma DonationLimitMonotone(a: Arena, b: Arena)
    requires Rank(a) <= Rank(b)
    ensures GetDonationLimit(a) <= GetDonationLimit(b)
  {
    TablesFollowTier(a);
    TablesFollowTier(b);
    TierMonotone(a, b);
  }

  /** Both donation sizes are non-decreasing along the declared arena order. */
  lemma DonationSizeMonotone(a: Arena, b: Arena)
    requires Rank(a) <= Rank(b)
    ensures GetDonationSize(a).common <= GetDonationSize(b).common
    ensures GetDonationSize(a).rare <= GetDonationSize(b).rare
  {
    TablesFollowTier(a);
    TablesFollowTier(b);
    TierMonotone(a, b);
  }
}
