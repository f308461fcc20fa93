/** The capacity constants and the size label shown for an event (packages/shared/src/types.ts). */
module SizeLabel {

  import opened Wrappers

  const DEFAULT_CAPACITY: int := 6
  const SMALL_GROUP_MAX: int := 6
  const MEDIUM_GROUP_MAX: int := 15
  const LARGE_GROUP_MIN: int := 16

  datatype EventSizeLabel = Small | Medium | Large | Unlimited

  /** The label for a capacity; `None` is the unlimited (null) capacity. */
  function GetEventSizeLabel(capacity: Option<int>): (size: EventSizeLabel)
    ensures size == Unlimited <==> capacity.None?
  {
    match capacity
    case None => Unlimited
    case Some(c) =>
      if c <= SMALL_GROUP_MAX then Small
      else if c <= MEDIUM_GROUP_MAX then Medium
      else Large
  }

  /** Position of a bounded label in the order small < medium < large. */
  function Rank(size: EventSizeLabel): nat
    requires size != Unlimited
  {
    match size
    case Small => 0
    case Medium => 1
    case Large => 2
  }

  /**
   * Every integer capacity lands in exactly one band: up to SMALL_GROUP_MAX
   * (zero and negatives included) is small, up to MEDIUM_GROUP_MAX is medium,
   * and from LARGE_GROUP_MIN on is large.
   */
  lemma SizeBands(c: int)
    ensures GetEventSizeLabel(Some(c)) == Small <==> c <= SMALL_GROUP_MAX
    ensures GetEventSizeLabel(Some(c)) == Medium <==> SMALL_GROUP_MAX < c <= MEDIUM_GROUP_MAX
    ensures GetEventSizeLabel(Some(c)) == Large <==> LARGE_GROUP_MIN <= c
    ensures GetEventSizeLabel(Some(c)) != Unlimited
  {
  }

  /** The large band starts right after the medium band ends, so the bands leave no gap. */
  lemma BandsAreContiguous()
    ensures LARGE_GROUP_MIN == MEDIUM_GROUP_MAX + 1
    ensures SMALL_GROUP_MAX < MEDIUM_GROUP_MAX
  {
  }

  /** A larger capacity never gets a smaller label. */
  lemma LabelMonotonic(c1: int, c2: int)
    requires c1 <= c2
    ensures Rank(GetEventSizeLabel(Some(c1))) <= Rank(GetEventSizeLabel(Some(c2)))
  {
  }

  /** An event created with the default capacity is a small group. */
  lemma DefaultCapacityIsSmall()
    ensures GetEventSizeLabel(Some(DEFAULT_CAPACITY)) == Small
  {
  }
}
