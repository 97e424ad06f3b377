/**
 * The bug-hunter mini-game (src/components/BugHunter.tsx): a fixed rank
 * table and its lookup, the spawn geometry of one bug, and the component's
 * state machine (squash, load, cross-tab sync, respawn, timers).
 *
 * Time is never modelled: every timer callback and CSS `animationend` is an
 * explicit event method. `Math.random()` results are `real` parameters in
 * [0, 1); the viewport size is a pair of naturals.
 */
module BugHunter {
  import opened Wrappers
  import opened Js
  import opened Browser

  // ---------------------------------------------------------------------------
  // Ranks
  // ---------------------------------------------------------------------------

  /** One tier of the rank table (icon and colour class are presentation only). */
  datatype BugRank = BugRank(id: nat, name: string, minBugs: nat)

  const BugRanks: seq<BugRank> := [
    BugRank(1, "Junior Test Engineer", 1),
    BugRank(2, "Bug Reproduction Intern", 3),
    BugRank(3, "Flaky Test Whisperer", 7),
    BugRank(4, "Automation Script Goblin", 15),
    BugRank(5, "Regression Necromancer", 35),
    BugRank(6, "QA Chaos Wrangler", 80),
    BugRank(7, "Senior Defect Detective", 180),
    BugRank(8, "SDET of Doom Scenarios", 400),
    BugRank(9, "Principal Flaky Test Exorcist", 700),
    BugRank(10, "Legendary Production Firefighter", 1000)
  ]

  /** The storage key holding the decimal cumulative count. */
  const TotalKey := "bugHunter.totalBugsSquashed"

  predicate StrictlyAscending(ranks: seq<BugRank>) {
    forall i, j :: 0 <= i < j < |ranks| ==> ranks[i].minBugs < ranks[j].minBugs
  }

  /** The rank table: ten tiers with ids 1..10 in order, thresholds strictly ascending from 1. */
  lemma RankTableShape()
    ensures |BugRanks| == 10 && BugRanks[0].minBugs == 1 && BugRanks[9].minBugs == 1000
    ensures forall k :: 0 <= k < |BugRanks| ==> BugRanks[k].id == k + 1
    ensures StrictlyAscending(BugRanks)
  {
    forall i, j | 0 <= i < j < |BugRanks| ensures BugRanks[i].minBugs < BugRanks[j].minBugs {
      assert forall k :: 0 <= k < 9 ==> BugRanks[k].minBugs < BugRanks[k + 1].minBugs;
      AscendingStep(BugRanks, i, j);
    }
  }

  lemma {:induction false} AscendingStep(ranks: seq<BugRank>, i: int, j: int)
    requires 0 <= i < j < |ranks|
    requires forall k :: 0 <= k < |ranks| - 1 ==> ranks[k].minBugs < ranks[k + 1].minBugs
    ensures ranks[i].minBugs < ranks[j].minBugs
    decreases j - i
  {
    if i + 1 < j {
      AscendingStep(ranks, i + 1, j);
    }
  }

  /**
   * How many of the first `n` tiers a total qualifies for, counted from the
   * end: the length of the prefix ending at the last of them whose threshold
   * the total reaches. Every tier after it, up to `n`, is out of reach.
   */
  function QualifyingCount(ranks: seq<BugRank>, n: nat, total: int): (q: nat)
    requires n <= |ranks|
    ensures q <= n
  {
    if n == 0 then 0
    else if ranks[n - 1].minBugs <= total then n
    else QualifyingCount(ranks, n - 1, total)
  }

  /** The last tier counted is reached, and every tier after it is out of reach. */
  lemma {:induction false} QualifyingCountBounds(ranks: seq<BugRank>, n: nat, total: int)
    requires n <= |ranks|
    ensures QualifyingCount(ranks, n, total) > 0 ==> ranks[QualifyingCount(ranks, n, total) - 1].minBugs <= total
    ensures forall k :: QualifyingCount(ranks, n, total) <= k < n ==> total < ranks[k].minBugs
  {
    if n > 0 && total < ranks[n - 1].minBugs {
      QualifyingCountBounds(ranks, n - 1, total);
    }
  }

  /** A larger total never qualifies for fewer tiers. */
  lemma {:induction false} QualifyingCountMonotone(ranks: seq<BugRank>, n: nat, a: int, b: int)
    requires n <= |ranks| && a <= b
    ensures QualifyingCount(ranks, n, a) <= QualifyingCount(ranks, n, b)
  {
    if n > 0 && a < ranks[n - 1].minBugs {
      QualifyingCountMonotone(ranks, n - 1, a, b);
    }
  }

  /** In an ascending table the count is a split point: every tier before it is reached too. */
  lemma {:induction false} QualifyingCountSplits(ranks: seq<BugRank>, n: nat, total: int)
    requires n <= |ranks| && StrictlyAscending(ranks)
    ensures forall k :: 0 <= k < QualifyingCount(ranks, n, total) ==> ranks[k].minBugs <= total
  {
    if n > 0 && total < ranks[n - 1].minBugs {
      QualifyingCountSplits(ranks, n - 1, total);
    }
  }

  /** The rank a total earns in a table: the last tier it reaches, if any. */
  function RankIn(ranks: seq<BugRank>, total: int): Option<BugRank> {
    if total <= 0 then None
    else
      var n := QualifyingCount(ranks, |ranks|, total);
      if n == 0 then None else Some(ranks[n - 1])
  }

  /** The rank a total earns. */
  function RankFor(total: int): Option<BugRank> {
    RankIn(BugRanks, total)
  }

  /**
   * What `RankFor` means: none for a total of 0 or less, otherwise a tier of the
   * table whose threshold the total reaches while it falls short of the next tier's.
   */
  lemma RankForMeaning(total: int)
    ensures total <= 0 <==> RankFor(total) == None
    ensures RankFor(total).Some? ==>
      var r := RankFor(total).value;
      && 1 <= r.id <= |BugRanks| && BugRanks[r.id - 1] == r
      && r.minBugs <= total
      && (r.id < |BugRanks| ==> total < BugRanks[r.id].minBugs)
  {
    RankTableShape();
    QualifyingCountBounds(BugRanks, |BugRanks|, total);
    if total >= 1 {
      assert BugRanks[0].minBugs <= total;
    }
  }

  /** A rank's id, with 0 standing for "no rank". */
  function RankId(r: Option<BugRank>): nat {
    if r.Some? then r.value.id else 0
  }

  /** `getRankForTotal(total)`: scan the table, keep the last tier reached, stop at the first one missed. */
  method GetRankForTotal(total: int) returns (currentRank: Option<BugRank>)
    ensures currentRank == RankFor(total)
  {
    if total <= 0 {
      return None;
    }
    RankTableShape();
    currentRank := None;
    var i := 0;
    while i < |BugRanks|
      invariant 0 <= i <= |BugRanks|
      invariant forall k :: 0 <= k < i ==> BugRanks[k].minBugs <= total
      invariant currentRank == if i == 0 then None else Some(BugRanks[i - 1])
    {
      if total >= BugRanks[i].minBugs {
        currentRank := Some(BugRanks[i]);
      } else {
        break;
      }
      i := i + 1;
    }
    QualifyingCountSplits(BugRanks, |BugRanks|, total);
    QualifyingCountBounds(BugRanks, |BugRanks|, total);
    assert i == QualifyingCount(BugRanks, |BugRanks|, total);
  }

  /** More bugs never means a lower rank. */
  lemma RankMonotone(a: int, b: int)
    requires a <= b
    ensures RankId(RankFor(a)) <= RankId(RankFor(b))
  {
    RankTableShape();
    RankForMeaning(a);
    RankForMeaning(b);
    if a >= 1 {
      var ra, rb := RankFor(a).value, RankFor(b).value;
      if rb.id < ra.id {
        AscendingStep(BugRanks, rb.id, ra.id - 1);
      }
    }
  }

  /** Every total from 1 on has a rank, and 1000 or more is the top tier. */
  lemma RankTopTier(total: int)
    requires total >= 1000
    ensures RankFor(total).Some? && RankFor(total).value.id == 10
  {
    RankTableShape();
    RankForMeaning(total);
    var r := RankFor(total).value;
    if r.id < 10 {
      AscendingStep(BugRanks, r.id, 9);
    }
  }

  /** The celebration test: a rank exists and its id differs from the previously known one. */
  predicate IsRankUp(next: Option<BugRank>, previous: Option<BugRank>) {
    next.Some? && (previous.None? || next.value.id != previous.value.id)
  }

  /** `n` is the threshold of some tier. */
  predicate IsThreshold(n: int) {
    exists k :: 0 <= k < |BugRanks| && BugRanks[k].minBugs == n
  }

  /** In an ascending table, one more bug moves the split point exactly when it lands on a threshold. */
  lemma CountGrowsAtThreshold(ranks: seq<BugRank>, count: int)
    requires StrictlyAscending(ranks)
    ensures QualifyingCount(ranks, |ranks|, count) < QualifyingCount(ranks, |ranks|, count + 1) <==>
      exists k :: 0 <= k < |ranks| && ranks[k].minBugs == count + 1
  {
    var n0 := QualifyingCount(ranks, |ranks|, count);
    var n1 := QualifyingCount(ranks, |ranks|, count + 1);
    QualifyingCountSplits(ranks, |ranks|, count);
    QualifyingCountSplits(ranks, |ranks|, count + 1);
    QualifyingCountBounds(ranks, |ranks|, count);
    QualifyingCountBounds(ranks, |ranks|, count + 1);
    if n0 < n1 {
      assert ranks[n0].minBugs == count + 1;
    }
  }

  /** Going from `count` to `count + 1` unlocks a tier exactly when `count + 1` is one of the thresholds. */
  lemma RankUpAtThreshold(count: nat)
    ensures IsRankUp(RankFor(count + 1), RankFor(count)) <==> IsThreshold(count + 1)
  {
    RankTableShape();
    RankUpAtThresholdIn(BugRanks, count);
  }

  /** Tier `k` of the table has id `k + 1`. */
  predicate NumberedInOrder(ranks: seq<BugRank>) {
    forall k :: 0 <= k < |ranks| ==> ranks[k].id == k + 1
  }

  /** `RankUpAtThreshold` for any ascending table numbered in order. */
  lemma RankUpAtThresholdIn(ranks: seq<BugRank>, count: nat)
    requires StrictlyAscending(ranks) && NumberedInOrder(ranks) && (ranks != [] ==> ranks[0].minBugs >= 1)
    ensures IsRankUp(RankIn(ranks, count + 1), RankIn(ranks, count)) <==>
      exists k :: 0 <= k < |ranks| && ranks[k].minBugs == count + 1
  {
    var n0 := QualifyingCount(ranks, |ranks|, count);
    var n1 := QualifyingCount(ranks, |ranks|, count + 1);
    CountGrowsAtThreshold(ranks, count);
    QualifyingCountMonotone(ranks, |ranks|, count, count + 1);
    assert RankId(RankIn(ranks, count)) == n0 by {
      QualifyingCountBounds(ranks, |ranks|, count);
      if n0 > 0 {
        assert ranks[0].minBugs <= ranks[n0 - 1].minBugs;
      }
    }
    assert RankId(RankIn(ranks, count + 1)) == n1;
  }

  // ---------------------------------------------------------------------------
  // Spawn geometry
  // ---------------------------------------------------------------------------

  datatype Edge = Top | Right | Bottom | Left

  /** A point together with the edge it was generated for. */
  datatype EdgePosition = EdgePosition(x: real, y: real, edge: Edge)

  datatype Point = Point(x: real, y: real)

  /** How far outside the viewport a bug starts and ends, in pixels. */
  const Offscreen: real := 50.0

  /** A value `Math.random()` can return. */
  predicate IsRandom(r: real) {
    0.0 <= r < 1.0
  }

  /** The four `Math.random()` draws of one spawn, in the order the source makes them. */
  datatype SpawnDraws = SpawnDraws(edgeRoll: real, entryRoll: real, exitRoll: real, durationRoll: real)

  predicate ValidDraws(d: SpawnDraws) {
    IsRandom(d.edgeRoll) && IsRandom(d.entryRoll) && IsRandom(d.exitRoll) && IsRandom(d.durationRoll)
  }

  function Opposite(e: Edge): Edge {
    match e
    case Top => Bottom
    case Right => Left
    case Bottom => Top
    case Left => Right
  }

  /** `p` lies 50 px outside the viewport beyond edge `e`, within the span of that edge. */
  predicate OutsideEdge(p: Point, e: Edge, width: nat, height: nat) {
    match e
    case Top => p.y == -Offscreen && 0.0 <= p.x <= width as real
    case Bottom => p.y == height as real + Offscreen && 0.0 <= p.x <= width as real
    case Left => p.x == -Offscreen && 0.0 <= p.y <= height as real
    case Right => p.x == width as real + Offscreen && 0.0 <= p.y <= height as real
  }

  /** `Math.random() * size`: a coordinate along an edge of length `size`. */
  function Scaled(roll: real, size: nat): (v: real)
    requires IsRandom(roll)
    ensures 0.0 <= v <= size as real
  {
    ScaledBound(roll, size);
    roll * size as real
  }

  lemma {:induction false} ScaledBound(roll: real, size: nat)
    requires IsRandom(roll)
    ensures 0.0 <= roll * size as real <= size as real
  {
    if size > 0 {
      ScaledBound(roll, size - 1);
      assert roll * size as real == roll * (size - 1) as real + roll;
    }
  }

  /** `["top", "right", "bottom", "left"][Math.floor(Math.random() * 4)]`. */
  function EdgeFor(roll: real): (e: Edge)
    requires IsRandom(roll)
    ensures e == Top <==> roll < 0.25
    ensures e == Right <==> 0.25 <= roll < 0.5
    ensures e == Bottom <==> 0.5 <= roll < 0.75
    ensures e == Left <==> 0.75 <= roll
  {
    var i := (roll * 4.0).Floor;
    assert 0 <= i < 4;
    [Top, Right, Bottom, Left][i]
  }

  /** `getRandomEdgePosition()`: a point just outside a randomly chosen edge. */
  function RandomEdgePosition(edgeRoll: real, roll: real, width: nat, height: nat): (p: EdgePosition)
    requires IsRandom(edgeRoll) && IsRandom(roll)
    ensures p.edge == EdgeFor(edgeRoll)
    ensures OutsideEdge(Point(p.x, p.y), p.edge, width, height)
  {
    var alongX := Scaled(roll, width);
    var alongY := Scaled(roll, height);
    match EdgeFor(edgeRoll)
    case Top => EdgePosition(alongX, -Offscreen, Top)
    case Right => EdgePosition(width as real + Offscreen, alongY, Right)
    case Bottom => EdgePosition(alongX, height as real + Offscreen, Bottom)
    case Left => EdgePosition(-Offscreen, alongY, Left)
  }

  /** `getOppositeEdgePosition(edge)`: a point just outside the edge facing `edge`. */
  function OppositeEdgePosition(edge: Edge, roll: real, width: nat, height: nat): (p: Point)
    requires IsRandom(roll)
    ensures OutsideEdge(p, Opposite(edge), width, height)
  {
    var alongX := Scaled(roll, width);
    var alongY := Scaled(roll, height);
    match edge
    case Top => Point(alongX, height as real + Offscreen)
    case Right => Point(-Offscreen, alongY)
    case Bottom => Point(alongX, -Offscreen)
    case Left => Point(width as real + Offscreen, alongY)
  }

  /** The per-bug state the component renders. */
  datatype BugState = BugState(
    isVisible: bool,
    isSquashing: bool,
    startX: real,
    startY: real,
    endX: real,
    endY: real,
    duration: real,
    squashX: Option<real>,
    squashY: Option<real>)

  const HiddenBug := BugState(false, false, 0.0, 0.0, 0.0, 0.0, 0.0, None, None)

  /**
   * The state `spawnBug()` installs: visible, not squashing, entering just outside
   * one edge, leaving just outside the opposite one, travelling 10 to 15 seconds.
   */
  function SpawnedBug(d: SpawnDraws, width: nat, height: nat): (b: BugState)
    requires ValidDraws(d)
    ensures b.isVisible && !b.isSquashing && b.squashX == None && b.squashY == None
    ensures OutsideEdge(Point(b.startX, b.startY), EdgeFor(d.edgeRoll), width, height)
    ensures OutsideEdge(Point(b.endX, b.endY), Opposite(EdgeFor(d.edgeRoll)), width, height)
    ensures 10000.0 <= b.duration < 15000.0
  {
    var start := RandomEdgePosition(d.edgeRoll, d.entryRoll, width, height);
    var end := OppositeEdgePosition(start.edge, d.exitRoll, width, height);
    var duration := 10000.0 + d.durationRoll * 5000.0;
    BugState(true, false, start.x, start.y, end.x, end.y, duration, None, None)
  }

  // ---------------------------------------------------------------------------
  // Reading the persisted count
  // ---------------------------------------------------------------------------

  /** A stored count text counts only when it is non-empty and parses to a positive integer. */
  function ParsePositiveTotal(stored: Option<string>): (r: Option<int>)
    ensures r.Some? <==> stored.Some? && ParseInt(stored.value).Int? && ParseInt(stored.value).value > 0
    ensures r.Some? ==> r.value == ParseInt(stored.value).value && r.value > 0
  {
    if stored == None || stored.value == "" then None
    else
      match ParseInt(stored.value)
      case NaN => None
      case Int(n) => if n > 0 then Some(n) else None
  }

  /** The count in storage, when storage can be read and holds a positive integer. */
  function StoredTotal(storage: LocalStorage): (r: Option<int>)
    reads storage
    ensures r.Some? <==>
      (storage.available && TotalKey in storage.items && ParsePositiveTotal(Some(storage.items[TotalKey])).Some?)
    ensures r.Some? ==> r.value > 0 && r.value == ParsePositiveTotal(Some(storage.items[TotalKey])).value
  {
    match storage.GetItem(TotalKey)
    case Thrown => None
    case Normal(stored) => ParsePositiveTotal(stored)
  }

  /** A count written back after a squash is read back unchanged (same tab, next load, other tabs). */
  lemma WrittenTotalReadsBack(n: nat)
    requires n >= 1
    ensures ParsePositiveTotal(Some(DecimalString(n))) == Some(n)
  {
    ParseIntOfDecimalString(n);
  }

  /** Storage holding a count written by a squash yields that count. */
  lemma StoredTotalOfWritten(storage: LocalStorage, n: nat)
    requires n >= 1 && storage.available && TotalKey in storage.items && storage.items[TotalKey] == DecimalString(n)
    ensures StoredTotal(storage) == Some(n)
  {
    WrittenTotalReadsBack(n);
  }

  // ---------------------------------------------------------------------------
  // The count update of one squash
  // ---------------------------------------------------------------------------

  /**
   * The count, the previously known rank and the celebration: the state the
   * `setTotalBugsSquashed` updater of a squash reads and writes.
   */
  datatype Tally = Tally(
    total: int,
    previousRank: Option<BugRank>,
    unlockedRank: Option<BugRank>,
    isCelebrationOpen: bool,
    celebrationTimer: bool)

  /** The updater run on `base`, the stored total or else the in-memory one. */
  function AfterSquash(t: Tally, base: int): (after: Tally)
    ensures after.total == base + 1
  {
    var nextRank := RankFor(base + 1);
    if IsRankUp(nextRank, t.previousRank) then
      Tally(base + 1, nextRank, nextRank, true, true)
    else
      t.(total := base + 1, previousRank := nextRank)
  }

  /**
   * Storage after the updater writes `String(nextTotal)`: the write lands when
   * storage accepts writes; otherwise it throws and is swallowed.
   */
  function StorageAfterSquash(items: map<string, string>, accepted: bool, nextTotal: nat): map<string, string> {
    if accepted then items[TotalKey := DecimalString(nextTotal)] else items
  }

  /**
   * In a single tab (the stored count equals the in-memory one, whose rank is
   * the previously known rank) a squash counts one up and opens the
   * celebration exactly when the new count is a tier's threshold; otherwise the
   * celebration state is left as it was.
   */
  lemma SquashCelebratesAtThreshold(t: Tally)
    requires t.total >= 0 && t.previousRank == RankFor(t.total)
    ensures AfterSquash(t, t.total).total == t.total + 1
    ensures AfterSquash(t, t.total).previousRank == RankFor(t.total + 1)
    ensures IsThreshold(t.total + 1) ==>
      AfterSquash(t, t.total).isCelebrationOpen && AfterSquash(t, t.total).unlockedRank == RankFor(t.total + 1)
    ensures !IsThreshold(t.total + 1) ==>
      AfterSquash(t, t.total).isCelebrationOpen == t.isCelebrationOpen &&
      AfterSquash(t, t.total).unlockedRank == t.unlockedRank
  {
    var next := RankFor(t.total + 1);
    RankUpAtThreshold(t.total);
    if IsRankUp(next, t.previousRank) {
      assert AfterSquash(t, t.total) == Tally(t.total + 1, next, next, true, true);
    } else {
      assert AfterSquash(t, t.total) == t.(total := t.total + 1, previousRank := next);
    }
  }

  /**
   * The celebration follows the previously known rank, not the stored count:
   * memory holds 2 (rank 1) while storage already holds 3 (rank 2). The squash
   * counts 3 to 4, which stays in rank 2, yet it opens the celebration for rank 2.
   */
  lemma StaleRankCelebrates()
    ensures RankFor(3) == RankFor(4) && RankFor(2) != RankFor(3)
    ensures AfterSquash(Tally(2, RankFor(2), None, false, false), 3).isCelebrationOpen
    ensures AfterSquash(Tally(2, RankFor(2), None, false, false), 3).unlockedRank == RankFor(4)
  {
    assert RankFor(2) == Some(BugRanks[0]);
    assert RankFor(3) == Some(BugRanks[1]);
    assert RankFor(4) == Some(BugRanks[1]);
  }

  // ---------------------------------------------------------------------------
  // The component
  // ---------------------------------------------------------------------------

  /**
   * The component's state, its refs and its pending timers (as flags: a timer
   * callback is an event that only fires while its flag is set).
   */
  class Component {
    var bugState: BugState
    var showScoreAnimation: bool
    var showFloatingOne: bool
    var totalBugsSquashed: int
    var unlockedRank: Option<BugRank>
    var isCelebrationOpen: bool
    var previousRank: Option<BugRank>
    var hasSpawnedOnce: bool
    var scoreAnimationTimer: bool
    var floatingOneTimer: bool
    var squashTimer: bool
    var celebrationTimer: bool

    /**
     * The count is never negative, the previously known rank is always the rank
     * of the in-memory count, a squashing bug has its frozen position, and an
     * open celebration always has a rank to show.
     */
    ghost predicate Valid()
      reads this`totalBugsSquashed, this`previousRank, this`bugState, this`isCelebrationOpen, this`unlockedRank
    {
      && totalBugsSquashed >= 0
      && previousRank == RankFor(totalBugsSquashed)
      && (bugState.isSquashing ==> bugState.squashX.Some? && bugState.squashY.Some?)
      && (isCelebrationOpen ==> unlockedRank.Some?)
    }

    /** The initial render: `useState` / `useRef` defaults. */
    constructor ()
      ensures Valid()
      ensures bugState == HiddenBug && totalBugsSquashed == 0 && previousRank == None
      ensures unlockedRank == None && !isCelebrationOpen && !hasSpawnedOnce
      ensures !showScoreAnimation && !showFloatingOne
      ensures !scoreAnimationTimer && !floatingOneTimer && !squashTimer && !celebrationTimer
    {
      bugState := HiddenBug;
      showScoreAnimation, showFloatingOne := false, false;
      totalBugsSquashed := 0;
      unlockedRank, isCelebrationOpen := None, false;
      previousRank := None;
      hasSpawnedOnce := false;
      scoreAnimationTimer, floatingOneTimer, squashTimer, celebrationTimer := false, false, false, false;
    }

    /** `spawnBug()`. */
    method SpawnBug(draws: SpawnDraws, width: nat, height: nat)
      requires Valid() && ValidDraws(draws)
      modifies this`bugState
      ensures Valid()
      ensures bugState == SpawnedBug(draws, width, height)
    {
      bugState := SpawnedBug(draws, width, height);
    }

    /** The part of the state a squash's count update touches. */
    function Counts(): Tally
      reads this`totalBugsSquashed, this`previousRank, this`unlockedRank, this`isCelebrationOpen, this`celebrationTimer
    {
      Tally(totalBugsSquashed, previousRank, unlockedRank, isCelebrationOpen, celebrationTimer)
    }

    /**
     * What a squash does to an idle bug: the count update, counted from the
     * stored total when there is one and from the in-memory total otherwise,
     * with the new count written back; the bug frozen where it was hit; the
     * score animation and the floating "+1" shown; the three timers armed.
     */
    twostate predicate SquashEffect(storage: LocalStorage, base: int, squashX: real, squashY: real)
      reads this, storage
    {
      && Counts() == AfterSquash(old(Counts()), base)
      && storage.available == old(storage.available) && storage.writable == old(storage.writable)
      && (base + 1 >= 0 &&
          storage.items == StorageAfterSquash(old(storage.items), storage.available && storage.writable, base + 1))
      && bugState == old(bugState).(isSquashing := true, squashX := Some(squashX), squashY := Some(squashY))
      && showScoreAnimation && showFloatingOne
      && scoreAnimationTimer && floatingOneTimer && squashTimer
      && hasSpawnedOnce == old(hasSpawnedOnce)
    }

    /**
     * The `setTotalBugsSquashed` updater of `handleBugClick`, run on `baseTotal`:
     * the total read from storage, or else the in-memory one.
     */
    method UpdateTotal(storage: LocalStorage, baseTotal: int)
      requires Valid() && baseTotal >= 0
      modifies this`totalBugsSquashed, this`previousRank, this`unlockedRank, this`isCelebrationOpen,
        this`celebrationTimer, storage
      ensures Valid()
      ensures Counts() == AfterSquash(old(Counts()), baseTotal)
      ensures storage.available == old(storage.available) && storage.writable == old(storage.writable)
      ensures storage.items ==
        StorageAfterSquash(old(storage.items), storage.available && storage.writable, baseTotal + 1)
    {
      var nextTotal := baseTotal + 1;
      var nextRank := GetRankForTotal(nextTotal);
      Celebrate(nextRank);
      previousRank := nextRank;
      WriteTotal(storage, nextTotal);
      totalBugsSquashed := nextTotal;
    }

    /** Write `String(nextTotal)` back to storage; a failing write is swallowed. */
    static method WriteTotal(storage: LocalStorage, nextTotal: nat)
      modifies storage
      ensures storage.available == old(storage.available) && storage.writable == old(storage.writable)
      ensures storage.items == StorageAfterSquash(old(storage.items), storage.available && storage.writable, nextTotal)
    {
      var _ := storage.SetItem(TotalKey, DecimalString(nextTotal));
    }

    /** Open the celebration for `nextRank` when its id differs from the previously known rank's. */
    method Celebrate(nextRank: Option<BugRank>)
      modifies this`unlockedRank, this`isCelebrationOpen, this`celebrationTimer
      ensures IsRankUp(nextRank, previousRank) ==> unlockedRank == nextRank && isCelebrationOpen && celebrationTimer
      ensures !IsRankUp(nextRank, previousRank) ==>
        unlockedRank == old(unlockedRank) && isCelebrationOpen == old(isCelebrationOpen) &&
        celebrationTimer == old(celebrationTimer)
    {
      if IsRankUp(nextRank, previousRank) {
        unlockedRank := nextRank;
        isCelebrationOpen := true;
        celebrationTimer := true;
      }
    }

    /**
     * `handleBugClick(event)`: ignored while the bug is already squashing.
     * `squashX`, `squashY` are the bug's on-screen position at the click.
     */
    method HandleBugClick(storage: LocalStorage, squashX: real, squashY: real)
      requires Valid() && bugState.isVisible
      modifies this, storage
      ensures Valid()
      ensures old(bugState.isSquashing) ==> unchanged(this) && unchanged(storage)
      ensures !old(bugState.isSquashing) ==>
        SquashEffect(storage, old(StoredTotal(storage)).GetOr(old(totalBugsSquashed)), squashX, squashY)
    {
      if bugState.isSquashing {
        return;
      }
      var latestTotalFromStorage := StoredTotal(storage);
      Squash(storage, latestTotalFromStorage, squashX, squashY);
    }

    /** The body of `handleBugClick` past its guard, given the total read from storage. */
    method Squash(storage: LocalStorage, latestTotalFromStorage: Option<int>, squashX: real, squashY: real)
      requires Valid()
      requires latestTotalFromStorage.Some? ==> latestTotalFromStorage.value > 0
      modifies this, storage
      ensures Valid()
      ensures SquashEffect(storage, latestTotalFromStorage.GetOr(old(totalBugsSquashed)), squashX, squashY)
    {
      // React batches the state updates of one handler, so the updater running
      // first and the display updates after it describes the same commit.
      UpdateTotal(storage, latestTotalFromStorage.GetOr(totalBugsSquashed));
      ghost var counted := Counts();
      ShowSquash(squashX, squashY);
      assert Counts() == counted;
    }

    /**
     * The display side of a squash: the score animation and the floating "+1",
     * the bug frozen where it was hit, and their 400 ms, 1000 ms and 300 ms timers.
     */
    method ShowSquash(squashX: real, squashY: real)
      requires Valid()
      modifies this`showScoreAnimation, this`showFloatingOne, this`scoreAnimationTimer, this`floatingOneTimer,
        this`bugState, this`squashTimer
      ensures Valid()
      ensures showScoreAnimation && showFloatingOne && scoreAnimationTimer && floatingOneTimer && squashTimer
      ensures bugState == old(bugState).(isSquashing := true, squashX := Some(squashX), squashY := Some(squashY))
    {
      showScoreAnimation, showFloatingOne := true, true;
      scoreAnimationTimer, floatingOneTimer := true, true;
      bugState := bugState.(isSquashing := true, squashX := Some(squashX), squashY := Some(squashY));
      squashTimer := true;
    }

    /** The button's `onKeyDown`: Enter and Space squash like a click; other keys do nothing. */
    method HandleKeyDown(storage: LocalStorage, key: string, squashX: real, squashY: real)
      requires Valid() && bugState.isVisible
      modifies this, storage
      ensures Valid()
      ensures (key != "Enter" && key != " ") || old(bugState.isSquashing) ==> unchanged(this) && unchanged(storage)
      ensures (key == "Enter" || key == " ") && !old(bugState.isSquashing) ==>
        SquashEffect(storage, old(StoredTotal(storage)).GetOr(old(totalBugsSquashed)), squashX, squashY)
    {
      if key == "Enter" || key == " " {
        HandleBugClick(storage, squashX, squashY);
      }
    }

    /**
     * The mount effect: adopt a positive stored count and its rank without any
     * celebration, then spawn the first bug.
     */
    method LoadEffect(storage: LocalStorage, draws: SpawnDraws, width: nat, height: nat)
      requires Valid() && ValidDraws(draws)
      modifies this`totalBugsSquashed, this`previousRank, this`bugState
      ensures Valid()
      ensures totalBugsSquashed == old(StoredTotal(storage)).GetOr(old(totalBugsSquashed))
      ensures bugState == SpawnedBug(draws, width, height)
    {
      var stored := StoredTotal(storage);
      if stored.Some? {
        var initialRank := GetRankForTotal(stored.value);
        totalBugsSquashed := stored.value;
        previousRank := initialRank;
      }
      SpawnBug(draws, width, height);
    }

    /**
     * `handleStorage(event)` for a `storage` event from another tab: only the
     * count's key matters; a missing, empty, unparseable or non-positive value
     * resets to zero, anything else is adopted. Never celebrates.
     */
    method HandleStorage(key: Option<string>, newValue: Option<string>)
      requires Valid()
      modifies this`totalBugsSquashed, this`previousRank
      ensures Valid()
      ensures key != Some(TotalKey) ==> totalBugsSquashed == old(totalBugsSquashed)
      ensures key == Some(TotalKey) ==> totalBugsSquashed == ParsePositiveTotal(newValue).GetOr(0)
    {
      if key != Some(TotalKey) {
        return;
      }
      var parsedTotal := ParsePositiveTotal(newValue);
      if parsedTotal.None? {
        totalBugsSquashed := 0;
        previousRank := None;
        return;
      }
      totalBugsSquashed := parsedTotal.value;
      previousRank := GetRankForTotal(parsedTotal.value);
    }

    /**
     * The respawn effect, run after each commit that changed `isVisible`:
     * spawn when the bug has just gone from visible to invisible, then remember
     * the committed visibility.
     */
    method VisibilityEffect(draws: SpawnDraws, width: nat, height: nat)
      requires Valid() && ValidDraws(draws)
      modifies this`bugState, this`hasSpawnedOnce
      ensures Valid()
      ensures hasSpawnedOnce == old(bugState.isVisible)
      ensures bugState ==
        if !old(bugState.isVisible) && old(hasSpawnedOnce) then SpawnedBug(draws, width, height)
        else old(bugState)
    {
      var isVisible := bugState.isVisible;
      if !isVisible && hasSpawnedOnce {
        SpawnBug(draws, width, height);
      }
      hasSpawnedOnce := isVisible;
    }

    /** `onAnimationEnd`: the crawl finished; hide the bug unless it is gone or being squashed. */
    method OnAnimationEnd()
      requires Valid()
      modifies this`bugState
      ensures Valid()
      ensures bugState ==
        if old(bugState.isVisible) && !old(bugState.isSquashing) then old(bugState).(isVisible := false)
        else old(bugState)
    {
      if !bugState.isVisible || bugState.isSquashing {
        return;
      }
      bugState := bugState.(isVisible := false);
    }

    /** The 300 ms squash timer: remove the squashed bug (only `isVisible` changes). */
    method FireSquashTimer()
      requires Valid()
      modifies this`bugState, this`squashTimer
      ensures Valid()
      ensures !squashTimer
      ensures bugState == if old(squashTimer) then old(bugState).(isVisible := false) else old(bugState)
    {
      if squashTimer {
        bugState := bugState.(isVisible := false);
        squashTimer := false;
      }
    }

    /** The 400 ms timer ending the score animation. */
    method FireScoreAnimationTimer()
      modifies this`showScoreAnimation, this`scoreAnimationTimer
      ensures !scoreAnimationTimer
      ensures showScoreAnimation == (old(showScoreAnimation) && !old(scoreAnimationTimer))
    {
      if scoreAnimationTimer {
        showScoreAnimation := false;
        scoreAnimationTimer := false;
      }
    }

    /** The 1000 ms timer ending the floating "+1". */
    method FireFloatingOneTimer()
      modifies this`showFloatingOne, this`floatingOneTimer
      ensures !floatingOneTimer
      ensures showFloatingOne == (old(showFloatingOne) && !old(floatingOneTimer))
    {
      if floatingOneTimer {
        showFloatingOne := false;
        floatingOneTimer := false;
      }
    }

    /** The 5000 ms timer dismissing the celebration. */
    method FireCelebrationTimer()
      requires Valid()
      modifies this`isCelebrationOpen, this`unlockedRank, this`celebrationTimer
      ensures Valid()
      ensures !celebrationTimer
      ensures old(celebrationTimer) ==> !isCelebrationOpen && unlockedRank == None
      ensures !old(celebrationTimer) ==> isCelebrationOpen == old(isCelebrationOpen) && unlockedRank == old(unlockedRank)
    {
      if celebrationTimer {
        isCelebrationOpen := false;
        unlockedRank := None;
        celebrationTimer := false;
      }
    }

    /**
     * The dialog's `onOpenChange(open)`; the dialog is mounted only while a rank
     * is unlocked. Closing cancels the dismiss timer and forgets the rank.
     */
    method OnCelebrationOpenChange(open: bool)
      requires Valid()
      modifies this`isCelebrationOpen, this`unlockedRank, this`celebrationTimer
      ensures Valid()
      ensures old(unlockedRank) == None ==> unchanged(this)
      ensures old(unlockedRank) != None && !open ==> !isCelebrationOpen && unlockedRank == None && !celebrationTimer
      ensures old(unlockedRank) != None && open ==>
        isCelebrationOpen && unlockedRank == old(unlockedRank) && celebrationTimer == old(celebrationTimer)
    {
      if unlockedRank == None {
        return;
      }
      if !open {
        celebrationTimer := false;
        isCelebrationOpen := false;
        unlockedRank := None;
      } else {
        isCelebrationOpen := true;
      }
    }

    /** The unmount cleanup: cancel every pending timer. */
    method Unmount()
      modifies this`scoreAnimationTimer, this`floatingOneTimer, this`squashTimer, this`celebrationTimer
      ensures !scoreAnimationTimer && !floatingOneTimer && !squashTimer && !celebrationTimer
    {
      scoreAnimationTimer, floatingOneTimer, squashTimer, celebrationTimer := false, false, false, false;
    }
  }

  /**
   * Two tabs both loaded a count of `n`; tab A's squash stored `n + 1` without
   * tab B seeing the event. Tab B's squash counts from storage: it shows and
   * writes `n + 2`, not `n + 1`.
   */
  method TwoTabsSquash(n: nat, draws: SpawnDraws) returns (loaded: int, counted: int, written: string)
    requires n >= 1 && ValidDraws(draws)
    ensures loaded == n && counted == n + 2 && written == DecimalString(n + 2)
  {
    var storage := new LocalStorage(map[TotalKey := DecimalString(n)], true, true);
    var tabB := new Component();
    StoredTotalOfWritten(storage, n);
    tabB.LoadEffect(storage, draws, 800, 600);
    loaded := tabB.totalBugsSquashed;
    storage.items := storage.items[TotalKey := DecimalString(n + 1)];
    StoredTotalOfWritten(storage, n + 1);
    tabB.HandleBugClick(storage, 10.0, 20.0);
    counted := tabB.totalBugsSquashed;
    written := storage.items[TotalKey];
  }

  /**
   * Storage that can be read but not written (its quota is used up) and holds
   * `n`: each squash counts from the stored `n` and shows `n + 1`, and its write
   * throws and is swallowed, so storage keeps `n` and the next squash shows
   * `n + 1` again.
   */
  method FullStorageSquashes(n: nat, draws: SpawnDraws) returns (loaded: int, first: int, second: int, stored: string)
    requires n >= 1 && ValidDraws(draws)
    ensures loaded == n && first == n + 1 && second == n + 1 && stored == DecimalString(n)
  {
    var storage := new LocalStorage(map[TotalKey := DecimalString(n)], true, false);
    var tab := new Component();
    StoredTotalOfWritten(storage, n);
    tab.LoadEffect(storage, draws, 800, 600);
    loaded := tab.totalBugsSquashed;
    // The commit showing the first bug.
    tab.VisibilityEffect(draws, 800, 600);
    tab.HandleBugClick(storage, 10.0, 20.0);
    first := tab.totalBugsSquashed;
    tab.FireSquashTimer();
    // The commit hiding the squashed bug spawns the next one.
    tab.VisibilityEffect(draws, 800, 600);
    StoredTotalOfWritten(storage, n);
    tab.HandleBugClick(storage, 30.0, 40.0);
    second := tab.totalBugsSquashed;
    stored := storage.items[TotalKey];
  }
}
