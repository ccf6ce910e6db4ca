/** Division with a variable divisor, which the solver needs help with. */
module Arithmetic {

  lemma MulSign(d: int, m: int)
    requires 0 < m
    ensures (1 <= d ==> m <= d * m) && (0 <= d ==> 0 <= d * m) && (d <= -1 ==> d * m <= -m)
  {
  }

  lemma MulSub(i: int, j: int, m: int)
    ensures i * m - j * m == (i - j) * m
  {
  }

  lemma DivModUnique(a: int, q: int, r: int, m: int)
    requires 0 < m && 0 <= r < m && a == q * m + r
    ensures a / m == q && a % m == r
  {
    assert (q - a / m) * m == a % m - r;
    MulSign(q - a / m, m);
  }

  /** Bounds on a quotient from bounds on the dividend. */
  lemma DivBetween(a: int, lo: int, hi: int, m: int)
    requires 0 < m && lo * m <= a < hi * m
    ensures lo <= a / m < hi
  {
    var q := a / m;
    assert a == q * m + a % m;
    assert (q - hi) * m == q * m - hi * m && (q - lo) * m == q * m - lo * m;
    MulSign(q - hi, m);
    MulSign(q - lo, m);
  }

  /** The cell of the regular grid through `origin` that holds `x` starts here. */
  function CellStart(origin: int, width: int, x: int): int
    requires 0 < width
  {
    x - (x - origin) % width
  }

  /** The cells partition the integers: each holds its own point, and two points share a cell exactly when
      one lies in the other's. */
  lemma CellsPartition(origin: int, width: int, x: int, y: int)
    requires 0 < width
    ensures CellStart(origin, width, x) <= x < CellStart(origin, width, x) + width
    ensures CellStart(origin, width, x) <= y < CellStart(origin, width, x) + width
      <==> CellStart(origin, width, y) == CellStart(origin, width, x)
  {
    var s := CellStart(origin, width, x);
    if s <= y < s + width {
      var q := (x - origin) / width;
      assert y - origin == q * width + (y - s);
      DivModUnique(y - origin, q, y - s, width);
    }
  }

  /** A point `k` cells and a bit away from the origin. */
  lemma CellAt(origin: int, width: int, k: int, r: int)
    requires 0 < width && 0 <= r < width
    ensures CellStart(origin, width, origin + k * width + r) == origin + k * width
  {
    DivModUnique(k * width + r, k, r, width);
  }

  /** One cell further. */
  lemma NextCell(origin: int, width: int, x: int)
    requires 0 < width
    ensures CellStart(origin, width, x + width) == CellStart(origin, width, x) + width
  {
    var q, r := (x - origin) / width, (x - origin) % width;
    assert x + width - origin == (q + 1) * width + r;
    DivModUnique(x + width - origin, q + 1, r, width);
  }

  /** The cell of `x` is a whole number of cells from the origin. */
  lemma CellIndex(origin: int, width: int, x: int) returns (k: int)
    requires 0 < width
    ensures CellStart(origin, width, x) == origin + k * width
  {
    k := (x - origin) / width;
  }
}

/** Epochs, cycles and testing days (compute_horde/compute_horde/subtensor.py). */
module Calendar {
  import opened Arithmetic

  const REFERENCE_BLOCK_IN_PEAK_CYCLE := 1000
  const CYCLES_IN_TESTING_DAY := 10

  datatype Range = Range(start: int, stop: int) {
    predicate Contains(block: int) {
      start <= block < stop
    }
  }

  function GetEpochContainingBlock(block: int, netuid: int, tempo: int): Range
    requires tempo > 0
  {
    var interval := tempo + 1;
    var nextEpoch := block + tempo - (block + netuid + 1) % interval;
    if nextEpoch == block then Range(nextEpoch, nextEpoch + interval)
    else Range(nextEpoch - interval, nextEpoch)
  }

  function GetCycleContainingBlock(block: int, netuid: int, tempo: int): Range
    requires tempo > 0
  {
    var veryFirst := GetEpochContainingBlock(0, netuid, tempo);
    var epoch := GetEpochContainingBlock(block, netuid, tempo);
    if ((epoch.start - veryFirst.start) / (tempo + 1)) % 2 != 0
    then Range(epoch.start - (tempo + 1), epoch.stop)
    else Range(epoch.start, epoch.stop + (tempo + 1))
  }

  function GetPeakCycle(block: int, netuid: int, tempo: int): Range
    requires tempo > 0
  {
    var day := 2 * (tempo + 1) * CYCLES_IN_TESTING_DAY;
    var reference := GetCycleContainingBlock(REFERENCE_BLOCK_IN_PEAK_CYCLE, netuid, tempo);
    GetCycleContainingBlock(block - (block - reference.start) % day, netuid, tempo)
  }

  /** The branching code is a regular grid: epochs start where (block + netuid + 2) is a multiple of
      tempo + 1. */
  lemma EpochClosedForm(block: int, netuid: int, tempo: int)
    requires tempo > 0
    ensures
      var start := block - (block + netuid + 2) % (tempo + 1);
      && GetEpochContainingBlock(block, netuid, tempo) == Range(start, start + tempo + 1)
      && start == CellStart(-netuid - 2, tempo + 1, block)
  {
    var m := tempo + 1;
    var a := block + netuid + 1;
    var q, r := a / m, a % m;
    if r == tempo {
      assert a + 1 == (q + 1) * m + 0;
      DivModUnique(a + 1, q + 1, 0, m);
    } else {
      DivModUnique(a + 1, q, r + 1, m);
    }
  }

  /** Epochs are non-empty, hold their block, and are the same for two blocks exactly when one holds the
      other. */
  lemma EpochsPartition(x: int, y: int, netuid: int, tempo: int)
    requires tempo > 0
    ensures GetEpochContainingBlock(x, netuid, tempo).Contains(x)
    ensures GetEpochContainingBlock(x, netuid, tempo).Contains(y)
      <==> GetEpochContainingBlock(y, netuid, tempo) == GetEpochContainingBlock(x, netuid, tempo)
  {
    EpochClosedForm(x, netuid, tempo);
    EpochClosedForm(y, netuid, tempo);
    CellsPartition(-netuid - 2, tempo + 1, x, y);
  }

  /** An epoch starts a whole number of epochs after the very first one. */
  lemma EpochDistance(block: int, netuid: int, tempo: int) returns (d: int)
    requires tempo > 0
    ensures
      var epoch, first := GetEpochContainingBlock(block, netuid, tempo), GetEpochContainingBlock(0, netuid, tempo).start;
      && epoch.start == first + d * (tempo + 1) && (epoch.start - first) / (tempo + 1) == d
      && epoch.start <= block < epoch.stop == epoch.start + (tempo + 1)
  {
    var m := tempo + 1;
    EpochClosedForm(block, netuid, tempo);
    EpochClosedForm(0, netuid, tempo);
    CellsPartition(-netuid - 2, m, block, block);
    var i := CellIndex(-netuid - 2, m, block);
    var j := CellIndex(-netuid - 2, m, 0);
    d := i - j;
    MulSub(i, j, m);
    DivModUnique(d * m, d, 0, m);
  }

  /** Cycles are the grid of double width through the start of the very first epoch. */
  lemma CycleClosedForm(block: int, netuid: int, tempo: int)
    requires tempo > 0
    ensures
      var first := GetEpochContainingBlock(0, netuid, tempo).start;
      var start := CellStart(first, 2 * (tempo + 1), block);
      GetCycleContainingBlock(block, netuid, tempo) == Range(start, start + 2 * (tempo + 1))
  {
    var m := tempo + 1;
    var epoch := GetEpochContainingBlock(block, netuid, tempo);
    var first := GetEpochContainingBlock(0, netuid, tempo).start;
    var d := EpochDistance(block, netuid, tempo);
    var r := HalfCell(d, m, block - epoch.start);
    var start := first + (d / 2) * (2 * m);
    assert CellStart(first, 2 * m, block) == start by { CellAt(first, 2 * m, d / 2, r); }
    assert GetCycleContainingBlock(block, netuid, tempo) == Range(start, start + 2 * m);
  }

  /** `d` epochs and a bit, counted in pairs of epochs. */
  lemma HalfCell(d: int, m: int, bit: int) returns (r: int)
    requires 0 < m && 0 <= bit < m
    ensures r == (d % 2) * m + bit && 0 <= r < 2 * m
    ensures d * m + bit == (d / 2) * (2 * m) + r
    ensures (d / 2) * (2 * m) == if d % 2 == 0 then d * m else d * m - m
  {
    var c, p := d / 2, d % 2;
    r := p * m + bit;
    assert p == 0 || p == 1;
    assert d * m == (2 * c + p) * m == c * (2 * m) + p * m;
  }

  lemma CyclesPartition(x: int, y: int, netuid: int, tempo: int)
    requires tempo > 0
    ensures GetCycleContainingBlock(x, netuid, tempo).Contains(x)
    ensures GetCycleContainingBlock(x, netuid, tempo).Contains(y)
      <==> GetCycleContainingBlock(y, netuid, tempo) == GetCycleContainingBlock(x, netuid, tempo)
  {
    CycleClosedForm(x, netuid, tempo);
    CycleClosedForm(y, netuid, tempo);
    CellsPartition(GetEpochContainingBlock(0, netuid, tempo).start, 2 * (tempo + 1), x, y);
  }

  /** The ten-cycle testing day that holds a block, counted from the reference peak cycle. */
  function TestingDay(block: int, netuid: int, tempo: int): Range
    requires tempo > 0
  {
    var width := 2 * (tempo + 1) * CYCLES_IN_TESTING_DAY;
    var start := CellStart(GetCycleContainingBlock(REFERENCE_BLOCK_IN_PEAK_CYCLE, netuid, tempo).start, width, block);
    Range(start, start + width)
  }

  /** The peak cycle is the first cycle of the testing day that holds the block; days partition the blocks;
      and the peak cycle is the same exactly for the blocks of one day. */
  lemma PeakCycleOfTestingDay(x: int, y: int, netuid: int, tempo: int)
    requires tempo > 0
    ensures TestingDay(x, netuid, tempo).Contains(x)
    ensures GetPeakCycle(x, netuid, tempo) ==
      Range(TestingDay(x, netuid, tempo).start, TestingDay(x, netuid, tempo).start + 2 * (tempo + 1))
    ensures TestingDay(x, netuid, tempo).Contains(y) <==> GetPeakCycle(y, netuid, tempo) == GetPeakCycle(x, netuid, tempo)
  {
    PeakStartsDay(x, netuid, tempo);
    PeakStartsDay(y, netuid, tempo);
    var reference := GetCycleContainingBlock(REFERENCE_BLOCK_IN_PEAK_CYCLE, netuid, tempo).start;
    CellsPartition(reference, 2 * (tempo + 1) * CYCLES_IN_TESTING_DAY, x, y);
  }

  /** The reference block lies in a peak cycle. */
  lemma ReferenceInPeakCycle(netuid: int, tempo: int)
    requires tempo > 0
    ensures GetPeakCycle(1000, netuid, tempo).Contains(1000)
  {
    var w := 2 * (tempo + 1);
    var reference := GetCycleContainingBlock(REFERENCE_BLOCK_IN_PEAK_CYCLE, netuid, tempo);
    PeakStartsDay(1000, netuid, tempo);
    CyclesPartition(1000, 1000, netuid, tempo);
    CycleClosedForm(1000, netuid, tempo);
    assert 0 * (10 * w) == 0;
    CellAt(reference.start, 10 * w, 0, 1000 - reference.start);
  }

  /** Peak cycles come back every twenty epochs. */
  lemma PeakCyclesRepeat(block: int, netuid: int, tempo: int)
    requires tempo > 0
    ensures var peak := GetPeakCycle(block, netuid, tempo);
      GetPeakCycle(block + 20 * (tempo + 1), netuid, tempo)
        == Range(peak.start + 20 * (tempo + 1), peak.stop + 20 * (tempo + 1))
  {
    var w := 20 * (tempo + 1);
    PeakStartsDay(block, netuid, tempo);
    PeakStartsDay(block + w, netuid, tempo);
    NextCell(GetCycleContainingBlock(REFERENCE_BLOCK_IN_PEAK_CYCLE, netuid, tempo).start, w, block);
  }

  lemma PeakStartsDay(block: int, netuid: int, tempo: int)
    requires tempo > 0
    ensures GetPeakCycle(block, netuid, tempo) ==
      Range(TestingDay(block, netuid, tempo).start, TestingDay(block, netuid, tempo).start + 2 * (tempo + 1))
  {
    var w := 2 * (tempo + 1);
    var first := GetEpochContainingBlock(0, netuid, tempo).start;
    var reference := GetCycleContainingBlock(REFERENCE_BLOCK_IN_PEAK_CYCLE, netuid, tempo).start;
    CycleClosedForm(REFERENCE_BLOCK_IN_PEAK_CYCLE, netuid, tempo);
    var c := CellIndex(first, w, REFERENCE_BLOCK_IN_PEAK_CYCLE);
    var q := CellIndex(reference, w * CYCLES_IN_TESTING_DAY, block);
    var start := TestingDay(block, netuid, tempo).start;
    assert start == first + (c + 10 * q) * w + 0 by { assert q * (w * 10) == (10 * q) * w; }
    CycleClosedForm(start, netuid, tempo);
    CellAt(first, w, c + 10 * q, 0);
  }
}

/** When each validator runs its synthetic jobs
    (validator/app/src/compute_horde_validator/validator/tasks.py), over exact rationals. */
module Slots {
  import opened Arithmetic
  import opened Calendar
  import opened Messages

  function CalculateJobStartBlock(cycle: Range, total: int, index: int, offset: int): int
    requires total > 0
  {
    cycle.start + offset + (cycle.stop - cycle.start - offset) * index / total
  }

  /** Consecutive slots are floor or ceiling of L / total apart. */
  lemma SlotGap(cycle: Range, total: int, index: int, offset: int)
    requires total > 0
    ensures
      var l := cycle.stop - cycle.start - offset;
      var next := CalculateJobStartBlock(cycle, total, index + 1, offset);
      var gap := next - CalculateJobStartBlock(cycle, total, index, offset);
      l / total <= gap <= (l + total - 1) / total
  {
    var l := cycle.stop - cycle.start - offset;
    var f, r := l * index / total, l * index % total;
    var q, s := l / total, l % total;
    assert l * (index + 1) == l * index + l;
    if r + s < total {
      assert l * (index + 1) == (f + q) * total + (r + s);
      DivModUnique(l * (index + 1), f + q, r + s, total);
    } else {
      assert l * (index + 1) == (f + q + 1) * total + (r + s - total);
      DivModUnique(l * (index + 1), f + q + 1, r + s - total, total);
    }
    Ceiling(l, total);
  }

  lemma Ceiling(l: int, total: int)
    requires total > 0
    ensures (l + total - 1) / total == if l % total == 0 then l / total else l / total + 1
  {
    var q, s := l / total, l % total;
    if s == 0 {
      DivModUnique(l + total - 1, q, total - 1, total);
    } else {
      assert l + total - 1 == (q + 1) * total + (s - 1);
      DivModUnique(l + total - 1, q + 1, s - 1, total);
    }
  }

  /** Later indices never start earlier, and start at least `k` slots of floor(L / total) later. */
  lemma {:induction false} SlotsSpread(cycle: Range, total: int, index: int, k: nat, offset: int)
    requires total > 0 && 0 <= cycle.stop - cycle.start - offset
    ensures CalculateJobStartBlock(cycle, total, index, offset) + k * ((cycle.stop - cycle.start - offset) / total)
      <= CalculateJobStartBlock(cycle, total, index + k, offset)
  {
    if k > 0 {
      SlotsSpread(cycle, total, index, k - 1, offset);
      SlotGap(cycle, total, index + k - 1, offset);
      var g := (cycle.stop - cycle.start - offset) / total;
      assert k * g == (k - 1) * g + g;
    }
  }

  /** Every slot lies in the part of the cycle after the offset. */
  lemma SlotInCycle(cycle: Range, total: int, index: int, offset: int)
    requires 0 <= index < total && 0 < cycle.stop - cycle.start - offset
    ensures cycle.start + offset <= CalculateJobStartBlock(cycle, total, index, offset) < cycle.stop
  {
    var l := cycle.stop - cycle.start - offset;
    assert 0 * total <= l * index;
    assert l * (total - index) == l * total - l * index;
    MulSign(total - index, l);
    DivBetween(l * index, 0, l, total);
  }

  lemma RoomForAll(l: int, total: int)
    requires 0 < total <= l
    ensures 1 <= l / total
  {
    assert (l + 1) * total - l == l * (total - 1) + total;
    MulSign(l, total);
    assert l * (total - 1) >= 0;
    DivBetween(l, 1, l + 1, total);
  }

  lemma LaterSlotIsLater(cycle: Range, total: int, i: int, j: int, offset: int)
    requires 0 <= i < j < total <= cycle.stop - cycle.start - offset
    ensures CalculateJobStartBlock(cycle, total, i, offset) < CalculateJobStartBlock(cycle, total, j, offset)
  {
    var gap := (cycle.stop - cycle.start - offset) / total;
    RoomForAll(cycle.stop - cycle.start - offset, total);
    SlotsSpread(cycle, total, i, j - i, offset);
    assert i + (j - i) == j;
    MulSign(j - i, gap);
  }

  /** All indices get different blocks exactly when there are at least as many blocks as validators. */
  lemma SlotsDistinct(cycle: Range, total: int, offset: int)
    requires 2 <= total && 0 <= cycle.stop - cycle.start - offset
    ensures
      (forall i, j :: 0 <= i < j < total ==>
         CalculateJobStartBlock(cycle, total, i, offset) != CalculateJobStartBlock(cycle, total, j, offset))
      <==> total <= cycle.stop - cycle.start - offset
  {
    if total <= cycle.stop - cycle.start - offset {
      forall i, j | 0 <= i < j < total
        ensures CalculateJobStartBlock(cycle, total, i, offset) != CalculateJobStartBlock(cycle, total, j, offset)
      {
        LaterSlotIsLater(cycle, total, i, j, offset);
      }
    } else {
      LastSlotIsLow(cycle.stop - cycle.start - offset, total);
      var i := Collision(cycle, total, offset, total - 1);
    }
  }

  /** The last of too many validators is fewer than `total - 1` blocks in. */
  lemma LastSlotIsLow(l: int, total: int)
    requires 2 <= total && 0 <= l < total
    ensures l * (total - 1) / total < total - 1
  {
    var t := total - 1;
    assert 0 * total <= l * t;
    assert t * total - l * t == (total - l) * t;
    MulSign(total - l, t);
    DivBetween(l * t, 0, t, total);
  }

  /** With fewer blocks than validators some two neighbours collide: climbing one block per index would
      take the last one too far. */
  lemma {:induction false} Collision(cycle: Range, total: int, offset: int, upTo: nat) returns (i: nat)
    requires 2 <= total && 0 <= cycle.stop - cycle.start - offset < total && upTo < total
    requires CalculateJobStartBlock(cycle, total, upTo, offset) < cycle.start + offset + upTo
    ensures i + 1 < total
    ensures CalculateJobStartBlock(cycle, total, i, offset) == CalculateJobStartBlock(cycle, total, i + 1, offset)
    decreases upTo
  {
    var l := cycle.stop - cycle.start - offset;
    assert upTo == 0 ==> l * upTo == 0;
    LaterSlotIsNotEarlier(cycle, total, upTo - 1, upTo, offset);
    if CalculateJobStartBlock(cycle, total, upTo - 1, offset) == CalculateJobStartBlock(cycle, total, upTo, offset) {
      i := upTo - 1;
    } else {
      i := Collision(cycle, total, offset, upTo - 1);
    }
  }

  // ----- selecting the index

  function IndexOf(order: seq<string>, key: string): nat
    requires key in order
  {
    if order[0] == key then 0 else 1 + IndexOf(order[1..], key)
  }

  lemma IndexOfIs(order: seq<string>, key: string)
    requires key in order
    ensures IndexOf(order, key) < |order| && order[IndexOf(order, key)] == key
  {
  }

  /** `when_to_run`: None stands for ScheduleError. `order` is the seeded shuffle of the validators, which
      every validator arrives at alike. */
  function WhenToRun(cycle: Range, order: seq<string>, me: string, offset: int): Option<int> {
    if me !in order then None
    else Some(CalculateJobStartBlock(cycle, |order|, IndexOf(order, me), offset))
  }

  lemma {:induction false} IndexOfUnique(order: seq<string>, i: nat)
    requires i < |order| && forall j, k :: 0 <= j < k < |order| ==> order[j] != order[k]
    ensures IndexOf(order, order[i]) == i
  {
    if i > 0 { IndexOfUnique(order[1..], i - 1); }
  }

  /** The validator drawn first starts right after the offset, and whoever comes earlier in the order never starts
      later - earlier, when there is room for all. */
  lemma OrderDecides(cycle: Range, order: seq<string>, i: nat, j: nat, offset: int)
    requires i < j < |order| && forall a, b :: 0 <= a < b < |order| ==> order[a] != order[b]
    requires 0 <= cycle.stop - cycle.start - offset
    ensures WhenToRun(cycle, order, order[0], offset) == Some(cycle.start + offset)
    ensures
      var x, y := WhenToRun(cycle, order, order[i], offset), WhenToRun(cycle, order, order[j], offset);
      && x.Some? && y.Some? && x.value <= y.value
      && (|order| <= cycle.stop - cycle.start - offset ==> x.value < y.value)
  {
    IndexOfUnique(order, 0);
    IndexOfUnique(order, i);
    IndexOfUnique(order, j);
    FirstSlot(cycle, |order|, offset);
    LaterSlotIsNotEarlier(cycle, |order|, i, j, offset);
    if |order| <= cycle.stop - cycle.start - offset { LaterSlotIsLater(cycle, |order|, i, j, offset); }
  }

  lemma FirstSlot(cycle: Range, total: int, offset: int)
    requires total > 0
    ensures CalculateJobStartBlock(cycle, total, 0, offset) == cycle.start + offset
  {
    assert (cycle.stop - cycle.start - offset) * 0 == 0;
    DivModUnique(0, 0, 0, total);
  }

  lemma {:induction false} LaterSlotIsNotEarlier(cycle: Range, total: int, i: int, j: int, offset: int)
    requires total > 0 && i <= j && 0 <= cycle.stop - cycle.start - offset
    ensures CalculateJobStartBlock(cycle, total, i, offset) <= CalculateJobStartBlock(cycle, total, j, offset)
    decreases j - i
  {
    if i < j {
      LaterSlotIsNotEarlier(cycle, total, i, j - 1, offset);
      SlotGap(cycle, total, j - 1, offset);
      QuotientSign(cycle.stop - cycle.start - offset, total);
    }
  }

  lemma QuotientSign(l: int, total: int)
    requires 0 < total && 0 <= l
    ensures 0 <= l / total
  {
  }

  /** Under any common order, two different validators never share a block as long as the cycle has room
      for all of them, and every listed validator gets a block inside the cycle. */
  lemma ValidatorsKeepApart(cycle: Range, validators: seq<string>, order: seq<string>, a: string, b: string,
                            offset: int)
    requires multiset(order) == multiset(validators)
    requires a in validators && b in validators && a != b && |order| <= cycle.stop - cycle.start - offset
    ensures
      var x, y := WhenToRun(cycle, order, a, offset), WhenToRun(cycle, order, b, offset);
      && x.Some? && y.Some? && x != y
      && cycle.start + offset <= x.value < cycle.stop && cycle.start + offset <= y.value < cycle.stop
  {
    assert a in multiset(validators) && b in multiset(validators);
    assert a in order && b in order;
    IndexOfIs(order, a);
    IndexOfIs(order, b);
    var i, j := IndexOf(order, a), IndexOf(order, b);
    SlotInCycle(cycle, |order|, i, offset);
    SlotInCycle(cycle, |order|, j, offset);
    if i < j {
      LaterSlotIsLater(cycle, |order|, i, j, offset);
    } else {
      LaterSlotIsLater(cycle, |order|, j, i, offset);
    }
  }
}
