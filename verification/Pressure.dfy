/** Memory pressure levels. Percentages are exact rationals here. */
module Pressure {
  import opened Types

  datatype MemInfo = MemInfo(totalKb: int, availableKb: int) {
    function UsedPct(): real {
      if totalKb <= 0 then 0.0 else 100.0 * (1.0 - availableKb as real / totalKb as real)
    }

    function FreePct(): real { 100.0 - UsedPct() }
  }

  datatype PsiStats = PsiStats(valid: bool, someAvg10: real, fullAvg10: real)

  function ComputePressure(mem: MemInfo, psi: PsiStats): PressureLevel {
    var free := mem.FreePct();
    if free < 15.0 then Critical
    else if psi.valid then
      if psi.fullAvg10 >= 15.0 || psi.someAvg10 >= 40.0 then Critical
      else if psi.someAvg10 >= 20.0 || free < 25.0 then High
      else if psi.someAvg10 >= 5.0 || free < 50.0 then Moderate
      else Normal
    else if free < 25.0 then Critical
    else if free < 50.0 then High
    else Normal
  }

  /** The second reading is at least as stressed: more memory in use and longer stalls. */
  predicate MoreStress(m1: MemInfo, p1: PsiStats, m2: MemInfo, p2: PsiStats) {
    p1.valid == p2.valid &&
    m1.UsedPct() <= m2.UsedPct() && p1.someAvg10 <= p2.someAvg10 && p1.fullAvg10 <= p2.fullAvg10
  }

  lemma PressureIsMonotone(m1: MemInfo, p1: PsiStats, m2: MemInfo, p2: PsiStats)
    requires MoreStress(m1, p1, m2, p2)
    ensures ComputePressure(m2, p2).AtLeast(ComputePressure(m1, p1))
  {}

  /** Each level, told from kilobytes and stall averages. */
  lemma LevelsFromReadings(mem: MemInfo, psi: PsiStats)
    requires mem.totalKb > 0
    ensures var level := ComputePressure(mem, psi);
            (level == Critical <==>
              100 * mem.availableKb < (if psi.valid then 15 else 25) * mem.totalKb ||
              (psi.valid && (psi.fullAvg10 >= 15.0 || psi.someAvg10 >= 40.0))) &&
            (level.AtLeast(High) <==>
              level == Critical || 100 * mem.availableKb < (if psi.valid then 25 else 50) * mem.totalKb ||
              (psi.valid && psi.someAvg10 >= 20.0)) &&
            (level.AtLeast(Moderate) <==>
              level.AtLeast(High) || 2 * mem.availableKb < mem.totalKb || (psi.valid && psi.someAvg10 >= 5.0))
  {
    FreeShare(mem, 15);
    FreeShare(mem, 25);
    FreeShare(mem, 50);
  }

  lemma FreeShare(mem: MemInfo, percent: nat)
    requires mem.totalKb > 0
    ensures mem.FreePct() < percent as real <==> 100 * mem.availableKb < percent * mem.totalKb
  {
    var share := mem.availableKb as real / mem.totalKb as real;
    assert mem.FreePct() == 100.0 * share;
    assert share * mem.totalKb as real == mem.availableKb as real;
    if 100 * mem.availableKb < percent * mem.totalKb {
      assert (100 * mem.availableKb) as real < (percent * mem.totalKb) as real;
    }
  }

  /** Losing the PSI source is not monotone: each of the two directions can lower the level. */
  lemma ValidityMatters(stalls: PsiStats, mem: MemInfo)
    requires stalls.valid && mem.FreePct() >= 15.0
    ensures var blind := stalls.(valid := false);
            ComputePressure(mem, blind).AtLeast(ComputePressure(mem, stalls)) <==>
            mem.FreePct() < 25.0 ||
            (mem.FreePct() < 50.0 && stalls.fullAvg10 < 15.0 && stalls.someAvg10 < 40.0) ||
            (stalls.fullAvg10 < 15.0 && stalls.someAvg10 < 5.0)
  {}
}
