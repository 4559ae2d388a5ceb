/**
 * The financial estimator: each ranked crop is looked up case-insensitively
 * in the crop economics table, gets its share of the land by the
 * allocation ratio, and adds its profit and cost per hectare times that
 * share to the totals; the loan is 80% of the total cost
 * (app_logic.py:175-213).
 */
module Finance {
  import opened Wrappers
  import opened Ranking

  /** One row of the crop economics table (per-hectare figures in rupees). */
  datatype CropEconomics = CropEconomics(crop: string, profitPerHectare: real, costPerHectare: real)

  /** Running or final totals of the estimate. */
  datatype Totals = Totals(profit: real, cost: real)

  /** The share of the total cost of production that can be borrowed. */
  const LoanPercentage: real := 0.80

  function LowerChar(c: char): char
  {
    if 'A' <= c <= 'Z' then (c as int + 32) as char else c
  }

  /** str.lower, on ASCII letters: no upper-case letter is left. */
  function Lower(s: string): (r: string)
    ensures |r| == |s|
    ensures forall i :: 0 <= i < |r| ==> !('A' <= r[i] <= 'Z')
  {
    seq(|s|, i requires 0 <= i < |s| => LowerChar(s[i]))
  }

  /** Lower-casing twice is lower-casing once. */
  lemma LowerIdempotent(s: string)
    ensures Lower(Lower(s)) == Lower(s)
  {
  }

  /** The rows naming the crop, ignoring case, in table order: `df[df['Crop'].str.lower() == commodity.lower()]`. */
  function RowsForCrop(table: seq<CropEconomics>, name: string): (rows: seq<CropEconomics>)
    ensures forall j :: 0 <= j < |rows| ==> rows[j] in table && Lower(rows[j].crop) == Lower(name)
  {
    if table == [] then []
    else (if Lower(table[0].crop) == Lower(name) then [table[0]] else []) + RowsForCrop(table[1..], name)
  }

  /** The first row naming the crop, ignoring case, or None. */
  function LookupEconomics(table: seq<CropEconomics>, name: string): Option<CropEconomics>
  {
    if table == [] then None
    else if Lower(table[0].crop) == Lower(name) then Some(table[0])
    else LookupEconomics(table[1..], name)
  }

  /** The lookup is `iloc[0]` of the filtered rows, and None when the filter is empty. */
  lemma {:induction false} LookupIsFirstFilteredRow(table: seq<CropEconomics>, name: string)
    ensures var rows := RowsForCrop(table, name);
      LookupEconomics(table, name) == if rows != [] then Some(rows[0]) else None
  {
    if table != [] {
      LookupIsFirstFilteredRow(table[1..], name);
    }
  }

  /**
   * The lookup is the first row whose name equals the crop's ignoring case,
   * and finds nothing exactly when no row does.
   */
  lemma {:induction false} LookupFindsFirstMatch(table: seq<CropEconomics>, name: string)
    ensures LookupEconomics(table, name).None? <==>
            forall j :: 0 <= j < |table| ==> Lower(table[j].crop) != Lower(name)
    ensures forall i :: 0 <= i < |table| && Lower(table[i].crop) == Lower(name) &&
                        (forall j :: 0 <= j < i ==> Lower(table[j].crop) != Lower(name)) ==>
                        LookupEconomics(table, name) == Some(table[i])
  {
    if table != [] {
      LookupFindsFirstMatch(table[1..], name);
      assert forall j :: 1 <= j < |table| ==> table[j] == table[1..][j - 1];
    }
  }

  /** "Rice", "RICE" and "rice" find the same row. */
  lemma LookupIgnoresCase(table: seq<CropEconomics>, name: string)
    ensures LookupEconomics(table, name) == LookupEconomics(table, Lower(name))
  {
    LowerIdempotent(name);
    SameKeySameRow(table, name, Lower(name));
  }

  lemma {:induction false} SameKeySameRow(table: seq<CropEconomics>, name1: string, name2: string)
    requires Lower(name1) == Lower(name2)
    ensures LookupEconomics(table, name1) == LookupEconomics(table, name2)
  {
    if table != [] {
      SameKeySameRow(table[1..], name1, name2);
    }
  }

  /**
   * Land for the crop at rank i of count candidates under the ratio
   * num:den: its part of the ratio when there are two candidates and the
   * parts add up to something positive, the whole area otherwise.
   */
  function AllocatedLand(i: nat, count: nat, num: int, den: int, landArea: real): real
  {
    if count >= 2 && num + den > 0 then
      if i == 0 then (num as real / (num + den) as real) * landArea
      else (den as real / (num + den) as real) * landArea
    else landArea
  }

  /** What crop i adds to the totals: nothing when the table has no row for it. */
  function Contribution(top: seq<ClassScore>, table: seq<CropEconomics>, num: int, den: int, landArea: real, i: nat): Totals
    requires i < |top|
  {
    match LookupEconomics(table, top[i].name)
    case None => Totals(0.0, 0.0)
    case Some(row) =>
      var land := AllocatedLand(i, |top|, num, den, landArea);
      Totals(land * row.profitPerHectare, land * row.costPerHectare)
  }

  /** The totals after the first k ranked crops. */
  function Accumulated(top: seq<ClassScore>, table: seq<CropEconomics>, num: int, den: int, landArea: real, k: nat): Totals
    requires k <= |top|
  {
    if k == 0 then Totals(0.0, 0.0)
    else
      var before := Accumulated(top, table, num, den, landArea, k - 1);
      var c := Contribution(top, table, num, den, landArea, k - 1);
      Totals(before.profit + c.profit, before.cost + c.cost)
  }

  /**
   * The loop of steps 8-9 over the ranked crops: each crop with an
   * economics row adds its allocated land times its per-hectare profit and
   * cost; a crop without one adds nothing.
   */
  method AccumulateTotals(top: seq<ClassScore>, table: seq<CropEconomics>, num: int, den: int, landArea: real)
    returns (estimatedTotalProfit: real, estimatedTotalCost: real)
    ensures Totals(estimatedTotalProfit, estimatedTotalCost) == Accumulated(top, table, num, den, landArea, |top|)
  {
    estimatedTotalProfit, estimatedTotalCost := 0.0, 0.0;
    var totalRatioParts := num + den;
    for i := 0 to |top|
      invariant Accumulated(top, table, num, den, landArea, i) == Totals(estimatedTotalProfit, estimatedTotalCost)
    {
      ghost var contribution := Contribution(top, table, num, den, landArea, i);
      var row := LookupEconomics(table, top[i].name);
      if row.Some? {
        var allocatedLand: real;
        if |top| >= 2 && totalRatioParts > 0 {
          if i == 0 {
            allocatedLand := (num as real / totalRatioParts as real) * landArea;
          } else {
            allocatedLand := (den as real / totalRatioParts as real) * landArea;
          }
        } else {
          allocatedLand := landArea;
        }
        assert allocatedLand == AllocatedLand(i, |top|, num, den, landArea);
        assert contribution == Totals(allocatedLand * row.value.profitPerHectare, allocatedLand * row.value.costPerHectare);
        estimatedTotalProfit := estimatedTotalProfit + allocatedLand * row.value.profitPerHectare;
        estimatedTotalCost := estimatedTotalCost + allocatedLand * row.value.costPerHectare;
      } else {
        assert contribution == Totals(0.0, 0.0);
      }
    }
  }

  /** Two candidates split the land by the ratio, and the two shares make up the whole area. */
  lemma LandConserved(num: int, den: int, landArea: real)
    requires num >= 0 && den >= 0 && num + den > 0
    ensures AllocatedLand(0, 2, num, den, landArea) + AllocatedLand(1, 2, num, den, landArea) == landArea
    ensures AllocatedLand(0, 2, num, den, landArea) * (num + den) as real == num as real * landArea
    ensures AllocatedLand(1, 2, num, den, landArea) * (num + den) as real == den as real * landArea
  {
  }

  /**
   * Two candidates found in the table: the totals are the land-weighted
   * blend of the two crops' per-hectare figures.
   */
  lemma TwoCropTotals(top: seq<ClassScore>, table: seq<CropEconomics>, num: int, den: int, landArea: real,
                      r0: CropEconomics, r1: CropEconomics)
    requires |top| == 2 && num >= 0 && den >= 0 && num + den > 0
    requires LookupEconomics(table, top[0].name) == Some(r0) && LookupEconomics(table, top[1].name) == Some(r1)
    ensures var acc := Accumulated(top, table, num, den, landArea, 2);
      && acc.profit * (num + den) as real == landArea * (num as real * r0.profitPerHectare + den as real * r1.profitPerHectare)
      && acc.cost * (num + den) as real == landArea * (num as real * r0.costPerHectare + den as real * r1.costPerHectare)
  {
    TwoFoundCrops(top, table, num, den, landArea, r0, r1);
    BlendTotals(Accumulated(top, table, num, den, landArea, 2), r0, r1, num, den, landArea);
  }

  /** Both candidates found: each adds its share of the land times its per-hectare figures. */
  lemma TwoFoundCrops(top: seq<ClassScore>, table: seq<CropEconomics>, num: int, den: int, landArea: real,
                      r0: CropEconomics, r1: CropEconomics)
    requires |top| == 2
    requires LookupEconomics(table, top[0].name) == Some(r0) && LookupEconomics(table, top[1].name) == Some(r1)
    ensures var a0, a1 := AllocatedLand(0, 2, num, den, landArea), AllocatedLand(1, 2, num, den, landArea);
      Accumulated(top, table, num, den, landArea, 2) ==
        Totals(a0 * r0.profitPerHectare + a1 * r1.profitPerHectare, a0 * r0.costPerHectare + a1 * r1.costPerHectare)
  {
    TwoContributions(top, table, num, den, landArea);
    FoundContribution(top, table, num, den, landArea, 0, r0);
    FoundContribution(top, table, num, den, landArea, 1, r1);
  }

  /** Totals made of the two shares of the land, in proportion to num:den. */
  lemma BlendTotals(acc: Totals, r0: CropEconomics, r1: CropEconomics, num: int, den: int, landArea: real)
    requires num >= 0 && den >= 0 && num + den > 0
    requires var a0, a1 := AllocatedLand(0, 2, num, den, landArea), AllocatedLand(1, 2, num, den, landArea);
      acc == Totals(a0 * r0.profitPerHectare + a1 * r1.profitPerHectare, a0 * r0.costPerHectare + a1 * r1.costPerHectare)
    ensures acc.profit * (num + den) as real == landArea * (num as real * r0.profitPerHectare + den as real * r1.profitPerHectare)
    ensures acc.cost * (num + den) as real == landArea * (num as real * r0.costPerHectare + den as real * r1.costPerHectare)
  {
    BlendShares(num, den, landArea, r0.profitPerHectare, r1.profitPerHectare, acc.profit);
    BlendShares(num, den, landArea, r0.costPerHectare, r1.costPerHectare, acc.cost);
  }

  /** A per-hectare figure summed over the two shares of the land. */
  lemma BlendShares(num: int, den: int, landArea: real, p0: real, p1: real, total: real)
    requires num >= 0 && den >= 0 && num + den > 0
    requires total == AllocatedLand(0, 2, num, den, landArea) * p0 + AllocatedLand(1, 2, num, den, landArea) * p1
    ensures total * (num + den) as real == landArea * (num as real * p0 + den as real * p1)
  {
    LandConserved(num, den, landArea);
    Blend(total, AllocatedLand(0, 2, num, den, landArea), AllocatedLand(1, 2, num, den, landArea),
          (num + den) as real, num as real, den as real, landArea, p0, p1);
  }

  /** A candidate with an economics row adds its land times its per-hectare figures. */
  lemma FoundContribution(top: seq<ClassScore>, table: seq<CropEconomics>, num: int, den: int, landArea: real,
                          i: nat, row: CropEconomics)
    requires i < |top| && LookupEconomics(table, top[i].name) == Some(row)
    ensures var land := AllocatedLand(i, |top|, num, den, landArea);
      Contribution(top, table, num, den, landArea, i) == Totals(land * row.profitPerHectare, land * row.costPerHectare)
  {
  }

  /** With two candidates the totals are the sum of the two contributions. */
  lemma TwoContributions(top: seq<ClassScore>, table: seq<CropEconomics>, num: int, den: int, landArea: real)
    requires |top| == 2
    ensures var c0, c1 := Contribution(top, table, num, den, landArea, 0), Contribution(top, table, num, den, landArea, 1);
      Accumulated(top, table, num, den, landArea, 2) == Totals(c0.profit + c1.profit, c0.cost + c1.cost)
  {
    var c0 := Contribution(top, table, num, den, landArea, 0);
    assert Accumulated(top, table, num, den, landArea, 1) == Totals(0.0 + c0.profit, 0.0 + c0.cost);
  }

  lemma Blend(total: real, a0: real, a1: real, t: real, n: real, d: real, land: real, p0: real, p1: real)
    requires total == a0 * p0 + a1 * p1 && a0 * t == n * land && a1 * t == d * land
    ensures total * t == land * (n * p0 + d * p1)
  {
  }

  /**
   * A candidate without an economics row adds nothing and does not stop the
   * estimate: the totals are what the other candidate, if any, adds.
   */
  lemma MissingCropAddsNothing(top: seq<ClassScore>, table: seq<CropEconomics>, num: int, den: int, landArea: real, j: nat)
    requires 1 <= |top| <= 2 && j < |top|
    requires LookupEconomics(table, top[j].name).None?
    ensures |top| == 1 ==> Accumulated(top, table, num, den, landArea, 1) == Totals(0.0, 0.0)
    ensures |top| == 2 ==> Accumulated(top, table, num, den, landArea, 2) ==
                           Contribution(top, table, num, den, landArea, 1 - j)
  {
    var c0 := Contribution(top, table, num, den, landArea, 0);
    assert Accumulated(top, table, num, den, landArea, 1) == c0;
    if |top| == 2 {
      var c1 := Contribution(top, table, num, den, landArea, 1);
      assert Accumulated(top, table, num, den, landArea, 2) == Totals(c0.profit + c1.profit, c0.cost + c1.cost);
    }
  }

  /** With no candidates the totals stay at zero. */
  lemma NoCandidatesNoTotals(table: seq<CropEconomics>, num: int, den: int, landArea: real)
    ensures Accumulated([], table, num, den, landArea, 0) == Totals(0.0, 0.0)
  {
  }

  /** A single candidate found in the table takes the whole land area. */
  lemma SingleCropTakesAllLand(top: seq<ClassScore>, table: seq<CropEconomics>, num: int, den: int, landArea: real)
    requires |top| == 1 && LookupEconomics(table, top[0].name).Some?
    ensures var row := LookupEconomics(table, top[0].name).value;
      Accumulated(top, table, num, den, landArea, 1) ==
        Totals(landArea * row.profitPerHectare, landArea * row.costPerHectare)
  {
  }

  /**
   * With a non-negative ratio, a non-negative land area and no negative cost
   * in the table, the total cost is not negative, and the loan (80% of it)
   * is between zero and the cost.
   */
  lemma {:induction false} CostNonNegative(top: seq<ClassScore>, table: seq<CropEconomics>, num: int, den: int, landArea: real, k: nat)
    requires k <= |top| && num >= 0 && den >= 0 && landArea >= 0.0
    requires forall j :: 0 <= j < |table| ==> table[j].costPerHectare >= 0.0
    ensures var cost := Accumulated(top, table, num, den, landArea, k).cost;
      0.0 <= cost && 0.0 <= cost * LoanPercentage <= cost
  {
    if k > 0 {
      CostNonNegative(top, table, num, den, landArea, k - 1);
      ContributionCostNonNegative(top, table, num, den, landArea, k - 1);
    }
  }

  lemma ContributionCostNonNegative(top: seq<ClassScore>, table: seq<CropEconomics>, num: int, den: int, landArea: real, i: nat)
    requires i < |top| && num >= 0 && den >= 0 && landArea >= 0.0
    requires forall j :: 0 <= j < |table| ==> table[j].costPerHectare >= 0.0
    ensures Contribution(top, table, num, den, landArea, i).cost >= 0.0
  {
    var found := LookupEconomics(table, top[i].name);
    if found.Some? {
      FoundRowInTable(table, top[i].name);
      ShareNonNegative(i, |top|, num, den, landArea);
      NonNegativeProduct(AllocatedLand(i, |top|, num, den, landArea), found.value.costPerHectare);
    }
  }

  lemma NonNegativeProduct(x: real, y: real)
    requires x >= 0.0 && y >= 0.0
    ensures x * y >= 0.0
  {
  }

  lemma {:induction false} FoundRowInTable(table: seq<CropEconomics>, name: string)
    requires LookupEconomics(table, name).Some?
    ensures LookupEconomics(table, name).value in table
  {
    if Lower(table[0].crop) != Lower(name) {
      FoundRowInTable(table[1..], name);
    }
  }

  lemma ShareNonNegative(i: nat, count: nat, num: int, den: int, landArea: real)
    requires num >= 0 && den >= 0 && landArea >= 0.0
    ensures AllocatedLand(i, count, num, den, landArea) >= 0.0
  {
  }

  /** Ten hectares under the ratio 31:19 split into 6.2 and 3.8 hectares. */
  lemma TenHectaresAt31To19()
    ensures AllocatedLand(0, 2, 31, 19, 10.0) == 6.2
    ensures AllocatedLand(1, 2, 31, 19, 10.0) == 3.8
  {
  }

  /** The ratio 1:0 of a zero runner-up score gives the leader all the land and the runner-up none. */
  lemma ZeroRunnerUpGetsNoLand(landArea: real)
    ensures AllocatedLand(0, 2, 1, 0, landArea) == landArea
    ensures AllocatedLand(1, 2, 1, 0, landArea) == 0.0
  {
    assert (0 as real / (1 + 0) as real) == 0.0;
  }
}
