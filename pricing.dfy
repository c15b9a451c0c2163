/** The tiered pricing engine of the results screen: a dealer-cost table, a
    margin-based retail price rounded up to a hundred, and three tiers at fixed
    offsets above it, each with a monthly figure.  Prices are whole dollars and
    are computed exactly, without floating point. */
module Pricing {
  import opened Options
  import opened Ascii

  /** The budget line (Ameristar) and the premium line (American Standard). */
  datatype Brand = Ameristar | Amstd

  datatype SystemKind = Split | Package | Gaspack

  /** Target gross margin, in percent (MARGIN = 0.55). */
  const MarginPercent := 55

  /** Labour and overhead added to the dealer cost. */
  const LaborSmall := 1000  // 2 and 3 ton
  const LaborLarge := 1200  // any other size

  /** Offsets of the Gold and Platinum ranges above the Silver price. */
  const GoldMinOffset := 1500
  const GoldMaxOffset := 2000
  const PlatinumMinOffset := 3000
  const PlatinumMaxOffset := 4000

  /** Width of the Silver range. */
  const SilverSpread := 500

  /** Monthly estimate per thousand dollars of price (1.5 %). */
  const MonthlyPerMille := 15

  const FallbackSize := "3ton"

  /** A price range (low, high) and the monthly figure shown with it. */
  datatype Tier = Tier(low: int, high: int, monthly: int)

  datatype Quote = Quote(silver: Tier, gold: Tier, platinum: Tier)

  /** The sizes the dealer-cost table has a column for. */
  predicate IsTableSize(size: string)
  {
    size == "2ton" || size == "3ton" || size == "4ton" || size == "5ton"
  }

  /** One row of the table: the costs of the 2, 3, 4 and 5 ton units. */
  function CostRow(brand: Brand, kind: SystemKind): (row: seq<nat>)
    ensures |row| == 4
  {
    match (brand, kind)
    case (Ameristar, Split) => [3431, 3768, 4598, 4900]
    case (Ameristar, Package) => [4200, 4600, 5400, 5800]
    case (Ameristar, Gaspack) => [4500, 4900, 5700, 6100]
    case (Amstd, Split) => [5146, 5673, 6800, 7200]
    case (Amstd, Package) => [6200, 6800, 7900, 8400]
    case (Amstd, Gaspack) => [6600, 7200, 8300, 8800]
  }

  /** DEALER_COSTS[brand][kind][size], absent for a size outside the table. */
  function DealerCost(brand: Brand, kind: SystemKind, size: string): (c: Option<nat>)
    ensures c.Some? <==> IsTableSize(size)
    ensures c.Some? ==> c.value > 0
  {
    var row := CostRow(brand, kind);
    if size == "2ton" then Some(row[0])
    else if size == "3ton" then Some(row[1])
    else if size == "4ton" then Some(row[2])
    else if size == "5ton" then Some(row[3])
    else None
  }

  function LaborOverhead(size: string): (labor: nat)
    ensures labor == LaborSmall <==> size == "2ton" || size == "3ton"
    ensures labor == LaborLarge <==> size != "2ton" && size != "3ton"
  {
    if size == "2ton" || size == "3ton" then LaborSmall else LaborLarge
  }

  /** calculateRetail: (cost + labour) / (1 - margin), rounded up to a hundred.
      The result is the smallest multiple of 100 whose share 1 - margin covers
      cost plus labour, so it is strictly above cost plus labour. */
  function CalculateRetail(dealerCost: nat, size: string): (r: nat)
    ensures r % 100 == 0
    ensures (100 - MarginPercent) * r >= 100 * (dealerCost + LaborOverhead(size))
    ensures (100 - MarginPercent) * (r - 100) < 100 * (dealerCost + LaborOverhead(size))
    ensures r > dealerCost + LaborOverhead(size)
  {
    var basis := dealerCost + LaborOverhead(size);
    var share := 100 - MarginPercent;
    var hundreds := (basis + share - 1) / share;
    assert share * hundreds >= basis && share * (hundreds - 1) < basis;
    100 * hundreds
  }

  /** getMonthly: Math.round(total * 0.015), rounding halves up. */
  function Monthly(total: int): (m: int)
    ensures 1000 * m <= MonthlyPerMille * total + 500 < 1000 * m + 1000
  {
    (MonthlyPerMille * total + 500) / 1000
  }

  /** The brand is Ameristar exactly for the "budget" priority. */
  function BrandFor(priority: string): (b: Brand)
    ensures b == Ameristar <==> priority == "budget"
  {
    if priority == "budget" then Ameristar else Amstd
  }

  /** The system type as two successive substring checks; the later one wins. */
  function Classify(systemType: string): (k: SystemKind)
    ensures k == Gaspack <==> Contains(systemType, "gaspack")
    ensures k == Package <==> Contains(systemType, "package") && !Contains(systemType, "gaspack")
    ensures k == Split <==> !Contains(systemType, "package") && !Contains(systemType, "gaspack")
  {
    var afterPackage := if systemType != "" && Contains(systemType, "package") then Package else Split;
    if systemType != "" && Contains(systemType, "gaspack") then Gaspack else afterPackage
  }

  /** What getPricing settles on before it prices: brand, kind, size and the dealer cost found. */
  datatype Selection = Selection(brand: Brand, kind: SystemKind, size: string, cost: nat)

  /** The normalisation of getPricing: an empty size becomes 3 ton, and a size the
      table lacks falls back to 3 ton, so a dealer cost is always found. */
  function Resolve(priority: string, size: string, systemType: string): (sel: Selection)
    ensures sel.brand == BrandFor(priority) && sel.kind == Classify(systemType)
    ensures sel.size == if IsTableSize(size) then size else FallbackSize
    ensures DealerCost(sel.brand, sel.kind, sel.size) == Some(sel.cost)
  {
    var brand := BrandFor(priority);
    var kind := Classify(systemType);
    var requested := if size == "" then FallbackSize else size;
    var resolved := if DealerCost(brand, kind, requested).None? then FallbackSize else requested;
    Selection(brand, kind, resolved, DealerCost(brand, kind, resolved).value)
  }

  lemma AddHundreds(x: int, d: int)
    requires x % 100 == 0 && d % 100 == 0
    ensures (x + d) % 100 == 0
  {
  }

  /** The three tiers built from a Silver price. */
  function TiersFrom(silver: int): (q: Quote)
    requires silver % 100 == 0
    ensures WellShaped(q) && q.silver.low == silver
    ensures q.silver.high - silver == SilverSpread
    ensures q.gold.low - silver == GoldMinOffset && q.gold.high - silver == GoldMaxOffset
    ensures q.platinum.low - silver == PlatinumMinOffset && q.platinum.high - silver == PlatinumMaxOffset
  {
    AddHundreds(silver, SilverSpread);
    AddHundreds(silver, GoldMinOffset);
    AddHundreds(silver, GoldMaxOffset);
    AddHundreds(silver, PlatinumMinOffset);
    AddHundreds(silver, PlatinumMaxOffset);
    Quote(
      Tier(silver, silver + SilverSpread, Monthly(silver)),
      Tier(silver + GoldMinOffset, silver + GoldMaxOffset, Monthly(silver + GoldMinOffset)),
      Tier(silver + PlatinumMinOffset, silver + PlatinumMaxOffset, Monthly(silver + PlatinumMinOffset)))
  }

  /** The ranges are strictly increasing from Silver to Platinum, every bound is a
      whole hundred, and each monthly figure is that of the tier's lower bound. */
  predicate WellShaped(q: Quote)
  {
    && q.silver.low < q.silver.high < q.gold.low < q.gold.high < q.platinum.low < q.platinum.high
    && q.silver.low % 100 == 0 && q.silver.high % 100 == 0
    && q.gold.low % 100 == 0 && q.gold.high % 100 == 0
    && q.platinum.low % 100 == 0 && q.platinum.high % 100 == 0
    && q.silver.monthly == Monthly(q.silver.low)
    && q.gold.monthly == Monthly(q.gold.low)
    && q.platinum.monthly == Monthly(q.platinum.low)
  }

  /** getPricing. */
  function GetPricing(priority: string, size: string, systemType: string): (q: Quote)
    ensures WellShaped(q)
    ensures q.silver.high - q.silver.low == SilverSpread
    ensures q.gold.low - q.silver.low == GoldMinOffset && q.gold.high - q.silver.low == GoldMaxOffset
    ensures q.platinum.low - q.silver.low == PlatinumMinOffset && q.platinum.high - q.silver.low == PlatinumMaxOffset
    ensures var sel := Resolve(priority, size, systemType);
      q.silver.low == CalculateRetail(sel.cost, sel.size) && q.silver.low > sel.cost + LaborOverhead(sel.size)
  {
    var sel := Resolve(priority, size, systemType);
    var silver := CalculateRetail(sel.cost, sel.size);
    TiersFrom(silver)
  }

  /** A size the table lacks (including the empty string) is priced as 3 ton. */
  lemma SizeFallback(priority: string, size: string, systemType: string)
    requires !IsTableSize(size)
    ensures GetPricing(priority, size, systemType) == GetPricing(priority, FallbackSize, systemType)
  {
  }

  /** "value", "performance" and every other priority but "budget" price alike. */
  lemma NonBudgetPrioritiesAgree(priority: string, size: string, systemType: string)
    requires priority != "budget"
    ensures GetPricing(priority, size, systemType) == GetPricing("performance", size, systemType)
    ensures GetPricing("value", size, systemType) == GetPricing("performance", size, systemType)
  {
  }

  /** A system type naming neither package nor gaspack is priced as a split system. */
  lemma UnknownTypeIsSplit(priority: string, size: string, systemType: string)
    requires forall i :: !OccursAt(systemType, "package", i) && !OccursAt(systemType, "gaspack", i)
    ensures GetPricing(priority, size, systemType) == GetPricing(priority, size, "split")
  {
    ContainsIffOccurs(systemType, "package");
    ContainsIffOccurs(systemType, "gaspack");
    NoMatchInSplit();
  }

  lemma NoMatchInSplit()
    ensures !Contains("split", "package") && !Contains("split", "gaspack")
  {
    ContainsIffOccurs("split", "package");
    ContainsIffOccurs("split", "gaspack");
  }

  /** Budget, 3 ton, split: dealer cost 3768, labour 1000, (3768 + 1000) / 0.45 = 10595.6,
      so Silver is 10600 to 11100 at 159 a month. */
  lemma BudgetSplitThreeTon()
    ensures Resolve("budget", "3ton", "split").cost == 3768
    ensures GetPricing("budget", "3ton", "split")
            == Quote(Tier(10600, 11100, 159), Tier(12100, 12600, 182), Tier(13600, 14600, 204))
  {
    NoMatchInSplit();
  }

  /** An answer of the quiz, or `default` when it is missing or empty (`quizData.x || default`). */
  function AnswerOr(quizData: map<string, string>, key: string, default: string): (a: string)
    ensures key in quizData && quizData[key] != "" ==> a == quizData[key]
    ensures key !in quizData || quizData[key] == "" ==> a == default
  {
    if key in quizData && quizData[key] != "" then quizData[key] else default
  }

  /** The pricing the Results screen shows for a set of quiz answers, with its defaults. */
  function ResultsPricing(quizData: map<string, string>): Quote
  {
    GetPricing(AnswerOr(quizData, "priority", "value"), AnswerOr(quizData, "size", "3ton"),
               AnswerOr(quizData, "systemType", "split"))
  }

  /** Answers that are all supplied are priced as given; the defaults play no part. */
  lemma AnswersArePriced(quizData: map<string, string>)
    requires "priority" in quizData && quizData["priority"] != ""
    requires "size" in quizData && quizData["size"] != ""
    requires "systemType" in quizData && quizData["systemType"] != ""
    ensures ResultsPricing(quizData) == GetPricing(quizData["priority"], quizData["size"], quizData["systemType"])
  {
  }

  /** An empty answer object is priced as a premium 3 ton split system. */
  lemma ResultsDefaults()
    ensures ResultsPricing(map[]) == GetPricing("value", "3ton", "split")
    ensures Resolve("value", "3ton", "split") == Selection(Amstd, Split, "3ton", 5673)
  {
    NoMatchInSplit();
  }

  /** (5673 + 1000) / 0.45 = 14828.9, so that default Silver range is 14900 to 15400. */
  lemma DefaultSilver()
    ensures ResultsPricing(map[]).silver == Tier(14900, 15400, 224)
  {
    ResultsDefaults();
    assert CalculateRetail(5673, "3ton") == 14900;
  }
}
