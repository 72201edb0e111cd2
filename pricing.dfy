/**
 * The print-cost calculator: a two-tier per-page rate for each of the four
 * combinations of colour mode and side mode, with a built-in default rate card
 * that stands in for any missing cell. Money is exact (`real`).
 */
module Pricing {

  datatype PrintType = BW | Color
  datatype SideType = Single | Double

  /** One cell of the 2x2 rate card. */
  datatype Cell = Cell(printType: PrintType, side: SideType)

  /** `basePrice` per page up to `baseLimit` pages, `extraPrice` per page after that. */
  datatype PricingTier = PricingTier(basePrice: real, baseLimit: int, extraPrice: real)

  /** A rate card; a cell may be missing (a partially filled configuration record). */
  type PricingConfig = map<Cell, PricingTier>

  const AllCells: seq<Cell> :=
    [Cell(BW, Single), Cell(BW, Double), Cell(Color, Single), Cell(Color, Double)]

  /** Every one of the four cells is present. */
  predicate Complete(config: PricingConfig) {
    && Cell(BW, Single) in config && Cell(BW, Double) in config
    && Cell(Color, Single) in config && Cell(Color, Double) in config
  }

  lemma CompleteHasEveryCell(config: PricingConfig, cell: Cell)
    requires Complete(config)
    ensures cell in config
  {
    match cell
    case Cell(BW, Single) =>
    case Cell(BW, Double) =>
    case Cell(Color, Single) =>
    case Cell(Color, Double) =>
  }

  lemma AllCellsListsEveryCell(cell: Cell)
    ensures cell in AllCells
  {
    match cell
    case Cell(BW, Single) => assert AllCells[0] == cell;
    case Cell(BW, Double) => assert AllCells[1] == cell;
    case Cell(Color, Single) => assert AllCells[2] == cell;
    case Cell(Color, Double) => assert AllCells[3] == cell;
  }

  /** The position of a cell in `AllCells`. */
  function CellIndex(cell: Cell): (k: nat)
    ensures k < |AllCells| && AllCells[k] == cell
  {
    match cell
    case Cell(BW, Single) => 0
    case Cell(BW, Double) => 1
    case Cell(Color, Single) => 2
    case Cell(Color, Double) => 3
  }

  /** No cell is listed twice. */
  lemma CellIndexOf(k: int)
    requires 0 <= k < |AllCells|
    ensures CellIndex(AllCells[k]) == k
  {
  }

  /** Two complete rate cards that agree on the four cells are the same card. */
  lemma CellByCell(a: PricingConfig, b: PricingConfig)
    requires Complete(a) && Complete(b)
    requires forall i :: 0 <= i < |AllCells| ==> a[AllCells[i]] == b[AllCells[i]]
    ensures a == b
  {
    forall cell | cell in a
      ensures cell in b && a[cell] == b[cell]
    {
      CompleteHasEveryCell(b, cell);
      match cell
      case Cell(BW, Single) => assert AllCells[0] == cell;
      case Cell(BW, Double) => assert AllCells[1] == cell;
      case Cell(Color, Single) => assert AllCells[2] == cell;
      case Cell(Color, Double) => assert AllCells[3] == cell;
    }
    forall cell | cell in b
      ensures cell in a
    {
      CompleteHasEveryCell(a, cell);
    }
  }

  /** The invariant of a tier: no field is negative. */
  predicate ValidTier(tier: PricingTier) {
    tier.basePrice >= 0.0 && tier.baseLimit >= 0 && tier.extraPrice >= 0.0
  }

  const DefaultPricing: PricingConfig := map[
    Cell(BW, Single) := PricingTier(2.0, 10, 1.0),
    Cell(BW, Double) := PricingTier(2.0, 10, 1.5),
    Cell(Color, Single) := PricingTier(10.0, 0, 10.0),
    Cell(Color, Double) := PricingTier(20.0, 0, 20.0)
  ]

  lemma DefaultPricingValid()
    ensures Complete(DefaultPricing)
    ensures forall c :: c in DefaultPricing ==> ValidTier(DefaultPricing[c])
  {
  }

  /** The tier a quote uses: the configured one, or the default for the same cell. */
  function TierFor(config: PricingConfig, printType: PrintType, sideType: SideType): (tier: PricingTier)
    ensures Cell(printType, sideType) in config ==> tier == config[Cell(printType, sideType)]
    ensures Cell(printType, sideType) !in config ==>
      Cell(printType, sideType) in DefaultPricing && tier == DefaultPricing[Cell(printType, sideType)]
  {
    DefaultPricingValid();
    CompleteHasEveryCell(DefaultPricing, Cell(printType, sideType));
    var cell := Cell(printType, sideType);
    if cell in config then config[cell] else DefaultPricing[cell]
  }

  /** The price of `pages` pages under one tier. */
  function TierCost(tier: PricingTier, pages: int): (cost: real)
    ensures pages == 0 && tier.baseLimit >= 0 ==> cost == 0.0
    ensures pages >= 0 && ValidTier(tier) ==> cost >= 0.0
  {
    if pages <= tier.baseLimit then pages as real * tier.basePrice
    else tier.baseLimit as real * tier.basePrice + (pages - tier.baseLimit) as real * tier.extraPrice
  }

  /** `calculatePrintCost`: total over every page count and every configuration. */
  function CalculatePrintCost(pages: int, printType: PrintType, sideType: SideType, config: PricingConfig): (cost: real)
    ensures Cell(printType, sideType) in config ==> cost == TierCost(config[Cell(printType, sideType)], pages)
    ensures Cell(printType, sideType) !in config ==>
      Cell(printType, sideType) in DefaultPricing && cost == TierCost(DefaultPricing[Cell(printType, sideType)], pages)
  {
    TierCost(TierFor(config, printType, sideType), pages)
  }

  // ---- An independent reference: the cost is the sum of per-page prices ----

  /** The price of the `k`-th page (counting from 1) of a job. */
  function PagePrice(tier: PricingTier, k: int): (price: real)
    ensures price == tier.basePrice || price == tier.extraPrice
    ensures ValidTier(tier) ==> price >= 0.0
  {
    if k <= tier.baseLimit then tier.basePrice else tier.extraPrice
  }

  /** The sum of the per-page prices of pages 1..n. */
  function SumOfPagePrices(tier: PricingTier, n: nat): (sum: real)
    ensures ValidTier(tier) ==> sum >= 0.0
  {
    if n == 0 then 0.0 else SumOfPagePrices(tier, n - 1) + PagePrice(tier, n)
  }

  /** Each extra page adds exactly its own price: `basePrice` up to the limit, `extraPrice` after it. */
  lemma MarginalCost(tier: PricingTier, n: int)
    requires n >= 0
    ensures TierCost(tier, n + 1) == TierCost(tier, n) + PagePrice(tier, n + 1)
  {
    var b, l, e := tier.basePrice, tier.baseLimit, tier.extraPrice;
    if n + 1 <= l {
      assert (n + 1) as real * b == n as real * b + b;
    } else if n == l {
      assert TierCost(tier, n) == n as real * b;
      assert TierCost(tier, n + 1) == l as real * b + 1.0 * e;
    } else {
      assert (n + 1 - l) as real * e == (n - l) as real * e + e;
    }
  }

  /** The calculator charges every page its own tier price: no flat fee. */
  lemma {:induction false} CostIsSumOfPagePrices(tier: PricingTier, n: nat)
    requires tier.baseLimit >= 0
    ensures TierCost(tier, n) == SumOfPagePrices(tier, n)
  {
    if n > 0 {
      CostIsSumOfPagePrices(tier, n - 1);
      MarginalCost(tier, n - 1);
    }
  }

  /** Within the base tier the cost is a per-page charge. */
  lemma WithinBaseLimit(pages: int, printType: PrintType, sideType: SideType, config: PricingConfig)
    requires pages <= TierFor(config, printType, sideType).baseLimit
    ensures CalculatePrintCost(pages, printType, sideType, config)
         == pages as real * TierFor(config, printType, sideType).basePrice
  {
  }

  /** Beyond the base tier the first `baseLimit` pages cost `basePrice` each, the rest `extraPrice`. */
  lemma BeyondBaseLimit(pages: int, printType: PrintType, sideType: SideType, config: PricingConfig)
    requires pages > TierFor(config, printType, sideType).baseLimit
    ensures var tier := TierFor(config, printType, sideType);
      CalculatePrintCost(pages, printType, sideType, config)
        == tier.baseLimit as real * tier.basePrice + (pages - tier.baseLimit) as real * tier.extraPrice
  {
  }

  /** Zero pages cost nothing, whenever the tier's limit is not negative. */
  lemma ZeroPagesCostNothing(printType: PrintType, sideType: SideType, config: PricingConfig)
    requires TierFor(config, printType, sideType).baseLimit >= 0
    ensures CalculatePrintCost(0, printType, sideType, config) == 0.0
  {
  }

  /** What zero pages cost under any tier: nothing for a non-negative limit, `l * (basePrice - extraPrice)` for a negative one. */
  lemma ZeroPagesCharge(tier: PricingTier)
    ensures TierCost(tier, 0) ==
      if tier.baseLimit >= 0 then 0.0 else tier.baseLimit as real * (tier.basePrice - tier.extraPrice)
  {
    var l, b, e := tier.baseLimit as real, tier.basePrice, tier.extraPrice;
    if tier.baseLimit < 0 {
      assert l * b + (0.0 - l) * e == l * (b - e);
    }
  }

  /** With a negative limit the literal formula charges a non-zero amount for zero pages. */
  /** A negative page count is not rejected: the default black-and-white tier quotes −2 for −1 pages. */
  lemma NegativePageCountPriced()
    ensures CalculatePrintCost(-1, BW, Single, DefaultPricing) == -2.0
  {
  }

  lemma NegativeLimitChargesForNothing()
    ensures TierCost(PricingTier(2.0, -1, 1.0), 0) == -1.0
  {
  }

  lemma {:induction false} SumNonDecreasing(tier: PricingTier, m: nat, n: nat)
    requires ValidTier(tier) && m <= n
    ensures 0.0 <= SumOfPagePrices(tier, m) <= SumOfPagePrices(tier, n)
    decreases n
  {
    if m < n {
      SumNonDecreasing(tier, m, n - 1);
    } else if n > 0 {
      SumNonDecreasing(tier, n - 1, n - 1);
    }
  }

  /** With a valid tier the cost is non-negative and never falls as the page count grows. */
  lemma CostMonotone(p1: int, p2: int, printType: PrintType, sideType: SideType, config: PricingConfig)
    requires 0 <= p1 <= p2
    requires ValidTier(TierFor(config, printType, sideType))
    ensures 0.0 <= CalculatePrintCost(p1, printType, sideType, config)
    ensures CalculatePrintCost(p1, printType, sideType, config) <= CalculatePrintCost(p2, printType, sideType, config)
  {
    var tier := TierFor(config, printType, sideType);
    CostIsSumOfPagePrices(tier, p1);
    CostIsSumOfPagePrices(tier, p2);
    SumNonDecreasing(tier, p1, p2);
  }

  /** Both branches agree at the limit, and the steps on either side of it are `basePrice` and `extraPrice`. */
  lemma TierBoundary(printType: PrintType, sideType: SideType, config: PricingConfig)
    requires TierFor(config, printType, sideType).baseLimit >= 0
    ensures var tier := TierFor(config, printType, sideType);
      var l := tier.baseLimit;
      && CalculatePrintCost(l, printType, sideType, config) == l as real * tier.basePrice
      && (l >= 1 ==>
            CalculatePrintCost(l, printType, sideType, config) - CalculatePrintCost(l - 1, printType, sideType, config) == tier.basePrice)
      && CalculatePrintCost(l + 1, printType, sideType, config) - CalculatePrintCost(l, printType, sideType, config) == tier.extraPrice
  {
    var tier := TierFor(config, printType, sideType);
    if tier.baseLimit >= 1 {
      MarginalCost(tier, tier.baseLimit - 1);
    }
    MarginalCost(tier, tier.baseLimit);
  }

  /** With the default card, 15 single-sided black-and-white pages cost 10*2 + 5*1. */
  lemma DefaultBlackAndWhiteQuote()
    ensures CalculatePrintCost(15, BW, Single, DefaultPricing) == 25.0
  {
  }

  /** A colour double-sided tier with no base pages charges `extraPrice` for every page. */
  lemma ColourDoubleQuote()
    ensures CalculatePrintCost(3, Color, Double, map[Cell(Color, Double) := PricingTier(20.0, 0, 20.0)]) == 60.0
  {
  }

  /** A card that lacks the colour single-sided cell is priced from the default for that cell. */
  lemma MissingCellUsesDefault(config: PricingConfig, pages: int)
    requires Cell(Color, Single) !in config
    ensures CalculatePrintCost(pages, Color, Single, config) == pages as real * 10.0
  {
  }
}
