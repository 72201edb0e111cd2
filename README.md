# Print-shop pricing, page selection and route guard in Dafny

This project models the logic of a print-shop web application that can be stated and proved. It covers three parts.

- **The quote engine** (`src/lib/utils.ts`). `calculatePrintCost` prices a job from a 2×2 rate card. The card has one cell per colour mode (black-and-white, colour) and side mode (single, double). Each cell is a two-tier rate: `basePrice` per page up to `baseLimit` pages, then `extraPrice` per page after that. A missing cell falls back to the built-in `DEFAULT_PRICING`. `parsePageRange` turns a free-form selection such as `"1-3, 5, 10-12"` or `"All"` into the number of distinct pages to print. When nothing valid is selected it counts every page.
- **The owner's rate-card page** (`src/app/dashboard/owner/pricing/page.tsx`). It covers three operations:
  - `loadPricing` decodes `pricing_config` rows onto a fresh copy of the defaults, with system rows (no owner) applied before the owner's;
  - `handleSave` encodes the card as eight rows;
  - `updateTier` edits one field of one cell.
- **The request guard** (`src/middleware.ts`). It decides whether a request for a path passes, or is redirected to the sign-in page or a dashboard. The decision depends on the session and the user's role.

Modules:

| module | file | what it holds |
|---|---|---|
| `Wrappers` | `wrappers.dfy` | `Option` |
| `JsString` | `js_string.dfy` | the ECMAScript string built-ins the code relies on: `trim`, one-character `split`, ASCII `toLowerCase`/`toUpperCase`, and `parseInt` without a radix (white space, sign, `0x` prefix, longest digit prefix, NaN as `None`) |
| `Pricing` | `pricing.dfy` | the rate card, `DEFAULT_PRICING`, `calculatePrintCost`, and a reference definition of the cost as a sum of per-page prices |
| `PageRange` | `page_range.dfy` | `parsePageRange` as a method filling a `set<int>`, proved against the function `PageCount` |
| `PageRangeExamples` | `page_range_examples.dfy` | worked selections on a ten-page document |
| `PricingPage` | `pricing_page.dfy` | the row type, the load fold (a method against `LoadedTiers`), the save loops (a method against `SaveRows`), the round trip, and `updateTier` |
| `RouteGuard` | `route_guard.dfy` | the guard's decision as a pure function over the path and the lookups' result, and the absence of redirect loops |

Money is exact `real` and page counts and limits are `int`. The rate card is a `map<Cell, PricingTier>`. It may be partial for the calculator, and it is complete on the page.

Some behaviours of the code are worth stating outright:

- `calculatePrintCost` has no check on the page count. A negative page count is not rejected; it is priced by the same formula. Zero pages cost nothing when the tier's limit is not negative (`ZeroPagesCostNothing`). For a non-negative page count, the quote is non-negative and grows with the page count when the tier has no negative field (`CostMonotone`); for −1 pages the default black-and-white tier quotes −2 (`NegativePageCountPriced`). A negative limit `l` charges `l × (basePrice − extraPrice)` for zero pages, which is not zero unless the two rates are equal (`ZeroPagesCharge`, `NegativeLimitChargesForNothing`).
- `"-5-200"` is not a clamped range. `"-5-200".split('-')` is `["", "5", "200"]`, and only the first two pieces are read. Its first dash piece is empty, and `parseInt("")` is NaN, so the segment selects nothing (`LeadingDashIsNaN`). The count then falls back to every page.
- `parseInt` follows JavaScript: a `0x`/`0X` prefix switches to base 16, and the longest run of digits is read, so `"3x"` is 3.
- The round trip of save and load holds for every integer `baseLimit`, negative ones included. The saved limit is never null, and `|| 0` only turns 0 into 0.

## Model

| member | source | states |
|---|---|---|
| Pricing.DefaultPricingValid | src/lib/utils.ts:52-61 | the default card has all four cells, and no field of any of them is negative |
| Pricing.TierFor | src/lib/utils.ts:69-73 | a cell present in the card is used as it is; a missing cell takes the default card's tier for the same cell, which always exists, so a quote never fails |
| Pricing.TierCost | src/lib/utils.ts:75-83 | zero pages cost nothing when the limit is not negative, and a valid tier never quotes a negative cost for a non-negative page count |
| Pricing.CalculatePrintCost | src/lib/utils.ts:63-84 | the quote is the tier formula applied to the card's cell if present, else to the default card's cell, which always exists |
| Pricing.PagePrice | src/lib/utils.ts:75-83 | one page costs either `basePrice` or `extraPrice`, never a negative amount for a valid tier |
| Pricing.SumOfPagePrices | src/lib/utils.ts:75-83 | the reference total of the per-page prices is non-negative for a valid tier |
| Pricing.SumNonDecreasing | src/lib/utils.ts:75-83 | for a valid tier the per-page total never falls as pages are added |
| Pricing.CellIndex | src/lib/utils.ts:41-50 | every cell of the card has a position in the list of the four cells |
| Pricing.CellIndexOf | src/lib/utils.ts:41-50 | the position of the k-th cell in the list is k |
| Pricing.MarginalCost | src/lib/utils.ts:75-83 | for any tier, pricing one more page adds exactly that page's price: `basePrice` up to the limit, `extraPrice` after it |
| Pricing.CostIsSumOfPagePrices | src/lib/utils.ts:75-83 | for a non-negative limit, the cost of n pages equals the sum of the n per-page prices (reference definition `SumOfPagePrices`), so the charge is per page and not a flat fee |
| Pricing.WithinBaseLimit | src/lib/utils.ts:75-77 | up to the tier's limit the quote is pages × `basePrice` |
| Pricing.BeyondBaseLimit | src/lib/utils.ts:79-83 | beyond the limit the quote is limit × `basePrice` plus the remaining pages × `extraPrice` |
| Pricing.ZeroPagesCostNothing | src/lib/utils.ts:75-76 | zero pages cost 0 whenever the tier's limit is not negative |
| Pricing.ZeroPagesCharge | src/lib/utils.ts:75-83 | for any tier, zero pages cost nothing when the limit is not negative and `limit × (basePrice − extraPrice)` when it is negative |
| Pricing.NegativeLimitChargesForNothing | src/lib/utils.ts:79-83 | with limit −1, base price 2 and extra price 1 the formula charges −1 for zero pages |
| Pricing.CostMonotone | src/lib/utils.ts:75-83 | for non-negative page counts and a valid tier, the quote is non-negative and never decreases as the page count grows |
| Pricing.NegativePageCountPriced | src/lib/utils.ts:63-84 | a negative page count is not rejected: −1 single-sided black-and-white pages at the default rates are quoted −2 |
| Pricing.TierBoundary | src/lib/utils.ts:75-83 | for a non-negative limit both branches agree at the limit, the page at the limit costs `basePrice` (when the limit is at least 1), and the page after it costs `extraPrice` |
| Pricing.DefaultBlackAndWhiteQuote | src/lib/utils.ts:52-84 | with the default card, 15 single-sided black-and-white pages cost 25 |
| Pricing.ColourDoubleQuote | src/lib/utils.ts:75-83 | a tier with limit 0 charges `extraPrice` for every page: 3 pages at 20 cost 60 |
| Pricing.MissingCellUsesDefault | src/lib/utils.ts:58-73 | a card without the colour single-sided cell quotes it at the default 10 per page |
| JsString.TrimStart | src/lib/utils.ts:96 | the result is a suffix of the input, everything removed before it is white space, and it does not start with white space |
| JsString.TrimEnd | src/lib/utils.ts:96 | the result is a prefix of the input, everything removed after it is white space, and it does not end with white space |
| JsString.Trim | src/lib/utils.ts:96 | the result neither starts nor ends with white space |
| JsString.TrimNoWhiteSpace | src/lib/utils.ts:96 | text without white space is left unchanged by trimming |
| JsString.Split | src/lib/utils.ts:92 | there is at least one piece; there are two or more exactly when the separator occurs; no piece contains the separator |
| JsString.SplitWithoutSep | src/lib/utils.ts:92 | text without the separator splits into itself alone |
| JsString.SplitAtFirstSep | src/lib/utils.ts:92 | splitting `x + sep + y`, where `x` has no separator, gives `x` followed by the pieces of `y` |
| JsString.SplitInTwo | src/lib/utils.ts:98 | text with exactly one separator splits into the two sides of it |
| JsString.ToLower | src/lib/utils.ts:90 | the same length, with every ASCII capital lowered and every other character kept |
| JsString.ToUpper | src/app/dashboard/owner/pricing/page.tsx:98-99 | the same length, with every ASCII small letter raised and every other character kept |
| JsString.DigitValue | src/lib/utils.ts:107 | the digit table: in base 10 exactly `0`–`9` are digits, in base 16 also `a`–`f` and `A`–`F`, with values 0–9 and 10–15; −1 marks a non-digit |
| JsString.DigitPrefix | src/lib/utils.ts:107 | a prefix of the text made only of digits, stopping at the first non-digit |
| JsString.DigitsValue | src/lib/utils.ts:107 | a digit string denotes a non-negative number; `DecimalValue` shows that it inverts `Decimal` |
| JsString.ParseInt | src/lib/utils.ts:98 | text of only white space is NaN, and a negative result needs a minus sign in the text |
| JsString.ParseSigned | src/lib/utils.ts:107 | a negative result comes only from text starting with a minus sign |
| JsString.ParseUnsigned | src/lib/utils.ts:107 | without a sign the result is never negative |
| JsString.ParseDigits | src/lib/utils.ts:107 | a number is read exactly when the text starts with a digit of the radix, and it is non-negative |
| JsString.NoLeadingWhiteSpace | src/lib/utils.ts:107 | text that does not start with white space is parsed as it is |
| JsString.DecimalDigit | src/lib/utils.ts:107 | the character for a digit value is a decimal digit whose value is that number |
| JsString.Decimal | src/lib/utils.ts:107 | the decimal rendering of a number is a non-empty run of decimal digits |
| JsString.DecimalValue | src/lib/utils.ts:107 | the digits of a number's decimal rendering denote that number |
| JsString.DecimalRoundTrip | src/lib/utils.ts:107 | `parseInt` of a number's decimal rendering is that number, for every natural number |
| JsString.DigitPrefixAll | src/lib/utils.ts:107 | a string made only of digits of the radix is read in full |
| JsString.UnsignedDecimal | src/lib/utils.ts:107 | an unsigned decimal rendering of a number is read in base 10 as that number |
| JsString.PlusSignDropped | src/lib/utils.ts:98 | `parseInt("+" + x)` is the number x for every x written in decimal: a leading plus sign is dropped |
| JsString.MinusSignNegates | src/lib/utils.ts:98 | `parseInt("-" + x)` is −x for every x written in decimal: a leading minus sign negates |
| JsString.HexPrefix | src/lib/utils.ts:107 | `0x` or `0X` followed by hexadecimal digits is read as one base-16 number |
| JsString.HexPrefixWith | src/lib/utils.ts:107 | the same, for one spelling of the prefix |
| JsString.ParseIntLeadingDigits | src/lib/utils.ts:107 | `parseInt` reads the leading decimal digits and ignores what follows them (`"3x"` gives 3), unless the text is hexadecimal |
| JsString.ParseIntDecimal | src/lib/utils.ts:107 | `parseInt` of a run of decimal digits is the number they denote |
| JsString.ParseIntDecimalStart | src/lib/utils.ts:107 | text starting with a digit and not with `0x` is read in base 10 with no white space or sign to skip |
| JsString.DigitPrefixStops | src/lib/utils.ts:107 | the digit prefix of digits followed by a non-digit is exactly those digits |
| JsString.ParseIntNotANumber | src/lib/utils.ts:107 | text starting with neither white space, a sign nor a digit is NaN |
| PageRange.Between | src/lib/utils.ts:102-104 | the set holds exactly the integers from `lo` to `hi` |
| PageRange.BetweenSize | src/lib/utils.ts:102-104 | the integers from `lo` to `hi` number `hi − lo + 1` |
| PageRange.SubsetSize | src/lib/utils.ts:114 | a subset is no larger than the set that holds it |
| PageRange.Endpoint | src/lib/utils.ts:98 | one dash piece, trimmed and parsed |
| PageRange.RangePages | src/lib/utils.ts:99-104 | the pages a range adds all lie in [1, totalPages] |
| PageRange.SinglePage | src/lib/utils.ts:107-110 | the page a single number adds lies in [1, totalPages] |
| PageRange.SegmentPages | src/lib/utils.ts:96-110 | every page one segment selects lies in [1, totalPages] |
| PageRange.PartPages | src/lib/utils.ts:97-110 | every page a trimmed segment selects lies in [1, totalPages] |
| PageRange.DashPages | src/lib/utils.ts:98-104 | only the first two dash pieces are read, and every page they select lies in [1, totalPages] |
| PageRange.SegmentPagesWithDash | src/lib/utils.ts:97-104 | a trimmed segment with a dash selects the range of its first two pieces, each trimmed and parsed |
| PageRange.SegmentPagesWithoutDash | src/lib/utils.ts:106-110 | a trimmed segment without a dash selects the single page it parses to |
| PageRange.PartPagesWithoutDash | src/lib/utils.ts:106-110 | a part without a dash selects the single page it parses to |
| PageRange.Selection | src/lib/utils.ts:92-112 | the pages the segments select all lie in [1, totalPages] |
| PageRange.PageCount | src/lib/utils.ts:89-115 | the empty selection and "all" count every page; any other selection counts every page or the non-zero number of pages its segments select |
| PageRange.ParsePageRange | src/lib/utils.ts:89-115 | the method returns `PageCount(range, totalPages)`: the size of the set its loop fills if non-empty, else the page count |
| PageRange.SelectionSnoc | src/lib/utils.ts:95-112 | after one more segment the selection is the previous one plus that segment's pages |
| PageRange.AddSegment | src/lib/utils.ts:96-111 | one pass of the `forEach` body adds exactly the segment's pages to the set |
| PageRange.AddPart | src/lib/utils.ts:97-110 | the dash and no-dash branches add exactly the part's pages to the set |
| PageRange.AddPages | src/lib/utils.ts:102-104 | the inner loop adds exactly the pages from `s` to `e` |
| PageRange.SelectionIsUnion | src/lib/utils.ts:92-112 | a page is selected exactly when some segment selects it, so overlapping segments count each page once |
| PageRange.PageCountBounds | src/lib/utils.ts:92-114 | for a document of at least one page the count lies between 1 and the page count |
| PageRange.AllSelectsEveryPage | src/lib/utils.ts:90 | the empty selection, and every spelling of "all" in any mix of letter cases, count every page |
| PageRange.LowerIsAll | src/lib/utils.ts:90 | a selection lower-cases to "all" exactly when it is the three letters a, l, l, each in either case |
| PageRange.RangeSegmentClamped | src/lib/utils.ts:98-104 | a range segment selects exactly the pages of [1, totalPages] between its endpoints, whichever comes first, and nothing when an endpoint is NaN |
| PageRange.RangePagesClamped | src/lib/utils.ts:99-104 | the same, stated for the parsed endpoints |
| PageRange.InvertedPieces | src/lib/utils.ts:98-101 | swapping the two pieces of a range selects the same pages |
| PageRange.RangePagesSymmetric | src/lib/utils.ts:100-101 | the order of a range's endpoints does not matter |
| PageRange.InvertedRange | src/lib/utils.ts:97-104 | `"b-a"` selects the same pages as `"a-b"` |
| PageRange.SingleSegment | src/lib/utils.ts:106-110 | a segment without a dash selects its parsed page exactly when that page lies in [1, totalPages], and nothing else |
| PageRange.RangeOfEndpoints | src/lib/utils.ts:97-104 | a range segment whose pieces parse to given endpoints selects the clamped range of those endpoints |
| PageRange.DecimalRangeHasNoWhiteSpace | src/lib/utils.ts:96 | two decimal numbers joined by a dash contain no white space |
| PageRange.DecimalRangePieces | src/lib/utils.ts:96-98 | `"x-y"` of two decimal numbers is left alone by trimming and splits into `x` and `y` |
| PageRange.DecimalEndpoint | src/lib/utils.ts:98 | a decimal endpoint parses to the number its digits denote |
| PageRange.PlainEndpoint | src/lib/utils.ts:98 | trimming does not change how a decimal endpoint parses |
| PageRange.DecimalRange | src/lib/utils.ts:97-104 | `"x-y"` of two decimal numbers selects the clamped range between their values |
| PageRange.InsideDocument | src/lib/utils.ts:100-104 | a range inside the document is not clamped |
| PageRange.PagesOfRange | src/lib/utils.ts:97-104 | `"a-b"` with 1 ≤ a ≤ b ≤ totalPages selects exactly the pages a..b |
| PageRange.SelectionOfOne | src/lib/utils.ts:92-112 | a one-segment selection is that segment's pages |
| PageRange.SelectionAppend | src/lib/utils.ts:95-112 | a further segment adds its pages to the selection of the segments before it |
| PageRange.SelectionOfUnsplit | src/lib/utils.ts:92-112 | a selection without a comma is one segment |
| PageRange.CountOfSelection | src/lib/utils.ts:114 | outside the empty and "all" cases, the count is the size of the selection if it is non-empty, else the page count |
| PageRange.LeadingDashSelectsNothing | src/lib/utils.ts:98-99 | a segment starting with a dash has an empty first piece, which is NaN, so it selects nothing |
| PageRange.LeadingDashIsNaN | src/lib/utils.ts:98-99 | `"-5-200"` selects nothing |
| PageRange.NothingValidMeansAll | src/lib/utils.ts:95-114 | when no segment selects a page, the whole document is counted |
| PageRange.NotANumberSelectsNothing | src/lib/utils.ts:106-110 | a token that does not start like a number selects nothing |
| PageRange.NumberSegment | src/lib/utils.ts:106-110 | a decimal number selects that page when it is a page of the document |
| PageRange.DecimalPage | src/lib/utils.ts:106-110 | the decimal rendering of any natural number selects that page when it lies in [1, totalPages], and nothing otherwise |
| PageRange.DecimalPageRange | src/lib/utils.ts:97-104 | `"a-b"` for any natural numbers a and b selects the pages of [1, totalPages] between them, whichever comes first |
| PageRange.DecimalIsPlain | src/lib/utils.ts:96-97 | a decimal number is left alone by trimming and holds no dash |
| PageRange.OutOfRangeFallsBack | src/lib/utils.ts:106-114 | `"50"` on a shorter document selects nothing, so every page is counted |
| PageRange.FiftySelectsNothing | src/lib/utils.ts:107-110 | the token `"50"` selects no page of a shorter document |
| PageRange.SplitMalformed | src/lib/utils.ts:92 | `"garbage,,--"` splits into `"garbage"`, `""` and `"--"` |
| PageRange.MalformedFallsBack | src/lib/utils.ts:92-114 | `"garbage,,--"` counts every page |
| PageRange.GarbageSelectsNothing | src/lib/utils.ts:106-110 | `"garbage"` selects nothing |
| PageRange.EmptySelectsNothing | src/lib/utils.ts:106-110 | an empty segment selects nothing |
| PageRange.DashesSelectNothing | src/lib/utils.ts:97-99 | `"--"` selects nothing |
| PageRangeExamples.NotAll | src/lib/utils.ts:90 | the example selections are neither empty nor "all" |
| PageRangeExamples.SmallValues | src/lib/utils.ts:107 | the single digits used in the examples denote their values |
| PageRangeExamples.PagesOneToThree | src/lib/utils.ts:97-104 | `"1-3"` selects pages 1 to 3 of ten |
| PageRangeExamples.PagesTwoToFour | src/lib/utils.ts:97-104 | `"2-4"` selects pages 2 to 4 of ten |
| PageRangeExamples.PagesOneToFive | src/lib/utils.ts:97-104 | `"1-5"` selects pages 1 to 5 of ten |
| PageRangeExamples.PageFive | src/lib/utils.ts:106-110 | `"5"` selects page 5 of ten |
| PageRangeExamples.PageSeven | src/lib/utils.ts:106-110 | `"7"` selects page 7 of ten |
| PageRangeExamples.SplitOneToThreeAndSeven | src/lib/utils.ts:92 | `"1-3,7"` splits into `"1-3"` and `"7"` |
| PageRangeExamples.SelectionOneToThreeAndSeven | src/lib/utils.ts:92-112 | `"1-3,7"` selects pages 1, 2, 3 and 7 |
| PageRangeExamples.SizeOneToThreeAndSeven | src/lib/utils.ts:114 | those are four pages |
| PageRangeExamples.OneToThreeAndSevenCountsFour | src/lib/utils.ts:89-115 | `"1-3,7"` on a ten-page document counts 4 pages |
| PageRangeExamples.SplitTail | src/lib/utils.ts:92 | `"2-4,5"` splits into `"2-4"` and `"5"` |
| PageRangeExamples.SplitOverlapping | src/lib/utils.ts:92 | `"1-3,2-4,5"` splits into its three segments |
| PageRangeExamples.SelectionOneToThreeAndTwoToFour | src/lib/utils.ts:92-112 | the segments `"1-3"` and `"2-4"` select the union of pages 1 to 3 and 2 to 4 |
| PageRangeExamples.SelectionOverlapping | src/lib/utils.ts:92-112 | `"1-3,2-4,5"` selects the union of its three segments' pages |
| PageRangeExamples.OverlapUnion | src/lib/utils.ts:102-104 | that union is pages 1 to 5 |
| PageRangeExamples.SelectionOneToFive | src/lib/utils.ts:92-112 | `"1-5"` selects pages 1 to 5 |
| PageRangeExamples.OverlapCountsOnce | src/lib/utils.ts:89-115 | `"1-3,2-4,5"` and `"1-5"` both count 5 pages of ten: overlaps count once |
| PricingPage.DefaultTiersAgree | src/app/dashboard/owner/pricing/page.tsx:16-25 | the page's default card is complete and equals the calculator's `DEFAULT_PRICING` cell by cell |
| PricingPage.CellOf | src/app/dashboard/owner/pricing/page.tsx:58-59 | a row names a cell exactly when its lower-cased type is `bw`/`color` and its lower-cased side is `single`/`double`, and the cell's names are those |
| PricingPage.ApplyRow | src/app/dashboard/owner/pricing/page.tsx:58-66 | a priority-1 row sets only the base price and the limit of its cell (a null limit gives 0); a priority-2 row sets only the extra price; other priorities change nothing; a priority-1 or -2 row naming no cell throws |
| PricingPage.ApplyRows | src/app/dashboard/owner/pricing/page.tsx:57-67 | applying rows without a throw keeps the card complete with the same cells |
| PricingPage.SystemRows | src/app/dashboard/owner/pricing/page.tsx:52-55 | the rows without an owner |
| PricingPage.OwnerRows | src/app/dashboard/owner/pricing/page.tsx:52-55 | the rows with an owner |
| PricingPage.SortRows | src/app/dashboard/owner/pricing/page.tsx:52-55 | after the sort no owner row comes before a system row |
| PricingPage.SortIsPermutation | src/app/dashboard/owner/pricing/page.tsx:52-55 | the sort keeps every row exactly as often as it occurs |
| PricingPage.LoadedTiers | src/app/dashboard/owner/pricing/page.tsx:46-71 | with no data or no rows the tiers stay as they were, and a complete card stays complete |
| PricingPage.NoRowsKeepsDefaults | src/app/dashboard/owner/pricing/page.tsx:31-46 | starting from the defaults, a load that finds no rows leaves the page at the defaults, which equal `DEFAULT_PRICING` |
| PricingPage.LoadPricing | src/app/dashboard/owner/pricing/page.tsx:46-71 | the method's row-by-row mutation of a copy of the defaults gives `LoadedTiers`, including a throw leaving the tiers alone |
| PricingPage.ApplyRowsSnoc | src/app/dashboard/owner/pricing/page.tsx:57-67 | one more row is applied to what the rows before it gave |
| PricingPage.ApplyRowsStaysFailed | src/app/dashboard/owner/pricing/page.tsx:57-71 | once a row has thrown, the whole load throws |
| PricingPage.ApplyRowsConcat | src/app/dashboard/owner/pricing/page.tsx:57-67 | applying `a + b` is applying `a`, then `b` to its result |
| PricingPage.LastWriterWins | src/app/dashboard/owner/pricing/page.tsx:57-67 | a field group ends with the values of the last row that writes it |
| PricingPage.UnwrittenFieldKept | src/app/dashboard/owner/pricing/page.tsx:57-67 | a field group no row writes keeps its starting value |
| PricingPage.OwnerRowOverrides | src/app/dashboard/owner/pricing/page.tsx:52-67 | the last owner row that writes a field group decides it, whatever the system rows say |
| PricingPage.LastWriterInSuffix | src/app/dashboard/owner/pricing/page.tsx:52-67 | the last writer in the later part of the rows decides the field group |
| PricingPage.CellRows | src/app/dashboard/owner/pricing/page.tsx:96-113 | each cell gives two rows owned by the user, priority 1 first and priority 2 second |
| PricingPage.RowsFor | src/app/dashboard/owner/pricing/page.tsx:91-115 | two rows per cell |
| PricingPage.SaveRows | src/app/dashboard/owner/pricing/page.tsx:91-115 | the save emits eight rows, two for each of the four cells |
| PricingPage.HandleSave | src/app/dashboard/owner/pricing/page.tsx:88-115 | the nested loops push exactly `SaveRows` |
| PricingPage.RowsForSnoc | src/app/dashboard/owner/pricing/page.tsx:91-115 | one more cell appends its two rows |
| PricingPage.RowsForIndex | src/app/dashboard/owner/pricing/page.tsx:91-115 | row `i` is row `i mod 2` of cell `i / 2` |
| PricingPage.UpperNames | src/app/dashboard/owner/pricing/page.tsx:98-99 | the saved names are `BW`, `COLOR`, `SINGLE`, `DOUBLE` |
| PricingPage.NamesDecode | src/app/dashboard/owner/pricing/page.tsx:58-59 | loading reads back the cell whose upper-cased names saving wrote |
| PricingPage.SaveRowsContent | src/app/dashboard/owner/pricing/page.tsx:91-115 | save emits 8 rows, two per cell in loop order, all owned by the user, with upper-cased names: priority 1 carries the limit and the base price, priority 2 no limit and the extra price |
| PricingPage.SavedKeysDistinct | src/app/dashboard/owner/pricing/page.tsx:91-120 | no two saved rows share the upsert key (owner, type, side, priority) |
| PricingPage.Overlay | src/app/dashboard/owner/pricing/page.tsx:57-67 | a card with some cells replaced stays complete |
| PricingPage.OverlayTakes | src/app/dashboard/owner/pricing/page.tsx:57-67 | a replaced cell holds the new tier |
| PricingPage.ApplyCellRows | src/app/dashboard/owner/pricing/page.tsx:57-115 | loading the two saved rows of a cell installs that cell's tier and nothing else |
| PricingPage.ApplyRowsForCells | src/app/dashboard/owner/pricing/page.tsx:57-115 | loading the saved rows of some cells installs exactly those cells' tiers |
| PricingPage.SaveLoadRoundTrip | src/app/dashboard/owner/pricing/page.tsx:57-115 | decoding the saved rows onto any complete card gives back the saved card |
| PricingPage.SavedRowWrites | src/app/dashboard/owner/pricing/page.tsx:91-115 | saved row i writes field group `i mod 2 + 1` of the cell at position `i / 2` |
| PricingPage.OnlyWriter | src/app/dashboard/owner/pricing/page.tsx:91-120 | exactly one saved row writes a given field group of a given cell |
| PricingPage.SavedRowValues | src/app/dashboard/owner/pricing/page.tsx:96-113 | that row carries the saved base price and limit, or the saved extra price |
| PricingPage.SameRows | src/app/dashboard/owner/pricing/page.tsx:117-120 | a row of one sequence is a row of any sequence that holds the same rows in another order |
| PricingPage.LastWriterBelow | src/app/dashboard/owner/pricing/page.tsx:57-67 | the last row that writes a field group, found at or above a known writer |
| PricingPage.NamedRowsNeverThrow | src/app/dashboard/owner/pricing/page.tsx:57-67 | rows that all name a cell never throw |
| PricingPage.OwnerRowsNamed | src/app/dashboard/owner/pricing/page.tsx:52-67 | when the owner's rows are the saved rows in any order, every one of them names a cell |
| PricingPage.OwnerRowNamed | src/app/dashboard/owner/pricing/page.tsx:52-67 | the same, for one owner row |
| PricingPage.LastOwnerWriter | src/app/dashboard/owner/pricing/page.tsx:52-67 | the last owner row writing a field group is the one saved row that writes it, whatever the order |
| PricingPage.SavedFieldLoaded | src/app/dashboard/owner/pricing/page.tsx:46-115 | after such a load, each field group of each cell holds the saved value |
| PricingPage.SavedCellLoaded | src/app/dashboard/owner/pricing/page.tsx:46-115 | after such a load, each cell holds the saved tier |
| PricingPage.SavedRowsApply | src/app/dashboard/owner/pricing/page.tsx:46-71 | such a load does not throw once the system rows do not, and it has rows to apply |
| PricingPage.LoadAfterSave | src/app/dashboard/owner/pricing/page.tsx:46-115 | when the owner's rows are the eight saved rows in any order, loading gives back the saved card whatever the system rows say, as long as none of them throws |
| PricingPage.UpdateTier | src/app/dashboard/owner/pricing/page.tsx:133-144 | exactly the edited field of the edited cell takes the new value; the other fields and cells are unchanged |
| PricingPage.EditTier | src/app/dashboard/owner/pricing/page.tsx:138-141 | the edited field takes the new value and the other two fields keep theirs |
| PricingPage.UpdateTierIdempotent | src/app/dashboard/owner/pricing/page.tsx:133-144 | repeating an edit changes nothing more |
| PricingPage.UpdateTierCommutes | src/app/dashboard/owner/pricing/page.tsx:133-144 | edits to different cells, or to different fields of a cell, can be made in either order |
| RouteGuard.HomeFor | src/middleware.ts:80-84 | `developer` goes to the developer dashboard, `owner` to the owner dashboard, any other role or no role to the customer dashboard |
| RouteGuard.Route | src/middleware.ts:8-92 | only a dashboard path or an auth page is ever redirected; a failed lookup always passes; a signed-out user on an auth page passes |
| RouteGuard.Follow | src/middleware.ts:50-85 | following redirects from a path ends on that path, `/login` or one of the three dashboards |
| RouteGuard.PublicPathPasses | src/middleware.ts:8-14 | a path that is neither a dashboard path nor `/login` or `/signup` passes |
| RouteGuard.SignedOutGoesToLogin | src/middleware.ts:50-53 | a dashboard path with no user goes to `/login` |
| RouteGuard.OwnerDashboardNeedsOwner | src/middleware.ts:63-65 | an owner-dashboard path with a role other than `owner` goes to the customer dashboard |
| RouteGuard.DeveloperDashboardNeedsDeveloper | src/middleware.ts:66-68 | a developer-dashboard path with a role other than `developer` goes to the owner dashboard |
| RouteGuard.SignedInLeavesAuthPage | src/middleware.ts:72-85 | a signed-in user on `/login` or `/signup` goes to their role's dashboard |
| RouteGuard.PassesExactly | src/middleware.ts:8-92 | a request passes exactly on a public path, a failed lookup, an auth page with no user, or a dashboard path the role may open |
| RouteGuard.RedirectTargets | src/middleware.ts:50-85 | every redirect goes to `/login` or one of the three dashboards |
| RouteGuard.TargetsSettle | src/middleware.ts:50-85 | each redirect target passes for the session that was sent there, or leads to one that does |
| RouteGuard.NoRedirectLoop | src/middleware.ts:50-85 | for a fixed session, at most two redirects reach a path that passes |
| RouteGuard.CustomerChain | src/middleware.ts:63-68 | a customer on the developer dashboard goes to the owner dashboard, then to the customer dashboard, which passes |
| RouteGuard.DashboardPaths | src/middleware.ts:63-68 | the three dashboards are protected, none lies under another, and none is an auth page |
| RouteGuard.AuthPagesAreNotProtected | src/middleware.ts:8-9 | `/login` and `/signup` are not dashboard paths |
| RouteGuard.NotBoth | src/middleware.ts:63-68 | no path lies under both the owner and the developer dashboards |

## Left out

- The Supabase queries and upsert, the session and profile lookups, and the cookie callbacks are external I/O. Their results are inputs: the rows `data`, and the guard's `Session`. The two profile lookups in the guard become one `Session`, since a request makes at most one of them.
- The upsert and its error path in `handleSave` (lines 117–130) are not modelled; the model ends with the rows handed to the upsert. The loading and saving flags, the success and error messages, and the `if (!user) return` guards are React state.
- The matcher `config` of the request guard (lines 95–101) is framework routing, not part of the decision.
- IEEE-754 floating point is not modelled: prices are exact reals, and `Number(row.rate)` is the row's real `rate`. `parseInt` is exact for every length of digit string, so precision loss above 2^53 and `Infinity` are not modelled.
- Case mapping is ASCII only. No other code point lowercases to one of the words compared against (`all`, `bw`, `color`, `single`, `double`).
- Row names that are null, or that hit inherited object keys such as `constructor` or `__proto__`, are not modelled. Row names are strings, and an unknown cell name makes the row throw.
- PricingPage.SortRows: models the comparator only over rows without an owner and rows of one owner, which is what the query returns. For rows of two different owners the comparator is inconsistent, and the model says nothing about that order.
- PricingPage.UpdateTier: takes the value already converted by `Number` and the field as one of the three tier fields. It also requires the cell to be in the card, as it always is on the page. An arbitrary `field` name adding a new key is not modelled.
- PricingPage.LoadAfterSave: covers the owner's rows being the eight saved rows, in any order. Leftover owner rows with other keys, which the upsert would keep, are not modelled.
- Pricing.ZeroPagesCostNothing: requires a non-negative limit. With a negative limit the code's formula charges `limit × (basePrice − extraPrice)` for zero pages, which is zero only when the two rates are equal (`ZeroPagesCharge`).
- Pricing.CostMonotone: requires a valid tier (no negative field). That is sufficient but not necessary: some tiers with a negative field are also non-negative and monotone, and the model does not describe which.
- Pricing.CostIsSumOfPagePrices: requires a non-negative limit. With a negative limit zero pages cost `limit × (basePrice − extraPrice)`, while the sum of no page prices is 0.
