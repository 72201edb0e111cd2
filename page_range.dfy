/**
 * The page-selection parser: a free-form selection such as "1-3, 5, 10-12" or
 * "All" is resolved against a document's page count to the number of distinct
 * pages to print, falling back to every page when nothing valid was selected.
 */
module PageRange {
  import opened Wrappers
  import opened JsString

  function Min(a: int, b: int): int { if a <= b then a else b }
  function Max(a: int, b: int): int { if a >= b then a else b }

  /** The integers lo..hi, both included. */
  function Between(lo: int, hi: int): (r: set<int>)
    ensures forall i :: i in r <==> lo <= i <= hi
    decreases hi - lo
  {
    if lo > hi then {} else Between(lo, hi - 1) + {hi}
  }

  lemma {:induction false} BetweenSize(lo: int, hi: int)
    requires lo <= hi + 1
    ensures |Between(lo, hi)| == hi - lo + 1
    decreases hi - lo
  {
    if lo <= hi {
      BetweenSize(lo, hi - 1);
    }
  }

  lemma SubsetSize(a: set<int>, b: set<int>)
    requires a <= b
    ensures |a| <= |b|
  {
    assert b == a + (b - a);
    assert a * (b - a) == {};
  }

  /** The pages a range segment adds: the clamped interval, or none when an endpoint is NaN. */
  function RangePages(start: Option<int>, end: Option<int>, totalPages: int): (pages: set<int>)
    ensures forall p :: p in pages ==> 1 <= p <= totalPages
  {
    if start.Some? && end.Some? then
      Between(Max(1, Min(start.value, end.value)), Min(totalPages, Max(start.value, end.value)))
    else {}
  }

  /** The page a single-number segment adds: itself when it is a page of the document. */
  function SinglePage(page: Option<int>, totalPages: int): (pages: set<int>)
    ensures forall p :: p in pages ==> 1 <= p <= totalPages
  {
    if page.Some? && 1 <= page.value <= totalPages then {page.value} else {}
  }

  /** The pages one comma-separated segment selects; every one lies in [1, totalPages]. */
  function SegmentPages(segment: string, totalPages: int): (pages: set<int>)
    ensures forall p :: p in pages ==> 1 <= p <= totalPages
  {
    PartPages(Trim(segment), totalPages)
  }

  /** A trimmed segment: a range when it holds a dash, otherwise a single page. */
  function PartPages(part: string, totalPages: int): (pages: set<int>)
    ensures forall p :: p in pages ==> 1 <= p <= totalPages
  {
    if '-' in part then DashPages(Split(part, '-'), totalPages)
    else SinglePage(ParseInt(part), totalPages)
  }

  /** Only the first two pieces of `part.split('-')` are destructured; the rest are ignored. */
  function DashPages(pieces: seq<string>, totalPages: int): (pages: set<int>)
    requires |pieces| >= 2
    ensures forall p :: p in pages ==> 1 <= p <= totalPages
  {
    RangePages(Endpoint(pieces[0]), Endpoint(pieces[1]), totalPages)
  }

  /** One endpoint of a range: `parseInt(s.trim())`. */
  function Endpoint(piece: string): Option<int> {
    ParseInt(Trim(piece))
  }

  lemma SegmentPagesWithDash(segment: string, totalPages: int)
    requires '-' in Trim(segment)
    ensures |Split(Trim(segment), '-')| >= 2
    ensures var pieces := Split(Trim(segment), '-');
      SegmentPages(segment, totalPages)
        == RangePages(Endpoint(pieces[0]), Endpoint(pieces[1]), totalPages)
  {
  }

  lemma SegmentPagesWithoutDash(segment: string, totalPages: int)
    requires '-' !in Trim(segment)
    ensures SegmentPages(segment, totalPages) == SinglePage(ParseInt(Trim(segment)), totalPages)
  {
    PartPagesWithoutDash(Trim(segment), totalPages);
  }

  lemma PartPagesWithoutDash(part: string, totalPages: int)
    requires '-' !in part
    ensures PartPages(part, totalPages) == SinglePage(ParseInt(part), totalPages)
  {
  }

  /** The pages selected by the segments, accumulated in order; every one lies in [1, totalPages]. */
  function Selection(segments: seq<string>, totalPages: int): (pages: set<int>)
    ensures forall p :: p in pages ==> 1 <= p <= totalPages
    decreases |segments|
  {
    if segments == [] then {}
    else Selection(segments[..|segments| - 1], totalPages) + SegmentPages(segments[|segments| - 1], totalPages)
  }

  /** `parsePageRange`'s answer: the number of distinct selected pages, or `totalPages` when none is. */
  function PageCount(range: string, totalPages: int): (count: int)
    ensures |range| == 0 || ToLower(range) == "all" ==> count == totalPages
    ensures count == totalPages || (count > 0 && count == |Selection(Split(range, ','), totalPages)|)
  {
    if |range| == 0 || ToLower(range) == "all" then totalPages
    else
      var pages := Selection(Split(range, ','), totalPages);
      if |pages| > 0 then |pages| else totalPages
  }

  /** `parsePageRange` as the source writes it: one pass over the segments filling a set. */
  method ParsePageRange(range: string, totalPages: int) returns (count: int)
    ensures count == PageCount(range, totalPages)
  {
    if |range| == 0 || ToLower(range) == "all" {
      return totalPages;
    }
    var segments := Split(range, ',');
    var selectedPages: set<int> := {};
    for k := 0 to |segments|
      invariant selectedPages == Selection(segments[..k], totalPages)
    {
      selectedPages := AddSegment(selectedPages, segments[k], totalPages);
      SelectionSnoc(segments, k, totalPages);
    }
    assert segments[..|segments|] == segments;
    count := if |selectedPages| > 0 then |selectedPages| else totalPages;
  }

  lemma SelectionSnoc(segments: seq<string>, k: int, totalPages: int)
    requires 0 <= k < |segments|
    ensures Selection(segments[..k + 1], totalPages)
         == Selection(segments[..k], totalPages) + SegmentPages(segments[k], totalPages)
  {
    assert segments[..k + 1][..k] == segments[..k];
  }

  /** The body of the `segments.forEach` callback: adds the pages of one segment to the set. */
  method AddSegment(selectedPages: set<int>, segment: string, totalPages: int) returns (result: set<int>)
    ensures result == selectedPages + SegmentPages(segment, totalPages)
  {
    var part := Trim(segment);
    result := AddPart(selectedPages, part, totalPages);
  }

  /** The callback after trimming: a range when the part holds a dash, a single page otherwise. */
  method AddPart(selectedPages: set<int>, part: string, totalPages: int) returns (result: set<int>)
    ensures result == selectedPages + PartPages(part, totalPages)
  {
    result := selectedPages;
    if '-' in part {
      var pieces := Split(part, '-');
      var start := Endpoint(pieces[0]);
      var end := Endpoint(pieces[1]);
      if start.Some? && end.Some? {
        var s := Max(1, Min(start.value, end.value));
        var e := Min(totalPages, Max(start.value, end.value));
        result := AddPages(result, s, e);
      }
    } else {
      PartPagesWithoutDash(part, totalPages);
      var page := ParseInt(part);
      if page.Some? && page.value >= 1 && page.value <= totalPages {
        result := result + {page.value};
      }
    }
  }

  /** The inner `for (let i = s; i <= e; i++)` loop: adds every page from `s` to `e`. */
  method AddPages(selectedPages: set<int>, s: int, e: int) returns (result: set<int>)
    ensures result == selectedPages + Between(s, e)
  {
    result := selectedPages;
    var i := s;
    while i <= e
      invariant s <= i && (i <= e + 1 || i == s)
      invariant result == selectedPages + Between(s, i - 1)
      decreases e - i
    {
      result := result + {i};
      i := i + 1;
    }
    assert Between(s, i - 1) == Between(s, e);
  }

  // ---- Properties of PageCount ----

  /** A page is selected exactly when some segment selects it: overlaps count once. */
  lemma {:induction false} SelectionIsUnion(segments: seq<string>, totalPages: int, p: int)
    ensures p in Selection(segments, totalPages)
        <==> exists k :: 0 <= k < |segments| && p in SegmentPages(segments[k], totalPages)
    decreases |segments|
  {
    if segments != [] {
      var front := segments[..|segments| - 1];
      SelectionIsUnion(front, totalPages, p);
      if p in Selection(segments, totalPages) && p !in Selection(front, totalPages) {
        assert p in SegmentPages(segments[|segments| - 1], totalPages);
      }
      if exists k :: 0 <= k < |segments| && p in SegmentPages(segments[k], totalPages) {
        var k :| 0 <= k < |segments| && p in SegmentPages(segments[k], totalPages);
        if k < |segments| - 1 {
          assert front[k] == segments[k];
        }
      }
    }
  }

  /** For a document with at least one page the count is between 1 and the page count. */
  lemma PageCountBounds(range: string, totalPages: int)
    requires totalPages >= 1
    ensures 1 <= PageCount(range, totalPages) <= totalPages
  {
    if |range| > 0 && ToLower(range) != "all" {
      var pages := Selection(Split(range, ','), totalPages);
      assert pages <= Between(1, totalPages);
      SubsetSize(pages, Between(1, totalPages));
      BetweenSize(1, totalPages);
    }
  }

  /** The word "all" in some mix of capital and small letters. */
  predicate SpellsAll(range: string) {
    && |range| == 3
    && (range[0] == 'a' || range[0] == 'A')
    && (range[1] == 'l' || range[1] == 'L')
    && (range[2] == 'l' || range[2] == 'L')
  }

  /** Lower-casing gives "all" exactly for the eight spellings of the word. */
  lemma LowerIsAll(range: string)
    ensures ToLower(range) == "all" <==> SpellsAll(range)
  {
    if SpellsAll(range) {
      assert ToLower(range)[0] == 'a' && ToLower(range)[1] == 'l' && ToLower(range)[2] == 'l';
    }
    if ToLower(range) == "all" {
      assert LowerChar(range[0]) == 'a' && LowerChar(range[1]) == 'l' && LowerChar(range[2]) == 'l';
    }
  }

  /** An empty selection, or "all" in any letter case, selects every page. */
  lemma AllSelectsEveryPage(range: string, totalPages: int)
    requires |range| == 0 || SpellsAll(range)
    ensures PageCount(range, totalPages) == totalPages
  {
    LowerIsAll(range);
  }

  /**
   * A range segment selects the interval between its two endpoints clamped to
   * [1, totalPages] whichever endpoint comes first, and nothing when either is NaN.
   */
  lemma RangeSegmentClamped(segment: string, totalPages: int)
    requires '-' in Trim(segment)
    ensures |Split(Trim(segment), '-')| >= 2
    ensures var pieces := Split(Trim(segment), '-');
      var start, end := Endpoint(pieces[0]), Endpoint(pieces[1]);
      && (start.None? || end.None? ==> SegmentPages(segment, totalPages) == {})
      && (start.Some? && end.Some? ==>
            forall p :: p in SegmentPages(segment, totalPages)
              <==> 1 <= p <= totalPages && Min(start.value, end.value) <= p <= Max(start.value, end.value))
  {
    SegmentPagesWithDash(segment, totalPages);
    var pieces := Split(Trim(segment), '-');
    RangePagesClamped(Endpoint(pieces[0]), Endpoint(pieces[1]), totalPages);
  }

  /** The interval a range adds, stated as membership. */
  lemma RangePagesClamped(start: Option<int>, end: Option<int>, totalPages: int)
    ensures start.None? || end.None? ==> RangePages(start, end, totalPages) == {}
    ensures start.Some? && end.Some? ==>
      forall p :: p in RangePages(start, end, totalPages)
        <==> 1 <= p <= totalPages && Min(start.value, end.value) <= p <= Max(start.value, end.value)
  {
  }

  /** Swapping the two destructured pieces of a split range selects the same pages. */
  lemma InvertedPieces(pieces1: seq<string>, pieces2: seq<string>, totalPages: int)
    requires |pieces1| >= 2 && |pieces2| >= 2
    requires Trim(pieces1[0]) == Trim(pieces2[1]) && Trim(pieces1[1]) == Trim(pieces2[0])
    ensures DashPages(pieces1, totalPages) == DashPages(pieces2, totalPages)
  {
    assert Endpoint(pieces2[0]) == Endpoint(pieces1[1]) && Endpoint(pieces2[1]) == Endpoint(pieces1[0]);
    RangePagesSymmetric(Endpoint(pieces1[0]), Endpoint(pieces1[1]), totalPages);
  }

  /** The order of a range's endpoints does not matter. */
  lemma RangePagesSymmetric(a: Option<int>, b: Option<int>, totalPages: int)
    ensures RangePages(a, b, totalPages) == RangePages(b, a, totalPages)
  {
  }

  /** Swapping the two endpoints of a range segment ("b-a" for "a-b") selects the same pages. */
  lemma InvertedRange(segment1: string, segment2: string, totalPages: int)
    requires '-' in Trim(segment1) && '-' in Trim(segment2)
    requires var p1, p2 := Split(Trim(segment1), '-'), Split(Trim(segment2), '-');
      Trim(p1[0]) == Trim(p2[1]) && Trim(p1[1]) == Trim(p2[0])
    ensures SegmentPages(segment1, totalPages) == SegmentPages(segment2, totalPages)
  {
    SegmentPagesWithDash(segment1, totalPages);
    SegmentPagesWithDash(segment2, totalPages);
    InvertedPieces(Split(Trim(segment1), '-'), Split(Trim(segment2), '-'), totalPages);
  }

  /** A single-number segment selects that page when it is a page of the document, and nothing otherwise. */
  lemma SingleSegment(segment: string, totalPages: int)
    requires '-' !in Trim(segment)
    ensures forall p :: (p in SegmentPages(segment, totalPages)
      <==> ParseInt(Trim(segment)) == Some(p) && 1 <= p <= totalPages)
  {
    SegmentPagesWithoutDash(segment, totalPages);
  }

  // ---- Segments made of decimal numbers ----

  lemma RangeOfEndpoints(segment: string, start: Option<int>, end: Option<int>, totalPages: int)
    requires '-' in Trim(segment)
    requires var pieces := Split(Trim(segment), '-');
      Endpoint(pieces[0]) == start && Endpoint(pieces[1]) == end
    ensures SegmentPages(segment, totalPages) == RangePages(start, end, totalPages)
  {
    SegmentPagesWithDash(segment, totalPages);
  }

  lemma DecimalRangeHasNoWhiteSpace(x: string, y: string)
    requires IsDecimal(x) && IsDecimal(y)
    ensures forall i :: 0 <= i < |x + ['-'] + y| ==> !IsWhiteSpace((x + ['-'] + y)[i])
  {
    var s := x + ['-'] + y;
    forall i | 0 <= i < |s|
      ensures !IsWhiteSpace(s[i])
    {
      if i < |x| {
        assert s[i] == x[i];
      } else if i > |x| {
        assert s[i] == y[i - |x| - 1];
      }
    }
  }

  lemma DecimalRangePieces(x: string, y: string)
    requires IsDecimal(x) && IsDecimal(y)
    ensures '-' in Trim(x + ['-'] + y)
    ensures Split(Trim(x + ['-'] + y), '-') == [x, y]
  {
    var s := x + ['-'] + y;
    DecimalRangeHasNoWhiteSpace(x, y);
    TrimNoWhiteSpace(s);
    DecimalIsPlain(x);
    DecimalIsPlain(y);
    SplitInTwo(x, '-', y);
    assert s[|x|] == '-';
  }

  lemma DecimalEndpoint(x: string)
    requires |x| > 0 && IsDecimal(x)
    ensures forall i :: 0 <= i < |x| ==> DigitValue(x[i], 10) >= 0
    ensures Endpoint(x) == Some(DigitsValue(x, 10))
  {
    ParseIntDecimal(x);
    PlainEndpoint(x);
  }

  lemma PlainEndpoint(x: string)
    requires IsDecimal(x)
    ensures Endpoint(x) == ParseInt(x)
  {
    DecimalIsPlain(x);
  }

  /** "x-y" with two decimal numbers selects the pages between them, clamped to the document. */
  lemma DecimalRange(segment: string, x: string, y: string, totalPages: int)
    requires |x| > 0 && |y| > 0 && IsDecimal(x) && IsDecimal(y)
    requires segment == x + ['-'] + y
    ensures forall i :: 0 <= i < |x| ==> DigitValue(x[i], 10) >= 0
    ensures forall i :: 0 <= i < |y| ==> DigitValue(y[i], 10) >= 0
    ensures SegmentPages(segment, totalPages)
         == RangePages(Some(DigitsValue(x, 10)), Some(DigitsValue(y, 10)), totalPages)
  {
    DecimalRangePieces(x, y);
    DecimalEndpoint(x);
    DecimalEndpoint(y);
    RangeOfEndpoints(segment, Some(DigitsValue(x, 10)), Some(DigitsValue(y, 10)), totalPages);
  }

  /** The numeral of any page number selects exactly that page when it is a page of the document. */
  lemma DecimalPage(n: nat, totalPages: int)
    ensures SegmentPages(Decimal(n), totalPages) == if n <= totalPages && n >= 1 then {n} else {}
  {
    NumberSegment(Decimal(n), totalPages);
    DecimalValue(n);
  }

  /** "a-b" written with the numerals of any two numbers selects the clamped range between them. */
  lemma DecimalPageRange(a: nat, b: nat, totalPages: int)
    ensures SegmentPages(Decimal(a) + "-" + Decimal(b), totalPages)
         == Between(Max(1, Min(a, b)), Min(totalPages, Max(a, b)))
  {
    DecimalValue(a);
    DecimalValue(b);
    assert Decimal(a) + "-" + Decimal(b) == Decimal(a) + ['-'] + Decimal(b);
    DecimalRange(Decimal(a) + "-" + Decimal(b), Decimal(a), Decimal(b), totalPages);
  }

  lemma InsideDocument(a: int, b: int, totalPages: int)
    requires 1 <= a <= b <= totalPages
    ensures RangePages(Some(a), Some(b), totalPages) == Between(a, b)
  {
  }

  /** A range of two decimal numbers inside the document selects exactly the pages between them. */
  lemma PagesOfRange(segment: string, x: string, y: string, a: int, b: int, totalPages: int)
    requires |x| > 0 && |y| > 0 && IsDecimal(x) && IsDecimal(y)
    requires segment == x + ['-'] + y
    requires (forall i :: 0 <= i < |x| ==> DigitValue(x[i], 10) >= 0) && DigitsValue(x, 10) == a
    requires (forall i :: 0 <= i < |y| ==> DigitValue(y[i], 10) >= 0) && DigitsValue(y, 10) == b
    requires 1 <= a <= b <= totalPages
    ensures SegmentPages(segment, totalPages) == Between(a, b)
  {
    DecimalRange(segment, x, y, totalPages);
    InsideDocument(a, b, totalPages);
  }

  /** A selection of one segment is that segment's pages. */
  lemma SelectionOfOne(segment: string, totalPages: int)
    ensures Selection([segment], totalPages) == SegmentPages(segment, totalPages)
  {
    assert [segment][..0] == [];
  }

  /** One more segment adds its pages to the selection. */
  lemma SelectionAppend(front: seq<string>, last: string, totalPages: int)
    ensures Selection(front + [last], totalPages) == Selection(front, totalPages) + SegmentPages(last, totalPages)
  {
    assert (front + [last])[..|front|] == front;
  }

  lemma SelectionOfUnsplit(range: string, totalPages: int)
    requires ',' !in range
    ensures Selection(Split(range, ','), totalPages) == SegmentPages(range, totalPages)
  {
    SplitWithoutSep(range, ',');
    SelectionOfOne(range, totalPages);
  }

  /** The count of a selection that is neither empty nor "all". */
  lemma CountOfSelection(range: string, totalPages: int)
    requires |range| > 0 && ToLower(range) != "all"
    ensures PageCount(range, totalPages)
         == if |Selection(Split(range, ','), totalPages)| > 0 then |Selection(Split(range, ','), totalPages)| else totalPages
  {
  }

  /**
   * A segment that starts with a dash has an empty first piece, which is NaN, so
   * it selects nothing: only the first two dash pieces are read.
   */
  lemma LeadingDashSelectsNothing(segment: string, totalPages: int)
    requires |segment| > 0 && segment[0] == '-'
    requires forall i :: 0 <= i < |segment| ==> !IsWhiteSpace(segment[i])
    ensures SegmentPages(segment, totalPages) == {}
  {
    TrimNoWhiteSpace(segment);
    assert segment == "" + ['-'] + segment[1..];
    SplitAtFirstSep("", '-', segment[1..]);
    SegmentPagesWithDash(segment, totalPages);
    assert Trim("") == "";
    assert ParseInt("") == None;
  }

  /** "-5-200" is not the range 5..200: its start is the empty piece. */
  lemma LeadingDashIsNaN(segment: string, totalPages: int)
    requires segment == "-5-200"
    ensures SegmentPages(segment, totalPages) == {}
  {
    assert forall i :: 0 <= i < |segment| ==> !IsWhiteSpace(segment[i]);
    LeadingDashSelectsNothing(segment, totalPages);
  }

  /** When no segment selects a valid page, the whole document is counted. */
  lemma NothingValidMeansAll(range: string, totalPages: int)
    requires forall k :: 0 <= k < |Split(range, ',')| ==> SegmentPages(Split(range, ',')[k], totalPages) == {}
    ensures PageCount(range, totalPages) == totalPages
  {
    var segments := Split(range, ',');
    forall p | p in Selection(segments, totalPages)
      ensures false
    {
      SelectionIsUnion(segments, totalPages, p);
    }
    assert Selection(segments, totalPages) == {};
  }

  /** A segment without white space or dashes that does not start like a number selects nothing. */
  lemma NotANumberSelectsNothing(segment: string, totalPages: int)
    requires forall i :: 0 <= i < |segment| ==> !IsWhiteSpace(segment[i]) && segment[i] != '-'
    requires |segment| > 0 && segment[0] != '+' && DigitValue(segment[0], 10) < 0
    ensures SegmentPages(segment, totalPages) == {}
  {
    TrimNoWhiteSpace(segment);
    SegmentPagesWithoutDash(segment, totalPages);
    ParseIntNotANumber(segment);
  }

  /** A plain number segment selects that page when it is a page of the document. */
  lemma NumberSegment(segment: string, totalPages: int)
    requires |segment| > 0 && IsDecimal(segment)
    ensures forall i :: 0 <= i < |segment| ==> DigitValue(segment[i], 10) >= 0
    ensures SegmentPages(segment, totalPages) == SinglePage(Some(DigitsValue(segment, 10)), totalPages)
  {
    DecimalIsPlain(segment);
    SegmentPagesWithoutDash(segment, totalPages);
    ParseIntDecimal(segment);
  }

  lemma DecimalIsPlain(segment: string)
    requires IsDecimal(segment)
    ensures Trim(segment) == segment && '-' !in segment
  {
    TrimNoWhiteSpace(segment);
  }

  /** A page number beyond the document selects nothing, so the whole document is counted. */
  lemma OutOfRangeFallsBack(range: string, totalPages: int)
    requires range == "50" && 1 <= totalPages < 50
    ensures PageCount(range, totalPages) == totalPages
  {
    SplitWithoutSep(range, ',');
    FiftySelectsNothing(range, totalPages);
    assert Selection([range], totalPages) == SegmentPages(range, totalPages) by {
      assert [range][..0] == [];
    }
  }

  lemma FiftySelectsNothing(segment: string, totalPages: int)
    requires segment == "50" && totalPages < 50
    ensures SegmentPages(segment, totalPages) == {}
  {
    NumberSegment(segment, totalPages);
    assert DigitsValue(segment, 10) == 50 by {
      assert segment[..1] == "5";
      assert DigitsValue("5", 10) == 5;
    }
  }

  lemma SplitMalformed(range: string)
    requires range == "garbage,,--"
    ensures Split(range, ',') == ["garbage", "", "--"]
  {
    assert range == "garbage" + [','] + ",--";
    assert ",--" == "" + [','] + "--";
    SplitAtFirstSep("garbage", ',', ",--");
    SplitAtFirstSep("", ',', "--");
    SplitWithoutSep("--", ',');
  }

  /** A selection made only of garbage, empty segments and dashes counts the whole document. */
  lemma MalformedFallsBack(range: string, totalPages: int)
    requires range == "garbage,,--"
    ensures PageCount(range, totalPages) == totalPages
  {
    SplitMalformed(range);
    var segments := Split(range, ',');
    forall k | 0 <= k < |segments|
      ensures SegmentPages(segments[k], totalPages) == {}
    {
      if k == 0 {
        GarbageSelectsNothing(segments[k], totalPages);
      } else if k == 1 {
        EmptySelectsNothing(segments[k], totalPages);
      } else {
        DashesSelectNothing(segments[k], totalPages);
      }
    }
    NothingValidMeansAll(range, totalPages);
  }

  lemma GarbageSelectsNothing(segment: string, totalPages: int)
    requires segment == "garbage"
    ensures SegmentPages(segment, totalPages) == {}
  {
    assert forall i :: 0 <= i < |segment| ==> !IsWhiteSpace(segment[i]) && segment[i] != '-';
    NotANumberSelectsNothing(segment, totalPages);
  }

  lemma EmptySelectsNothing(segment: string, totalPages: int)
    requires segment == ""
    ensures SegmentPages(segment, totalPages) == {}
  {
    TrimNoWhiteSpace(segment);
    assert ParseInt(segment) == None;
  }

  lemma DashesSelectNothing(segment: string, totalPages: int)
    requires segment == "--"
    ensures SegmentPages(segment, totalPages) == {}
  {
    assert segment[0] == '-' && segment[1] == '-';
    LeadingDashSelectsNothing(segment, totalPages);
  }
}
