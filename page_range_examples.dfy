/**
 * Worked selections on a ten-page document, proved from the definitions: a
 * range and a page, and overlapping ranges that count each page once.
 */
module PageRangeExamples {
  import opened JsString
  import opened PageRange

  lemma NotAll(range: string)
    requires range == "1-3,7" || range == "1-3,2-4,5" || range == "1-5"
    ensures |range| > 0 && ToLower(range) != "all"
  {
    assert ToLower(range)[1] == '-';
  }

  lemma SmallValues()
    ensures DigitsValue("1", 10) == 1 && DigitsValue("2", 10) == 2 && DigitsValue("3", 10) == 3
    ensures DigitsValue("4", 10) == 4 && DigitsValue("5", 10) == 5 && DigitsValue("7", 10) == 7
  {
  }

  lemma PagesOneToThree(segment: string)
    requires segment == "1-3"
    ensures SegmentPages(segment, 10) == Between(1, 3)
  {
    SmallValues();
    PagesOfRange(segment, "1", "3", 1, 3, 10);
  }

  lemma PagesTwoToFour(segment: string)
    requires segment == "2-4"
    ensures SegmentPages(segment, 10) == Between(2, 4)
  {
    SmallValues();
    PagesOfRange(segment, "2", "4", 2, 4, 10);
  }

  lemma PagesOneToFive(segment: string)
    requires segment == "1-5"
    ensures SegmentPages(segment, 10) == Between(1, 5)
  {
    SmallValues();
    PagesOfRange(segment, "1", "5", 1, 5, 10);
  }

  lemma PageFive(segment: string)
    requires segment == "5"
    ensures SegmentPages(segment, 10) == {5}
  {
    NumberSegment(segment, 10);
    SmallValues();
  }

  lemma PageSeven(segment: string)
    requires segment == "7"
    ensures SegmentPages(segment, 10) == {7}
  {
    NumberSegment(segment, 10);
    SmallValues();
  }

  lemma SplitOneToThreeAndSeven(range: string)
    requires range == "1-3,7"
    ensures Split(range, ',') == ["1-3", "7"]
  {
    assert range == "1-3" + [','] + "7";
    SplitInTwo("1-3", ',', "7");
  }

  lemma SelectionOneToThreeAndSeven(range: string)
    requires range == "1-3,7"
    ensures Selection(Split(range, ','), 10) == Between(1, 3) + {7}
  {
    SplitOneToThreeAndSeven(range);
    assert Split(range, ',') == ["1-3"] + ["7"];
    SelectionOfOne("1-3", 10);
    SelectionAppend(["1-3"], "7", 10);
    PagesOneToThree("1-3");
    PageSeven("7");
  }

  lemma SizeOneToThreeAndSeven()
    ensures |Between(1, 3) + {7}| == 4
  {
    BetweenSize(1, 3);
  }

  /** "1-3,7" on a ten-page document prints pages 1, 2, 3 and 7. */
  lemma OneToThreeAndSevenCountsFour(range: string)
    requires range == "1-3,7"
    ensures PageCount(range, 10) == 4
  {
    NotAll(range);
    SelectionOneToThreeAndSeven(range);
    SizeOneToThreeAndSeven();
    CountOfSelection(range, 10);
  }

  lemma SplitTail(tail: string)
    requires tail == "2-4,5"
    ensures Split(tail, ',') == ["2-4", "5"]
  {
    assert tail == "2-4" + [','] + "5";
    SplitInTwo("2-4", ',', "5");
  }

  lemma SplitOverlapping(range: string)
    requires range == "1-3,2-4,5"
    ensures Split(range, ',') == ["1-3", "2-4", "5"]
  {
    assert range == "1-3" + [','] + "2-4,5";
    SplitAtFirstSep("1-3", ',', "2-4,5");
    SplitTail("2-4,5");
  }

  /** The first two segments of "1-3,2-4,5". */
  lemma SelectionOneToThreeAndTwoToFour()
    ensures Selection(["1-3", "2-4"], 10) == Between(1, 3) + Between(2, 4)
  {
    var front: seq<string> := ["1-3"];
    assert front + ["2-4"] == ["1-3", "2-4"];
    SelectionOfOne("1-3", 10);
    PagesOneToThree("1-3");
    SelectionAppend(front, "2-4", 10);
    PagesTwoToFour("2-4");
  }

  lemma SelectionOverlapping(range: string)
    requires range == "1-3,2-4,5"
    ensures Selection(Split(range, ','), 10) == Between(1, 3) + Between(2, 4) + {5}
  {
    SplitOverlapping(range);
    var front: seq<string> := ["1-3", "2-4"];
    assert front + ["5"] == Split(range, ',');
    SelectionOneToThreeAndTwoToFour();
    SelectionAppend(front, "5", 10);
    PageFive("5");
  }

  lemma OverlapUnion()
    ensures Between(1, 3) + Between(2, 4) + {5} == Between(1, 5)
  {
  }

  lemma SelectionOneToFive(range: string)
    requires range == "1-5"
    ensures Selection(Split(range, ','), 10) == Between(1, 5)
  {
    SelectionOfUnsplit(range, 10);
    PagesOneToFive(range);
  }

  /** Overlapping ranges count each page once: "1-3,2-4,5" and "1-5" both print five pages of ten. */
  lemma OverlapCountsOnce(overlapping: string, plain: string)
    requires overlapping == "1-3,2-4,5" && plain == "1-5"
    ensures PageCount(overlapping, 10) == PageCount(plain, 10) == 5
  {
    NotAll(overlapping);
    NotAll(plain);
    SelectionOverlapping(overlapping);
    OverlapUnion();
    SelectionOneToFive(plain);
    BetweenSize(1, 5);
    CountOfSelection(overlapping, 10);
    CountOfSelection(plain, 10);
  }
}
