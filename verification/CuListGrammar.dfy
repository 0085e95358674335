/**
 * The grammar of ID lists, law by law and without the parser's own steps: numbers, inclusive ranges, blanks, lists as
 * unions, and the example the documentation gives.
 */
module CuListGrammar {
  import opened CuAllocation
  import opened CuList
  import opened Text
  import opened Wrappers

  lemma {:induction false} SameParts(a: seq<string>, b: seq<string>, totalCUs: int)
    requires |a| == |b| && forall i :: 0 <= i < |a| ==> ParsePart(a[i], totalCUs) == ParsePart(b[i], totalCUs)
    ensures ParseParts(a, totalCUs) == ParseParts(b, totalCUs)
  {
    hide ParsePart;
    if a != [] { SameParts(a[..|a| - 1], b[..|b| - 1], totalCUs); }
  }

  lemma BlankPart(part: string, c: char, totalCUs: int)
    requires IsSpace(c)
    ensures ParsePart([c] + part, totalCUs) == ParsePart(part, totalCUs) == ParsePart(part + [c], totalCUs)
  {
    TrimOneBlank(part, c);
    hide ParsePart;
    TrimDecides([c] + part, part, totalCUs);
    TrimDecides(part + [c], part, totalCUs);
  }

  lemma TrimDecides(a: string, b: string, totalCUs: int)
    requires TrimSpace(a) == TrimSpace(b)
    ensures ParsePart(a, totalCUs) == ParsePart(b, totalCUs)
  {
    hide TrimLeft, TrimRight, Split, ParseInt;
  }

  lemma BlankInFront(s: string, c: char, totalCUs: int)
    requires IsSpace(c)
    ensures ParseParts(Split([c] + s, ','), totalCUs) == ParseParts(Split(s, ','), totalCUs)
  {
    var rest := Split(s, ',');
    assert ([c] + s)[1..] == s;
    assert Split([c] + s, ',') == [[c] + rest[0]] + rest[1..];
    BlankPart(rest[0], c, totalCUs);
    hide ParsePart, IsSpace;
    SameParts([[c] + rest[0]] + rest[1..], rest, totalCUs);
  }

  lemma BlankAtEnd(s: string, c: char, totalCUs: int)
    requires IsSpace(c)
    ensures ParseParts(Split(s + [c], ','), totalCUs) == ParseParts(Split(s, ','), totalCUs)
  {
    SpaceIsNoComma(c);
    hide ParsePart, ParseParts, IsSpace, Split;
    var parts := Split(s, ',');
    var front, last := parts[..|parts| - 1], parts[|parts| - 1];
    SplitLast(s, ',', c);
    BlankPart(last, c, totalCUs);
    ParsePartsAppend(front, last + [c], totalCUs);
    ParsePartsAppend(front, last, totalCUs);
    assert parts == front + [last];
  }

  lemma SpaceIsNoComma(c: char)
    requires IsSpace(c)
    ensures c != ','
  {
  }

  lemma {:induction false} TrimmedLeft(s: string, totalCUs: int)
    ensures ParseParts(Split(TrimLeft(s), ','), totalCUs) == ParseParts(Split(s, ','), totalCUs)
  {
    hide ParseParts, Split, IsSpace;
    if s != "" && IsSpace(s[0]) {
      TrimmedLeft(s[1..], totalCUs);
      BlankInFront(s[1..], s[0], totalCUs);
      assert [s[0]] + s[1..] == s;
    }
  }

  lemma {:induction false} TrimmedRight(s: string, totalCUs: int)
    ensures ParseParts(Split(TrimRight(s), ','), totalCUs) == ParseParts(Split(s, ','), totalCUs)
  {
    hide ParseParts, Split, IsSpace;
    if s != "" && IsSpace(s[|s| - 1]) {
      TrimmedRight(s[..|s| - 1], totalCUs);
      BlankAtEnd(s[..|s| - 1], s[|s| - 1], totalCUs);
      assert s[..|s| - 1] + [s[|s| - 1]] == s;
    }
  }

  /** Trimming the whole list changes nothing that trimming its parts does not. */
  lemma ListIsParts(s: string, totalCUs: int)
    requires totalCUs > 0
    ensures ParseIdList(s, totalCUs) == ParseParts(Split(s, ','), totalCUs)
  {
    hide ParsePart, TrimLeft, TrimRight;
    TrimmedLeft(s, totalCUs);
    TrimmedRight(TrimLeft(s), totalCUs);
    if TrimSpace(s) == "" {
      OnePart("", totalCUs);
      assert Split("", ',') == [""];
      BlankListEmpty(totalCUs);
    }
  }

  lemma BlankListEmpty(totalCUs: int)
    ensures ParsePart("", totalCUs) == Some({})
  {
  }

  /** Parts are accepted exactly if each is, and denote the union of what each denotes. */
  lemma {:induction false} PartsUnion(parts: seq<string>, totalCUs: int)
    ensures ParseParts(parts, totalCUs).Some? <==> forall i :: 0 <= i < |parts| ==> ParsePart(parts[i], totalCUs).Some?
    ensures ParseParts(parts, totalCUs).Some? ==>
      forall c: nat :: c in ParseParts(parts, totalCUs).value <==>
        exists i :: 0 <= i < |parts| && c in ParsePart(parts[i], totalCUs).value
  {
    hide ParsePart;
    if parts != [] {
      var front, last := parts[..|parts| - 1], parts[|parts| - 1];
      PartsUnion(front, totalCUs);
      assert forall i :: 0 <= i < |front| ==> front[i] == parts[i];
    }
  }

  /** A list joined with commas is accepted exactly if every part is, and denotes the union of what they denote. */
  lemma ListIsUnion(parts: seq<string>, totalCUs: int)
    requires totalCUs > 0 && parts != [] && forall i :: 0 <= i < |parts| ==> ',' !in parts[i]
    ensures ParseIdList(Join(parts, ','), totalCUs).Some? <==>
      forall i :: 0 <= i < |parts| ==> ParseIdList(parts[i], totalCUs).Some?
    ensures ParseIdList(Join(parts, ','), totalCUs).Some? ==>
      forall c: nat :: c in ParseIdList(Join(parts, ','), totalCUs).value <==>
        exists i :: 0 <= i < |parts| && c in ParseIdList(parts[i], totalCUs).value
  {
    hide ParseParts, ParsePart, ParseIdList, Join, Split;
    ListIsParts(Join(parts, ','), totalCUs);
    SplitJoin(parts, ',');
    PartsUnion(parts, totalCUs);
    forall i | 0 <= i < |parts| ensures ParseIdList(parts[i], totalCUs) == ParsePart(parts[i], totalCUs) {
      ListIsParts(parts[i], totalCUs);
      SplitPlain(parts[i], ',');
      OnePart(parts[i], totalCUs);
    }
  }

  lemma BlankAvoids(b: string)
    requires Blank(b)
    ensures ',' !in b && '-' !in b
  {
  }

  lemma SinglePart(s: string, totalCUs: int)
    requires totalCUs > 0 && ',' !in s
    ensures ParseIdList(s, totalCUs) == ParsePart(s, totalCUs)
  {
    hide ParseParts, ParsePart, ParseIdList, Split;
    ListIsParts(s, totalCUs);
    SplitPlain(s, ',');
    OnePart(s, totalCUs);
  }

  /** A number, whatever blanks are around it, is that CU if the device has it, and refused otherwise; blanks are nothing. */
  lemma NumberDenotes(b: string, n: nat, b': string, totalCUs: int)
    requires Blank(b) && Blank(b') && n <= IntMax(64) && totalCUs > 0
    ensures ParseIdList(b + Itoa(n) + b', totalCUs) == if n < totalCUs then Some({n}) else None
    ensures ParseIdList(b, totalCUs) == Some({})
  {
    hide IsSpace, TrimLeft, TrimRight, ParseInt, Itoa, IntMax;
    BlankAvoids(b);
    BlankAvoids(b');
    PlainNumber(n);
    TrimAround(b, Itoa(n), b');
    SinglePart(b + Itoa(n) + b', totalCUs);
    SinglePart(b, totalCUs);
    TrimBlank(b);
  }

  lemma TrimBlank(b: string)
    requires Blank(b)
    ensures TrimSpace(b) == ""
  {
    TrimLeftBlank(b, "");
    assert b + "" == b;
  }

  /** A range, whatever blanks are around its ends, is all CUs from one end to the other, both included. */
  lemma RangeDenotes(b: string, lo: nat, c: string, c': string, hi: nat, b': string, totalCUs: int)
    requires Blank(b) && Blank(c) && Blank(c') && Blank(b') && lo <= IntMax(64) && hi <= IntMax(64) && totalCUs > 0
    ensures var r := ParseIdList(b + (Itoa(lo) + c + "-" + c' + Itoa(hi)) + b', totalCUs);
      && (r.Some? <==> lo <= hi < totalCUs)
      && (r.Some? ==> forall x: nat :: x in r.value <==> lo <= x <= hi)
  {
    hide IsSpace, TrimLeft, TrimRight, ParseInt, Itoa, IntMax, Split;
    BlankAvoids(b);
    BlankAvoids(c);
    BlankAvoids(c');
    BlankAvoids(b');
    PlainNumber(lo);
    PlainNumber(hi);
    var head, tail := Itoa(lo) + c, c' + Itoa(hi);
    var t := Itoa(lo) + c + "-" + c' + Itoa(hi);
    assert t == head + ['-'] + tail;
    assert t[|head|] == '-';
    SplitHead(head, '-', tail);
    SplitPlain(tail, '-');
    NumberTrims("", lo, c);
    NumberTrims(c', hi, "");
    assert "" + Itoa(lo) + c == head && c' + Itoa(hi) + "" == tail;
    assert t[0] == Itoa(lo)[0] && t[|t| - 1] == Itoa(hi)[|Itoa(hi)| - 1];
    TrimAround(b, t, b');
    SinglePart(b + t + b', totalCUs);
  }

  lemma NumberTrims(b: string, n: nat, b': string)
    requires Blank(b) && Blank(b') && n <= IntMax(64)
    ensures TrimSpace(b + Itoa(n) + b') == Itoa(n)
  {
    hide IsSpace, TrimLeft, TrimRight, ParseInt, Itoa, IntMax;
    PlainNumber(n);
    TrimAround(b, Itoa(n), b');
  }

  /** The grammar's own example. */
  lemma DocumentedExample()
    ensures IdListText({0, 1, 2, 3, 8, 10, 11, 12}, 96) == "0-3,8,10-12"
    ensures ParseIdList("0-3,8,10-12", 96) == Some({0, 1, 2, 3, 8, 10, 11, 12})
  {
    hide Covered, Canonical, IdListText, ParseIdList, RunTexts, Join, Itoa, IntMax;
    var s: set<nat> := {0, 1, 2, 3, 8, 10, 11, 12};
    var runs := [Run(0, 3), Run(8, 8), Run(10, 12)];
    assert 0 in s && 0 < 96;
    var printed := PrintedIsCanonical(s, 96);
    ExampleRuns(runs);
    assert (set c | c in s && c < 96) == s;
    assert printed == runs;
    ExampleText(runs);
    assert 96 <= IntMax(64) by { SmallFits(); }
    RoundTrip(s, 96);
  }

  lemma SmallFits()
    ensures IntMax(64) >= 96
  {
    assert IntMax(8) == 127;
    IntMaxGrows(8, 64);
  }

  lemma ExampleRuns(runs: seq<Run>)
    requires runs == [Run(0, 3), Run(8, 8), Run(10, 12)]
    ensures Canonical(runs)
    ensures Covered(runs) == {0, 1, 2, 3, 8, 10, 11, 12}
  {
    forall c: nat ensures c in Covered(runs) <==> c <= 3 || c == 8 || 10 <= c <= 12 {
      hide Covered;
      CoveredAppend([], runs[0], c);
      CoveredAppend([runs[0]], runs[1], c);
      CoveredAppend([runs[0], runs[1]], runs[2], c);
      NothingParses(96);
      assert [] + [runs[0]] == [runs[0]] && [runs[0]] + [runs[1]] == [runs[0], runs[1]] && [runs[0], runs[1]] + [runs[2]] == runs;
    }
  }

  lemma ExampleText(runs: seq<Run>)
    requires runs == [Run(0, 3), Run(8, 8), Run(10, 12)]
    ensures Join(RunTexts(runs), ',') == "0-3,8,10-12"
  {
    assert Digits(10) == Digits(1) + [Digit(0)] && Digits(12) == Digits(1) + [Digit(2)];
    assert Itoa(0) == "0" && Itoa(3) == "3" && Itoa(8) == "8" && Itoa(10) == "10" && Itoa(12) == "12";
    hide Itoa, Digits;
    assert RunText(runs[0]) == "0-3" && RunText(runs[1]) == "8" && RunText(runs[2]) == "10-12";
    assert RunTexts(runs) == [RunText(runs[0]), RunText(runs[1]), RunText(runs[2])];
    JoinThree("0-3", "8", "10-12");
  }

  lemma JoinThree(a: string, b: string, c: string)
    ensures Join([a, b, c], ',') == a + "," + b + "," + c
  {
    assert [a, b, c][1..] == [b, c] && [b, c][1..] == [c];
    assert Join([b, c], ',') == b + [','] + c;
    assert Join([a, b, c], ',') == a + [','] + (b + [','] + c);
  }
}
