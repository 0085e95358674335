/** The ID list text of a CU set ("0-3,8,10-12"): how a bitmap is printed, parsed, and that the two are inverse. */
module CuList {
  import opened CuAllocation
  import opened Text
  import opened Words
  import opened Wrappers

  /** A maximal range of consecutive CUs. */
  datatype Run = Run(lo: nat, hi: nat)

  function RunSet(r: Run): set<nat> {
    Interval(r.lo, r.hi + 1)
  }

  function Covered(runs: seq<Run>): set<nat> {
    set r: Run, c: nat | r in runs && c in RunSet(r) :: c
  }

  /** Ascending runs with a gap between neighbours: the only way to write a set with maximal runs. */
  predicate Canonical(runs: seq<Run>) {
    && (forall i :: 0 <= i < |runs| ==> runs[i].lo <= runs[i].hi)
    && (forall i, j :: 0 <= i < j < |runs| ==> runs[i].hi + 1 < runs[j].lo)
  }

  /** The members of s below n, ascending. */
  function Members(s: set<nat>, n: nat): seq<nat> {
    if n == 0 then [] else Members(s, n - 1) + if n - 1 in s then [n - 1] else []
  }

  /** Appends an id after the ids of runs: it prolongs the last run or opens a new one. */
  function Extend(runs: seq<Run>, id: nat): seq<Run> {
    if runs != [] && id == runs[|runs| - 1].hi + 1 then runs[..|runs| - 1] + [Run(runs[|runs| - 1].lo, id)]
    else runs + [Run(id, id)]
  }

  function Group(ids: seq<nat>): seq<Run> {
    if ids == [] then [] else Extend(Group(ids[..|ids| - 1]), ids[|ids| - 1])
  }

  function RunText(r: Run): string {
    if r.lo == r.hi then Itoa(r.lo) else Itoa(r.lo) + "-" + Itoa(r.hi)
  }

  function RunTexts(runs: seq<Run>): seq<string> {
    seq(|runs|, i requires 0 <= i < |runs| => RunText(runs[i]))
  }

  /** What a bitmap holding s on a device of n CUs prints as. */
  function IdListText(s: set<nat>, n: nat): string {
    if Members(s, n) == [] then "0" else Join(RunTexts(Group(Members(s, n))), ',')
  }

  /** One comma-separated part: blank, a CU id, or an inclusive range. */
  function ParsePart(raw: string, totalCUs: int): Option<set<nat>> {
    var part := TrimSpace(raw);
    if part == "" then Some({})
    else if '-' in part then
      var bounds := Split(part, '-');
      if |bounds| != 2 then None else
      var lo, hi := Atoi(TrimSpace(bounds[0])), Atoi(TrimSpace(bounds[1]));
      if lo.None? || hi.None? || lo.value < 0 || hi.value < lo.value || hi.value >= totalCUs then None
      else Some(Interval(lo.value, hi.value + 1))
    else
      var id := Atoi(part);
      if id.None? || id.value < 0 || id.value >= totalCUs then None else Some({id.value as nat})
  }

  function ParseParts(parts: seq<string>, totalCUs: int): Option<set<nat>> {
    if parts == [] then Some({}) else
    var front, last := ParseParts(parts[..|parts| - 1], totalCUs), ParsePart(parts[|parts| - 1], totalCUs);
    if front.None? || last.None? then None else Some(front.value + last.value)
  }

  /** The CU set an ID list denotes on a device of totalCUs, if the list is accepted. */
  function ParseIdList(s: string, totalCUs: int): Option<set<nat>> {
    if totalCUs <= 0 then None
    else if TrimSpace(s) == "" then Some({})
    else ParseParts(Split(TrimSpace(s), ','), totalCUs)
  }

  // ---------- the printed form is canonical ----------

  lemma {:induction false} MembersExact(s: set<nat>, n: nat)
    ensures var ids := Members(s, n);
      && (forall i, j :: 0 <= i < j < |ids| ==> ids[i] < ids[j])
      && (forall c: nat :: c in ids <==> c in s && c < n)
  {
    if n > 0 {
      MembersExact(s, n - 1);
      var ids, front := Members(s, n), Members(s, n - 1);
      forall c: nat ensures c in ids <==> c in s && c < n {
        assert c in ids <==> c in front || (n - 1 in s && c == n - 1);
      }
      forall i, j | 0 <= i < j < |ids| ensures ids[i] < ids[j] {
        assert ids[i] == front[i] && front[i] in front;
      }
    }
  }

  /** Grouping ascending ids gives canonical runs that cover exactly the ids. */
  lemma {:induction false} GroupExact(ids: seq<nat>)
    requires forall i, j :: 0 <= i < j < |ids| ==> ids[i] < ids[j]
    ensures Canonical(Group(ids))
    ensures forall c: nat :: c in Covered(Group(ids)) <==> c in ids
    ensures ids != [] ==> Group(ids) != [] && Group(ids)[|Group(ids)| - 1].hi == ids[|ids| - 1]
  {
    hide Covered, Canonical, Extend;
    if ids == [] {
      CoversNothing([]);
    } else {
      var front, id := ids[..|ids| - 1], ids[|ids| - 1];
      GroupExact(front);
      assert ids == front + [id];
      ExtendCanonical(Group(front), id);
      forall c: nat ensures c in Covered(Group(ids)) <==> c in ids {
        ExtendCovers(Group(front), id, c);
        assert c in ids <==> c in front || c == id;
      }
    }
  }

  lemma ExtendCanonical(runs: seq<Run>, id: nat)
    requires Canonical(runs) && (runs != [] ==> runs[|runs| - 1].hi < id)
    ensures Canonical(Extend(runs, id)) && Extend(runs, id) != [] && Extend(runs, id)[|Extend(runs, id)| - 1].hi == id
  {
  }

  lemma ExtendCovers(runs: seq<Run>, id: nat, c: nat)
    requires Canonical(runs)
    ensures c in Covered(Extend(runs, id)) <==> c in Covered(runs) || c == id
  {
    if runs != [] && id == runs[|runs| - 1].hi + 1 {
      var front, last := runs[..|runs| - 1], runs[|runs| - 1];
      CoveredAppend(front, Run(last.lo, id), c);
      CoveredAppend(front, last, c);
      assert runs == front + [last];
    } else {
      CoveredAppend(runs, Run(id, id), c);
    }
  }

  lemma CoveredAppend(runs: seq<Run>, r: Run, c: nat)
    ensures c in Covered(runs + [r]) <==> c in Covered(runs) || r.lo <= c <= r.hi
  {
    var all := runs + [r];
    if q: Run :| q in all && c in RunSet(q) { assert q in runs || q == r; }
    if r.lo <= c <= r.hi { assert r in all && c in RunSet(r); }
    if q: Run :| q in runs && c in RunSet(q) { assert q in all; }
  }

  lemma CoversEnds(runs: seq<Run>, i: nat)
    ensures i < |runs| && runs[i].lo <= runs[i].hi ==> runs[i].lo in Covered(runs) && runs[i].hi in Covered(runs)
  {
    if i < |runs| && runs[i].lo <= runs[i].hi {
      assert runs[i].lo in RunSet(runs[i]) && runs[i].hi in RunSet(runs[i]);
    }
  }

  function Front(runs: seq<Run>): seq<Run>
    requires runs != []
  {
    runs[..|runs| - 1]
  }

  function Last(runs: seq<Run>): Run
    requires runs != []
  {
    runs[|runs| - 1]
  }

  /** Two canonical run lists of one set are the same list. */
  lemma {:induction false} CanonicalUnique(a: seq<Run>, b: seq<Run>)
    requires Canonical(a) && Canonical(b) && Covered(a) == Covered(b)
    ensures a == b
  {
    hide Canonical, Covered;
    CoversNothing(a);
    CoversNothing(b);
    if a != [] && b != [] {
      LastRunFits(a, b);
      LastRunFits(b, a);
      FrontsAgree(a, b);
      CanonicalUnique(Front(a), Front(b));
      assert a == Front(a) + [Last(a)] && b == Front(b) + [Last(b)];
    }
  }

  lemma CoversNothing(runs: seq<Run>)
    requires Canonical(runs) || runs == []
    ensures Canonical([]) && Covered(runs) == {} <==> runs == []
    ensures runs != [] ==> Canonical(Front(runs))
  {
    CoversEnds(runs, 0);
  }

  lemma FrontsAgree(a: seq<Run>, b: seq<Run>)
    requires Canonical(a) && Canonical(b) && Covered(a) == Covered(b)
    requires a != [] && b != [] && Last(a) == Last(b)
    ensures Covered(Front(a)) == Covered(Front(b))
  {
    FrontCovers(a);
    FrontCovers(b);
  }

  /** Without its last run, a canonical list covers exactly what lies before that run. */
  lemma FrontCovers(runs: seq<Run>)
    requires Canonical(runs) && runs != []
    ensures forall c: nat :: c in Covered(Front(runs)) <==> c in Covered(runs) && c < Last(runs).lo
  {
    assert runs == Front(runs) + [Last(runs)];
    forall c: nat ensures c in Covered(Front(runs)) <==> c in Covered(runs) && c < Last(runs).lo {
      CoveredAppend(Front(runs), Last(runs), c);
      FrontMisses(runs, c);
    }
  }

  lemma FrontMisses(runs: seq<Run>, c: nat)
    requires Canonical(runs) && runs != []
    ensures c in Covered(Front(runs)) ==> c + 1 < Last(runs).lo
  {
  }

  /** The last run of a lies inside the last run of b when both cover one set. */
  lemma LastRunFits(a: seq<Run>, b: seq<Run>)
    requires Canonical(a) && Canonical(b) && Covered(a) == Covered(b) && a != [] && b != []
    ensures Last(b).lo <= Last(a).lo && Last(a).hi <= Last(b).hi
  {
    var p, q := Last(a), Last(b);
    CoversEnds(a, |a| - 1);
    CoversEnds(b, |b| - 1);
    InLastOrBefore(b, p.hi);
    InLastOrBefore(a, q.hi);
    var x := if q.lo == 0 then 0 else q.lo - 1;
    InLastOrBefore(b, x);
    assert p.lo <= x <= p.hi ==> x in RunSet(p);
  }

  lemma InLastOrBefore(runs: seq<Run>, c: nat)
    requires Canonical(runs) && runs != []
    ensures c in Covered(runs) ==> c <= Last(runs).hi && (c >= Last(runs).lo || c + 1 < Last(runs).lo)
  {
    assert runs == Front(runs) + [Last(runs)];
    CoveredAppend(Front(runs), Last(runs), c);
    FrontMisses(runs, c);
  }

  lemma OnlyCanonical(runs: seq<Run>)
    requires Canonical(runs)
    ensures forall other :: Canonical(other) && Covered(other) == Covered(runs) ==> other == runs
  {
    hide Canonical, Covered;
    forall other | Canonical(other) && Covered(other) == Covered(runs) ensures other == runs {
      CanonicalUnique(other, runs);
    }
  }

  /** A printed non-empty set is the join of canonical runs covering exactly the members below n; no other run list does. */
  lemma PrintedIsCanonical(s: set<nat>, n: nat) returns (runs: seq<Run>)
    requires exists c: nat :: c in s && c < n
    ensures IdListText(s, n) == Join(RunTexts(runs), ',')
    ensures runs != [] && Canonical(runs) && Covered(runs) == set c | c in s && c < n
    ensures forall other :: Canonical(other) && Covered(other) == Covered(runs) ==> other == runs
  {
    hide Canonical, Covered, Group, Members, RunTexts;
    runs := PrintedRunsOf(s, n);
    OnlyCanonical(runs);
  }

  lemma PrintedRunsOf(s: set<nat>, n: nat) returns (runs: seq<Run>)
    requires exists c: nat :: c in s && c < n
    ensures IdListText(s, n) == Join(RunTexts(runs), ',')
    ensures runs != [] && Canonical(runs) && Covered(runs) == set c | c in s && c < n
  {
    hide Canonical, RunTexts, Members;
    var ids := Members(s, n);
    MembersExact(s, n);
    GroupExact(ids);
    runs := Group(ids);
    var c: nat :| c in s && c < n;
    assert c in ids;
  }

  // ---------- printing and parsing are inverse ----------

  lemma PlainNumber(n: nat)
    requires n <= IntMax(64)
    ensures Atoi(Itoa(n)) == Some(n)
    ensures Itoa(n) != "" && NoSpace(Itoa(n)) && '-' !in Itoa(n) && ',' !in Itoa(n)
    ensures TrimSpace(Itoa(n)) == Itoa(n)
  {
    ItoaRoundTrip(n, 64);
    ItoaChars(n);
    TrimNothing(Itoa(n));
  }

  lemma RangeText(lo: nat, hi: nat)
    requires lo <= IntMax(64) && hi <= IntMax(64)
    ensures var t := Itoa(lo) + "-" + Itoa(hi);
      NoSpace(t) && ',' !in t && '-' in t && TrimSpace(t) == t && Split(t, '-') == [Itoa(lo), Itoa(hi)]
  {
    hide TrimLeft, TrimRight, ParseInt, Digits, IntMax;
    PlainNumber(lo);
    PlainNumber(hi);
    var t := Itoa(lo) + "-" + Itoa(hi);
    assert NoSpace("-");
    hide IsSpace, Itoa;
    TrimNothing(t);
    assert t[|Itoa(lo)|] == '-';
    SplitHead(Itoa(lo), '-', Itoa(hi));
    SplitPlain(Itoa(hi), '-');
    assert Itoa(lo) + ['-'] + Itoa(hi) == t;
  }

  lemma RangeParses(lo: nat, hi: nat, totalCUs: nat)
    requires lo < hi < totalCUs <= IntMax(64)
    ensures ParsePart(Itoa(lo) + "-" + Itoa(hi), totalCUs) == Some(Interval(lo, hi + 1))
  {
    hide TrimLeft, TrimRight, ParseInt, Digits, IntMax, Split, IsSpace, Itoa;
    PlainNumber(lo);
    PlainNumber(hi);
    RangeText(lo, hi);
  }

  lemma RunTextParses(r: Run, totalCUs: nat)
    requires r.lo <= r.hi < totalCUs <= IntMax(64)
    ensures RunText(r) != "" && NoSpace(RunText(r)) && ',' !in RunText(r)
    ensures ParsePart(RunText(r), totalCUs) == Some(RunSet(r))
  {
    hide TrimLeft, TrimRight, ParseInt, Split, IsSpace, IntMax, Itoa;
    if r.lo == r.hi {
      PlainNumber(r.lo);
      assert RunSet(r) == {r.lo};
    } else {
      RangeText(r.lo, r.hi);
      RangeParses(r.lo, r.hi, totalCUs);
    }
  }

  lemma ParsePartsAppend(parts: seq<string>, part: string, totalCUs: int)
    ensures var front, last := ParseParts(parts, totalCUs), ParsePart(part, totalCUs);
      ParseParts(parts + [part], totalCUs) == if front.None? || last.None? then None else Some(front.value + last.value)
  {
    assert (parts + [part])[..|parts|] == parts;
  }

  lemma NothingParses(totalCUs: int)
    ensures RunTexts([]) == [] && ParseParts([], totalCUs) == Some({}) && Covered([]) == {}
  {
  }

  lemma {:induction false} RunTextsParse(runs: seq<Run>, totalCUs: nat)
    requires totalCUs <= IntMax(64)
    requires forall i :: 0 <= i < |runs| ==> runs[i].lo <= runs[i].hi < totalCUs
    ensures ParseParts(RunTexts(runs), totalCUs).Some?
    ensures forall c: nat :: c in ParseParts(RunTexts(runs), totalCUs).value <==> c in Covered(runs)
  {
    hide ParsePart, ParseParts, RunText, RunTexts, IntMax, Covered;
    if runs == [] {
      NothingParses(totalCUs);
    } else {
      var front, last := runs[..|runs| - 1], runs[|runs| - 1];
      RunTextsParse(front, totalCUs);
      RunTextParses(last, totalCUs);
      assert runs == front + [last];
      RunTextsAppend(front, last);
      ParsePartsAppend(RunTexts(front), RunText(last), totalCUs);
      forall c: nat ensures c in Covered(runs) <==> c in Covered(front) || c in RunSet(last) {
        CoveredAppend(front, last, c);
      }
    }
  }

  lemma {:induction false} JoinNoSpace(parts: seq<string>)
    requires |parts| > 0
    requires forall i :: 0 <= i < |parts| ==> parts[i] != "" && NoSpace(parts[i])
    ensures Join(parts, ',') != "" && NoSpace(Join(parts, ','))
  {
    if |parts| > 1 { JoinNoSpace(parts[1..]); }
  }

  /** Reading back the printed list gives the printed CUs, for every device size, exactly when at least one CU is set. */
  lemma RoundTrip(s: set<nat>, totalCUs: nat)
    requires 0 < totalCUs <= IntMax(64) && forall c: nat :: c in s ==> c < totalCUs
    ensures ParseIdList(IdListText(s, totalCUs), totalCUs) == Some(s) <==> s != {}
  {
    if s == {} {
      MembersEnd(s, 0, totalCUs);
      EmptyPrintsAsZero(totalCUs);
    } else {
      var c: nat :| c in s;
      var runs := PrintedIsCanonical(s, totalCUs);
      assert Covered(runs) == s;
      forall i | 0 <= i < |runs| ensures runs[i].lo <= runs[i].hi < totalCUs { CoversEnds(runs, i); }
      RunTextsParse(runs, totalCUs);
      assert ParseParts(RunTexts(runs), totalCUs).value == s;
      var texts := RunTexts(runs);
      forall i | 0 <= i < |texts| ensures texts[i] != "" && NoSpace(texts[i]) && ',' !in texts[i] {
        RunTextParses(runs[i], totalCUs);
      }
      JoinNoSpace(texts);
      TrimNothing(IdListText(s, totalCUs));
      SplitJoin(texts, ',');
    }
  }

  /** The empty bitmap prints as "0", which denotes CU 0. */
  lemma EmptyPrintsAsZero(totalCUs: nat)
    requires 0 < totalCUs
    ensures ParseIdList("0", totalCUs) == Some({0})
  {
    PlainNumber(0);
    assert Itoa(0) == "0";
    SplitPlain("0", ',');
    ParsePartsAppend([], "0", totalCUs);
    assert [] + ["0"] == ["0"];
    assert TrimSpace("0") == "0" && Split("0", ',') == ["0"];
    assert ParsePart("0", totalCUs) == Some({0});
    assert {} + {0 as nat} == {0};
  }

  lemma {:induction false} ParsePartsInRange(parts: seq<string>, totalCUs: int)
    requires ParseParts(parts, totalCUs).Some?
    ensures forall c: nat :: c in ParseParts(parts, totalCUs).value ==> c < totalCUs
  {
    if parts != [] { ParsePartsInRange(parts[..|parts| - 1], totalCUs); }
  }

  lemma ParsedInRange(s: string, totalCUs: int)
    requires ParseIdList(s, totalCUs).Some?
    ensures totalCUs > 0 && forall c: nat :: c in ParseIdList(s, totalCUs).value ==> c < totalCUs
  {
    if TrimSpace(s) != "" { ParsePartsInRange(Split(TrimSpace(s), ','), totalCUs); }
  }

  /** Printing and re-reading any accepted list that names a CU changes nothing. */
  lemma Stable(s: string, totalCUs: int)
    requires totalCUs <= IntMax(64)
    requires ParseIdList(s, totalCUs).Some? && ParseIdList(s, totalCUs).value != {}
    ensures ParseIdList(IdListText(ParseIdList(s, totalCUs).value, totalCUs), totalCUs) == ParseIdList(s, totalCUs)
  {
    ParsedInRange(s, totalCUs);
    RoundTrip(ParseIdList(s, totalCUs).value, totalCUs);
  }

  // ---------- the text in a larger format ----------

  /** A printed list holds digits, commas and hyphens only. */
  lemma ListTextChars(s: set<nat>, n: nat)
    ensures ':' !in IdListText(s, n) && ';' !in IdListText(s, n)
  {
    var runs := Group(Members(s, n));
    forall i | 0 <= i < |runs| ensures ':' !in RunTexts(runs)[i] && ';' !in RunTexts(runs)[i] {
      ItoaChars(runs[i].lo);
      ItoaChars(runs[i].hi);
    }
    if Members(s, n) != [] {
      JoinAvoids(RunTexts(runs), ',', ':');
      JoinAvoids(RunTexts(runs), ',', ';');
    }
  }

  lemma NumberChars(n: nat, c: char)
    requires !IsDigit(c) && c != '-'
    ensures c !in Itoa(n)
  {
    ItoaChars(n);
    hide Itoa;
  }

  /** "0-<total-1>" denotes every CU. */
  lemma AllCusText(total: nat)
    requires 0 < total <= IntMax(64)
    ensures ':' !in "0-" + Itoa(total - 1) && ';' !in "0-" + Itoa(total - 1)
    ensures ParseIdList("0-" + Itoa(total - 1), total) == Some(Interval(0, total))
  {
    hide ParseInt, TrimLeft, TrimRight, ParseParts, ParsePart, Split, IsSpace, IntMax;
    assert Itoa(0) == "0";
    NumberChars(total - 1, ':');
    NumberChars(total - 1, ';');
    AllCusParse(total);
    assert "0-" + Itoa(total - 1) == Itoa(0) + "-" + Itoa(total - 1);
  }

  lemma AllCusParse(total: nat)
    requires 0 < total <= IntMax(64)
    ensures ParseIdList(Itoa(0) + "-" + Itoa(total - 1), total) == Some(Interval(0, total))
  {
    hide ParseInt, Itoa, TrimLeft, TrimRight, ParseParts, ParsePart, Split, IsSpace, IntMax;
    var t := Itoa(0) + "-" + Itoa(total - 1);
    RangeText(0, total - 1);
    AllCusPart(total);
    SplitPlain(t, ',');
    OnePart(t, total);
  }

  lemma AllCusPart(total: nat)
    requires 0 < total <= IntMax(64)
    ensures ParsePart(Itoa(0) + "-" + Itoa(total - 1), total) == Some(Interval(0, total))
  {
    hide ParseInt, Itoa, TrimLeft, TrimRight, Split, IsSpace, IntMax;
    RangeText(0, total - 1);
    PlainNumber(0);
    PlainNumber(total - 1);
  }

  lemma OnePart(part: string, totalCUs: int)
    ensures ParseParts([part], totalCUs) == ParsePart(part, totalCUs)
  {
    hide ParsePart;
    NothingParses(totalCUs);
    ParsePartsAppend([], part, totalCUs);
    assert [] + [part] == [part];
    if ParsePart(part, totalCUs).Some? {
      assert {} + ParsePart(part, totalCUs).value == ParsePart(part, totalCUs).value;
    }
  }

  // ---------- allocationToIDList and idListToAllocation ----------

  lemma {:induction false} MembersEnd(s: set<nat>, i: nat, n: nat)
    requires i <= n && forall c: nat :: c in s ==> c < i
    ensures Members(s, n) == Members(s, i)
  {
    if i < n { MembersEnd(s, i, n - 1); }
  }

  method AllocationToIdList(allocation: array<Word>, totalCUs: int) returns (text: string)
    ensures text == IdListText(Cus(allocation[..]), if totalCUs <= 0 then 0 else totalCUs)
  {
    ghost var s := Cus(allocation[..]);
    if totalCUs <= 0 || allocation.Length == 0 {
      if totalCUs > 0 { MembersEnd(s, 0, totalCUs); }
      return "0";
    }
    var ids := CollectIds(allocation, totalCUs);
    if |ids| == 0 { return "0"; }
    var parts := [];
    var start, prev := ids[0], ids[0];
    ghost var closed: seq<Run> := [];
    GroupAppend([], ids[0]);
    assert [] + [ids[0]] == ids[..1];
    assert Group([]) == [] && RunTexts(closed) == [];
    hide Cus, Members, Group, RunTexts, RunText, Join;
    for i := 1 to |ids|
      invariant Group(ids[..i]) == closed + [Run(start, prev)]
      invariant parts == RunTexts(closed)
    {
      GroupAppend(ids[..i], ids[i]);
      assert ids[..i] + [ids[i]] == ids[..i + 1];
      if ids[i] != prev + 1 {
        parts := parts + [RunText(Run(start, prev))];
        RunTextsAppend(closed, Run(start, prev));
        closed := closed + [Run(start, prev)];
        start := ids[i];
      } else {
        assert (closed + [Run(start, prev)])[..|closed|] == closed;
      }
      prev := ids[i];
    }
    assert ids[..|ids|] == ids;
    parts := parts + [RunText(Run(start, prev))];
    RunTextsAppend(closed, Run(start, prev));
    text := Join(parts, ',');
    PrintedRuns(s, totalCUs);
  }

  lemma PrintedRuns(s: set<nat>, n: nat)
    requires Members(s, n) != []
    ensures IdListText(s, n) == Join(RunTexts(Group(Members(s, n))), ',')
  {
  }

  lemma GroupAppend(ids: seq<nat>, id: nat)
    ensures Group(ids + [id]) == Extend(Group(ids), id)
  {
    assert (ids + [id])[..|ids|] == ids;
  }

  lemma RunTextsAppend(runs: seq<Run>, r: Run)
    ensures RunTexts(runs + [r]) == RunTexts(runs) + [RunText(r)]
  {
  }

  /** The first loop of allocationToIDList: the set bits below totalCUs, ascending. */
  method CollectIds(allocation: array<Word>, totalCUs: nat) returns (ids: seq<nat>)
    ensures ids == Members(Cus(allocation[..]), totalCUs)
  {
    ids := [];
    ghost var s := Cus(allocation[..]);
    for i := 0 to totalCUs
      invariant ids == Members(s, i)
    {
      if i / WORD_BITS >= allocation.Length {
        MembersEnd(s, i, totalCUs);
        return;
      }
      MaskTestsBit(allocation[i / WORD_BITS], i % WORD_BITS);
      assert i in s <==> IsSet(allocation[..], i);
      if And(allocation[i / WORD_BITS], Pow2(i % WORD_BITS)) != 0 { ids := ids + [i]; }
    }
  }

  method IdListToAllocation(s: string, totalCUs: int) returns (r: Result<array<Word>>)
    ensures r.Failure? <==> ParseIdList(s, totalCUs).None?
    ensures r.Success? ==> fresh(r.value) && r.value.Length == WordsFor(totalCUs)
    ensures r.Success? ==> Cus(r.value[..]) == ParseIdList(s, totalCUs).value
  {
    hide ParsePart, TrimLeft, TrimRight, Split;
    r := NewAllocation(totalCUs);
    if r.Failure? { return; }
    var allocation := r.value;
    var str := TrimSpace(s);
    if str == "" { return; }
    var parts := Split(str, ',');
    for k := 0 to |parts|
      invariant ParseParts(parts[..k], totalCUs) == Some(Cus(allocation[..]))
    {
      ParsePartsAppend(parts[..k], parts[k], totalCUs);
      assert parts[..k] + [parts[k]] == parts[..k + 1];
      var added := AddPart(allocation, parts[k], totalCUs);
      if added.Fail? {
        ParseFails(parts, k, totalCUs);
        return Failure(added.error);
      }
    }
    assert parts[..|parts|] == parts;
    r := Success(allocation);
  }

  /** One round of the part loop of idListToAllocation. */
  method AddPart(allocation: array<Word>, raw: string, totalCUs: nat) returns (r: Outcome)
    requires allocation.Length == WordsFor(totalCUs)
    modifies allocation
    ensures r.Pass? <==> ParsePart(raw, totalCUs).Some?
    ensures r.Pass? ==> Cus(allocation[..]) == old(Cus(allocation[..])) + ParsePart(raw, totalCUs).value
    ensures r.Fail? ==> allocation[..] == old(allocation[..])
  {
    hide TrimLeft, TrimRight, Split, ParseInt;
    var part := TrimSpace(raw);
    if part == "" { return Pass; }
    if '-' in part {
      var bounds := Split(part, '-');
      if |bounds| != 2 { return Fail("invalid ID range"); }
      var start := Atoi(TrimSpace(bounds[0]));
      if start.None? { return Fail("invalid range start"); }
      var end := Atoi(TrimSpace(bounds[1]));
      if end.None? { return Fail("invalid range end"); }
      if start.value < 0 || end.value < start.value || end.value >= totalCUs { return Fail("range out of bounds"); }
      SetBlock(allocation, start.value, end.value + 1 - start.value);
      return Pass;
    }
    var id := Atoi(part);
    if id.None? { return Fail("invalid CU id"); }
    if id.value < 0 || id.value >= totalCUs { return Fail("CU id out of bounds"); }
    SetBlock(allocation, id.value, 1);
    assert Interval(id.value, id.value + 1) == {id.value as nat};
    return Pass;
  }

  /** One refused part refuses the list. */
  lemma {:induction false} ParseFails(parts: seq<string>, k: nat, totalCUs: int)
    requires k < |parts| && ParsePart(parts[k], totalCUs).None?
    ensures ParseParts(parts, totalCUs).None?
  {
    if k < |parts| - 1 { ParseFails(parts[..|parts| - 1], k, totalCUs); }
  }
}
