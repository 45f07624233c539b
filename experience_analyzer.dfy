/** The professional-timeline analyser: a lenient date parser, month and day
    distances, gap detection between consecutive experiences (after a stable
    sort by end date, latest first), pairwise overlap detection, and the
    text block that reports both to the language model. */
module ExperienceAnalyzer {
  import opened Wrappers
  import opened Text
  import opened Models
  import opened StableSort

  // ---------------------------------------------------------------- dates

  /** Leap years of the proleptic Gregorian calendar. */
  predicate IsLeap(y: int) {
    y % 4 == 0 && (y % 100 != 0 || y % 400 == 0)
  }

  function DaysInMonth(y: int, m: int): int
    requires 1 <= m <= 12
  {
    if m == 2 then (if IsLeap(y) then 29 else 28)
    else if m == 4 || m == 6 || m == 9 || m == 11 then 30
    else 31
  }

  /** A date the `datetime` constructor accepts. */
  predicate ValidDate(d: Date) {
    1 <= d.year <= 9999 && 1 <= d.month <= 12 && 1 <= d.day <= DaysInMonth(d.year, d.month)
  }

  /** `a < b` on dates. */
  predicate Before(a: Date, b: Date) {
    a.year < b.year || (a.year == b.year && (a.month < b.month || (a.month == b.month && a.day < b.day)))
  }

  /** Python's `max(a, b)`: `a` unless `b` is strictly later. */
  function MaxDate(a: Date, b: Date): Date {
    if Before(a, b) then b else a
  }

  /** Python's `min(a, b)`: `a` unless `b` is strictly earlier. */
  function MinDate(a: Date, b: Date): Date {
    if Before(b, a) then b else a
  }

  function DaysBeforeYear(y: int): int
    requires y >= 1
  {
    var p := y - 1;
    365 * p + p / 4 - p / 100 + p / 400
  }

  function DaysBeforeMonth(y: int, m: int): int
    requires 1 <= m <= 12
    decreases m
  {
    if m == 1 then 0 else DaysBeforeMonth(y, m - 1) + DaysInMonth(y, m - 1)
  }

  /** The proleptic Gregorian day number (`date.toordinal()`). */
  function Ordinal(d: Date): int
    requires ValidDate(d)
  {
    DaysBeforeYear(d.year) + DaysBeforeMonth(d.year, d.month) + d.day
  }

  function MonthIndex(d: Date): int {
    d.year * 12 + d.month - 1
  }

  /** `d + relativedelta(months=k)`: the day is clamped to the target month's length. */
  function AddMonths(d: Date, k: int): Date {
    var total := MonthIndex(d) + k;
    var y := total / 12;
    var m := total % 12 + 1;
    var dim := DaysInMonth(y, m);
    Date(y, m, if d.day <= dim then d.day else dim)
  }

  /** `relativedelta(a, b)` expressed in whole months (years * 12 + months). */
  function RelMonths(a: Date, b: Date): int {
    var m := MonthIndex(a) - MonthIndex(b);
    var dtm := AddMonths(b, m);
    if !Before(a, b) then (if Before(a, dtm) then m - 1 else m)
    else (if Before(dtm, a) then m + 1 else m)
  }

  function Abs(x: int): nat {
    if x < 0 then -x else x
  }

  /** `months_between(d1, d2)`. */
  function MonthsBetween(d1: Date, d2: Date): (r: nat)
    ensures ValidDate(d1) && ValidDate(d2) && d1.day == 1 && d2.day == 1 ==>
      r == Abs(12 * (d2.year - d1.year) + (d2.month - d1.month))
  {
    if ValidDate(d1) && ValidDate(d2) && d1.day == 1 && d2.day == 1 then
      MonthIndexFirstOfMonth(d1, d2);
      assert AddMonths(d1, MonthIndex(d2) - MonthIndex(d1)) == d2;
      Abs(RelMonths(d2, d1))
    else Abs(RelMonths(d2, d1))
  }

  /** `days_between(d1, d2)`. */
  function DaysBetween(d1: Date, d2: Date): nat
    requires ValidDate(d1) && ValidDate(d2)
  {
    Abs(Ordinal(d2) - Ordinal(d1))
  }

  lemma MonthIndexFirstOfMonth(b: Date, a: Date)
    requires 1 <= a.month <= 12
    ensures var t := MonthIndex(b) + (MonthIndex(a) - MonthIndex(b));
      t / 12 == a.year && t % 12 + 1 == a.month
  {
    var t := MonthIndex(b) + (MonthIndex(a) - MonthIndex(b));
    assert t == a.year * 12 + (a.month - 1);
  }

  /** With other days of the month the clamping of `relativedelta` makes the
      month distance depend on the argument order. */
  lemma MonthsBetweenNotSymmetric()
    ensures MonthsBetween(Date(2021, 3, 31), Date(2021, 4, 30)) == 1
    ensures MonthsBetween(Date(2021, 4, 30), Date(2021, 3, 31)) == 0
  {
    assert AddMonths(Date(2021, 3, 31), 1) == Date(2021, 4, 30);
    assert AddMonths(Date(2021, 4, 30), -1) == Date(2021, 3, 30);
  }

  lemma DaysBetweenSymmetric(d1: Date, d2: Date)
    requires ValidDate(d1) && ValidDate(d2)
    ensures DaysBetween(d1, d2) == DaysBetween(d2, d1)
    ensures DaysBetween(d1, d1) == 0
  {
  }

  // -------------------------------------------------------------- parsing

  const OngoingKeywords: seq<string> := ["présent", "actuel", "en cours", "current", "present", "now"]

  predicate HasOngoingKeyword(s: string) {
    exists k :: 0 <= k < |OngoingKeywords| && Contains(s, OngoingKeywords[k])
  }

  function DigitsValue(s: string): nat
    decreases |s|
  {
    if s == [] then 0 else DigitsValue(s[..|s| - 1]) * 10 + (if IsDigit(s[|s| - 1]) then (s[|s| - 1] - '0') as nat else 0)
  }

  predicate AllDigits(s: string) {
    forall i :: 0 <= i < |s| ==> IsDigit(s[i])
  }

  /** `re.match(r'(\d{1,2})/(\d{4})', s)`: (month, year). */
  function MatchMonthSlashYear(s: string): Option<(nat, nat)> {
    if |s| >= 7 && AllDigits(s[..2]) && s[2] == '/' && AllDigits(s[3..7]) then
      Some((DigitsValue(s[..2]), DigitsValue(s[3..7])))
    else if |s| >= 6 && IsDigit(s[0]) && s[1] == '/' && AllDigits(s[2..6]) then
      Some((DigitsValue(s[..1]), DigitsValue(s[2..6])))
    else None
  }

  /** `re.match(r'(\d{4})-(\d{1,2})', s)`: (year, month). */
  function MatchYearDashMonth(s: string): Option<(nat, nat)> {
    if |s| >= 6 && AllDigits(s[..4]) && s[4] == '-' && IsDigit(s[5]) then
      if |s| >= 7 && IsDigit(s[6]) then Some((DigitsValue(s[..4]), DigitsValue(s[5..7])))
      else Some((DigitsValue(s[..4]), DigitsValue(s[5..6])))
    else None
  }

  /** `re.match(r'(\d{4})', s)`: the year. */
  function MatchYear(s: string): (r: Option<nat>)
    ensures r.Some? ==> r.value < 10000
  {
    if |s| >= 4 && AllDigits(s[..4]) then
      DigitsBound(s[..4]);
      assert Pow10(4) == 10000;
      Some(DigitsValue(s[..4]))
    else None
  }

  predicate InParseRange(month: int, year: int) {
    1 <= month <= 12 && 1900 <= year <= 2100
  }

  /** A (month, year) capture becomes the first of that month when both are
      in range, and no date otherwise. */
  function FromMonthYear(month: nat, year: nat): (r: Result<Option<Date>>)
    ensures r.Ok?
    ensures r.value.Some? <==> InParseRange(month, year)
    ensures r.value.Some? ==> r.value.value == Date(year, month, 1) && ValidDate(r.value.value)
  {
    if InParseRange(month, year) then Ok(Some(Date(year, month, 1))) else Ok(None)
  }

  /** A bare year becomes January 1st with no range check; the year 0000
      makes the date constructor raise. */
  function FromYear(year: nat): (r: Result<Option<Date>>)
    requires year < 10000
    ensures r.Err? <==> year == 0
    ensures r.Ok? ==> r.value == Some(Date(year, 1, 1)) && ValidDate(r.value.value)
  {
    if year == 0 then Err("year 0 is out of range") else Ok(Some(Date(year, 1, 1)))
  }

  /** The three formats, tried in order on the stripped, lower-cased text. */
  function ParseFormats(s: string): (r: Result<Option<Date>>)
    ensures r.Ok? && r.value.Some? ==> ValidDate(r.value.value) && r.value.value.day == 1
  {
    match MatchMonthSlashYear(s)
    case Some((month, year)) => FromMonthYear(month, year)
    case None =>
      match MatchYearDashMonth(s)
      case Some((year, month)) => FromMonthYear(month, year)
      case None =>
        match MatchYear(s)
        case Some(year) => FromYear(year)
        case None => Ok(None)
  }

  /** `parse_date`, with the clock reading `now` as a parameter. `Err` is the
      `ValueError` that `datetime(0, 1, 1)` raises for the year 0000. Every
      date it produces is valid and, apart from the clock reading, the first
      of a month. */
  function ParseDate(dateStr: string, now: Date): (r: Result<Option<Date>>)
    ensures dateStr == [] ==> r == Ok(None)
    ensures dateStr != [] && HasOngoingKeyword(LowerStr(Strip(dateStr))) ==> r == Ok(Some(now))
    ensures ValidDate(now) && r.Ok? && r.value.Some? ==>
      ValidDate(r.value.value) && (r.value.value == now || r.value.value.day == 1)
  {
    if dateStr == [] then Ok(None)
    else
      var s := LowerStr(Strip(dateStr));
      if HasOngoingKeyword(s) then Ok(Some(now)) else ParseFormats(s)
  }

  lemma {:induction false} DigitsBound(s: string)
    ensures DigitsValue(s) < Pow10(|s|)
    decreases |s|
  {
    if s != [] {
      DigitsBound(s[..|s| - 1]);
    }
  }

  function Pow10(n: nat): nat
    decreases n
  {
    if n == 0 then 1 else 10 * Pow10(n - 1)
  }

  /** Text that is already stripped and lower-case reaches the formats unchanged. */
  lemma Canonical(s: string)
    requires s != [] && !IsSpace(s[0]) && !IsSpace(s[|s| - 1])
    requires forall i :: 0 <= i < |s| ==> Lower(s[i]) == s[i]
    ensures LowerStr(Strip(s)) == s
  {
    assert Strip(s) == s;
    var l := LowerStr(s);
    assert forall i :: 0 <= i < |s| ==> l[i] == s[i];
  }

  /** The ongoing keywords are matched as substrings, so "known" is read as
      the current date. */
  lemma KnownMeansNow(now: Date)
    ensures ParseDate("known", now) == Ok(Some(now))
  {
    var s := "known";
    Canonical(s);
    assert s[1..4] == "now";
    ContainsAt(s, "now", 1);
    assert OngoingKeywords[5] == "now";
  }

  /** Stripped, lower-case text without an ongoing keyword goes straight
      to the three formats. */
  lemma ParseWithoutKeyword(s: string, now: Date)
    requires s != [] && !IsSpace(s[0]) && !IsSpace(s[|s| - 1])
    requires forall i :: 0 <= i < |s| ==> Lower(s[i]) == s[i]
    requires !HasOngoingKeyword(s)
    ensures ParseDate(s, now) == ParseFormats(s)
  {
    Canonical(s);
  }

  /** An out-of-range month/year prefix gives no date, without falling back
      to the later formats. */
  lemma OutOfRangeMonthGivesNone(now: Date)
    ensures ParseDate("13/2020", now) == Ok(None)
  {
    var s := "13/2020";
    NoKeyword(s);
    ParseWithoutKeyword(s, now);
    MatchThirteen();
  }

  lemma MatchThirteen()
    ensures MatchMonthSlashYear("13/2020") == Some((13, 2020))
  {
    var s := "13/2020";
    assert s[..2] == "13" && s[3..7] == "2020";
    assert "13"[..1] == "1" && "1"[..0] == "";
    Digits2020();
  }

  /** A year-month text gives the first of that month. */
  lemma YearMonthExample(now: Date)
    ensures ParseDate("2020-05", now) == Ok(Some(Date(2020, 5, 1)))
  {
    var t := "2020-05";
    NoKeyword(t);
    ParseWithoutKeyword(t, now);
    MatchMay2020();
    assert ParseFormats(t) == FromMonthYear(5, 2020);
  }

  lemma MatchMay2020()
    ensures MatchMonthSlashYear("2020-05").None?
    ensures MatchYearDashMonth("2020-05") == Some((2020, 5))
  {
    var t := "2020-05";
    assert t[2] != '/' && t[1] != '/';
    assert t[..4] == "2020" && t[5..7] == "05";
    assert "05"[..1] == "0" && "0"[..0] == "";
    Digits2020();
  }

  /** A bare year `0000` makes the date constructor raise. */
  lemma YearZeroRaises(now: Date)
    ensures ParseDate("0000", now).Err?
  {
    var s := "0000";
    NoKeyword(s);
    ParseWithoutKeyword(s, now);
    MatchYearZero();
  }

  lemma MatchYearZero()
    ensures MatchMonthSlashYear("0000").None?
    ensures MatchYearDashMonth("0000").None?
    ensures MatchYear("0000") == Some(0)
  {
    var s := "0000";
    assert s[..4] == "0000";
    assert "0000"[..3] == "000" && "000"[..2] == "00" && "00"[..1] == "0" && "0"[..0] == "";
  }

  lemma Digits2020()
    ensures DigitsValue("2020") == 2020
  {
    assert "2020"[..3] == "202" && "202"[..2] == "20" && "20"[..1] == "2" && "2"[..0] == "";
  }

  lemma NoKeyword(s: string)
    requires |s| <= 7 && forall i :: 0 <= i < |s| ==> IsDigit(s[i]) || s[i] == '/' || s[i] == '-'
    ensures !HasOngoingKeyword(s)
  {
    forall k | 0 <= k < |OngoingKeywords| ensures !Contains(s, OngoingKeywords[k]) {
      var kw := OngoingKeywords[k];
      assert !IsDigit(kw[0]) && kw[0] != '/' && kw[0] != '-';
      if Contains(s, kw) {
        ContainsWitness(s, kw);
      }
    }
  }

  // ---------------------------------------------------------- experiences

  function Shown(c: Company): string {
    if c.Named? then c.name else c.shown
  }

  /** One experience as the analyser reads it. A date is `None` when its key
      is absent or null; the caller puts `Named("Inconnu")` for an absent
      `entreprise`. */
  datatype RawExperience = RawExperience(dateDebut: Option<string>, dateFin: Option<string>, entreprise: Company)

  predicate ValidDated(e: Dated) {
    ValidDate(e.debut) && ValidDate(e.fin)
  }

  predicate AllValid(p: seq<Dated>) {
    forall x :: x in p ==> ValidDated(x)
  }

  function ParseField(v: Option<string>, now: Date): (r: Result<Option<Date>>)
    ensures ValidDate(now) && r.Ok? && r.value.Some? ==> ValidDate(r.value.value)
  {
    if v.Some? then ParseDate(v.value, now) else Ok(None)
  }

  /** One iteration of the first loop of `detect_gaps_and_overlaps`: both
      dates are parsed (either may raise), and the entry is kept when both
      are present. */
  function ParseOne(e: RawExperience, i: nat, now: Date): (r: Result<Option<Dated>>)
    ensures r.Ok? && r.value.Some? ==> r.value.value.index == i
    ensures ValidDate(now) && r.Ok? && r.value.Some? ==> ValidDated(r.value.value)
  {
    match ParseField(e.dateDebut, now)
    case Err(m) => Err(m)
    case Ok(debut) =>
      match ParseField(e.dateFin, now)
      case Err(m) => Err(m)
      case Ok(fin) =>
        if debut.Some? && fin.Some? then Ok(Some(Dated(i, e.entreprise, debut.value, fin.value)))
        else Ok(None)
  }

  predicate IndicesBelow(p: seq<Dated>, n: nat) {
    forall i :: 0 <= i < |p| ==> p[i].index < n
  }

  predicate IndicesIncreasing(p: seq<Dated>) {
    forall i, j :: 0 <= i < j < |p| ==> p[i].index < p[j].index
  }

  type Outcome = Result<Option<Dated>>

  /** Each kept entry carries the position of its outcome. */
  predicate Tagged(os: seq<Outcome>) {
    forall j :: 0 <= j < |os| && os[j].Ok? && os[j].value.Some? ==> os[j].value.value.index == j
  }

  predicate OutcomesValid(os: seq<Outcome>) {
    forall j :: 0 <= j < |os| && os[j].Ok? && os[j].value.Some? ==> ValidDated(os[j].value.value)
  }

  /** The outcome of every iteration of the first loop, in input order. */
  function Outcomes(exps: seq<RawExperience>, now: Date): (os: seq<Outcome>)
    ensures |os| == |exps|
    ensures forall j :: 0 <= j < |exps| ==> os[j] == ParseOne(exps[j], j, now)
    ensures Tagged(os)
    ensures ValidDate(now) ==> OutcomesValid(os)
  {
    seq(|exps|, j requires 0 <= j < |exps| => ParseOne(exps[j], j, now))
  }

  /** The first loop over the outcomes: the first error propagates, and the
      kept entries are appended in order. */
  function Collect(os: seq<Outcome>): (r: Result<seq<Dated>>)
    ensures r.Ok? ==> |r.value| <= |os|
    ensures r.Ok? && Tagged(os) ==> IndicesBelow(r.value, |os|) && IndicesIncreasing(r.value)
    decreases |os|
  {
    if os == [] then Ok([])
    else
      var init := os[..|os| - 1];
      assert Tagged(os) ==> Tagged(init) by {
        assert forall j :: 0 <= j < |init| ==> init[j] == os[j];
      }
      match Collect(init)
      case Err(e) => Err(e)
      case Ok(prefix) =>
        match os[|os| - 1]
        case Err(m) => Err(m)
        case Ok(kept) => if kept.Some? then Ok(prefix + [kept.value]) else Ok(prefix)
  }

  /** The entries the first loop of `detect_gaps_and_overlaps` keeps. */
  function ParsedEntries(exps: seq<RawExperience>, now: Date): (r: Result<seq<Dated>>)
    ensures r.Ok? ==> |r.value| <= |exps| && IndicesBelow(r.value, |exps|) && IndicesIncreasing(r.value)
    ensures r.Ok? && ValidDate(now) ==> AllValid(r.value)
  {
    var os := Outcomes(exps, now);
    CollectSound(os);
    Collect(os)
  }

  /** The loop raises exactly when some iteration raises. */
  lemma {:induction false} CollectOkIff(os: seq<Outcome>)
    ensures Collect(os).Ok? <==> forall j :: 0 <= j < |os| ==> os[j].Ok?
    decreases |os|
  {
    if os != [] {
      var n := |os| - 1;
      var init := os[..n];
      CollectOkIff(init);
      assert forall j :: 0 <= j < n ==> init[j] == os[j];
    }
  }

  /** Every kept entry is the outcome at its own position; with valid
      outcomes, every kept entry is valid. */
  lemma {:induction false} CollectSound(os: seq<Outcome>)
    requires Tagged(os)
    ensures Collect(os).Ok? ==>
      forall x :: x in Collect(os).value ==> x.index < |os| && os[x.index] == Ok(Some(x))
    ensures Collect(os).Ok? && OutcomesValid(os) ==> AllValid(Collect(os).value)
    decreases |os|
  {
    if os != [] {
      var n := |os| - 1;
      var init := os[..n];
      assert forall j :: 0 <= j < n ==> init[j] == os[j];
      CollectSound(init);
    }
  }

  /** Every outcome that keeps an entry has it in the result. */
  lemma {:induction false} CollectComplete(os: seq<Outcome>)
    ensures Collect(os).Ok? ==>
      forall j :: 0 <= j < |os| && os[j].Ok? && os[j].value.Some? ==> os[j].value.value in Collect(os).value
    decreases |os|
  {
    if os != [] && Collect(os).Ok? {
      var n := |os| - 1;
      var init := os[..n];
      CollectComplete(init);
      forall j | 0 <= j < |os| && os[j].Ok? && os[j].value.Some?
        ensures os[j].value.value in Collect(os).value
      {
        if j < n {
          assert init[j] == os[j];
        }
      }
    }
  }

  /** The first loop keeps exactly the experiences whose two dates parse,
      and raises exactly when one of the parses raises. */
  lemma ParsedEntriesExact(exps: seq<RawExperience>, now: Date)
    ensures ParsedEntries(exps, now).Ok? <==> forall j :: 0 <= j < |exps| ==> ParseOne(exps[j], j, now).Ok?
    ensures ParsedEntries(exps, now).Ok? ==>
      (forall x :: x in ParsedEntries(exps, now).value ==>
         x.index < |exps| && ParseOne(exps[x.index], x.index, now) == Ok(Some(x)))
      && (forall j :: 0 <= j < |exps| && ParseOne(exps[j], j, now).Ok? && ParseOne(exps[j], j, now).value.Some? ==>
         ParseOne(exps[j], j, now).value.value in ParsedEntries(exps, now).value)
  {
    var os := Outcomes(exps, now);
    CollectOkIff(os);
    CollectSound(os);
    CollectComplete(os);
  }

  // -------------------------------------------------------------- sorting

  function Fin(e: Dated): Date {
    e.fin
  }

  lemma BeforeAsymmetric()
    ensures Asymmetric(Before)
  {
  }

  /** `parsed_exps.sort(key=date_fin, reverse=True)`: a stable sort by end
      date, latest first (its order, permutation and stability lemmas are
      those of `StableSort`). */
  function SortByFinDesc(p: seq<Dated>): (r: seq<Dated>)
    ensures |r| == |p|
    ensures forall z :: z in r <==> z in p
  {
    var r := SortDesc(p, Fin, Before);
    assert forall z :: z in r <==> z in multiset(r);
    r
  }

  // ---------------------------------------------------------- flag search

  /** `date.strftime('%Y-%m')`. */
  function FormatYearMonth(d: Date): string {
    IntToString(d.year) + "-" + (if 1 <= d.month <= 9 then "0" else "") + IntToString(d.month)
  }

  /** A `period` text: both months, joined by an arrow. */
  function PeriodText(start: Date, end: Date): string {
    FormatYearMonth(start) + " → " + FormatYearMonth(end)
  }

  /** A `between` or `experiences` text naming both entries. */
  function PairText(a: Dated, b: Dated): string {
    Describe(a) + " et " + Describe(b)
  }

  /** The `period` and `between` of a gap dict. */
  function GapPeriod(g: Gap): string {
    PeriodText(g.from, g.to)
  }

  function GapBetween(g: Gap): string {
    PairText(g.earlier, g.later)
  }

  /** The `overlap_period` and `experiences` of an overlap dict. */
  function OverlapPeriod(o: Overlap): string {
    PeriodText(o.start, o.end)
  }

  function OverlapExperiences(o: Overlap): string {
    PairText(o.first, o.second)
  }

  function Describe(e: Dated): string {
    "Expérience #" + IntToString(e.index + 1) + " (" + Shown(e.entreprise) + ")"
  }

  /** The month distance the source measures between an entry and the one
      sorted after it: end of the next to start of the current, in absolute value. */
  function GapMonths(cur: Dated, next: Dated): nat {
    MonthsBetween(next.fin, cur.debut)
  }

  function GapAt(cur: Dated, next: Dated): (r: seq<Gap>)
    ensures |r| <= 1 && forall g :: g in r ==> g.durationMonths >= 3
  {
    var months := GapMonths(cur, next);
    if months >= 3 then
      [Gap(next.fin, cur.debut, months, next, cur)]
    else []
  }

  /** The gaps found among the first `n` adjacent pairs. */
  function GapsUpTo(p: seq<Dated>, n: nat): seq<Gap>
    requires n < |p|
    decreases n
  {
    if n == 0 then [] else GapsUpTo(p, n - 1) + GapAt(p[n - 1], p[n])
  }

  /** The gaps between consecutive entries of the sorted list: at most one
      per pair, each of at least three months. */
  function Gaps(p: seq<Dated>): (r: seq<Gap>)
    ensures |r| <= (if p == [] then 0 else |p| - 1)
    ensures forall g :: g in r ==> g.durationMonths >= 3
  {
    if p == [] then [] else GapsUpToBound(p, |p| - 1); GapsUpTo(p, |p| - 1)
  }

  predicate Overlapping(a: Dated, b: Dated) {
    Before(b.debut, a.fin) && Before(a.debut, b.fin)
  }

  function OverlapAt(a: Dated, b: Dated): (r: seq<Overlap>)
    requires ValidDated(a) && ValidDated(b)
    ensures |r| <= 1 && LongOverlaps(r)
  {
    if Overlapping(a, b) then
      var start := MaxDate(a.debut, b.debut);
      var end := MinDate(a.fin, b.fin);
      var days := DaysBetween(start, end);
      if days > 14 then
        [Overlap(start, end, days, a, b,
                 SameCompany(a.entreprise, b.entreprise))]
      else []
    else []
  }

  /** `a.lower() == b.lower()` when both are strings; otherwise the
      comparison raises, which `OverlapRaises` records. */
  function SameCompany(a: Company, b: Company): bool {
    a.Named? && b.Named? && LowerStr(a.name) == LowerStr(b.name)
  }

  /** A reported overlap whose employers are not both strings: computing
      `same_company` raises AttributeError. */
  predicate OverlapRaises(a: Dated, b: Dated)
    requires ValidDated(a) && ValidDated(b)
  {
    OverlapAt(a, b) != [] && (a.entreprise.Unnamed? || b.entreprise.Unnamed?)
  }

  /** Some pair of entry `i` with one of entries `i+1 .. j-1` raises. */
  predicate RowRaises(p: seq<Dated>, i: nat, j: nat)
    requires AllValid(p) && i < j <= |p|
    decreases j
  {
    j > i + 1 && (RowRaises(p, i, j - 1) || OverlapRaises(p[i], p[j - 1]))
  }

  /** Some pair whose first entry is below `n` raises. */
  predicate RaisesUpTo(p: seq<Dated>, n: nat)
    requires AllValid(p) && n <= |p|
    decreases n
  {
    n > 0 && (RaisesUpTo(p, n - 1) || RowRaises(p, n - 1, |p|))
  }

  const LowerError := "AttributeError: 'lower'"

  /** The overlaps of entry `i` with entries `i+1 .. j-1`: at most one per
      later entry, each of more than fourteen days. */
  function OverlapsRow(p: seq<Dated>, i: nat, j: nat): (r: seq<Overlap>)
    requires AllValid(p) && i < j <= |p|
    ensures |r| <= j - i - 1 && LongOverlaps(r)
    decreases j
  {
    if j == i + 1 then []
    else
      var prev := OverlapsRow(p, i, j - 1);
      assert p[i] in p && p[j - 1] in p;
      var o := OverlapAt(p[i], p[j - 1]);
      LongAppend(prev, o);
      prev + o
  }

  /** The overlaps of all pairs whose first entry is below `n`: at most one
      per such pair, each of more than fourteen days. */
  function OverlapsUpTo(p: seq<Dated>, n: nat): (r: seq<Overlap>)
    requires AllValid(p) && n <= |p|
    ensures |r| <= Pairs(|p|, n) && LongOverlaps(r)
    decreases n
  {
    if n == 0 then []
    else
      var prev := OverlapsUpTo(p, n - 1);
      var row := OverlapsRow(p, n - 1, |p|);
      LongAppend(prev, row);
      prev + row
  }

  /** What `detect_gaps_and_overlaps` returns. With `k` the number of
      experiences whose two dates parsed, there are at most `k - 1` gaps,
      each of at least three months, and at most `k(k-1)/2` overlaps, each
      longer than fourteen days. */
  function DetectFlags(exps: seq<RawExperience>, now: Date): (r: Result<Flags>)
    requires ValidDate(now)
    ensures r.Ok? ==> ParsedEntries(exps, now).Ok?
    ensures r.Ok? ==>
      var k := |ParsedEntries(exps, now).value|;
      && k <= |exps|
      && |r.value.gappes| <= (if k == 0 then 0 else k - 1)
      && 2 * |r.value.overlaps| <= k * (k - 1)
      && (forall g :: g in r.value.gappes ==> g.durationMonths >= 3)
      && (forall o :: o in r.value.overlaps ==> o.overlapDays > 14)
  {
    match ParsedEntries(exps, now)
    case Err(e) => Err(e)
    case Ok(parsed) =>
      var p := SortByFinDesc(parsed);
      if RaisesUpTo(p, |p|) then Err(LowerError)
      else SortedFlagsBounds(exps, now, parsed); Ok(Flags(Gaps(p), OverlapsUpTo(p, |p|)))
  }

  /** The bounds of `FlagsBounds` for the parsed entries, sorted. */
  lemma SortedFlagsBounds(exps: seq<RawExperience>, now: Date, parsed: seq<Dated>)
    requires ValidDate(now) && ParsedEntries(exps, now) == Ok(parsed)
    ensures AllValid(SortByFinDesc(parsed))
    ensures var p := SortByFinDesc(parsed); var k := |parsed|;
      && k <= |exps|
      && |Gaps(p)| <= (if k == 0 then 0 else k - 1)
      && 2 * |OverlapsUpTo(p, |p|)| <= k * (k - 1)
      && (forall g :: g in Gaps(p) ==> g.durationMonths >= 3)
      && (forall o :: o in OverlapsUpTo(p, |p|) ==> o.overlapDays > 14)
  {
    var p := SortByFinDesc(parsed);
    assert AllValid(p) by {
      forall x | x in p ensures ValidDated(x) {
        assert x in parsed;
      }
    }
    FlagsBounds(p);
  }

  /** The first loop of `detect_gaps_and_overlaps`. */
  method ParseAll(exps: seq<RawExperience>, now: Date) returns (r: Result<seq<Dated>>)
    ensures r == ParsedEntries(exps, now)
  {
    ghost var os := Outcomes(exps, now);
    var parsed: seq<Dated> := [];
    var i := 0;
    while i < |exps|
      invariant 0 <= i <= |exps|
      invariant Collect(os[..i]) == Ok(parsed)
    {
      assert os[..i + 1][..i] == os[..i];
      var kept := ParseOne(exps[i], i, now);
      if kept.Err? {
        CollectPrefixErr(os, i + 1);
        return Err(kept.error);
      }
      if kept.value.Some? {
        parsed := parsed + [kept.value.value];
      }
      i := i + 1;
    }
    assert os[..i] == os;
    r := Ok(parsed);
  }

  /** Once a prefix of the outcomes raises, the whole loop raises the same error. */
  lemma {:induction false} CollectPrefixErr(os: seq<Outcome>, n: nat)
    requires 0 < n <= |os|
    requires Collect(os[..n]).Err?
    ensures Collect(os) == Err(Collect(os[..n]).error)
    decreases |os| - n
  {
    if n < |os| {
      assert os[..n + 1][..n] == os[..n];
      CollectPrefixErr(os, n + 1);
    } else {
      assert os[..n] == os;
    }
  }

  /** The gap loop over adjacent pairs of the sorted entries. */
  method FindGaps(p: seq<Dated>) returns (gaps: seq<Gap>)
    ensures gaps == Gaps(p)
  {
    gaps := [];
    if |p| > 0 {
      var k := 0;
      while k < |p| - 1
        invariant 0 <= k <= |p| - 1
        invariant gaps == GapsUpTo(p, k)
      {
        var months := MonthsBetween(p[k + 1].fin, p[k].debut);
        if months >= 3 {
          gaps := gaps + [Gap(p[k + 1].fin, p[k].debut, months, p[k + 1], p[k])];
        }
        k := k + 1;
      }
    }
  }

  /** The nested overlap loops over all pairs `i < j`; the first pair
      whose employers cannot be compared ends them with AttributeError. */
  method FindOverlaps(p: seq<Dated>) returns (r: Result<seq<Overlap>>)
    requires AllValid(p)
    ensures r.Err? <==> RaisesUpTo(p, |p|)
    ensures r.Err? ==> r.error == LowerError
    ensures r.Ok? ==> r.value == OverlapsUpTo(p, |p|)
  {
    var overlaps := [];
    var a := 0;
    while a < |p|
      invariant 0 <= a <= |p|
      invariant !RaisesUpTo(p, a)
      invariant overlaps == OverlapsUpTo(p, a)
    {
      var row := FindRowOverlaps(p, a);
      UpToAdvance(p, a, overlaps, row);
      if row.Err? {
        return row;
      }
      overlaps := overlaps + row.value;
      a := a + 1;
    }
    r := Ok(overlaps);
  }

  /** One turn of the outer loop: a raising row makes the whole search
      raise, any other row extends the overlaps. */
  lemma UpToAdvance(p: seq<Dated>, a: nat, overlaps: seq<Overlap>, row: Result<seq<Overlap>>)
    requires AllValid(p) && a < |p|
    requires !RaisesUpTo(p, a) && overlaps == OverlapsUpTo(p, a)
    requires row.Err? <==> RowRaises(p, a, |p|)
    requires row.Ok? ==> row.value == OverlapsRow(p, a, |p|)
    ensures row.Err? ==> RaisesUpTo(p, |p|)
    ensures row.Ok? ==> !RaisesUpTo(p, a + 1) && OverlapsUpTo(p, a + 1) == overlaps + row.value
  {
    if row.Err? {
      assert RaisesUpTo(p, a + 1);
      RaisesUpToMono(p, a + 1);
    }
  }

  /** The inner overlap loop: entry `a` against every later entry. */
  method FindRowOverlaps(p: seq<Dated>, a: nat) returns (r: Result<seq<Overlap>>)
    requires AllValid(p) && a < |p|
    ensures r.Err? <==> RowRaises(p, a, |p|)
    ensures r.Err? ==> r.error == LowerError
    ensures r.Ok? ==> r.value == OverlapsRow(p, a, |p|)
  {
    var row := [];
    var b := a + 1;
    while b < |p|
      invariant a + 1 <= b <= |p|
      invariant !RowRaises(p, a, b)
      invariant row == OverlapsRow(p, a, b)
    {
      RowAdvance(p, a, b, row);
      var o := OverlapAt(p[a], p[b]);
      if OverlapRaises(p[a], p[b]) {
        return Err(LowerError);
      }
      row := row + o;
      b := b + 1;
    }
    r := Ok(row);
  }

  /** One turn of the inner loop: a raising pair makes the whole row
      raise, any other pair extends the row. */
  lemma RowAdvance(p: seq<Dated>, a: nat, b: nat, row: seq<Overlap>)
    requires AllValid(p) && a < b < |p|
    requires !RowRaises(p, a, b) && row == OverlapsRow(p, a, b)
    ensures ValidDated(p[a]) && ValidDated(p[b])
    ensures OverlapRaises(p[a], p[b]) ==> RowRaises(p, a, |p|)
    ensures !OverlapRaises(p[a], p[b]) ==> !RowRaises(p, a, b + 1) && row + OverlapAt(p[a], p[b]) == OverlapsRow(p, a, b + 1)
  {
    assert p[a] in p && p[b] in p;
    RowStep(p, a, b);
    if OverlapRaises(p[a], p[b]) {
      RowRaisesMono(p, a, b + 1);
    }
  }

  /** A pair that raises keeps the rest of the row raising. */
  lemma {:induction false} RowRaisesMono(p: seq<Dated>, a: nat, j: nat)
    requires AllValid(p) && a < j <= |p|
    requires RowRaises(p, a, j)
    ensures RowRaises(p, a, |p|)
    decreases |p| - j
  {
    if j < |p| {
      RowRaisesMono(p, a, j + 1);
    }
  }

  /** A row that raises keeps the whole search raising. */
  lemma {:induction false} RaisesUpToMono(p: seq<Dated>, n: nat)
    requires AllValid(p) && n <= |p|
    requires RaisesUpTo(p, n)
    ensures RaisesUpTo(p, |p|)
    decreases |p| - n
  {
    if n < |p| {
      RaisesUpToMono(p, n + 1);
    }
  }

  /** One more entry of the inner loop. */
  lemma RowStep(p: seq<Dated>, a: nat, b: nat)
    requires AllValid(p) && a < b < |p|
    ensures OverlapsRow(p, a, b + 1) == OverlapsRow(p, a, b) + OverlapAt(p[a], p[b])
    ensures RowRaises(p, a, b + 1) <==> RowRaises(p, a, b) || OverlapRaises(p[a], p[b])
  {
  }

  /** `detect_gaps_and_overlaps`: parse, sort by end date (latest first),
      then search the adjacent pairs for gaps and all pairs for overlaps. */
  method DetectGapsAndOverlaps(exps: seq<RawExperience>, now: Date) returns (r: Result<Flags>)
    requires ValidDate(now)
    ensures r == DetectFlags(exps, now)
  {
    var parsed := ParseAll(exps, now);
    if parsed.Err? {
      return Err(parsed.error);
    }
    var p := SortByFinDesc(parsed.value);
    var gaps := FindGaps(p);
    var overlaps := FindOverlaps(p);
    if overlaps.Err? {
      return Err(overlaps.error);
    }
    r := Ok(Flags(gaps, overlaps.value));
  }

  // ------------------------------------------------------------ properties

  lemma {:induction false} GapsUpToBound(p: seq<Dated>, n: nat)
    requires n < |p|
    ensures |GapsUpTo(p, n)| <= n
    ensures forall g :: g in GapsUpTo(p, n) ==> g.durationMonths >= 3
    decreases n
  {
    if n > 0 {
      GapsUpToBound(p, n - 1);
      var before, here := GapsUpTo(p, n - 1), GapAt(p[n - 1], p[n]);
      assert GapsUpTo(p, n) == before + here;
      forall g: Gap | g in before + here ensures g.durationMonths >= 3 {
        assert g in before || g in here;
      }
    }
  }

  /** The number of pairs `i < j < k` with `i < n`. */
  function Pairs(k: nat, n: nat): int
    decreases n
  {
    if n == 0 then 0 else Pairs(k, n - 1) + (k - n)
  }

  lemma {:induction false} PairsClosed(k: nat, n: nat)
    requires n <= k
    ensures 2 * Pairs(k, n) == n * (2 * k - n - 1)
    decreases n
  {
    if n > 0 {
      PairsClosed(k, n - 1);
      calc {
        n * (2 * k - n - 1);
        (n - 1) * (2 * k - n - 1) + (2 * k - n - 1);
        (n - 1) * (2 * k - (n - 1) - 1) - (n - 1) + (2 * k - n - 1);
      }
    }
  }

  /** Every overlap listed spans more than fourteen days. */
  predicate LongOverlaps(os: seq<Overlap>) {
    forall k :: 0 <= k < |os| ==> os[k].overlapDays > 14
  }

  lemma LongAppend(a: seq<Overlap>, b: seq<Overlap>)
    requires LongOverlaps(a) && LongOverlaps(b)
    ensures LongOverlaps(a + b)
  {
    forall k | 0 <= k < |a + b|
      ensures (a + b)[k].overlapDays > 14
    {
      if k >= |a| {
        assert (a + b)[k] == b[k - |a|];
      }
    }
  }


  /** Over `k` sorted entries there are at most `k - 1` gaps, each of at
      least three months, and at most `k(k-1)/2` overlaps, each longer than
      fourteen days. */
  lemma FlagsBounds(p: seq<Dated>)
    requires AllValid(p)
    ensures |Gaps(p)| <= (if p == [] then 0 else |p| - 1)
    ensures 2 * |OverlapsUpTo(p, |p|)| <= |p| * (|p| - 1)
    ensures forall g :: g in Gaps(p) ==> g.durationMonths >= 3
    ensures forall o :: o in OverlapsUpTo(p, |p|) ==> o.overlapDays > 14
  {
    OverlapsBound(p);
    var os := OverlapsUpTo(p, |p|);
    forall o | o in os ensures o.overlapDays > 14 {
      var j :| 0 <= j < |os| && os[j] == o;
    }
  }

  lemma OverlapsBound(p: seq<Dated>)
    requires AllValid(p)
    ensures 2 * |OverlapsUpTo(p, |p|)| <= |p| * (|p| - 1)
  {
    AllPairs(|p|);
  }

  lemma AllPairs(k: nat)
    ensures 2 * Pairs(k, k) == k * (k - 1)
  {
    PairsClosed(k, k);
    assert k * (2 * k - k - 1) == k * (k - 1);
  }

  /** Employers are compared only for a reported overlap, so entries whose
      employers are all strings, or fewer than two entries, never raise. */
  lemma NamedNeverRaises(p: seq<Dated>)
    requires AllValid(p)
    ensures (forall x :: x in p ==> x.entreprise.Named?) || |p| <= 1 ==> !RaisesUpTo(p, |p|)
  {
    if forall x :: x in p ==> x.entreprise.Named? {
      NamedRowsNeverRaise(p, |p|);
    } else if |p| == 1 {
      assert !RowRaises(p, 0, 1);
    }
  }

  lemma {:induction false} NamedRowsNeverRaise(p: seq<Dated>, n: nat)
    requires AllValid(p) && n <= |p|
    requires forall x :: x in p ==> x.entreprise.Named?
    ensures !RaisesUpTo(p, n)
    decreases n
  {
    if n > 0 {
      NamedRowsNeverRaise(p, n - 1);
      NamedRowNeverRaises(p, n - 1, |p|);
    }
  }

  lemma {:induction false} NamedRowNeverRaises(p: seq<Dated>, i: nat, j: nat)
    requires AllValid(p) && i < j <= |p|
    requires forall x :: x in p ==> x.entreprise.Named?
    ensures !RowRaises(p, i, j)
    decreases j
  {
    if j > i + 1 {
      NamedRowNeverRaises(p, i, j - 1);
      assert p[i] in p && p[j - 1] in p;
    }
  }

  /** `detect_gaps_and_overlaps` fails exactly when a date raises or a
      reported overlap has an employer that is not a string; when every
      employer is a string, or at most one experience has both dates, only
      the dates can make it fail. */
  lemma DetectFlagsRaises(exps: seq<RawExperience>, now: Date)
    requires ValidDate(now)
    ensures ParsedEntries(exps, now).Err? ==> DetectFlags(exps, now) == Err(ParsedEntries(exps, now).error)
    ensures ParsedEntries(exps, now).Ok? ==>
      var p := SortByFinDesc(ParsedEntries(exps, now).value);
      AllValid(p) && (DetectFlags(exps, now).Err? <==> RaisesUpTo(p, |p|)) &&
      (DetectFlags(exps, now).Err? ==> DetectFlags(exps, now).error == LowerError)
    ensures ParsedEntries(exps, now).Ok? && (forall e :: e in exps ==> e.entreprise.Named?) ==> DetectFlags(exps, now).Ok?
    ensures ParsedEntries(exps, now).Ok? && |ParsedEntries(exps, now).value| <= 1 ==> DetectFlags(exps, now).Ok?
  {
    if ParsedEntries(exps, now).Ok? {
      var parsed := ParsedEntries(exps, now).value;
      var p := SortByFinDesc(parsed);
      assert AllValid(p);
      if forall e :: e in exps ==> e.entreprise.Named? {
        ParsedEntriesExact(exps, now);
        forall x | x in p
          ensures x.entreprise.Named?
        {
          assert x in parsed;
          assert exps[x.index] in exps;
        }
      }
      NamedNeverRaises(p);
    }
  }

  /** A gap is reported for an adjacent pair exactly when the month distance
      between the next entry's end and the current entry's start is at least three. */
  lemma GapAtIff(cur: Dated, next: Dated)
    ensures |GapAt(cur, next)| == 1 <==> GapMonths(cur, next) >= 3
    ensures |GapAt(cur, next)| != 1 ==> GapAt(cur, next) == []
    ensures GapAt(cur, next) != [] ==> GapAt(cur, next)[0].durationMonths == GapMonths(cur, next)
  {
  }

  /** An overlap is reported for a pair exactly when their periods intersect
      and the intersection spans more than fourteen days; same_company
      compares the employers case-insensitively, and computing it raises
      exactly when one of them is not a string. */
  lemma OverlapAtIff(a: Dated, b: Dated)
    requires ValidDated(a) && ValidDated(b)
    ensures |OverlapAt(a, b)| == 1 <==>
      Overlapping(a, b) && DaysBetween(MaxDate(a.debut, b.debut), MinDate(a.fin, b.fin)) > 14
    ensures |OverlapAt(a, b)| != 1 ==> OverlapAt(a, b) == []
    ensures OverlapAt(a, b) != [] ==>
      (OverlapAt(a, b)[0].sameCompany <==> a.entreprise.Named? && b.entreprise.Named? &&
                                           LowerStr(a.entreprise.name) == LowerStr(b.entreprise.name))
    ensures OverlapRaises(a, b) <==> |OverlapAt(a, b)| == 1 && (a.entreprise.Unnamed? || b.entreprise.Unnamed?)
  {
  }

  /** Two consecutive jobs: 2019-01 to 2019-06, then 2019-10 to 2020-02. The
      later one sorts first and the pair reports a four-month gap. */
  lemma GapExample()
    ensures var a := Dated(0, Named("A"), Date(2019, 1, 1), Date(2019, 6, 1));
            var b := Dated(1, Named("B"), Date(2019, 10, 1), Date(2020, 2, 1));
            SortByFinDesc([a, b]) == [b, a] && GapMonths(b, a) == 4 && |GapAt(b, a)| == 1
  {
    var a := Dated(0, Named("A"), Date(2019, 1, 1), Date(2019, 6, 1));
    var b := Dated(1, Named("B"), Date(2019, 10, 1), Date(2020, 2, 1));
    assert [a, b][1..] == [b];
    assert SortDesc([b], Fin, Before) == [b];
    assert Insert(a, [b], Fin, Before) == [b] + Insert(a, [], Fin, Before);
  }

  /** As written: a job nested inside another (2019-01 to 2019-12 within
      2018-01 to 2020-12) reports a 23-month gap, because the distance is
      taken in absolute value. */
  lemma NestedJobReportsGap()
    ensures var outer := Dated(0, Named("A"), Date(2018, 1, 1), Date(2020, 12, 1));
            var inner := Dated(1, Named("B"), Date(2019, 1, 1), Date(2019, 12, 1));
            SortByFinDesc([outer, inner]) == [outer, inner]
            && GapMonths(outer, inner) == 23
            && |GapAt(outer, inner)| == 1
  {
    var outer := Dated(0, Named("A"), Date(2018, 1, 1), Date(2020, 12, 1));
    var inner := Dated(1, Named("B"), Date(2019, 1, 1), Date(2019, 12, 1));
    assert SortedDesc([outer, inner], Fin, Before);
    SortDescSortedInput([outer, inner], Fin, Before);
  }

  /** The evidently intended gap: the signed distance from the next entry's
      end to the current entry's start, counted only when at least three. */
  function IntendedGapMonths(cur: Dated, next: Dated): int {
    RelMonths(cur.debut, next.fin)
  }

  function IntendedGapAt(cur: Dated, next: Dated): seq<Gap> {
    var months := IntendedGapMonths(cur, next);
    if months >= 3 then
      [Gap(next.fin, cur.debut, months, next, cur)]
    else []
  }

  /** With the signed distance, a next entry that has not ended before the
      current one starts (nested or overlapping jobs) never reports a gap,
      while a real hole between first-of-month dates is reported exactly as
      before. */
  lemma IntendedGapSkipsNested(cur: Dated, next: Dated)
    requires ValidDate(cur.debut) && ValidDate(next.fin)
    requires cur.debut.day == 1 && next.fin.day == 1
    ensures !Before(next.fin, cur.debut) ==> IntendedGapAt(cur, next) == []
    ensures Before(next.fin, cur.debut) ==> IntendedGapAt(cur, next) == GapAt(cur, next)
  {
    MonthIndexFirstOfMonth(next.fin, cur.debut);
    assert AddMonths(next.fin, MonthIndex(cur.debut) - MonthIndex(next.fin)) == cur.debut;
  }

  /** The nested pair of the as-written lemma reports no gap once corrected. */
  lemma NestedJobIntended()
    ensures IntendedGapAt(Dated(0, Named("A"), Date(2018, 1, 1), Date(2020, 12, 1)),
                          Dated(1, Named("B"), Date(2019, 1, 1), Date(2019, 12, 1))) == []
  {
    IntendedGapSkipsNested(Dated(0, Named("A"), Date(2018, 1, 1), Date(2020, 12, 1)),
                           Dated(1, Named("B"), Date(2019, 1, 1), Date(2019, 12, 1)));
  }

  // ----------------------------------------------------------- formatting

  const NoFlagSentence := "Aucun flag détecté (pas de trous ni de chevauchements significatifs)."

  function GapHeader(n: int): string {
    "⚠️ TROUS DÉTECTÉS (" + IntToString(n) + "):"
  }

  function OverlapHeader(n: int): string {
    "⚠️ CHEVAUCHEMENTS DÉTECTÉS (" + IntToString(n) + "):"
  }

  function GapLine(g: Gap): string {
    "  - " + GapPeriod(g) + " (" + IntToString(g.durationMonths) + " mois) entre " + GapBetween(g)
  }

  function OverlapLine(o: Overlap): string {
    "  - " + OverlapPeriod(o) + " (" + IntToString(o.overlapDays) + " jours) : " + OverlapExperiences(o)
    + (if o.sameCompany then " (même entreprise)" else "")
  }

  /** One line of the flag text: a header counting one kind of flag, or
      one flag. */
  datatype FlagPart = GapsHeader(count: nat) | GapItem(gap: Gap) | OverlapsHeader(count: nat) | OverlapItem(overlap: Overlap)

  function PartText(p: FlagPart): string {
    match p
    case GapsHeader(n) => GapHeader(n)
    case GapItem(g) => GapLine(g)
    case OverlapsHeader(n) => OverlapHeader(n)
    case OverlapItem(o) => OverlapLine(o)
  }

  function Texts(ps: seq<FlagPart>): (ls: seq<string>)
    ensures |ls| == |ps|
    ensures forall i :: 0 <= i < |ps| ==> ls[i] == PartText(ps[i])
  {
    seq(|ps|, i requires 0 <= i < |ps| => PartText(ps[i]))
  }

  /** One line per gap, in order. */
  function GapParts(gs: seq<Gap>): (ps: seq<FlagPart>)
    ensures |ps| == |gs|
    ensures forall i :: 0 <= i < |gs| ==> ps[i] == GapItem(gs[i])
  {
    seq(|gs|, i requires 0 <= i < |gs| => GapItem(gs[i]))
  }

  /** One line per overlap, in order. */
  function OverlapParts(os: seq<Overlap>): (ps: seq<FlagPart>)
    ensures |ps| == |os|
    ensures forall i :: 0 <= i < |os| ==> ps[i] == OverlapItem(os[i])
  {
    seq(|os|, i requires 0 <= i < |os| => OverlapItem(os[i]))
  }

  /** Two optional sections, each a header then its items, laid end to end. */
  function Sections(h1: FlagPart, l1: seq<FlagPart>, c1: bool, h2: FlagPart, l2: seq<FlagPart>, c2: bool): seq<FlagPart> {
    (if c1 then [h1] + l1 else []) + (if c2 then [h2] + l2 else [])
  }

  /** The lines `format_flags_for_llm` joins. */
  function FlagParts(f: Flags): seq<FlagPart> {
    Sections(GapsHeader(|f.gappes|), GapParts(f.gappes), f.gappes != [],
             OverlapsHeader(|f.overlaps|), OverlapParts(f.overlaps), f.overlaps != [])
  }

  /** The flag text opens, when there are gaps, with their header and one
      line per gap; its length counts one header per non-empty kind of flag
      and one line per flag. */
  lemma FlagPartsGaps(f: Flags)
    ensures |FlagParts(f)| == (if f.gappes != [] then 1 + |f.gappes| else 0) + (if f.overlaps != [] then 1 + |f.overlaps| else 0)
    ensures f.gappes != [] ==>
      (FlagParts(f)[0] == GapsHeader(|f.gappes|)
       && forall i :: 0 <= i < |f.gappes| ==> FlagParts(f)[1 + i] == GapItem(f.gappes[i]))
  {
    SectionsShape(GapsHeader(|f.gappes|), GapParts(f.gappes), f.gappes != [],
                  OverlapsHeader(|f.overlaps|), OverlapParts(f.overlaps), f.overlaps != []);
  }

  /** The flag text ends, when there are overlaps, with their header and
      one line per overlap. */
  lemma FlagPartsOverlaps(f: Flags)
    ensures f.overlaps != [] ==>
      (FlagParts(f)[|FlagParts(f)| - |f.overlaps| - 1] == OverlapsHeader(|f.overlaps|)
       && forall i :: 0 <= i < |f.overlaps| ==> FlagParts(f)[|FlagParts(f)| - |f.overlaps| + i] == OverlapItem(f.overlaps[i]))
  {
    SectionsShape(GapsHeader(|f.gappes|), GapParts(f.gappes), f.gappes != [],
                  OverlapsHeader(|f.overlaps|), OverlapParts(f.overlaps), f.overlaps != []);
  }

  lemma SectionsShape(h1: FlagPart, l1: seq<FlagPart>, c1: bool, h2: FlagPart, l2: seq<FlagPart>, c2: bool)
    ensures |Sections(h1, l1, c1, h2, l2, c2)| == (if c1 then 1 + |l1| else 0) + (if c2 then 1 + |l2| else 0)
    ensures c1 ==> Sections(h1, l1, c1, h2, l2, c2)[0] == h1
    ensures c1 ==> forall i :: 0 <= i < |l1| ==> Sections(h1, l1, c1, h2, l2, c2)[1 + i] == l1[i]
    ensures c2 ==> Sections(h1, l1, c1, h2, l2, c2)[if c1 then 1 + |l1| else 0] == h2
    ensures c2 ==> forall i :: 0 <= i < |l2| ==> Sections(h1, l1, c1, h2, l2, c2)[(if c1 then 1 + |l1| else 0) + 1 + i] == l2[i]
  {
  }

  /** The loop `for gap in flags.gappes`: one line per gap after `head`. */
  method AppendGapLines(head: seq<FlagPart>, gs: seq<Gap>) returns (parts: seq<FlagPart>)
    ensures parts == head + GapParts(gs)
  {
    parts := head;
    var i := 0;
    while i < |gs|
      invariant 0 <= i <= |gs|
      invariant parts == head + GapParts(gs[..i])
    {
      assert GapParts(gs[..i + 1]) == GapParts(gs[..i]) + [GapItem(gs[i])];
      parts := parts + [GapItem(gs[i])];
      i := i + 1;
    }
    assert gs[..i] == gs;
  }

  /** The loop `for overlap in flags.overlaps`: one line per overlap after `head`. */
  method AppendOverlapLines(head: seq<FlagPart>, os: seq<Overlap>) returns (parts: seq<FlagPart>)
    ensures parts == head + OverlapParts(os)
  {
    parts := head;
    var i := 0;
    while i < |os|
      invariant 0 <= i <= |os|
      invariant parts == head + OverlapParts(os[..i])
    {
      assert OverlapParts(os[..i + 1]) == OverlapParts(os[..i]) + [OverlapItem(os[i])];
      parts := parts + [OverlapItem(os[i])];
      i := i + 1;
    }
    assert os[..i] == os;
  }

  /** `format_flags_for_llm`: a fixed sentence when there is no flag,
      otherwise the flag lines joined by newlines. */
  method FormatFlagsForLlm(f: Flags) returns (text: string)
    ensures f.gappes == [] && f.overlaps == [] ==> text == NoFlagSentence
    ensures f.gappes != [] || f.overlaps != [] ==> text == Join(Texts(FlagParts(f)), '\n')
  {
    if f.gappes == [] && f.overlaps == [] {
      return NoFlagSentence;
    }
    var gapParts: seq<FlagPart> := [];
    if f.gappes != [] {
      gapParts := AppendGapLines([GapsHeader(|f.gappes|)], f.gappes);
    }
    var overlapParts: seq<FlagPart> := [];
    if f.overlaps != [] {
      overlapParts := AppendOverlapLines([OverlapsHeader(|f.overlaps|)], f.overlaps);
    }
    text := Join(Texts(gapParts + overlapParts), '\n');
  }
}
