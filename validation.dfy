/** Checks and repairs applied to the JSON that the language model returns:
    text, competence and language normalisers, boolean and year coercion,
    the repair of CV, must-have and re-ranking payloads, the
    validate-then-repair loop, and the size, word-count and ROME-code
    checks. */
module Validation {
  import opened Wrappers
  import opened Text
  import opened JsonValue
  import opened Assoc
  import opened PyOps

  // ------------------------------------------------------------ normalisers

  /** `normalize_text`: strip, then every whitespace run becomes one space;
      anything but a string gives "". */
  function NormalizeText(v: Json): (r: string)
    ensures Collapsed(r)
    ensures !v.JStr? ==> r == []
    ensures v.JStr? && Collapsed(v.s) ==> r == v.s
  {
    if v.JStr? then
      var t := Strip(v.s);
      CollapseStripped(t);
      CollapseSpaces(t)
    else []
  }

  lemma NormalizeTextIdempotent(v: Json)
    ensures NormalizeText(JStr(NormalizeText(v))) == NormalizeText(v)
  {
  }

  /** The acronyms `normalize_competence` writes in their canonical casing. */
  const Acronyms: seq<string> := ["SQL", "API", "AWS", "GCP", "ETL", "ML", "AI", "CI/CD", "DevOps",
                                  "REST", "GraphQL", "NoSQL", "HTML", "CSS", "JS", "TS", "PHP"]

  /** The first entry of `names`, from position `from` on, equal to `s`
      once both are upper-cased. */
  function FirstAcronym(names: seq<string>, s: string, from: nat): (r: Option<nat>)
    requires from <= |names|
    ensures r.Some? ==> from <= r.value < |names| && UpperStr(names[r.value]) == UpperStr(s)
    ensures r.Some? ==> forall k :: from <= k < r.value ==> UpperStr(names[k]) != UpperStr(s)
    ensures r.None? ==> forall k :: from <= k < |names| ==> UpperStr(names[k]) != UpperStr(s)
    decreases |names| - from
  {
    if from == |names| then None
    else if UpperStr(s) == UpperStr(names[from]) then Some(from)
    else FirstAcronym(names, s, from + 1)
  }

  /** Looking up the entry found finds it again; text equal to `s` ignoring
      case finds the same entry. */
  lemma FirstAcronymAgain(names: seq<string>, s: string, t: string)
    requires UpperStr(t) == UpperStr(s)
    ensures FirstAcronym(names, t, 0) == FirstAcronym(names, s, 0)
    ensures FirstAcronym(names, s, 0).Some? ==>
      FirstAcronym(names, names[FirstAcronym(names, s, 0).value], 0) == FirstAcronym(names, s, 0)
  {
    var r := FirstAcronym(names, s, 0);
    var q := FirstAcronym(names, t, 0);
    if r.Some? {
      var k := r.value;
      var q2 := FirstAcronym(names, names[k], 0);
      assert q2.Some? && q2.value == k;
      assert q.Some? && q.value == k;
    } else {
      assert q.None?;
    }
  }

  /** `normalize_competence`: the canonical acronym on a case-insensitive
      match, otherwise the normalised text capitalised. */
  function NormalizeCompetence(comp: Json): (r: string)
    ensures Collapsed(r)
    ensures UpperStr(r) == UpperStr(NormalizeText(comp))
    ensures r in Acronyms <==> exists k :: 0 <= k < |Acronyms| && UpperStr(Acronyms[k]) == UpperStr(NormalizeText(comp))
    ensures r !in Acronyms ==> r == Capitalize(NormalizeText(comp))
  {
    var c := NormalizeText(comp);
    match FirstAcronym(Acronyms, c, 0)
    case Some(k) => AcronymCollapsed(k); Acronyms[k]
    case None => CapitalizeCollapsed(c); Capitalize(c)
  }

  /** Mapping each character to one with the same whitespace status, and
      the same character where it is whitespace, keeps text collapsed. */
  lemma CollapsedUnderLetterMap(c: string, r: string)
    requires Collapsed(c) && |r| == |c|
    requires forall i :: 0 <= i < |c| ==> IsSpace(r[i]) == IsSpace(c[i]) && (IsSpace(c[i]) ==> r[i] == c[i])
    ensures Collapsed(r)
  {
    assert forall i :: 0 <= i < |r| - 1 ==> !(IsSpace(r[i]) && IsSpace(r[i + 1])) by {
      forall i | 0 <= i < |r| - 1 ensures !(IsSpace(r[i]) && IsSpace(r[i + 1])) {
        assert !(IsSpace(c[i]) && IsSpace(c[i + 1]));
      }
    }
  }

  lemma CapitalizeAt(c: string, i: nat)
    requires i < |c|
    ensures Capitalize(c)[i] == if i == 0 then Upper(c[0]) else Lower(c[i])
  {
    if i > 0 {
      var rest := c[1..];
      assert Capitalize(c) == [Upper(c[0])] + LowerStr(rest);
      assert rest[i - 1] == c[i];
    }
  }

  lemma CapitalizeCollapsed(c: string)
    requires Collapsed(c)
    ensures Collapsed(Capitalize(c))
    ensures UpperStr(Capitalize(c)) == UpperStr(c)
    ensures LowerStr(Capitalize(c)) == LowerStr(c)
  {
    var r := Capitalize(c);
    forall i | 0 <= i < |c| ensures IsSpace(r[i]) == IsSpace(c[i]) && (IsSpace(c[i]) ==> r[i] == c[i])
      && Upper(r[i]) == Upper(c[i]) && Lower(r[i]) == Lower(c[i])
    {
      CapitalizeAt(c, i);
      CaseMapping(c[i]);
      CaseMapping(Upper(c[i]));
    }
    CollapsedUnderLetterMap(c, r);
    assert UpperStr(r) == UpperStr(c);
    assert LowerStr(r) == LowerStr(c);
  }

  lemma NoSpaceCollapsed(s: string)
    requires forall i :: 0 <= i < |s| ==> !IsSpace(s[i])
    ensures Collapsed(s)
  {
  }

  /** Text without whitespace is its own normal form. */
  lemma NoSpaceNormalized(s: string)
    requires forall i :: 0 <= i < |s| ==> !IsSpace(s[i])
    ensures NormalizeText(JStr(s)) == s
  {
    NoSpaceCollapsed(s);
  }

  lemma AcronymCollapsed(k: nat)
    requires k < |Acronyms|
    ensures Collapsed(Acronyms[k])
  {
    NoSpaceCollapsed(Acronyms[k]);
  }

  /** Normalising a normalised competence changes nothing. */
  lemma {:induction false} NormalizeCompetenceIdempotent(comp: Json)
    ensures NormalizeCompetence(JStr(NormalizeCompetence(comp))) == NormalizeCompetence(comp)
  {
    var c := NormalizeText(comp);
    var r := NormalizeCompetence(comp);
    var m := FirstAcronym(Acronyms, c, 0);
    CompetenceOf(comp, c);
    FirstAcronymAgain(Acronyms, c, c);
    assert NormalizeText(JStr(r)) == r;
    CompetenceOf(JStr(r), r);
    if m.Some? {
      assert r == Acronyms[m.value];
    } else {
      CapitalizeCollapsed(c);
      FirstAcronymAgain(Acronyms, c, r);
      CapitalizeIdempotent(c);
    }
  }

  /** `NormalizeCompetence` read off the normalised text `c`. */
  lemma CompetenceOf(comp: Json, c: string)
    requires NormalizeText(comp) == c
    ensures FirstAcronym(Acronyms, c, 0).Some? ==> NormalizeCompetence(comp) == Acronyms[FirstAcronym(Acronyms, c, 0).value]
    ensures FirstAcronym(Acronyms, c, 0).None? ==> NormalizeCompetence(comp) == Capitalize(c)
  {
  }

  /** No acronym is longer than seven characters. */
  lemma AcronymsShort()
    ensures forall k :: 0 <= k < |Acronyms| ==> |Acronyms[k]| <= 7
  {
  }

  /** The entry at `i` is found when it is the first one matching by
      length among entries of other lengths. */
  lemma FoundByLength(names: seq<string>, s: string, i: nat)
    requires i < |names| && UpperStr(names[i]) == UpperStr(s)
    requires forall k :: 0 <= k < i ==> |names[k]| != |s|
    ensures FirstAcronym(names, s, 0) == Some(i)
  {
    forall k | 0 <= k < i
      ensures UpperStr(names[k]) != UpperStr(s)
    {
      assert |UpperStr(names[k])| == |names[k]|;
    }
  }

  lemma GraphqlUpper()
    ensures UpperStr("graphql") == UpperStr("GraphQL")
  {
    var s, t := "graphql", "GraphQL";
    assert UpperStr(s) == "GRAPHQL";
    assert UpperStr(t) == "GRAPHQL";
  }

  lemma GraphqlFound()
    ensures NormalizeText(JStr("graphql")) == "graphql"
    ensures FirstAcronym(Acronyms, "graphql", 0) == Some(10) && Acronyms[10] == "GraphQL"
  {
    NoSpaceCollapsed("graphql");
    GraphqlUpper();
    assert Acronyms[10] == "GraphQL";
    FoundByLength(Acronyms, "graphql", 10);
  }

  /** The acronym list is matched ignoring case: "graphql" becomes "GraphQL". */
  lemma NormalizeCompetenceAcronym()
    ensures NormalizeCompetence(JStr("graphql")) == "GraphQL"
  {
    GraphqlFound();
    CompetenceOf(JStr("graphql"), "graphql");
  }

  lemma PostgresText()
    ensures NormalizeText(JStr("pOSTGRES")) == "pOSTGRES"
  {
    NoSpaceCollapsed("pOSTGRES");
  }

  lemma PostgresUpper()
    ensures Capitalize("pOSTGRES") == "Postgres"
  {
    var s := "pOSTGRES";
    assert s[1..] == "OSTGRES";
    assert LowerStr("OSTGRES") == "ostgres";
  }

  lemma PostgresNotFound()
    ensures FirstAcronym(Acronyms, "pOSTGRES", 0).None?
  {
    AcronymsShort();
    assert |UpperStr("pOSTGRES")| == 8;
  }

  /** Other text is capitalised: "pOSTGRES" is no acronym and becomes "Postgres". */
  lemma NormalizeCompetenceCapitalized()
    ensures NormalizeCompetence(JStr("pOSTGRES")) == "Postgres"
  {
    PostgresText();
    PostgresUpper();
    PostgresNotFound();
    CompetenceOf(JStr("pOSTGRES"), "pOSTGRES");
  }

  /** The fixed language table of `normalize_langue`, keyed by lower-cased name. */
  const LanguageNames: seq<(string, string)> := [
    ("anglais", "Anglais"), ("français", "Français"), ("francais", "Français"),
    ("espagnol", "Espagnol"), ("allemand", "Allemand"), ("italien", "Italien"),
    ("chinois", "Chinois"), ("arabe", "Arabe")]

  /** `normalize_langue`: the table's name for the lower-cased normalised
      text, otherwise that text capitalised. */
  function NormalizeLangue(l: Json): string {
    var t := NormalizeText(l);
    Lookup(LanguageNames, LowerStr(t)).GetOr(Capitalize(t))
  }

  lemma AnglaisEntry()
    ensures Collapsed("Anglais")
    ensures LowerStr("Anglais") == "anglais" && Lookup(LanguageNames, "anglais") == Some("Anglais")
  {
    NoSpaceCollapsed("Anglais");
  }

  lemma FrancaisEntry()
    ensures Collapsed("Français")
    ensures LowerStr("Français") == "français" && Lookup(LanguageNames, "français") == Some("Français")
  {
    NoSpaceCollapsed("Français");
  }

  lemma EspagnolEntry()
    ensures Collapsed("Espagnol")
    ensures LowerStr("Espagnol") == "espagnol" && Lookup(LanguageNames, "espagnol") == Some("Espagnol")
  {
    NoSpaceCollapsed("Espagnol");
  }

  lemma AllemandEntry()
    ensures Collapsed("Allemand")
    ensures LowerStr("Allemand") == "allemand" && Lookup(LanguageNames, "allemand") == Some("Allemand")
  {
    NoSpaceCollapsed("Allemand");
  }

  lemma ItalienEntry()
    ensures Collapsed("Italien")
    ensures LowerStr("Italien") == "italien" && Lookup(LanguageNames, "italien") == Some("Italien")
  {
    NoSpaceCollapsed("Italien");
  }

  lemma ChinoisEntry()
    ensures Collapsed("Chinois")
    ensures LowerStr("Chinois") == "chinois" && Lookup(LanguageNames, "chinois") == Some("Chinois")
  {
    NoSpaceCollapsed("Chinois");
  }

  lemma ArabeEntry()
    ensures Collapsed("Arabe")
    ensures LowerStr("Arabe") == "arabe" && Lookup(LanguageNames, "arabe") == Some("Arabe")
  {
    NoSpaceCollapsed("Arabe");
  }

  /** A name the table gives maps to itself and has no whitespace. */
  lemma LanguageNameFixed(v: string)
    requires v in ["Anglais", "Français", "Espagnol", "Allemand", "Italien", "Chinois", "Arabe"]
    ensures Collapsed(v) && Lookup(LanguageNames, LowerStr(v)) == Some(v)
  {
    var names := ["Anglais", "Français", "Espagnol", "Allemand", "Italien", "Chinois", "Arabe"];
    var i :| 0 <= i < |names| && names[i] == v;
    if i == 0 { assert v == "Anglais"; AnglaisEntry(); }
    else if i == 1 { assert v == "Français"; FrancaisEntry(); }
    else if i == 2 { assert v == "Espagnol"; EspagnolEntry(); }
    else if i == 3 { assert v == "Allemand"; AllemandEntry(); }
    else if i == 4 { assert v == "Italien"; ItalienEntry(); }
    else if i == 5 { assert v == "Chinois"; ChinoisEntry(); }
    else { assert v == "Arabe"; ArabeEntry(); }
  }

  lemma LanguageNameValues(k: string)
    requires Lookup(LanguageNames, k).Some?
    ensures Lookup(LanguageNames, k).value in ["Anglais", "Français", "Espagnol", "Allemand", "Italien", "Chinois", "Arabe"]
  {
  }

  /** Normalising a normalised language changes nothing. */
  lemma {:induction false} NormalizeLangueIdempotent(l: Json)
    ensures NormalizeLangue(JStr(NormalizeLangue(l))) == NormalizeLangue(l)
  {
    var t := NormalizeText(l);
    var r := NormalizeLangue(l);
    var hit := Lookup(LanguageNames, LowerStr(t));
    if hit.Some? {
      LanguageNameValues(LowerStr(t));
      LanguageNameFixed(r);
      assert NormalizeText(JStr(r)) == r;
    } else {
      CapitalizeCollapsed(t);
      assert NormalizeText(JStr(r)) == r;
      CapitalizeIdempotent(t);
    }
  }

  /** `NormalizeLangue` read off the normalised text `t`. */
  lemma LangueOf(l: Json, t: string)
    requires NormalizeText(l) == t
    ensures NormalizeLangue(l) == Lookup(LanguageNames, LowerStr(t)).GetOr(Capitalize(t))
  {
  }

  lemma FrancaisText()
    ensures NormalizeText(JStr("FRANCAIS")) == "FRANCAIS"
  {
    NoSpaceCollapsed("FRANCAIS");
  }

  lemma FrancaisLower()
    ensures LowerStr("FRANCAIS") == "francais"
  {
  }

  lemma FrancaisFound()
    ensures Lookup(LanguageNames, "francais") == Some("Français")
  {
  }

  /** A table name is found whatever its case. */
  lemma NormalizeLangueTable()
    ensures NormalizeLangue(JStr("FRANCAIS")) == "Français"
  {
    FrancaisText();
    FrancaisLower();
    FrancaisFound();
    LangueOf(JStr("FRANCAIS"), "FRANCAIS");
  }

  lemma RusseText()
    ensures NormalizeText(JStr("russe")) == "russe"
  {
    NoSpaceNormalized("russe");
  }

  lemma RusseLower()
    ensures LowerStr("russe") == "russe"
  {
  }

  lemma RusseCapitalized()
    ensures Capitalize("russe") == "Russe"
  {
    assert LowerStr("usse") == "usse";
  }

  lemma RusseAbsent()
    ensures Lookup(LanguageNames, "russe") == None
  {
  }

  /** A language outside the table is capitalised. */
  lemma NormalizeLangueCapitalized()
    ensures NormalizeLangue(JStr("russe")) == "Russe"
  {
    RusseText();
    RusseLower();
    RusseCapitalized();
    RusseAbsent();
    LangueOf(JStr("russe"), "russe");
  }

  // -------------------------------------------------------------- coercion

  /** The strings `coerce_boolean` reads as true, compared lower-cased. */
  const TrueWords: seq<string> := ["true", "oui", "yes", "1", "vrai"]

  /** `coerce_boolean`. */
  function CoerceBoolean(v: Json): bool {
    match v
    case JBool(b) => b
    case JStr(s) => LowerStr(s) in TrueWords
    case JInt(i) => i != 0
    case JFloat(x) => x != 0.0
    case _ => false
  }

  /** Booleans and numbers coerce to their truth value; strings are
      compared ignoring case; everything else is false. */
  lemma CoerceBooleanProperties(v: Json, s: string)
    ensures v.JBool? || v.JInt? || v.JFloat? ==> CoerceBoolean(v) == Truthy(v)
    ensures v.JNull? || v.JList? || v.JObj? ==> !CoerceBoolean(v)
    ensures CoerceBoolean(JStr(UpperStr(s))) == CoerceBoolean(JStr(s))
    ensures CoerceBoolean(JStr(s)) ==> |s| <= 4
  {
    forall i | 0 <= i < |s| ensures LowerStr(UpperStr(s))[i] == LowerStr(s)[i] {
      CaseMapping(s[i]);
    }
    assert LowerStr(UpperStr(s)) == LowerStr(s);
  }

  lemma CoerceBooleanExamples()
    ensures CoerceBoolean(JStr("OUI")) && CoerceBoolean(JStr("Vrai")) && CoerceBoolean(JStr("1"))
    ensures !CoerceBoolean(JStr("non")) && !CoerceBoolean(JStr("")) && !CoerceBoolean(JNull)
  {
    assert LowerStr("OUI") == "oui";
    assert LowerStr("Vrai") == "vrai";
    assert LowerStr("1") == "1";
    assert LowerStr("non") == "non";
  }

  /** `(19|20)\d{2}` matches at position `i`. */
  predicate YearAt(s: string, i: nat) {
    && i + 4 <= |s|
    && ((s[i] == '1' && s[i + 1] == '9') || (s[i] == '2' && s[i + 1] == '0'))
    && IsDigit(s[i + 2]) && IsDigit(s[i + 3])
  }

  /** `re.match(r'^(19|20)\d{2}$', s)`: `$` also matches just before a
      final newline. */
  predicate FullYear(s: string) {
    YearAt(s, 0) && (|s| == 4 || (|s| == 5 && s[4] == '\n'))
  }

  /** `re.search(r'(19|20)\d{2}', s)`: the leftmost match at or after `from`. */
  function FindYear(s: string, from: nat): (r: Option<nat>)
    requires from <= |s|
    ensures r.Some? ==> from <= r.value && YearAt(s, r.value)
    ensures r.Some? ==> forall j :: from <= j < r.value ==> !YearAt(s, j)
    ensures r.None? ==> forall j :: from <= j <= |s| ==> !YearAt(s, j)
    decreases |s| - from
  {
    if from + 4 > |s| then None
    else if YearAt(s, from) then Some(from)
    else FindYear(s, from + 1)
  }

  /** `coerce_annee`: a string that is a year is kept whole, otherwise its
      first embedded year is taken; an integer in 1900..2100 is rendered;
      anything else is None (a bool counts as the integer 0 or 1). */
  function CoerceAnnee(v: Json): (r: Option<string>)
    ensures v.JStr? ==> (r.Some? <==> exists i :: 0 <= i <= |v.s| && YearAt(v.s, i))
    ensures v.JStr? && r.Some? ==> YearAt(r.value, 0)
    ensures v.JInt? ==> (r.Some? <==> 1900 <= v.i <= 2100)
    ensures !v.JStr? && !v.JInt? ==> r.None?
  {
    match v
    case JStr(s) =>
      if FullYear(s) then assert YearAt(s, 0); Some(s)
      else (match FindYear(s, 0) case Some(i) => assert FullYear(s[i..i + 4]); Some(s[i..i + 4]) case None => None)
    case JInt(i) => if 1900 <= i <= 2100 then Some(IntToString(i)) else None
    case _ => None
  }

  /** A year coerced from a string coerces to itself. */
  lemma CoerceAnneeIdempotent(s: string)
    ensures CoerceAnnee(JStr(s)).Some? ==> CoerceAnnee(JStr(CoerceAnnee(JStr(s)).value)) == CoerceAnnee(JStr(s))
  {
    if !FullYear(s) && FindYear(s, 0).Some? {
      var i := FindYear(s, 0).value;
      assert FullYear(s[i..i + 4]);
    }
  }

  /** The integer and string paths disagree at the top of the range: the
      integer 2100 is accepted but the string "2100" is not. */
  lemma Int2100()
    ensures CoerceAnnee(JInt(2100)) == Some("2100")
  {
    assert NatToString(2) == "2";
    assert NatToString(21) == "21";
    assert NatToString(210) == "210";
    assert NatToString(2100) == "2100";
  }

  lemma Str2100()
    ensures CoerceAnnee(JStr("2100")) == None
  {
    var s := "2100";
    assert !YearAt(s, 0);
    assert FindYear(s, 0) == None;
  }

  lemma MasterYears()
    ensures CoerceAnnee(JStr("Master 2019-2021")) == Some("2019")
  {
    var m := "Master 2019-2021";
    assert forall j :: 0 <= j < 7 ==> !YearAt(m, j);
    assert YearAt(m, 7);
    assert FindYear(m, 0) == Some(7);
    assert m[7..11] == "2019";
  }

  lemma CoerceAnnee2100()
    ensures CoerceAnnee(JInt(2100)) == Some("2100")
    ensures CoerceAnnee(JStr("2100")) == None
    ensures CoerceAnnee(JStr("Master 2019-2021")) == Some("2019")
    ensures CoerceAnnee(JInt(1899)) == None
  {
    Int2100();
    Str2100();
    MasterYears();
  }

  // ---------------------------------------------------------------- checks

  /** Bytes of one character in UTF-8. */
  function Utf8Width(c: char): nat {
    if c as int < 0x80 then 1 else if c as int < 0x800 then 2 else if c as int < 0x10000 then 3 else 4
  }

  /** `len(s.encode('utf-8'))`. */
  function Utf8Length(s: string): (n: nat)
    ensures |s| <= n <= 4 * |s|
    decreases |s|
  {
    if s == [] then 0 else Utf8Width(s[0]) + Utf8Length(s[1..])
  }

  /** `check_cv_size`: the size in KiB when it exceeds the limit. */
  function CheckCvSize(cvText: string, maxSizeKb: int): (r: (bool, Option<real>))
    ensures r.0 <==> Utf8Length(cvText) <= 1024 * maxSizeKb
    ensures r.0 <==> r.1.None?
    ensures r.1.Some? ==> r.1.value * 1024.0 == Utf8Length(cvText) as real
  {
    var sizeKb := Utf8Length(cvText) as real / 1024.0;
    if sizeKb > maxSizeKb as real then (false, Some(sizeKb)) else (true, None)
  }

  /** `check_min_content`. */
  function CheckMinContent(text: string, minWords: int): (r: (bool, Option<string>))
    ensures r.0 <==> WordCount(text) >= minWords
    ensures r.0 <==> r.1.None?
  {
    var words := WordCount(text);
    if words < minWords then
      (false, Some("Contenu insuffisant: " + NatToString(words) + " mots (min " + IntToString(minWords) + ")"))
    else (true, None)
  }

  /** `check_code_rome_valid`: `^[A-N]\d{4}$`, where `$` also accepts a
      final newline. */
  predicate CheckCodeRomeValid(code: string) {
    && |code| >= 5
    && 'A' <= code[0] <= 'N'
    && IsDigit(code[1]) && IsDigit(code[2]) && IsDigit(code[3]) && IsDigit(code[4])
    && (|code| == 5 || (|code| == 6 && code[5] == '\n'))
  }

  lemma CodeRomeExamples()
    ensures CheckCodeRomeValid("M1805") && CheckCodeRomeValid("A0000") && CheckCodeRomeValid("M1805\n")
    ensures !CheckCodeRomeValid("Z9999") && !CheckCodeRomeValid("M180") && !CheckCodeRomeValid("m1805")
  {
  }

  // --------------------------------------------------------------- repairs

  /** What the repair functions warn about, one constructor per message. */
  datatype Warning =
    | SectionsAdded
    | FieldInitialized(field: string)
    | ExperienceWithoutPoste(experience: Json)
    | DescriptionTruncated(poste: string)
    | InvalidYear(value: Json)
    | ListWrapped(field: string)
    | FieldMissing(field: string)
    | NotAList(field: string, value: Json)
    | CriterionTooShort(criterion: string)
    | CriterionTruncated
    | TooManyCriteria(count: nat)
    | CvWithoutId(cv: Json)
    | ScoreMissing(cvId: Json)
    | ScoreInvalid(cvId: Json, score: Json)
    | JustificationMissing(cvId: Json)
    | JustificationTruncated(cvId: Json)

  /** The outcome of repairing one item: the item to keep, if any, and the
      warnings raised on the way; or the exception that escapes. */
  type ItemRepair = Result<(Option<Json>, seq<Warning>)>

  /** The shape of the repair loops over a list: items in order, each
      repaired by `f`; the first exception escapes, otherwise the kept
      items and every warning, in order. */
  function Gather(xs: seq<Json>, f: Json -> ItemRepair): (r: Result<(seq<Json>, seq<Warning>)>)
    ensures r.Ok? <==> forall i :: 0 <= i < |xs| ==> f(xs[i]).Ok?
    ensures r.Ok? ==> |r.value.0| <= |xs|
    ensures r.Ok? ==> forall y :: y in r.value.0 ==> exists i :: 0 <= i < |xs| && f(xs[i]) == Ok((Some(y), f(xs[i]).value.1))
    decreases |xs|
  {
    if xs == [] then Ok(([], []))
    else
      var first := f(xs[0]);
      var rest := Gather(xs[1..], f);
      if first.Err? then Err(first.error)
      else if rest.Err? then
        assert forall i :: 0 <= i < |xs| - 1 ==> xs[1..][i] == xs[i + 1];
        Err(rest.error)
      else
        var kept := (if first.value.0.Some? then [first.value.0.value] else []) + rest.value.0;
        assert forall i :: 0 <= i < |xs| - 1 ==> xs[1..][i] == xs[i + 1];
        assert forall y :: y in kept ==> exists i :: 0 <= i < |xs| && f(xs[i]) == Ok((Some(y), f(xs[i]).value.1)) by {
          forall y | y in kept ensures exists i :: 0 <= i < |xs| && f(xs[i]) == Ok((Some(y), f(xs[i]).value.1)) {
            if first.value.0.Some? && y == first.value.0.value {
              assert f(xs[0]) == Ok((Some(y), f(xs[0]).value.1));
            } else {
              assert y in rest.value.0;
              var i :| 0 <= i < |xs[1..]| && f(xs[1..][i]) == Ok((Some(y), f(xs[1..][i]).value.1));
              assert f(xs[i + 1]) == Ok((Some(y), f(xs[i + 1]).value.1));
            }
          }
        }
        Ok((kept, first.value.1 + rest.value.1))
  }

  /** What is left to add once the items before position `i` are done. */
  function Then(kept: seq<Json>, ws: seq<Warning>, rest: Result<(seq<Json>, seq<Warning>)>): Result<(seq<Json>, seq<Warning>)> {
    if rest.Err? then rest else Ok((kept + rest.value.0, ws + rest.value.1))
  }

  lemma ThenEmpty(r: Result<(seq<Json>, seq<Warning>)>)
    ensures Then([], [], r) == r
  {
    if r.Ok? {
      assert [] + r.value.0 == r.value.0;
      assert [] + r.value.1 == r.value.1;
    }
  }

  lemma GatherFirst(xs: seq<Json>, f: Json -> ItemRepair, i: nat, kept: seq<Json>, ws: seq<Warning>)
    requires i < |xs|
    ensures f(xs[i]).Err? ==> Then(kept, ws, Gather(xs[i..], f)) == Err(f(xs[i]).error)
    ensures f(xs[i]).Ok? ==>
      var o := f(xs[i]).value;
      Then(kept, ws, Gather(xs[i..], f)) ==
      Then(kept + (if o.0.Some? then [o.0.value] else []), ws + o.1, Gather(xs[i + 1..], f))
  {
    assert xs[i..][0] == xs[i];
    assert xs[i..][1..] == xs[i + 1..];
    var rest := Gather(xs[i + 1..], f);
    if f(xs[i]).Ok? && rest.Ok? {
      var o := f(xs[i]).value;
      var y := if o.0.Some? then [o.0.value] else [];
      assert kept + (y + rest.value.0) == (kept + y) + rest.value.0;
      assert ws + (o.1 + rest.value.1) == (ws + o.1) + rest.value.1;
    }
  }

  /** The repair loop itself, appending kept items as it goes. */
  method GatherLoop(xs: seq<Json>, f: Json -> ItemRepair) returns (r: Result<(seq<Json>, seq<Warning>)>)
    ensures r == Gather(xs, f)
  {
    var kept: seq<Json> := [];
    var ws: seq<Warning> := [];
    var i := 0;
    assert xs[0..] == xs;
    ThenEmpty(Gather(xs, f));
    while i < |xs|
      invariant 0 <= i <= |xs|
      invariant Gather(xs, f) == Then(kept, ws, Gather(xs[i..], f))
    {
      GatherFirst(xs, f, i, kept, ws);
      var step := f(xs[i]);
      if step.Err? {
        return Err(step.error);
      }
      if step.value.0.Some? {
        kept := kept + [step.value.0.value];
      } else {
        assert kept + [] == kept;
      }
      ws := ws + step.value.1;
      i := i + 1;
    }
    assert xs[i..] == [];
    assert kept + [] == kept && ws + [] == ws;
    r := Ok((kept, ws));
  }

  // ------------------------------------------------------------ CV repair

  /** `sections[field] = normalize_text(...)` for a string field. */
  function NormalizeField(sections: Fields, field: string): (r: Fields)
    ensures forall k :: k != field ==> Lookup(r, k) == Lookup(sections, k)
    ensures Lookup(sections, field).Some? && Lookup(sections, field).value.JStr? ==>
      Lookup(r, field) == Some(JStr(NormalizeText(Lookup(sections, field).value)))
    ensures !(Lookup(sections, field).Some? && Lookup(sections, field).value.JStr?) ==> r == sections
  {
    var v := Lookup(sections, field);
    if v.Some? && v.value.JStr? then
      LookupPutAll(sections, field, JStr(NormalizeText(v.value)));
      Put(sections, field, JStr(NormalizeText(v.value)))
    else sections
  }

  /** The de-duplicating loop over one list, as a function of the items
      seen so far: each string normalised by `norm`, kept when non-empty
      and not kept already. */
  function Dedup(items: seq<Json>, norm: Json -> string): seq<string>
    decreases |items|
  {
    if items == [] then []
    else
      var prev := Dedup(items[..|items| - 1], norm);
      var it := items[|items| - 1];
      if it.JStr? && norm(it) != [] && norm(it) !in prev then prev + [norm(it)] else prev
  }

  /** The kept texts are pairwise distinct and non-empty. */
  lemma {:induction false} DedupDistinct(items: seq<Json>, norm: Json -> string)
    ensures forall i :: 0 <= i < |Dedup(items, norm)| ==> Dedup(items, norm)[i] != []
    ensures forall i, j :: 0 <= i < j < |Dedup(items, norm)| ==> Dedup(items, norm)[i] != Dedup(items, norm)[j]
    decreases |items|
  {
    if items != [] {
      DedupDistinct(items[..|items| - 1], norm);
      var prev := Dedup(items[..|items| - 1], norm);
      var r := Dedup(items, norm);
      assert forall i :: 0 <= i < |prev| ==> r[i] == prev[i];
      forall i, j | 0 <= i < j < |r| ensures r[i] != r[j] {
        if j == |prev| {
          assert prev[i] in prev;
        }
      }
    }
  }

  /** Each kept text is the normalisation of a string item, and every
      string item whose normalisation is non-empty is kept. */
  lemma {:induction false} DedupComplete(items: seq<Json>, norm: Json -> string)
    ensures var r := Dedup(items, norm);
      && (forall i :: 0 <= i < |r| ==> exists j :: 0 <= j < |items| && items[j].JStr? && norm(items[j]) == r[i])
      && (forall j :: 0 <= j < |items| && items[j].JStr? && norm(items[j]) != [] ==> norm(items[j]) in r)
    decreases |items|
  {
    if items != [] {
      var init := items[..|items| - 1];
      DedupComplete(init, norm);
      var r := Dedup(items, norm);
      var prev := Dedup(init, norm);
      assert forall j :: 0 <= j < |init| ==> init[j] == items[j];
      assert forall x :: x in prev ==> x in r;
      forall i | 0 <= i < |r| ensures exists j :: 0 <= j < |items| && items[j].JStr? && norm(items[j]) == r[i] {
        if i < |prev| {
          var j :| 0 <= j < |init| && init[j].JStr? && norm(init[j]) == prev[i];
          assert items[j] == init[j];
        } else {
          assert norm(items[|items| - 1]) == r[i];
        }
      }
    }
  }

  /** Kept competences are left unchanged by normalising them again. */
  lemma DedupCompetencesFixed(items: seq<Json>)
    ensures var r := Dedup(items, NormalizeCompetence);
      forall i :: 0 <= i < |r| ==> NormalizeCompetence(JStr(r[i])) == r[i]
  {
    var r := Dedup(items, NormalizeCompetence);
    DedupComplete(items, NormalizeCompetence);
    forall i | 0 <= i < |r| ensures NormalizeCompetence(JStr(r[i])) == r[i] {
      var j :| 0 <= j < |items| && items[j].JStr? && NormalizeCompetence(items[j]) == r[i];
      NormalizeCompetenceIdempotent(items[j]);
    }
  }

  /** The competence loop of `repair_cv_data`, with `normalize_competence`
      as `norm`. */
  method NormalizeCompetenceList(items: seq<Json>, norm: Json -> string) returns (normalized: seq<string>)
    ensures normalized == Dedup(items, norm)
  {
    normalized := [];
    var i := 0;
    while i < |items|
      invariant 0 <= i <= |items|
      invariant normalized == Dedup(items[..i], norm)
    {
      assert items[..i + 1][..i] == items[..i];
      var comp := items[i];
      if comp.JStr? {
        var c := norm(comp);
        if c != [] && c !in normalized {
          normalized := normalized + [c];
        }
      }
      i := i + 1;
    }
    assert items[..i] == items;
  }

  /** A list of pairwise distinct, non-empty, normalised competences. */
  predicate CompetenceList(v: Json) {
    && v.JList?
    && (forall i :: 0 <= i < |v.items| ==> v.items[i].JStr? && v.items[i].s != [])
    && (forall i :: 0 <= i < |v.items| ==> NormalizeCompetence(v.items[i]) == v.items[i].s)
    && (forall i, j :: 0 <= i < j < |v.items| ==> v.items[i] != v.items[j])
  }

  lemma DedupCompetenceList(items: seq<Json>)
    ensures CompetenceList(JList(Strs(Dedup(items, NormalizeCompetence))))
  {
    var d := Dedup(items, NormalizeCompetence);
    var v := Strs(d);
    DedupDistinct(items, NormalizeCompetence);
    DedupCompetencesFixed(items);
    assert forall i, j :: 0 <= i < j < |v| ==> v[i] != v[j] by {
      forall i, j | 0 <= i < j < |v| ensures v[i] != v[j] {
        assert d[i] != d[j];
      }
    }
  }

  /** One competence field: a list is de-duplicated, anything else
      (or nothing) becomes [] with a warning. */
  function RepairCompetences(sections: Fields, field: string): (r: (Fields, seq<Warning>))
    ensures forall k :: k != field ==> Lookup(r.0, k) == Lookup(sections, k)
    ensures Lookup(r.0, field).Some? && CompetenceList(Lookup(r.0, field).value)
    ensures r.1 == [] <==> Lookup(sections, field).Some? && Lookup(sections, field).value.JList?
  {
    var v := Lookup(sections, field);
    if v.Some? && v.value.JList? then
      var d := Dedup(v.value.items, NormalizeCompetence);
      DedupCompetenceList(v.value.items);
      LookupPutAll(sections, field, JList(Strs(d)));
      (Put(sections, field, JList(Strs(d))), [])
    else
      LookupPutAll(sections, field, JList([]));
      (Put(sections, field, JList([])), [FieldInitialized(field)])
  }

  /** `[normalize_langue(l) for l in langues if l]`: one entry per truthy
      item, each already in its normalised form. */
  function NormalizeLangues(items: seq<Json>): (r: seq<string>)
    ensures |r| <= |items|
    ensures forall i :: 0 <= i < |r| ==> NormalizeLangue(JStr(r[i])) == r[i]
  {
    NormalizeLangueFixed();
    TruthyMap(items, NormalizeLangue)
  }

  lemma NormalizeLangueFixed()
    ensures forall l :: NormalizeLangue(JStr(NormalizeLangue(l))) == NormalizeLangue(l)
  {
    forall l ensures NormalizeLangue(JStr(NormalizeLangue(l))) == NormalizeLangue(l) {
      NormalizeLangueIdempotent(l);
    }
  }

  /** `[f(x) for x in items if x]`, for an `f` whose results are its own
      fixed points: every entry is one. */
  function TruthyMap(items: seq<Json>, f: Json -> string): (r: seq<string>)
    requires forall x :: f(JStr(f(x))) == f(x)
    ensures |r| <= |items|
    ensures forall i :: 0 <= i < |r| ==> f(JStr(r[i])) == r[i]
    decreases |items|
  {
    if items == [] then []
    else (if Truthy(items[0]) then [f(items[0])] else []) + TruthyMap(items[1..], f)
  }

  /** The language field: a list is normalised, anything else becomes []. */
  function RepairLangues(sections: Fields): (r: Fields)
    ensures forall k :: k != "langues" ==> Lookup(r, k) == Lookup(sections, k)
    ensures Lookup(r, "langues").Some? && Lookup(r, "langues").value.JList?
    ensures forall x :: x in Lookup(r, "langues").value.items ==> x.JStr?
  {
    var v := Lookup(sections, "langues");
    var out := if v.Some? && v.value.JList? then Strs(NormalizeLangues(v.value.items)) else [];
    LookupPutAll(sections, "langues", JList(out));
    assert forall x :: x in out ==> x.JStr?;
    Put(sections, "langues", JList(out))
  }

  /** One experience of `repair_cv_data`: a non-dict is skipped, one
      without a truthy poste is dropped with a warning; otherwise poste
      and a truthy duree are normalised and a description longer than
      1000 is cut to 1000 characters plus "...". `len` or the slice of a
      description that is not a string raises. */
  function RepairExperience(exp: Json): ItemRepair {
    if !exp.JObj? then Ok((None, []))
    else
      var fs := exp.fields;
      var poste := Lookup(fs, "poste");
      if poste.None? || !Truthy(poste.value) then Ok((None, [ExperienceWithoutPoste(exp)]))
      else
        var p := NormalizeText(poste.value);
        var fs1 := Put(fs, "poste", JStr(p));
        var duree := Lookup(fs1, "duree");
        var fs2 := if duree.Some? && Truthy(duree.value) then Put(fs1, "duree", JStr(NormalizeText(duree.value))) else fs1;
        CutDescription(fs2, p)
  }

  /** The description step: a description longer than 1000 is cut to its
      first 1000 characters followed by "...". */
  function CutDescription(fs2: Fields, p: string): ItemRepair {
    var desc := Lookup(fs2, "description");
    if desc.None? then Ok((Some(JObj(fs2)), []))
    else match Len(desc.value)
      case Err(e) => Err(e)
      case Ok(n) =>
        if n <= 1000 then Ok((Some(JObj(fs2)), []))
        else if desc.value.JStr? then
          Ok((Some(JObj(Put(fs2, "description", JStr(desc.value.s[..1000] + "...")))), [DescriptionTruncated(p)]))
        else Err("TypeError")
  }

  /** A repaired experience: a dict whose poste is a string and whose
      description, if any, has a length of at most 1003. */
  predicate IsRepairedExperience(e: Json) {
    && e.JObj?
    && Lookup(e.fields, "poste").Some? && Lookup(e.fields, "poste").value.JStr?
    && (Lookup(e.fields, "description").Some? ==>
          Len(Lookup(e.fields, "description").value).Ok? && Len(Lookup(e.fields, "description").value).value <= 1003)
  }

  lemma RepairExperienceShape(exp: Json)
    ensures RepairExperience(exp).Ok? && RepairExperience(exp).value.0.Some? ==>
      IsRepairedExperience(RepairExperience(exp).value.0.value)
  {
    if exp.JObj? && Lookup(exp.fields, "poste").Some? && Truthy(Lookup(exp.fields, "poste").value) {
      var fs := exp.fields;
      var p := NormalizeText(Lookup(fs, "poste").value);
      var fs1 := Put(fs, "poste", JStr(p));
      LookupPut(fs, "poste", JStr(p), "poste");
      var duree := Lookup(fs1, "duree");
      var fs2 := if duree.Some? && Truthy(duree.value) then Put(fs1, "duree", JStr(NormalizeText(duree.value))) else fs1;
      if duree.Some? && Truthy(duree.value) {
        LookupPut(fs1, "duree", JStr(NormalizeText(duree.value)), "poste");
      }
      assert Lookup(fs2, "poste") == Some(JStr(p));
      assert RepairExperience(exp) == CutDescription(fs2, p);
      CutDescriptionShape(fs2, p);
    }
  }

  /** The description step of `RepairExperience` keeps a string poste and
      leaves a description of at most 1003 characters. */
  lemma CutDescriptionShape(fs2: seq<(string, Json)>, p: string)
    requires Lookup(fs2, "poste") == Some(JStr(p))
    ensures CutDescription(fs2, p).Ok? && CutDescription(fs2, p).value.0.Some? ==>
      IsRepairedExperience(CutDescription(fs2, p).value.0.value)
  {
    var desc := Lookup(fs2, "description");
    if desc.Some? && desc.value.JStr? && |desc.value.s| > 1000 {
      var cut := JStr(desc.value.s[..1000] + "...");
      LookupPut(fs2, "description", cut, "poste");
      LookupPut(fs2, "description", cut, "description");
    }
  }

  /** The cut description is 1003 characters long, above the 1000 that the
      CV schema allows, so a CV repaired for a long description still
      fails the schema. */
  lemma DescriptionCutTo1003(exp: Json)
    requires exp.JObj?
    requires Lookup(exp.fields, "poste").Some? && Truthy(Lookup(exp.fields, "poste").value)
    requires Lookup(exp.fields, "description").Some? && Lookup(exp.fields, "description").value.JStr?
    requires |Lookup(exp.fields, "description").value.s| > 1000
    ensures RepairExperience(exp).Ok? && RepairExperience(exp).value.0.Some?
    ensures var e := RepairExperience(exp).value.0.value;
      e.JObj? && Lookup(e.fields, "description").Some? && Lookup(e.fields, "description").value.JStr?
      && |Lookup(e.fields, "description").value.s| == 1003
  {
    var fs := exp.fields;
    var p := NormalizeText(Lookup(fs, "poste").value);
    var fs1 := Put(fs, "poste", JStr(p));
    assert "description"[1] != "poste"[1] && "description"[1] != "duree"[1];
    LookupPut(fs, "poste", JStr(p), "description");
    var duree := Lookup(fs1, "duree");
    if duree.Some? && Truthy(duree.value) {
      LookupPut(fs1, "duree", JStr(NormalizeText(duree.value)), "description");
    }
    var fs2 := if duree.Some? && Truthy(duree.value) then Put(fs1, "duree", JStr(NormalizeText(duree.value))) else fs1;
    assert Lookup(fs2, "description") == Lookup(fs, "description");
    assert RepairExperience(exp) == CutDescription(fs2, p);
    LongDescriptionCut(fs2, p);
  }

  /** The description step on a string longer than 1000 characters. */
  lemma LongDescriptionCut(fs2: Fields, p: string)
    requires Lookup(fs2, "description").Some? && Lookup(fs2, "description").value.JStr?
    requires |Lookup(fs2, "description").value.s| > 1000
    ensures CutDescription(fs2, p).Ok? && CutDescription(fs2, p).value.0.Some?
    ensures var e := CutDescription(fs2, p).value.0.value;
      e.JObj? && Lookup(e.fields, "description").Some? && Lookup(e.fields, "description").value.JStr?
      && |Lookup(e.fields, "description").value.s| == 1003
  {
    var desc := Lookup(fs2, "description");
    LookupPutAll(fs2, "description", JStr(desc.value.s[..1000] + "..."));
  }

  /** One formation: a non-dict is skipped; a year is coerced, or dropped
      with a warning when it cannot be. A coerced year is never "", so
      `if annee` is the same test as `is not None`. */
  function RepairFormation(form: Json): ItemRepair {
    if !form.JObj? then Ok((None, []))
    else
      var annee := Lookup(form.fields, "annee");
      if annee.None? then Ok((Some(form), []))
      else match CoerceAnnee(annee.value)
        case Some(y) => Ok((Some(JObj(Put(form.fields, "annee", JStr(y)))), []))
        case None => Ok((Some(JObj(Remove(form.fields, "annee"))), [InvalidYear(annee.value)]))
  }

  /** A repaired formation: a dict whose year, if any, is a string. */
  predicate IsRepairedFormation(f: Json) {
    f.JObj? && (Lookup(f.fields, "annee").Some? ==> Lookup(f.fields, "annee").value.JStr?)
  }

  lemma RepairFormationShape(form: Json)
    ensures RepairFormation(form).Ok?
    ensures RepairFormation(form).value.0.Some? ==> IsRepairedFormation(RepairFormation(form).value.0.value)
  {
    if form.JObj? && Lookup(form.fields, "annee").Some? {
      var v := Lookup(form.fields, "annee").value;
      if CoerceAnnee(v).Some? {
        LookupPutAll(form.fields, "annee", JStr(CoerceAnnee(v).value));
      } else {
        LookupRemoveAll(form.fields, "annee");
      }
    }
  }

  /** A list section repaired item by item: absent gives [], present is
      iterated (a string or dict yields items that are all skipped, other
      values raise) and replaced by the kept items. */
  function RepairItems(sections: Fields, field: string, f: Json -> ItemRepair): (r: Result<(Fields, seq<Warning>)>)
    ensures r.Ok? ==> forall k :: k != field ==> Lookup(r.value.0, k) == Lookup(sections, k)
    ensures r.Ok? ==> Lookup(r.value.0, field).Some? && Lookup(r.value.0, field).value.JList?
  {
    var v := Lookup(sections, field);
    if v.None? then
      LookupPutAll(sections, field, JList([]));
      Ok((Put(sections, field, JList([])), []))
    else match Iter(v.value)
      case Err(e) => Err(e)
      case Ok(items) =>
        match Gather(items, f)
        case Err(e) => Err(e)
        case Ok((kept, ws)) =>
          LookupPutAll(sections, field, JList(kept));
          Ok((Put(sections, field, JList(kept)), ws))
  }

  /** Every item `f` keeps satisfies `good`. */
  ghost predicate KeepsShape(f: Json -> ItemRepair, good: Json -> bool) {
    forall x :: f(x).Ok? && f(x).value.0.Some? ==> good(f(x).value.0.value)
  }

  /** Every item in the list `RepairItems` writes back satisfies what `f`
      promises of the items it keeps. */
  lemma RepairItemsKept(sections: Fields, field: string, f: Json -> ItemRepair, good: Json -> bool)
    requires KeepsShape(f, good)
    ensures var r := RepairItems(sections, field, f);
      r.Ok? ==> forall y :: y in Lookup(r.value.0, field).value.items ==> good(y)
  {
    var r := RepairItems(sections, field, f);
    var v := Lookup(sections, field);
    if r.Ok? {
      if v.None? {
        LookupPutAll(sections, field, JList([]));
      } else {
        var items := Iter(v.value).value;
        var g := Gather(items, f);
        LookupPutAll(sections, field, JList(g.value.0));
        assert Lookup(r.value.0, field).value.items == g.value.0;
        forall y | y in g.value.0 ensures good(y) {
          var i :| 0 <= i < |items| && f(items[i]) == Ok((Some(y), f(items[i]).value.1));
        }
      }
    }
  }

  /** `certifications` and `projets`: anything but a list becomes []. */
  function DefaultList(sections: Fields, field: string): (r: Fields)
    ensures forall k :: k != field ==> Lookup(r, k) == Lookup(sections, k)
    ensures Lookup(r, field).Some? && Lookup(r, field).value.JList?
    ensures Lookup(sections, field).Some? && Lookup(sections, field).value.JList? ==> r == sections
  {
    var v := Lookup(sections, field);
    if v.None? || !v.value.JList? then
      LookupPutAll(sections, field, JList([]));
      Put(sections, field, JList([]))
    else sections
  }

  const DefaultMobilite: Json := JObj([("permis_conduire", JBool(false)), ("disponibilite_geographique", JStr(""))])

  /** A mobility record with a boolean licence flag and an availability entry. */
  predicate IsRepairedMobilite(m: Json) {
    && m.JObj?
    && Lookup(m.fields, "permis_conduire").Some? && Lookup(m.fields, "permis_conduire").value.JBool?
    && Lookup(m.fields, "disponibilite_geographique").Some?
  }

  /** `mobilite`: a non-dict is replaced by the default record; a dict gets
      its licence flag coerced (False when absent) and an empty
      availability when it has none. */
  function RepairMobilite(sections: Fields): (r: Fields)
    ensures forall k :: k != "mobilite" ==> Lookup(r, k) == Lookup(sections, k)
    ensures Lookup(r, "mobilite").Some? && IsRepairedMobilite(Lookup(r, "mobilite").value)
  {
    var m := Lookup(sections, "mobilite");
    if m.None? || !m.value.JObj? then
      LookupPutAll(sections, "mobilite", DefaultMobilite);
      Put(sections, "mobilite", DefaultMobilite)
    else
      var mob := m.value.fields;
      var permis := Lookup(mob, "permis_conduire");
      var mob1 := Put(mob, "permis_conduire", JBool(if permis.Some? then CoerceBoolean(permis.value) else false));
      LookupPutAll(mob, "permis_conduire", JBool(if permis.Some? then CoerceBoolean(permis.value) else false));
      var mob2 := if HasKey(mob1, "disponibilite_geographique") then mob1 else Put(mob1, "disponibilite_geographique", JStr(""));
      LookupPutAll(mob1, "disponibilite_geographique", JStr(""));
      LookupPutAll(sections, "mobilite", JObj(mob2));
      Put(sections, "mobilite", JObj(mob2))
  }

  /** The competence and language fields as `repair_cv_data` leaves them. */
  predicate SkillsRepaired(s: Fields) {
    && Lookup(s, "competences_techniques").Some? && CompetenceList(Lookup(s, "competences_techniques").value)
    && Lookup(s, "competences_transversales").Some? && CompetenceList(Lookup(s, "competences_transversales").value)
    && Lookup(s, "langues").Some? && Lookup(s, "langues").value.JList?
    && (forall x :: x in Lookup(s, "langues").value.items ==> x.JStr?)
  }

  /** The experience and formation lists as `repair_cv_data` leaves them. */
  predicate HistoryRepaired(s: Fields) {
    && Lookup(s, "experiences_professionnelles").Some? && Lookup(s, "experiences_professionnelles").value.JList?
    && (forall x :: x in Lookup(s, "experiences_professionnelles").value.items ==> IsRepairedExperience(x))
    && Lookup(s, "formations").Some? && Lookup(s, "formations").value.JList?
    && (forall x :: x in Lookup(s, "formations").value.items ==> IsRepairedFormation(x))
  }

  /** The remaining fields as `repair_cv_data` leaves them. */
  predicate ExtrasRepaired(s: Fields) {
    && Lookup(s, "certifications").Some? && Lookup(s, "certifications").value.JList?
    && Lookup(s, "projets").Some? && Lookup(s, "projets").value.JList?
    && Lookup(s, "mobilite").Some? && IsRepairedMobilite(Lookup(s, "mobilite").value)
  }

  /** Sections as `repair_cv_data` leaves them. */
  predicate IsRepairedSections(s: Fields) {
    SkillsRepaired(s) && HistoryRepaired(s) && ExtrasRepaired(s)
  }

  /** Titles, competences and languages: the steps that cannot raise. */
  function RepairSkills(sec: Fields): (Fields, seq<Warning>) {
    var s1 := NormalizeField(NormalizeField(sec, "titre"), "resume_professionnel");
    var (s2, w1) := RepairCompetences(s1, "competences_techniques");
    var (s3, w2) := RepairCompetences(s2, "competences_transversales");
    (RepairLangues(s3), w1 + w2)
  }

  /** Titles, competences and languages end repaired, and nothing else
      changes. */
  lemma RepairSkillsShape(sec: Fields)
    ensures SkillsRepaired(RepairSkills(sec).0)
    ensures forall k :: k !in SkillFields ==> Lookup(RepairSkills(sec).0, k) == Lookup(sec, k)
  {
    var s1 := NormalizeField(NormalizeField(sec, "titre"), "resume_professionnel");
    var s2 := RepairCompetences(s1, "competences_techniques").0;
    var s3 := RepairCompetences(s2, "competences_transversales").0;
    var s4 := RepairLangues(s3);
    assert RepairSkills(sec).0 == s4;
    SkillKeysDiffer();
    SkillsOfSteps(s2, s3, s4);
    forall k | k !in SkillFields ensures Lookup(s4, k) == Lookup(sec, k) {
      assert k != "titre" && k != "resume_professionnel";
      assert k != "competences_techniques" && k != "competences_transversales" && k != "langues";
    }
  }

  /** The three list steps leave all three lists repaired. */
  lemma SkillsOfSteps(s2: Fields, s3: Fields, s4: Fields)
    requires Lookup(s2, "competences_techniques").Some? && CompetenceList(Lookup(s2, "competences_techniques").value)
    requires forall k :: k != "competences_transversales" ==> Lookup(s3, k) == Lookup(s2, k)
    requires Lookup(s3, "competences_transversales").Some? && CompetenceList(Lookup(s3, "competences_transversales").value)
    requires forall k :: k != "langues" ==> Lookup(s4, k) == Lookup(s3, k)
    requires Lookup(s4, "langues").Some? && Lookup(s4, "langues").value.JList?
    requires forall x :: x in Lookup(s4, "langues").value.items ==> x.JStr?
    ensures SkillsRepaired(s4)
  {
    SkillKeysDiffer();
    assert Lookup(s3, "competences_techniques") == Lookup(s2, "competences_techniques");
    assert Lookup(s4, "competences_techniques") == Lookup(s3, "competences_techniques");
    assert Lookup(s4, "competences_transversales") == Lookup(s3, "competences_transversales");
  }

  lemma SkillKeysDiffer()
    ensures "competences_techniques" != "competences_transversales"
    ensures "competences_techniques" != "langues" && "competences_transversales" != "langues"
  {
    assert |"competences_techniques"| != |"competences_transversales"|;
    assert "competences_techniques"[0] != "langues"[0] && "competences_transversales"[0] != "langues"[0];
  }

  const SkillFields: set<string> := {"titre", "resume_professionnel", "competences_techniques", "competences_transversales", "langues"}

  /** Experiences and formations, either of which can raise. */
  function RepairHistory(s4: Fields): (r: Result<(Fields, seq<Warning>)>)
    ensures r.Ok? ==> HistoryRepaired(r.value.0)
    ensures r.Ok? ==> forall k :: k != "experiences_professionnelles" && k != "formations" ==> Lookup(r.value.0, k) == Lookup(s4, k)
  {
    RepairedShapesHold();
    HistoryKeysDiffer();
    RepairItemsKept(s4, "experiences_professionnelles", RepairExperience, IsRepairedExperience);
    match RepairItems(s4, "experiences_professionnelles", RepairExperience)
    case Err(e) => Err(e)
    case Ok((s5, w3)) =>
      RepairItemsKept(s5, "formations", RepairFormation, IsRepairedFormation);
      match RepairItems(s5, "formations", RepairFormation)
      case Err(e) => Err(e)
      case Ok((s6, w4)) => Ok((s6, w3 + w4))
  }

  lemma HistoryKeysDiffer()
    ensures "experiences_professionnelles" != "formations"
  {
    assert "experiences_professionnelles"[0] != "formations"[0];
  }

  lemma RepairedShapesHold()
    ensures KeepsShape(RepairExperience, IsRepairedExperience)
    ensures KeepsShape(RepairFormation, IsRepairedFormation)
  {
    forall x ensures RepairExperience(x).Ok? && RepairExperience(x).value.0.Some? ==> IsRepairedExperience(RepairExperience(x).value.0.value) {
      RepairExperienceShape(x);
    }
    forall x ensures RepairFormation(x).Ok? && RepairFormation(x).value.0.Some? ==> IsRepairedFormation(RepairFormation(x).value.0.value) {
      RepairFormationShape(x);
    }
  }

  /** Certifications, projects and mobility. */
  function RepairExtras(s6: Fields): Fields {
    RepairMobilite(DefaultList(DefaultList(s6, "certifications"), "projets"))
  }

  /** Certifications, projects and mobility end repaired, and nothing else
      changes. */
  lemma RepairExtrasShape(s6: Fields)
    ensures ExtrasRepaired(RepairExtras(s6))
    ensures forall k :: k != "certifications" && k != "projets" && k != "mobilite" ==> Lookup(RepairExtras(s6), k) == Lookup(s6, k)
  {
    var a := DefaultList(s6, "certifications");
    var b := DefaultList(a, "projets");
    assert "certifications"[0] != "projets"[0] && "certifications"[0] != "mobilite"[0] && "projets"[0] != "mobilite"[0];
    assert Lookup(b, "certifications") == Lookup(a, "certifications");
    assert Lookup(RepairMobilite(b), "certifications") == Lookup(b, "certifications");
    assert Lookup(RepairMobilite(b), "projets") == Lookup(b, "projets");
  }

  /** The section-by-section repair, in the order of `repair_cv_data`. */
  function RepairSections(sec: Fields): Result<(Fields, seq<Warning>)> {
    var sk := RepairSkills(sec);
    var h := RepairHistory(sk.0);
    if h.Err? then Err(h.error) else Ok((RepairExtras(h.value.0), sk.1 + h.value.1))
  }

  /** Every field the repair touches ends up in its repaired shape. */
  lemma RepairSectionsShape(sec: Fields)
    ensures RepairSections(sec).Ok? ==> IsRepairedSections(RepairSections(sec).value.0)
  {
    var s4 := RepairSkills(sec).0;
    var h := RepairHistory(s4);
    RepairSkillsShape(sec);
    AfterSkills(s4);
    if h.Ok? {
      assert RepairSections(sec) == Ok((RepairExtras(h.value.0), RepairSkills(sec).1 + h.value.1));
    }
  }

  /** The history and extra steps keep repaired skills and repair the rest. */
  lemma AfterSkills(s4: Fields)
    requires SkillsRepaired(s4)
    ensures RepairHistory(s4).Ok? ==> IsRepairedSections(RepairExtras(RepairHistory(s4).value.0))
  {
    var h := RepairHistory(s4);
    if h.Ok? {
      RepairExtrasShape(h.value.0);
      StepsCompose(s4, h.value.0, RepairExtras(h.value.0));
    }
  }

  lemma StepsCompose(s4: Fields, s6: Fields, s7: Fields)
    requires SkillsRepaired(s4) && HistoryRepaired(s6) && ExtrasRepaired(s7)
    requires forall k :: k != "experiences_professionnelles" && k != "formations" ==> Lookup(s6, k) == Lookup(s4, k)
    requires forall k :: k != "certifications" && k != "projets" && k != "mobilite" ==> Lookup(s7, k) == Lookup(s6, k)
    ensures IsRepairedSections(s7)
  {
    SkillsThrough(s4, s6, s7);
    HistoryThrough(s6, s7);
  }

  /** The skill fields pass unchanged through the history and extra steps. */
  lemma SkillsThrough(s4: Fields, s6: Fields, s7: Fields)
    requires SkillsRepaired(s4)
    requires forall k :: k != "experiences_professionnelles" && k != "formations" ==> Lookup(s6, k) == Lookup(s4, k)
    requires forall k :: k != "certifications" && k != "projets" && k != "mobilite" ==> Lookup(s7, k) == Lookup(s6, k)
    ensures SkillsRepaired(s7)
  {
    SkillKeysOutside();
    KeptThrough(s4, s6, s7, "competences_techniques");
    KeptThrough(s4, s6, s7, "competences_transversales");
    KeptThrough(s4, s6, s7, "langues");
    SkillsKept(s4, s7);
  }

  /** None of the skill fields is touched by the history or extra steps. */
  lemma SkillKeysOutside()
    ensures "competences_techniques" != "experiences_professionnelles" && "competences_techniques" != "formations"
    ensures "competences_techniques" != "certifications" && "competences_techniques" != "projets" && "competences_techniques" != "mobilite"
    ensures "competences_transversales" != "experiences_professionnelles" && "competences_transversales" != "formations"
    ensures "competences_transversales" != "certifications" && "competences_transversales" != "projets" && "competences_transversales" != "mobilite"
    ensures "langues" != "experiences_professionnelles" && "langues" != "formations"
    ensures "langues" != "certifications" && "langues" != "projets" && "langues" != "mobilite"
  {
    var ct, cr, la := "competences_techniques", "competences_transversales", "langues";
    assert ct[0] != "experiences_professionnelles"[0] && ct[0] != "formations"[0] && ct[1] != "certifications"[1];
    assert ct[0] != "projets"[0] && ct[0] != "mobilite"[0];
    assert cr[0] != "experiences_professionnelles"[0] && cr[0] != "formations"[0] && cr[1] != "certifications"[1];
    assert cr[0] != "projets"[0] && cr[0] != "mobilite"[0];
    assert la[0] != "experiences_professionnelles"[0] && la[0] != "formations"[0] && la[0] != "certifications"[0];
    assert la[0] != "projets"[0] && la[0] != "mobilite"[0];
  }

  /** A field outside both steps keeps its value through them. */
  lemma KeptThrough(s4: Fields, s6: Fields, s7: Fields, key: string)
    requires forall k :: k != "experiences_professionnelles" && k != "formations" ==> Lookup(s6, k) == Lookup(s4, k)
    requires forall k :: k != "certifications" && k != "projets" && k != "mobilite" ==> Lookup(s7, k) == Lookup(s6, k)
    requires key != "experiences_professionnelles" && key != "formations"
    requires key != "certifications" && key != "projets" && key != "mobilite"
    ensures Lookup(s7, key) == Lookup(s4, key)
  {
  }

  /** The history fields pass unchanged through the extra steps. */
  lemma HistoryThrough(s6: Fields, s7: Fields)
    requires HistoryRepaired(s6)
    requires forall k :: k != "certifications" && k != "projets" && k != "mobilite" ==> Lookup(s7, k) == Lookup(s6, k)
    ensures HistoryRepaired(s7)
  {
    HistoryKept(s6, s7);
  }

  /** A step that leaves the skill fields alone keeps them repaired. */
  lemma SkillsKept(a: Fields, b: Fields)
    requires SkillsRepaired(a)
    requires Lookup(b, "competences_techniques") == Lookup(a, "competences_techniques")
    requires Lookup(b, "competences_transversales") == Lookup(a, "competences_transversales")
    requires Lookup(b, "langues") == Lookup(a, "langues")
    ensures SkillsRepaired(b)
  {
  }

  /** A step that leaves the history fields alone keeps them repaired. */
  lemma HistoryKept(a: Fields, b: Fields)
    requires HistoryRepaired(a)
    requires Lookup(b, "experiences_professionnelles") == Lookup(a, "experiences_professionnelles")
    requires Lookup(b, "formations") == Lookup(a, "formations")
    ensures HistoryRepaired(b)
  {
  }

  /** The dict `repair_cv_data` works on: the input itself when it has
      sections, otherwise a new dict holding it as its sections. */
  function CvTop(data: Fields): (top: Fields)
    ensures Lookup(top, "sections").Some?
  {
    if HasKey(data, "sections") then data else [("sections", JObj(data))]
  }

  /** `repair_cv_data`. Sections that are not a dict make the first
      membership test, read or assignment on them raise TypeError, and so
      does an input that is not a dict. */
  function RepairCv(data: Json): (r: Result<(Json, seq<Warning>)>)
    ensures r.Ok? ==> data.JObj? && Lookup(CvTop(data.fields), "sections").value.JObj?
    ensures r.Ok? ==> RepairedCv(r.value.0)
    ensures r.Ok? && !HasKey(data.fields, "sections") ==>
      r.value.1 != [] && r.value.1[0] == SectionsAdded && Keys(r.value.0.fields) == ["sections"]
  {
    if !data.JObj? then Err("TypeError")
    else
      var top := CvTop(data.fields);
      var sec := Lookup(top, "sections").value;
      if !sec.JObj? then Err("TypeError")
      else match RepairSections(sec.fields)
        case Err(e) => Err(e)
        case Ok((s, ws)) =>
          RepairSectionsShape(sec.fields);
          CvWrapped(data.fields, s, ws);
          Ok((JObj(Put(top, "sections", JObj(s))), (if HasKey(data.fields, "sections") then [] else [SectionsAdded]) + ws))
  }

  /** The repaired sections put back under `sections`. */
  lemma CvWrapped(data: Fields, s: Fields, ws: seq<Warning>)
    requires IsRepairedSections(s)
    ensures RepairedCv(JObj(Put(CvTop(data), "sections", JObj(s))))
    ensures !HasKey(data, "sections") ==>
      var w := (if HasKey(data, "sections") then [] else [SectionsAdded]) + ws;
      w != [] && w[0] == SectionsAdded && Keys(Put(CvTop(data), "sections", JObj(s))) == ["sections"]
  {
    PutSections(CvTop(data), s);
  }

  /** A CV as `repair_cv_data` returns it. */
  predicate RepairedCv(out: Json) {
    && out.JObj? && Lookup(out.fields, "sections").Some? && Lookup(out.fields, "sections").value.JObj?
    && IsRepairedSections(Lookup(out.fields, "sections").value.fields)
  }

  lemma PutSections(top: Fields, s: Fields)
    requires IsRepairedSections(s)
    ensures RepairedCv(JObj(Put(top, "sections", JObj(s))))
    ensures |top| == 1 && top[0].0 == "sections" ==> Keys(Put(top, "sections", JObj(s))) == ["sections"]
  {
    LookupPut(top, "sections", JObj(s), "sections");
    var out := Put(top, "sections", JObj(s));
    assert Lookup(out, "sections") == Some(JObj(s));
    if |top| == 1 && top[0].0 == "sections" {
      assert out == [("sections", JObj(s))];
    }
  }

  /** A competence field of `repair_cv_data`, with its loop. */
  method RepairCompetenceField(sections: Fields, compType: string) returns (s: Fields, w: seq<Warning>)
    ensures (s, w) == RepairCompetences(sections, compType)
  {
    var v := Lookup(sections, compType);
    if v.Some? && v.value.JList? {
      var normalized := NormalizeCompetenceList(v.value.items, NormalizeCompetence);
      s, w := Put(sections, compType, JList(Strs(normalized))), [];
    } else {
      s, w := Put(sections, compType, JList([])), [FieldInitialized(compType)];
    }
  }

  /** An item-by-item field of `repair_cv_data`, with its loop. */
  method RepairItemField(sections: Fields, field: string, f: Json -> ItemRepair) returns (r: Result<(Fields, seq<Warning>)>)
    ensures r == RepairItems(sections, field, f)
  {
    var v := Lookup(sections, field);
    if v.None? {
      return Ok((Put(sections, field, JList([])), []));
    }
    var items := Iter(v.value);
    if items.Err? {
      return Err(items.error);
    }
    var kept := GatherLoop(items.value, f);
    if kept.Err? {
      return Err(kept.error);
    }
    r := Ok((Put(sections, field, JList(kept.value.0)), kept.value.1));
  }

  /** `repair_cv_data`, step by step. */
  method RepairCvData(data: Json) returns (r: Result<(Json, seq<Warning>)>)
    ensures r == RepairCv(data)
  {
    if !data.JObj? {
      return Err("TypeError");
    }
    var top := CvTop(data.fields);
    var secValue := Lookup(top, "sections").value;
    if !secValue.JObj? {
      return Err("TypeError");
    }
    var warnings: seq<Warning> := if HasKey(data.fields, "sections") then [] else [SectionsAdded];
    var sections := NormalizeField(NormalizeField(secValue.fields, "titre"), "resume_professionnel");
    var w1, w2;
    sections, w1 := RepairCompetenceField(sections, "competences_techniques");
    sections, w2 := RepairCompetenceField(sections, "competences_transversales");
    sections := RepairLangues(sections);
    assert (sections, w1 + w2) == RepairSkills(secValue.fields);
    var exps := RepairItemField(sections, "experiences_professionnelles", RepairExperience);
    if exps.Err? {
      return Err(exps.error);
    }
    var forms := RepairItemField(exps.value.0, "formations", RepairFormation);
    if forms.Err? {
      return Err(forms.error);
    }
    assert RepairHistory(sections) == Ok((forms.value.0, exps.value.1 + forms.value.1));
    sections := RepairExtras(forms.value.0);
    r := Ok((JObj(Put(top, "sections", JObj(sections))), warnings + ((w1 + w2) + (exps.value.1 + forms.value.1))));
  }

  // ------------------------------------------------------ must-have repair

  /** What one item of the must-have list becomes: strings only, normalised,
      dropped under 3 characters, cut to 200. */
  function Criterion(x: Json): (r: Option<string>)
    ensures r.Some? ==> x.JStr? && 3 <= |r.value| <= 200
    ensures r.Some? <==> x.JStr? && |NormalizeText(x)| >= 3
  {
    if !x.JStr? then None
    else
      var t := NormalizeText(x);
      if |t| < 3 then None else if |t| > 200 then Some(t[..200]) else Some(t)
  }

  /** The warnings one item of the must-have list raises. */
  function CriterionWarnings(x: Json): seq<Warning> {
    if !x.JStr? then []
    else
      var t := NormalizeText(x);
      if |t| < 3 then [CriterionTooShort(t)] else if |t| > 200 then [CriterionTruncated] else []
  }

  /** The cleaning loop of `repair_must_have_data` over the first items,
      for a given item-to-criterion map and its warnings: the distinct
      criteria in order of first appearance, and every item's warnings. */
  function CleanCriteria(items: seq<Json>, crit: Json -> Option<string>, warn: Json -> seq<Warning>): (r: (seq<string>, seq<Warning>))
    decreases |items|
  {
    if items == [] then ([], [])
    else
      var prev := CleanCriteria(items[..|items| - 1], crit, warn);
      var x := items[|items| - 1];
      var c := crit(x);
      (if c.Some? && c.value !in prev.0 then prev.0 + [c.value] else prev.0, prev.1 + warn(x))
  }

  /** The kept values are exactly the values `crit` gives, each once. */
  lemma {:induction false} CleanCriteriaDistinct(items: seq<Json>, crit: Json -> Option<string>, warn: Json -> seq<Warning>)
    ensures forall i, j :: 0 <= i < j < |CleanCriteria(items, crit, warn).0| ==>
      CleanCriteria(items, crit, warn).0[i] != CleanCriteria(items, crit, warn).0[j]
    ensures forall c :: c in CleanCriteria(items, crit, warn).0 <==> exists i :: 0 <= i < |items| && crit(items[i]) == Some(c)
    decreases |items|
  {
    if items != [] {
      var init := items[..|items| - 1];
      CleanCriteriaDistinct(init, crit, warn);
      var prev := CleanCriteria(init, crit, warn).0;
      var r := CleanCriteria(items, crit, warn).0;
      assert forall i :: 0 <= i < |init| ==> init[i] == items[i];
      var c := crit(items[|items| - 1]);
      var grows := c.Some? && c.value !in prev;
      assert grows ==> r == prev + [c.value];
      assert !grows ==> r == prev;
      forall i, j | 0 <= i < j < |r| ensures r[i] != r[j] {
        if j == |prev| {
          assert grows && r[j] == c.value && r[i] == prev[i];
          assert prev[i] in prev;
        } else {
          assert r[i] == prev[i] && r[j] == prev[j];
          assert prev[i] != prev[j];
        }
      }
      forall v ensures v in r <==> exists i :: 0 <= i < |items| && crit(items[i]) == Some(v) {
        if v in r {
          if v in prev {
            var i :| 0 <= i < |init| && crit(init[i]) == Some(v);
            assert crit(items[i]) == Some(v);
          } else {
            assert crit(items[|items| - 1]) == Some(v);
          }
        } else {
          forall i | 0 <= i < |items| ensures crit(items[i]) != Some(v) {
            if i < |init| {
              assert crit(init[i]) == crit(items[i]);
            }
          }
        }
      }
    }
  }

  /** The cleaned criteria are exactly the distinct criteria of the items,
      each of 3 to 200 characters. */
  lemma CleanCriteriaProperties(items: seq<Json>)
    ensures var r := CleanCriteria(items, Criterion, CriterionWarnings).0;
      && (forall i :: 0 <= i < |r| ==> 3 <= |r[i]| <= 200)
      && (forall i, j :: 0 <= i < j < |r| ==> r[i] != r[j])
      && (forall c :: c in r <==> exists i :: 0 <= i < |items| && Criterion(items[i]) == Some(c))
  {
    CleanCriteriaDistinct(items, Criterion, CriterionWarnings);
    CleanCriteriaBounds(items);
  }

  /** Each cleaned criterion has 3 to 200 characters. */
  lemma CleanCriteriaBounds(items: seq<Json>)
    ensures var r := CleanCriteria(items, Criterion, CriterionWarnings).0;
      forall i :: 0 <= i < |r| ==> 3 <= |r[i]| <= 200
  {
    CleanCriteriaDistinct(items, Criterion, CriterionWarnings);
    var r := CleanCriteria(items, Criterion, CriterionWarnings).0;
    forall i | 0 <= i < |r| ensures 3 <= |r[i]| <= 200 {
      assert r[i] in r;
      var k :| 0 <= k < |items| && Criterion(items[k]) == Some(r[i]);
    }
  }

  /** `repair_must_have_data`. The `in` test fails on anything but a dict, a
      list or a string; a list or string that passes it without the key
      becomes a new dict, and one that contains the key fails on the read. */
  function RepairMustHave(data: Json): (r: Result<(Json, seq<Warning>)>)
    ensures r.Ok? ==> r.value.0.JObj?
  {
    match In("must_have", data)
    case Err(e) => Err(e)
    case Ok(present) =>
      var d := if present then data else if data.JList? then JObj([("must_have", data)]) else JObj([("must_have", JList([]))]);
      var w0 := if present then [] else if data.JList? then [ListWrapped("must_have")] else [FieldMissing("must_have")];
      match GetItem(d, "must_have")
      case Err(e) => Err(e)
      case Ok(mustHave) =>
        if !mustHave.JList? then Ok((JObj(Put(d.fields, "must_have", JList([]))), w0 + [NotAList("must_have", mustHave)]))
        else
          var cleaned := CleanCriteria(mustHave.items, Criterion, CriterionWarnings);
          var tooMany := if |mustHave.items| > 15 then [TooManyCriteria(|mustHave.items|)] else [];
          Ok((JObj(Put(d.fields, "must_have", JList(Strs(Prefix(cleaned.0, 15))))), w0 + cleaned.1 + tooMany))
  }

  /** The must-have schema: a dict whose `must_have` is a list of 1 to 15
      strings of 3 to 200 characters. */
  predicate MustHaveConforms(v: Json) {
    && v.JObj? && Lookup(v.fields, "must_have").Some?
    && var m := Lookup(v.fields, "must_have").value;
    && m.JList? && 1 <= |m.items| <= 15
    && forall i :: 0 <= i < |m.items| ==> m.items[i].JStr? && 3 <= |m.items[i].s| <= 200
  }

  /** The repair fails exactly when the input is not a dict and is not a
      list or string without the key; otherwise its list holds at most 15
      distinct criteria of 3 to 200 characters, the first ones the items
      give, and it conforms to the schema as soon as it is not empty. */
  lemma RepairMustHaveShape(data: Json)
    ensures RepairMustHave(data).Err? <==>
      !(data.JObj? || (data.JList? && JStr("must_have") !in data.items) || (data.JStr? && !Contains(data.s, "must_have")))
    ensures RepairMustHave(data).Ok? ==>
      var out := RepairMustHave(data).value.0;
      && Lookup(out.fields, "must_have").Some? && Lookup(out.fields, "must_have").value.JList?
      && var m := Lookup(out.fields, "must_have").value.items;
      && |m| <= 15
      && (forall i, j :: 0 <= i < j < |m| ==> m[i] != m[j])
      && (m != [] ==> MustHaveConforms(out))
    ensures data.JObj? && HasKey(data.fields, "must_have") && Lookup(data.fields, "must_have").value.JList? ==>
      var items := Lookup(data.fields, "must_have").value.items;
      RepairMustHave(data).Ok? && Lookup(RepairMustHave(data).value.0.fields, "must_have") == Some(JList(Strs(Prefix(CleanCriteria(items, Criterion, CriterionWarnings).0, 15))))
  {
    RepairMustHaveFails(data);
    var present := In("must_have", data);
    if present.Ok? {
      var d := if present.value then data else if data.JList? then JObj([("must_have", data)]) else JObj([("must_have", JList([]))]);
      var g := GetItem(d, "must_have");
      if g.Ok? {
        if g.value.JList? {
          var m := Strs(Prefix(CleanCriteria(g.value.items, Criterion, CriterionWarnings).0, 15));
          CappedCriteria(g.value.items);
          LookupPut(d.fields, "must_have", JList(m), "must_have");
          assert RepairMustHave(data).value.0 == JObj(Put(d.fields, "must_have", JList(m)));
        } else {
          LookupPut(d.fields, "must_have", JList([]), "must_have");
          assert RepairMustHave(data).value.0 == JObj(Put(d.fields, "must_have", JList([])));
        }
      }
    }
  }

  lemma RepairMustHaveFails(data: Json)
    ensures RepairMustHave(data).Err? <==>
      !(data.JObj? || (data.JList? && JStr("must_have") !in data.items) || (data.JStr? && !Contains(data.s, "must_have")))
  {
  }

  /** At most 15 distinct criteria of 3 to 200 characters. */
  lemma CappedCriteria(items: seq<Json>)
    ensures var m := Strs(Prefix(CleanCriteria(items, Criterion, CriterionWarnings).0, 15));
      && |m| <= 15
      && (forall i, j :: 0 <= i < j < |m| ==> m[i] != m[j])
      && (forall i :: 0 <= i < |m| ==> m[i].JStr? && 3 <= |m[i].s| <= 200)
  {
    var cleaned := CleanCriteria(items, Criterion, CriterionWarnings).0;
    CleanCriteriaDistinct(items, Criterion, CriterionWarnings);
    CleanCriteriaBounds(items);
    CapDistinct(cleaned, 15);
  }

  /** The first `n` of pairwise distinct texts, as JSON strings. */
  lemma CapDistinct(xs: seq<string>, n: nat)
    requires forall i, j :: 0 <= i < j < |xs| ==> xs[i] != xs[j]
    ensures var m := Strs(Prefix(xs, n));
      && |m| <= n && |m| <= |xs|
      && (forall i, j :: 0 <= i < j < |m| ==> m[i] != m[j])
      && (forall i :: 0 <= i < |m| ==> m[i] == JStr(xs[i]))
  {
    var p := Prefix(xs, n);
    var m := Strs(p);
    assert forall i :: 0 <= i < |p| ==> p[i] == xs[i];
    forall i, j | 0 <= i < j < |m| ensures m[i] != m[j] {
      assert m[i].s == xs[i] && m[j].s == xs[j];
    }
  }

  /** The body of the cleaning loop of `repair_must_have_data`: the
      criterion an item gives, if any, and its warnings. */
  method CleanOne(x: Json) returns (c: Option<string>, w: seq<Warning>)
    ensures c == Criterion(x) && w == CriterionWarnings(x)
  {
    c, w := None, [];
    if x.JStr? {
      var t := NormalizeText(x);
      if |t| < 3 {
        w := [CriterionTooShort(t)];
      } else {
        if |t| > 200 {
          t := t[..200];
          w := [CriterionTruncated];
        }
        c := Some(t);
      }
    }
  }

  /** The cleaning loop of `repair_must_have_data`. */
  method CleanCriteriaLoop(items: seq<Json>) returns (cleaned: seq<string>, cleanWarnings: seq<Warning>)
    ensures (cleaned, cleanWarnings) == CleanCriteria(items, Criterion, CriterionWarnings)
  {
    cleaned, cleanWarnings := [], [];
    var i := 0;
    assert items[..i] == [];
    while i < |items|
      invariant 0 <= i <= |items|
      invariant cleaned == CleanCriteria(items[..i], Criterion, CriterionWarnings).0
      invariant cleanWarnings == CleanCriteria(items[..i], Criterion, CriterionWarnings).1
    {
      var c, w := CleanOne(items[i]);
      CleanStep(items, i, cleaned, cleanWarnings, c, w);
      if c.Some? && c.value !in cleaned {
        cleaned := cleaned + [c.value];
      }
      cleanWarnings := cleanWarnings + w;
      i := i + 1;
    }
    assert items[..i] == items;
  }

  /** One turn of the cleaning loop, with the criterion and warnings of
      the item at hand. */
  lemma CleanStep(items: seq<Json>, i: nat, cleaned: seq<string>, warnings: seq<Warning>,
                  c: Option<string>, w: seq<Warning>)
    requires i < |items|
    requires cleaned == CleanCriteria(items[..i], Criterion, CriterionWarnings).0
    requires warnings == CleanCriteria(items[..i], Criterion, CriterionWarnings).1
    requires c == Criterion(items[i]) && w == CriterionWarnings(items[i])
    ensures (if c.Some? && c.value !in cleaned then cleaned + [c.value] else cleaned)
      == CleanCriteria(items[..i + 1], Criterion, CriterionWarnings).0
    ensures warnings + w == CleanCriteria(items[..i + 1], Criterion, CriterionWarnings).1
  {
    CleanCriteriaSnoc(items, i, Criterion, CriterionWarnings);
  }

  lemma CleanCriteriaSnoc(items: seq<Json>, i: nat, crit: Json -> Option<string>, warn: Json -> seq<Warning>)
    requires i < |items|
    ensures var prev := CleanCriteria(items[..i], crit, warn);
      var c := crit(items[i]);
      CleanCriteria(items[..i + 1], crit, warn) ==
        (if c.Some? && c.value !in prev.0 then prev.0 + [c.value] else prev.0, prev.1 + warn(items[i]))
  {
    var prefix := items[..i + 1];
    assert prefix[..i] == items[..i];
    assert prefix[|prefix| - 1] == items[i];
  }

  /** `repair_must_have_data`. */
  method RepairMustHaveData(data: Json) returns (r: Result<(Json, seq<Warning>)>)
    ensures r == RepairMustHave(data)
  {
    var present := In("must_have", data);
    if present.Err? {
      return Err(present.error);
    }
    var d := data;
    var warnings: seq<Warning> := [];
    if !present.value {
      if data.JList? {
        d := JObj([("must_have", data)]);
        warnings := [ListWrapped("must_have")];
      } else {
        d := JObj([("must_have", JList([]))]);
        warnings := [FieldMissing("must_have")];
      }
    }
    var mustHave := GetItem(d, "must_have");
    if mustHave.Err? {
      return Err(mustHave.error);
    }
    var items := mustHave.value;
    if !items.JList? {
      return Ok((JObj(Put(d.fields, "must_have", JList([]))), warnings + [NotAList("must_have", items)]));
    }
    var cleaned, cleanWarnings := CleanCriteriaLoop(items.items);
    var tooMany := if |items.items| > 15 then [TooManyCriteria(|items.items|)] else [];
    r := Ok((JObj(Put(d.fields, "must_have", JList(Strs(Prefix(cleaned, 15))))), warnings + cleanWarnings + tooMany));
  }

  // ------------------------------------------------------ re-ranking repair

  /** Python's `float(v)` on a JSON value: a boolean gives 1.0 or 0.0, a
      number itself, a string what `parse` reads from it (None where Python
      raises ValueError); anything else raises TypeError, here None. */
  function FloatOf(v: Json, parse: string -> Option<real>): (r: Option<real>)
    ensures v.JInt? ==> r == Some(v.i as real)
    ensures v.JFloat? ==> r == Some(v.r)
    ensures v.JNull? || v.JList? || v.JObj? ==> r.None?
  {
    match v
    case JBool(b) => Some(if b then 1.0 else 0.0)
    case JInt(i) => Some(i as real)
    case JFloat(x) => Some(x)
    case JStr(s) => parse(s)
    case _ => None
  }

  /** `max(0.0, min(1.0, x))`. */
  function Clamp01(x: real): (r: real)
    ensures 0.0 <= r <= 1.0
    ensures 0.0 <= x <= 1.0 ==> r == x
    ensures x < 0.0 ==> r == 0.0
    ensures x > 1.0 ==> r == 1.0
  {
    var m := if x < 1.0 then x else 1.0;
    if 0.0 < m then m else 0.0
  }

  const DefaultJustification: string := "Pas de justification fournie"

  /** The body of the loop of `repair_reranking_data` for one entry: a
      non-dict is skipped, an entry without a true `cv_id` is dropped with a
      warning; the score defaults to 0.5, is read as a float and clamped to
      [0, 1], and falls back to 0.5 when it cannot be read; a missing or
      false justification gets the default text, and a present one is
      normalised and cut to 500 characters followed by "...". */
  function RepairRankedCv(cv: Json, parse: string -> Option<real>): ItemRepair {
    if !cv.JObj? then Ok((None, []))
    else
      var id := Lookup(cv.fields, "cv_id");
      if id.None? || !Truthy(id.value) then Ok((None, [CvWithoutId(cv)]))
      else
        var (fs2, ws) := RepairScore(cv.fields, id.value, parse);
        var (fs3, wj) := RepairJustification(fs2, id.value);
        Ok((Some(JObj(fs3)), ws + wj))
  }

  /** The score steps for one entry. */
  function RepairScore(fs: Fields, cvId: Json, parse: string -> Option<real>): (r: (Fields, seq<Warning>))
    ensures forall k :: k != "score" ==> Lookup(r.0, k) == Lookup(fs, k)
    ensures Lookup(r.0, "score").Some? && Lookup(r.0, "score").value.JFloat?
    ensures 0.0 <= Lookup(r.0, "score").value.r <= 1.0
    ensures Lookup(fs, "score").Some? && Lookup(fs, "score").value.JFloat? && 0.0 <= Lookup(fs, "score").value.r <= 1.0 ==>
      Lookup(r.0, "score") == Lookup(fs, "score")
  {
    var fs1 := if HasKey(fs, "score") then fs else Put(fs, "score", JFloat(0.5));
    var w1 := if HasKey(fs, "score") then [] else [ScoreMissing(cvId)];
    LookupPutAll(fs, "score", JFloat(0.5));
    var score := Lookup(fs1, "score").value;
    var x := FloatOf(score, parse);
    var v := JFloat(if x.Some? then Clamp01(x.value) else 0.5);
    LookupPutAll(fs1, "score", v);
    (Put(fs1, "score", v), w1 + if x.Some? then [] else [ScoreInvalid(cvId, score)])
  }

  /** The justification steps for one entry. */
  function RepairJustification(fs: Fields, cvId: Json): (r: (Fields, seq<Warning>))
    ensures forall k :: k != "justification" ==> Lookup(r.0, k) == Lookup(fs, k)
    ensures Lookup(r.0, "justification").Some? && Lookup(r.0, "justification").value.JStr?
    ensures |Lookup(r.0, "justification").value.s| <= 503
    ensures (Lookup(fs, "justification").Some? && Truthy(Lookup(fs, "justification").value) &&
             |NormalizeText(Lookup(fs, "justification").value)| > 500) ==>
      Lookup(r.0, "justification").value.s == NormalizeText(Lookup(fs, "justification").value)[..500] + "..."
  {
    var j := Lookup(fs, "justification");
    var given := j.Some? && Truthy(j.value);
    var n := if given then NormalizeText(j.value) else DefaultJustification;
    var cut := given && |n| > 500;
    var v := JStr(if cut then n[..500] + "..." else n);
    LookupPutAll(fs, "justification", v);
    (Put(fs, "justification", v), if !given then [JustificationMissing(cvId)] else if cut then [JustificationTruncated(cvId)] else [])
  }

  /** A repaired entry: a dict with a true `cv_id`, a float score in
      [0, 1] and a string justification of at most 503 characters. */
  predicate IsRankedCv(e: Json) {
    && e.JObj?
    && Lookup(e.fields, "cv_id").Some? && Truthy(Lookup(e.fields, "cv_id").value)
    && Lookup(e.fields, "score").Some? && Lookup(e.fields, "score").value.JFloat?
    && 0.0 <= Lookup(e.fields, "score").value.r <= 1.0
    && Lookup(e.fields, "justification").Some? && Lookup(e.fields, "justification").value.JStr?
    && |Lookup(e.fields, "justification").value.s| <= 503
  }

  /** The repair of one entry never raises; it keeps exactly the dicts with
      a true `cv_id`, in the repaired shape, with their `cv_id` unchanged,
      and an in-range float score passes through as it is. */
  lemma RepairRankedCvShape(cv: Json, parse: string -> Option<real>)
    ensures RepairRankedCv(cv, parse).Ok?
    ensures RepairRankedCv(cv, parse).value.0.Some? <==>
      cv.JObj? && Lookup(cv.fields, "cv_id").Some? && Truthy(Lookup(cv.fields, "cv_id").value)
    ensures RepairRankedCv(cv, parse).value.0.Some? ==>
      var e := RepairRankedCv(cv, parse).value.0.value;
      IsRankedCv(e) && Lookup(e.fields, "cv_id") == Lookup(cv.fields, "cv_id")
    ensures RepairRankedCv(cv, parse).value.0.Some? ==>
      var score := Lookup(cv.fields, "score");
      (score.Some? && score.value.JFloat? && 0.0 <= score.value.r <= 1.0 ==>
        Lookup(RepairRankedCv(cv, parse).value.0.value.fields, "score") == score)
  {
    if cv.JObj? && Lookup(cv.fields, "cv_id").Some? && Truthy(Lookup(cv.fields, "cv_id").value) {
      var id := Lookup(cv.fields, "cv_id").value;
      var fs2 := RepairScore(cv.fields, id, parse).0;
      var fs3 := RepairJustification(fs2, id).0;
      assert Lookup(fs3, "cv_id") == Lookup(fs2, "cv_id") == Lookup(cv.fields, "cv_id");
      assert Lookup(fs3, "score") == Lookup(fs2, "score");
    }
  }

  /** A justification longer than 500 characters comes out at 503, over the
      500 the re-ranking schema allows. */
  lemma JustificationCutTo503(cv: Json, parse: string -> Option<real>)
    requires cv.JObj? && Lookup(cv.fields, "cv_id").Some? && Truthy(Lookup(cv.fields, "cv_id").value)
    requires Lookup(cv.fields, "justification").Some? && Truthy(Lookup(cv.fields, "justification").value)
    requires |NormalizeText(Lookup(cv.fields, "justification").value)| > 500
    ensures RepairRankedCv(cv, parse).Ok? && RepairRankedCv(cv, parse).value.0.Some?
    ensures |Lookup(RepairRankedCv(cv, parse).value.0.value.fields, "justification").value.s| == 503
  {
    var id := Lookup(cv.fields, "cv_id").value;
    var fs2 := RepairScore(cv.fields, id, parse).0;
    ScoreKeepsJustification(cv.fields, id, parse);
    JustificationCut(fs2, id);
    RepairRankedCvFields(cv, parse);
  }

  /** The fields of a kept entry are those of the score step followed by
      the justification step. */
  lemma RepairRankedCvFields(cv: Json, parse: string -> Option<real>)
    requires cv.JObj? && Lookup(cv.fields, "cv_id").Some? && Truthy(Lookup(cv.fields, "cv_id").value)
    ensures var id := Lookup(cv.fields, "cv_id").value;
      RepairRankedCv(cv, parse).Ok? &&
      RepairRankedCv(cv, parse).value.0 == Some(JObj(RepairJustification(RepairScore(cv.fields, id, parse).0, id).0))
  {
  }

  lemma ScoreKeepsJustification(fs: Fields, cvId: Json, parse: string -> Option<real>)
    ensures Lookup(RepairScore(fs, cvId, parse).0, "justification") == Lookup(fs, "justification")
  {
    assert "justification" != "score" by { assert "justification"[0] != "score"[0]; }
  }

  lemma JustificationCut(fs: Fields, cvId: Json)
    requires Lookup(fs, "justification").Some? && Truthy(Lookup(fs, "justification").value)
    requires |NormalizeText(Lookup(fs, "justification").value)| > 500
    ensures |Lookup(RepairJustification(fs, cvId).0, "justification").value.s| == 503
  {
    var n := NormalizeText(Lookup(fs, "justification").value);
    assert |n[..500] + "..."| == 503;
  }

  /** `repair_reranking_data`. */
  function RepairReranking(data: Json, parse: string -> Option<real>): Result<(Json, seq<Warning>)> {
    match In("ranked_cvs", data)
    case Err(e) => Err(e)
    case Ok(present) =>
      var d := if present then data else if data.JList? then JObj([("ranked_cvs", data)]) else JObj([("ranked_cvs", JList([]))]);
      var w0 := if present then [] else if data.JList? then [ListWrapped("ranked_cvs")] else [FieldMissing("ranked_cvs")];
      match GetItem(d, "ranked_cvs")
      case Err(e) => Err(e)
      case Ok(ranked) =>
        if !ranked.JList? then Ok((JObj(Put(d.fields, "ranked_cvs", JList([]))), w0 + [NotAList("ranked_cvs", ranked)]))
        else
          var g := Gather(ranked.items, cv => RepairRankedCv(cv, parse));
          if g.Err? then Err(g.error)
          else Ok((JObj(Put(d.fields, "ranked_cvs", JList(g.value.0))), w0 + g.value.1))
  }

  /** The repair fails exactly when the input is not a dict and is not a
      list or string without the key; otherwise its `ranked_cvs` is a list
      of repaired entries, no longer than the input's. */
  lemma RepairRerankingShape(data: Json, parse: string -> Option<real>)
    ensures RepairReranking(data, parse).Err? <==>
      !(data.JObj? || (data.JList? && JStr("ranked_cvs") !in data.items) || (data.JStr? && !Contains(data.s, "ranked_cvs")))
    ensures RepairReranking(data, parse).Ok? ==>
      var out := RepairReranking(data, parse).value.0;
      && out.JObj? && Lookup(out.fields, "ranked_cvs").Some? && Lookup(out.fields, "ranked_cvs").value.JList?
      && forall e :: e in Lookup(out.fields, "ranked_cvs").value.items ==> IsRankedCv(e)
  {
    var f := cv => RepairRankedCv(cv, parse);
    forall cv ensures f(cv).Ok? && (f(cv).value.0.Some? ==> IsRankedCv(f(cv).value.0.value)) {
      RepairRankedCvShape(cv, parse);
    }
    var present := In("ranked_cvs", data);
    if present.Ok? {
      var d := if present.value then data else if data.JList? then JObj([("ranked_cvs", data)]) else JObj([("ranked_cvs", JList([]))]);
      var g := GetItem(d, "ranked_cvs");
      if g.Ok? {
        LookupPut(d.fields, "ranked_cvs", JList([]), "ranked_cvs");
        if g.value.JList? {
          var kept := Gather(g.value.items, f);
          assert kept.Ok?;
          LookupPut(d.fields, "ranked_cvs", JList(kept.value.0), "ranked_cvs");
        }
      }
    }
  }

  /** `repair_reranking_data`, with its loop. */
  method RepairRerankingData(data: Json, parse: string -> Option<real>) returns (r: Result<(Json, seq<Warning>)>)
    ensures r == RepairReranking(data, parse)
  {
    var present := In("ranked_cvs", data);
    if present.Err? {
      return Err(present.error);
    }
    var d := data;
    var warnings: seq<Warning> := [];
    if !present.value {
      if data.JList? {
        d := JObj([("ranked_cvs", data)]);
        warnings := [ListWrapped("ranked_cvs")];
      } else {
        d := JObj([("ranked_cvs", JList([]))]);
        warnings := [FieldMissing("ranked_cvs")];
      }
    }
    var ranked := GetItem(d, "ranked_cvs");
    if ranked.Err? {
      return Err(ranked.error);
    }
    if !ranked.value.JList? {
      return Ok((JObj(Put(d.fields, "ranked_cvs", JList([]))), warnings + [NotAList("ranked_cvs", ranked.value)]));
    }
    var cleaned := GatherLoop(ranked.value.items, cv => RepairRankedCv(cv, parse));
    if cleaned.Err? {
      return Err(cleaned.error);
    }
    r := Ok((JObj(Put(d.fields, "ranked_cvs", JList(cleaned.value.0))), warnings + cleaned.value.1));
  }

  // ------------------------------------------------ validation with repair

  datatype SchemaKind = CvSchema | MustHaveSchema | RerankingSchema

  /** The schema names `validate_and_repair` knows. */
  function SchemaOf(name: string): (r: Option<SchemaKind>)
    ensures r.Some? <==> name == "cv" || name == "must_have" || name == "reranking"
  {
    if name == "cv" then Some(CvSchema)
    else if name == "must_have" then Some(MustHaveSchema)
    else if name == "reranking" then Some(RerankingSchema)
    else None
  }

  /** The repair function paired with each schema. */
  function Repair(kind: SchemaKind, data: Json, parse: string -> Option<real>): Result<(Json, seq<Warning>)> {
    match kind
    case CvSchema => RepairCv(data)
    case MustHaveSchema => RepairMustHave(data)
    case RerankingSchema => RepairReranking(data, parse)
  }

  /** `ValidationResult`. */
  datatype Validation = Validation(valid: bool, data: Json, errors: seq<string>, warnings: seq<Warning>, repaired: bool)

  type Repairer = Json -> Result<(Json, seq<Warning>)>

  /** `k` repairs in a row, with their warnings. */
  function RepairTimes(repair: Repairer, data: Json, k: nat): Result<(Json, seq<Warning>)>
    decreases k
  {
    if k == 0 then Ok((data, []))
    else match repair(data)
      case Err(e) => Err(e)
      case Ok((d, w)) =>
        match RepairTimes(repair, d, k - 1)
        case Err(e) => Err(e)
        case Ok((d', w')) => Ok((d', w + w'))
  }

  /** The repair rounds of `validate_and_repair`: up to `left` attempts from
      `data`, after a validation that failed with `lastError`; the result
      holds the warnings of these rounds. A repair that raises ends
      everything with its exception. */
  function Rounds(repair: Repairer, check: Json -> Option<string>, data: Json, left: nat, lastError: string): (r: Result<Validation>)
    ensures r.Ok? && r.value.valid ==> r.value.repaired && r.value.errors == [] && check(r.value.data).None?
    ensures r.Ok? && !r.value.valid ==> !r.value.repaired && |r.value.errors| == 1
    decreases left
  {
    if left == 0 then Ok(Validation(false, data, [lastError], [], false))
    else match repair(data)
      case Err(e) => Err(e)
      case Ok((d, w)) =>
        match check(d)
        case None => Ok(Validation(true, d, [], w, true))
        case Some(msg) => Prepend(w, Rounds(repair, check, d, left - 1, msg))
  }

  function RepairerOf(kind: SchemaKind, parse: string -> Option<real>): Repairer {
    d => Repair(kind, d, parse)
  }

  function CheckerOf(kind: SchemaKind, check: (SchemaKind, Json) -> Option<string>): Json -> Option<string> {
    d => check(kind, d)
  }

  /** Warnings gathered before `r`. */
  function Prepend(ws: seq<Warning>, r: Result<Validation>): Result<Validation> {
    if r.Err? then r else Ok(r.value.(warnings := ws + r.value.warnings))
  }

  /** `validate_and_repair`. A string is parsed first with `loads`; the
      schema validation is `check`, which answers None for valid data and
      the error message otherwise; `parse` is `float` on strings. */
  function ValidateAndRepair(data: Json, schemaType: string, maxAttempts: int,
                             loads: string -> Result<Json>, check: (SchemaKind, Json) -> Option<string>,
                             parse: string -> Option<real>): (r: Result<Validation>)
    ensures var parsed := if data.JStr? then loads(data.s) else Ok(data);
      parsed.Err? || SchemaOf(schemaType).None? ==> r.Ok? && !r.value.valid && r.value.data == JNull && |r.value.errors| == 1
    ensures r.Ok? && r.value.valid ==> SchemaOf(schemaType).Some? && check(SchemaOf(schemaType).value, r.value.data).None?
    ensures r.Ok? && r.value.valid && !r.value.repaired ==>
      var parsed := if data.JStr? then loads(data.s) else Ok(data);
      parsed.Ok? && r.value.data == parsed.value && r.value.warnings == []
    ensures r.Ok? && !r.value.valid ==> !r.value.repaired && |r.value.errors| == 1
  {
    var parsed := if data.JStr? then loads(data.s) else Ok(data);
    if parsed.Err? then Ok(Validation(false, JNull, ["JSON invalide: " + parsed.error], [], false))
    else match SchemaOf(schemaType)
      case None => Ok(Validation(false, JNull, ["Type de schéma inconnu: " + schemaType], [], false))
      case Some(kind) =>
        match check(kind, parsed.value)
        case None => Ok(Validation(true, parsed.value, [], [], false))
        case Some(msg) =>
          Rounds(RepairerOf(kind, parse), CheckerOf(kind, check), parsed.value, if maxAttempts < 0 then 0 else maxAttempts, msg)
  }

  /** A valid outcome of the rounds is the `k`-th repair iterate, the
      first that passes validation, with the warnings of the `k` repairs. */
  lemma {:induction false} RoundsValid(repair: Repairer, check: Json -> Option<string>, data: Json, left: nat, lastError: string)
    returns (k: nat)
    ensures var r := Rounds(repair, check, data, left, lastError);
      r.Ok? && r.value.valid ==>
        && r.value.repaired && r.value.errors == [] && check(r.value.data).None?
        && 1 <= k <= left && RepairTimes(repair, data, k) == Ok((r.value.data, r.value.warnings))
        && forall j :: 1 <= j < k ==> RepairTimes(repair, data, j).Ok? && check(RepairTimes(repair, data, j).value.0).Some?
    decreases left
  {
    k := 1;
    if left > 0 && repair(data).Ok? {
      var (d, w) := repair(data).value;
      RepairTimesFirst(repair, data, 1);
      if check(d).Some? {
        var msg := check(d).value;
        var k' := RoundsValid(repair, check, d, left - 1, msg);
        var r := Rounds(repair, check, d, left - 1, msg);
        if r.Ok? && r.value.valid {
          k := k' + 1;
          RepairTimesFirst(repair, data, k);
          forall j | 1 <= j < k ensures RepairTimes(repair, data, j).Ok? && check(RepairTimes(repair, data, j).value.0).Some? {
            RepairTimesFirst(repair, data, j);
          }
        }
      }
    }
  }

  /** An invalid outcome of the rounds is the last repair iterate, every
      iterate having failed validation, with the last error. */
  lemma {:induction false} RoundsInvalid(repair: Repairer, check: Json -> Option<string>, data: Json, left: nat, lastError: string)
    ensures var r := Rounds(repair, check, data, left, lastError);
      r.Ok? && !r.value.valid ==>
        && !r.value.repaired && |r.value.errors| == 1
        && RepairTimes(repair, data, left) == Ok((r.value.data, r.value.warnings))
        && (left == 0 ==> r.value.errors[0] == lastError)
        && (left > 0 ==> check(r.value.data) == Some(r.value.errors[0]))
        && forall j :: 1 <= j <= left ==> RepairTimes(repair, data, j).Ok? && check(RepairTimes(repair, data, j).value.0).Some?
    decreases left
  {
    if left > 0 && repair(data).Ok? {
      var (d, w) := repair(data).value;
      RepairTimesFirst(repair, data, 1);
      if check(d).Some? {
        var msg := check(d).value;
        RoundsInvalid(repair, check, d, left - 1, msg);
        var r := Rounds(repair, check, d, left - 1, msg);
        if r.Ok? && !r.value.valid {
          RepairTimesFirst(repair, data, left);
          forall j | 1 <= j <= left ensures RepairTimes(repair, data, j).Ok? && check(RepairTimes(repair, data, j).value.0).Some? {
            RepairTimesFirst(repair, data, j);
          }
        }
      }
    }
  }

  /** `k` repairs are one repair and then `k - 1`. */
  lemma RepairTimesFirst(repair: Repairer, data: Json, k: nat)
    requires k >= 1 && repair(data).Ok?
    ensures RepairTimes(repair, data, k) ==
      var (d, w) := repair(data).value;
      var rest := RepairTimes(repair, d, k - 1);
      if rest.Err? then rest else Ok((rest.value.0, w + rest.value.1))
    ensures k == 1 ==> RepairTimes(repair, data, k) == repair(data)
  {
    var (d, w) := repair(data).value;
    assert RepairTimes(repair, d, 0) == Ok((d, []));
    assert w + [] == w;
  }

  lemma PrependTwice(ws: seq<Warning>, w: seq<Warning>, r: Result<Validation>)
    ensures Prepend(ws, Prepend(w, r)) == Prepend(ws + w, r)
    ensures Prepend([], r) == r
  {
    if r.Ok? {
      assert ws + (w + r.value.warnings) == (ws + w) + r.value.warnings;
      assert [] + r.value.warnings == r.value.warnings;
    }
  }

  /** The repair function of a schema, run. */
  method RepairData(kind: SchemaKind, data: Json, parse: string -> Option<real>) returns (r: Result<(Json, seq<Warning>)>)
    ensures r == Repair(kind, data, parse)
  {
    match kind
    case CvSchema => r := RepairCvData(data);
    case MustHaveSchema => r := RepairMustHaveData(data);
    case RerankingSchema => r := RepairRerankingData(data, parse);
  }

  /** `validate_and_repair`, with its loop of attempts. */
  method ValidateAndRepairData(data: Json, schemaType: string, maxAttempts: int,
                               loads: string -> Result<Json>, check: (SchemaKind, Json) -> Option<string>,
                               parse: string -> Option<real>) returns (r: Result<Validation>)
    ensures r == ValidateAndRepair(data, schemaType, maxAttempts, loads, check, parse)
  {
    var d := data;
    if d.JStr? {
      var parsed := loads(d.s);
      if parsed.Err? {
        return Ok(Validation(false, JNull, ["JSON invalide: " + parsed.error], [], false));
      }
      d := parsed.value;
    }
    var kind := SchemaOf(schemaType);
    if kind.None? {
      return Ok(Validation(false, JNull, ["Type de schéma inconnu: " + schemaType], [], false));
    }
    var result := check(kind.value, d);
    if result.None? {
      return Ok(Validation(true, d, [], [], false));
    }
    r := RepairRounds(RepairerOf(kind.value, parse), CheckerOf(kind.value, check), d, if maxAttempts < 0 then 0 else maxAttempts, result.value);
  }

  /** The loop of attempts of `validate_and_repair`, for the schema's
      repair function and validation. */
  method RepairRounds(repair: Repairer, valid: Json -> Option<string>, data: Json, attempts: nat, firstError: string)
    returns (r: Result<Validation>)
    ensures r == Rounds(repair, valid, data, attempts, firstError)
  {
    var d := data;
    var error := firstError;
    var warnings: seq<Warning> := [];
    var attempt := 0;
    PrependTwice([], [], Rounds(repair, valid, d, attempts, error));
    while attempt < attempts
      invariant 0 <= attempt <= attempts
      invariant Rounds(repair, valid, data, attempts, firstError) == Prepend(warnings, Rounds(repair, valid, d, attempts - attempt, error))
    {
      var repaired := repair(d);
      if repaired.Err? {
        return Err(repaired.error);
      }
      var (next, w) := repaired.value;
      var result := valid(next);
      if result.None? {
        return Ok(Validation(true, next, [], warnings + w, true));
      }
      RoundsStep(repair, valid, d, attempts - attempt, error);
      PrependTwice(warnings, w, Rounds(repair, valid, next, attempts - attempt - 1, result.value));
      d, error := next, result.value;
      warnings := warnings + w;
      attempt := attempt + 1;
    }
    assert warnings + [] == warnings;
    r := Ok(Validation(false, d, [error], warnings, false));
  }

  /** One round that neither raises nor validates. */
  lemma RoundsStep(repair: Repairer, valid: Json -> Option<string>, data: Json, left: nat, lastError: string)
    requires left > 0 && repair(data).Ok? && valid(repair(data).value.0).Some?
    ensures Rounds(repair, valid, data, left, lastError) ==
      Prepend(repair(data).value.1, Rounds(repair, valid, repair(data).value.0, left - 1, valid(repair(data).value.0).value))
  {
  }

  /** A valid result passes its schema's validation and is either the
      input, unrepaired, or the first of at most `maxAttempts` repair
      iterates that passes; an unknown schema or unparsable text is invalid
      with no data; with no attempts allowed, invalid input comes back as
      it is with its validation error. */
  lemma ValidateAndRepairOutcome(data: Json, schemaType: string, maxAttempts: int,
                                 loads: string -> Result<Json>, check: (SchemaKind, Json) -> Option<string>,
                                 parse: string -> Option<real>) returns (k: nat)
    ensures var r := ValidateAndRepair(data, schemaType, maxAttempts, loads, check, parse);
      var parsed := if data.JStr? then loads(data.s) else Ok(data);
      && (parsed.Err? || SchemaOf(schemaType).None? ==> r.Ok? && !r.value.valid && r.value.data == JNull && |r.value.errors| == 1)
      && (r.Ok? && r.value.valid ==>
            && parsed.Ok? && SchemaOf(schemaType).Some?
            && check(SchemaOf(schemaType).value, r.value.data).None?
            && (!r.value.repaired ==> r.value.data == parsed.value && r.value.warnings == [])
            && (r.value.repaired ==>
                  && 1 <= k <= maxAttempts
                  && RepairTimes(RepairerOf(SchemaOf(schemaType).value, parse), parsed.value, k) == Ok((r.value.data, r.value.warnings))))
      && (parsed.Ok? && SchemaOf(schemaType).Some? && check(SchemaOf(schemaType).value, parsed.value).Some? && maxAttempts <= 0 ==>
            r == Ok(Validation(false, parsed.value, [check(SchemaOf(schemaType).value, parsed.value).value], [], false)))
  {
    k := 0;
    var parsed := if data.JStr? then loads(data.s) else Ok(data);
    if parsed.Ok? && SchemaOf(schemaType).Some? {
      var kind := SchemaOf(schemaType).value;
      var msg := check(kind, parsed.value);
      if msg.Some? {
        var attempts := if maxAttempts < 0 then 0 else maxAttempts;
        k := RoundsValid(RepairerOf(kind, parse), CheckerOf(kind, check), parsed.value, attempts, msg.value);
      }
    }
  }

  // ----------------------------------------------- changes made in place

  /** The key each schema's repair function looks for at the top. */
  function TopKey(kind: SchemaKind): string {
    match kind
    case CvSchema => "sections"
    case MustHaveSchema => "must_have"
    case RerankingSchema => "ranked_cvs"
  }

  /** A ranked list as the re-ranking repair leaves it in place: each entry
      it keeps was rewritten where it stands, the others are untouched. */
  function RankedInPlace(xs: seq<Json>, parse: string -> Option<real>): (r: seq<Json>)
    ensures |r| == |xs|
  {
    seq(|xs|, i requires 0 <= i < |xs| =>
      var c := RepairRankedCv(xs[i], parse);
      if c.Ok? && c.value.0.Some? then c.value.0.value else xs[i])
  }

  /** What the caller's `data` holds once a single-attempt
      `validate_and_repair` came back invalid with `result`. The repair
      functions assign into the dict they are handed: a dict that has the
      schema's top key is the repaired data itself, and a CV dict without
      `sections` is wrapped, then rewritten as the repaired sections. A
      re-ranking list is wrapped too, and its kept entries are rewritten
      where they stand. Anything else is left as it was; a JSON text in
      particular, since parsing it makes a new value. */
  function DataAfter(data: Json, schemaType: string, result: Validation, parse: string -> Option<real>): (r: Json)
    ensures data.JStr? || SchemaOf(schemaType).None? || !(data.JObj? || data.JList?) ==> r == data
    ensures data.JObj? && SchemaOf(schemaType).Some? && HasKey(data.fields, TopKey(SchemaOf(schemaType).value)) ==>
      r == result.data
    ensures data.JList? && schemaType != "reranking" ==> r == data
  {
    if data.JStr? || SchemaOf(schemaType).None? then data
    else
      var kind := SchemaOf(schemaType).value;
      if data.JObj? && HasKey(data.fields, TopKey(kind)) then result.data
      else if data.JObj? && kind == CvSchema then Get(result.data, "sections", data)
      else if data.JList? && kind == RerankingSchema then JList(RankedInPlace(data.items, parse))
      else data
  }

  /** Every repair that succeeds gives a dict. */
  lemma RepairGivesDict(kind: SchemaKind, data: Json, parse: string -> Option<real>)
    ensures Repair(kind, data, parse).Ok? ==> Repair(kind, data, parse).value.0.JObj?
  {
    if kind == RerankingSchema {
      RepairRerankingShape(data, parse);
    }
  }

  /** A single-attempt `validate_and_repair` that comes back invalid, on a
      value that is not a JSON text and with a known schema, failed
      validation, ran the schema's repair once, and failed validation
      again: its data and warnings are that repair's output, a dict. */
  lemma OneAttemptRepairedOnce(data: Json, schemaType: string,
                               loads: string -> Result<Json>, check: (SchemaKind, Json) -> Option<string>,
                               parse: string -> Option<real>)
    requires !data.JStr? && SchemaOf(schemaType).Some?
    requires ValidateAndRepair(data, schemaType, 1, loads, check, parse).Ok?
    requires !ValidateAndRepair(data, schemaType, 1, loads, check, parse).value.valid
    ensures var v := ValidateAndRepair(data, schemaType, 1, loads, check, parse).value;
      var kind := SchemaOf(schemaType).value;
      && check(kind, data).Some?
      && Repair(kind, data, parse) == Ok((v.data, v.warnings))
      && v.data.JObj?
      && check(kind, v.data) == Some(v.errors[0])
  {
    var kind := SchemaOf(schemaType).value;
    var msg := check(kind, data).value;
    var repair := RepairerOf(kind, parse);
    assert repair(data) == Repair(kind, data, parse);
    var (d, w) := repair(data).value;
    var m := check(kind, d).value;
    assert Rounds(repair, CheckerOf(kind, check), d, 0, m) == Ok(Validation(false, d, [m], [], false));
    assert w + [] == w;
    RepairGivesDict(kind, data, parse);
  }

  /** A single-attempt `validate_and_repair` on a value that is not a
      JSON text and fails validation, with a known schema, succeeds exactly
      as one repair does: with the repaired value and its warnings. */
  lemma OneAttemptValidates(data: Json, schemaType: string,
                            loads: string -> Result<Json>, check: (SchemaKind, Json) -> Option<string>,
                            parse: string -> Option<real>)
    requires !data.JStr? && SchemaOf(schemaType).Some? && check(SchemaOf(schemaType).value, data).Some?
    requires var again := Repair(SchemaOf(schemaType).value, data, parse);
      again.Ok? && check(SchemaOf(schemaType).value, again.value.0).None?
    ensures var again := Repair(SchemaOf(schemaType).value, data, parse);
      ValidateAndRepair(data, schemaType, 1, loads, check, parse) == Ok(Validation(true, again.value.0, [], again.value.1, true))
  {
    var kind := SchemaOf(schemaType).value;
    var repair := RepairerOf(kind, parse);
    assert repair(data) == Repair(kind, data, parse);
  }
}
