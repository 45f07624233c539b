/** The scoring formulas and text helpers of the matching core: text
    cleaning, the nice-have malus, the final score, the experience
    coefficient clamp, CV and offer flattening, and the result record. */
module MatchingCore {
  import opened Wrappers
  import opened Text
  import opened JsonValue
  import opened Assoc
  import opened Models

  // ---------------------------------------------------------------- text

  /** `clean_text`: lower-case, U+00A0 to space, strip, collapse whitespace runs. */
  function CleanText(text: string): (r: string)
    ensures text == [] ==> r == []
    ensures IsClean(r)
  {
    if text == [] then []
    else
      var b := Strip(ReplaceChar(LowerStr(text), '\U{00A0}', ' '));
      StrippedLower(text);
      CollapseIsClean(b);
      CollapseSpaces(b)
  }

  /** A cleaned text: lower-case, free of U+00A0, stripped, and with every
      whitespace run reduced to one space. */
  predicate IsClean(r: string) {
    && (forall i :: 0 <= i < |r| ==> Lower(r[i]) == r[i])
    && (forall i :: 0 <= i < |r| ==> r[i] != '\U{00A0}')
    && (forall i :: 0 <= i < |r| && IsSpace(r[i]) ==> r[i] == ' ')
    && (r == [] || (!IsSpace(r[0]) && !IsSpace(r[|r| - 1])))
    && NoAdjacent(r, IsSpace)
  }

  predicate IsLowerNotNbsp(c: char) {
    Lower(c) == c && c != '\U{00A0}' && (IsSpace(c) ==> c == ' ')
  }

  /** What strip leaves of the lower-cased text: its non-space characters
      are lower-case and are not U+00A0. */
  lemma StrippedLower(text: string)
    ensures var b := Strip(ReplaceChar(LowerStr(text), '\U{00A0}', ' '));
      forall i :: 0 <= i < |b| && !IsSpace(b[i]) ==> IsLowerNotNbsp(b[i])
  {
    var a := ReplaceChar(LowerStr(text), '\U{00A0}', ' ');
    var b := Strip(a);
    forall i | 0 <= i < |b| && !IsSpace(b[i]) ensures IsLowerNotNbsp(b[i]) {
      assert b[i] in a;
      LoweredChar(text, b[i]);
    }
  }

  lemma LoweredChar(text: string, c: char)
    requires c in ReplaceChar(LowerStr(text), '\U{00A0}', ' ') && !IsSpace(c)
    ensures IsLowerNotNbsp(c)
  {
    var a := ReplaceChar(LowerStr(text), '\U{00A0}', ' ');
    var j :| 0 <= j < |a| && a[j] == c;
    assert LowerStr(text)[j] == Lower(text[j]);
  }

  lemma CollapseIsClean(b: string)
    requires forall i :: 0 <= i < |b| && !IsSpace(b[i]) ==> IsLowerNotNbsp(b[i])
    requires b == [] || (!IsSpace(b[0]) && !IsSpace(b[|b| - 1]))
    ensures IsClean(CollapseSpaces(b))
  {
    var r := CollapseSpaces(b);
    ReplaceRunsChars(b, IsSpace, ' ', IsLowerNotNbsp);
    assert forall i :: 0 <= i < |r| ==> IsLowerNotNbsp(r[i]);
    ReplaceRunsNoAdjacent(b, IsSpace, ' ');
    if b != [] {
      ReplaceRunsLast(b, IsSpace, ' ');
      assert r[0] == b[0];
    } else {
      assert r == [];
    }
  }

  /** A clean text is its own cleaning, so `clean_text` is idempotent. */
  lemma CleanTextFixesClean(r: string)
    requires IsClean(r)
    ensures CleanText(r) == r
  {
    if r != [] {
      LowerCleanFixed(r);
      ReplaceRunsFixed(r, IsSpace, ' ');
    }
  }

  /** Lower-casing and replacing U+00A0 leave a clean text as it is. */
  lemma LowerCleanFixed(r: string)
    requires forall i :: 0 <= i < |r| ==> Lower(r[i]) == r[i] && r[i] != '\U{00A0}'
    ensures ReplaceChar(LowerStr(r), '\U{00A0}', ' ') == r
  {
    assert LowerStr(r) == r;
  }

  lemma CleanTextIdempotent(text: string)
    ensures CleanText(CleanText(text)) == CleanText(text)
  {
    CleanTextFixesClean(CleanText(text));
  }

  // ------------------------------------------------------------- scoring

  /** Python's `max(lo, min(hi, x))`. */
  function Clamp(x: real, lo: real, hi: real): real {
    var m := if hi < x then hi else x;
    if m < lo then lo else m
  }

  function Pow(x: real, n: nat): real
    decreases n
  {
    if n == 0 then 1.0 else x * Pow(x, n - 1)
  }

  lemma {:induction false} PowUnit(x: real, n: nat)
    requires 0.0 <= x <= 1.0
    ensures 0.0 <= Pow(x, n) <= 1.0
    decreases n
  {
    if n > 0 {
      PowUnit(x, n - 1);
      var y := Pow(x, n - 1);
      assert 0.0 <= x * y by { assert 0.0 <= x && 0.0 <= y; }
      assert x * y <= y by { assert (1.0 - x) * y >= 0.0; }
    }
  }

  /** `calculate_nice_have_malus`: `factor ** n` clamped to [0, 1], or 1 when
      nothing is missing. */
  function NiceHaveMalus(n: int, factor: real): (m: real)
    ensures n <= 0 ==> m == 1.0
    ensures 0.0 <= m <= 1.0
  {
    if n <= 0 then 1.0 else Clamp(Pow(factor, n), 0.0, 1.0)
  }

  /** With a factor in [0, 1] the clamp never bites: the malus is exactly
      `factor ** n`, and it never grows with the number of missing items. */
  lemma NiceHaveMalusIsPower(n: nat, factor: real)
    requires 0.0 <= factor <= 1.0
    ensures NiceHaveMalus(n, factor) == Pow(factor, n)
    ensures NiceHaveMalus(n + 1, factor) <= NiceHaveMalus(n, factor)
  {
    PowUnit(factor, n);
    PowUnit(factor, n + 1);
    assert Pow(factor, n + 1) == factor * Pow(factor, n);
    ScaleDown(factor, Pow(factor, n));
    assert NiceHaveMalus(n + 1, factor) == Pow(factor, n + 1);
    assert NiceHaveMalus(n, factor) == Pow(factor, n);
  }

  lemma ScaleDown(f: real, p: real)
    requires 0.0 <= f <= 1.0 && 0.0 <= p
    ensures f * p <= p
  {
    assert p - f * p == (1.0 - f) * p;
  }

  lemma NiceHaveMalusExample()
    ensures NiceHaveMalus(3, 0.95) == 0.857375
  {
    assert Pow(0.95, 3) == 0.95 * (0.95 * (0.95 * 1.0));
  }

  /** `calculate_final_score`: base x bonus x coefficient, clamped to [0, 1]. */
  function FinalScore(base: real, bonus: real, coef: real): (s: real)
    ensures 0.0 <= s <= 1.0
    ensures 0.0 <= base * bonus * coef <= 1.0 ==> s == base * bonus * coef
    ensures base * bonus * coef < 0.0 ==> s == 0.0
    ensures base * bonus * coef > 1.0 ==> s == 1.0
  {
    Clamp(base * bonus * coef, 0.0, 1.0)
  }

  /** `validate_coefficient_experience`; `None` is a value `float()` rejects. */
  function ValidateCoefficient(coef: Option<real>): (c: real)
    ensures 1.0 <= c <= 1.4
    ensures coef.Some? && 1.0 <= coef.value <= 1.4 ==> c == coef.value
    ensures coef.Some? && coef.value < 1.0 ==> c == 1.0
    ensures coef.Some? && coef.value > 1.4 ==> c == 1.4
    ensures coef.None? ==> c == 1.0
  {
    if coef.Some? then Clamp(coef.value, 1.0, 1.4) else 1.0
  }

  lemma ValidateCoefficientIdempotent(coef: Option<real>)
    ensures ValidateCoefficient(Some(ValidateCoefficient(coef))) == ValidateCoefficient(coef)
  {
  }

  // ---------------------------------------------------------- flattening

  function Opt(s: string): seq<Json> {
    if s != [] then [JStr(s)] else []
  }

  function ExperienceParts(e: Experience): seq<Json> {
    Opt(e.poste) + Opt(e.entreprise) + Strs(e.missions)
  }

  function ExperiencesParts(es: seq<Experience>): seq<Json>
    decreases |es|
  {
    if es == [] then [] else ExperiencesParts(es[..|es| - 1]) + ExperienceParts(es[|es| - 1])
  }

  /** The non-empty string values of a dictionary, in key order; nothing for a non-dictionary. */
  function StringValues(fs: Fields): seq<Json>
    decreases |fs|
  {
    if fs == [] then [] else StringValues(fs[..|fs| - 1]) + (if IsNonEmptyStr(fs[|fs| - 1].1) then [fs[|fs| - 1].1] else [])
  }

  function DictStrings(j: Json): seq<Json> {
    if j.JObj? then StringValues(j.fields) else []
  }

  function AllDictStrings(js: seq<Json>): seq<Json>
    decreases |js|
  {
    if js == [] then [] else AllDictStrings(js[..|js| - 1]) + DictStrings(js[|js| - 1])
  }

  /** The parts `flatten_cv_sections` emits, in order. */
  function CvParts(cv: Cv): seq<Json> {
    Opt(cv.titre) + Opt(cv.resumeProfessionnel)
    + Strs(cv.competencesTechniques) + Strs(cv.competencesTransversales) + Strs(cv.langues)
    + ExperiencesParts(cv.experiences)
    + AllDictStrings(cv.formations)
    + cv.certifications + cv.projets
  }

  /** `flatten_cv_sections`. */
  method FlattenCvSections(cv: Cv) returns (parts: seq<Json>)
    ensures parts == CvParts(cv)
  {
    parts := [];
    if cv.titre != [] {
      parts := parts + [JStr(cv.titre)];
    }
    if cv.resumeProfessionnel != [] {
      parts := parts + [JStr(cv.resumeProfessionnel)];
    }
    assert parts == Opt(cv.titre) + Opt(cv.resumeProfessionnel);
    parts := parts + Strs(cv.competencesTechniques);
    parts := parts + Strs(cv.competencesTransversales);
    parts := parts + Strs(cv.langues);
    parts := AppendExperiences(parts, cv.experiences);
    parts := AppendDictStrings(parts, cv.formations);
    parts := parts + cv.certifications;
    parts := parts + cv.projets;
  }

  /** The experience loop of `flatten_cv_sections`. */
  method AppendExperiences(acc: seq<Json>, es: seq<Experience>) returns (parts: seq<Json>)
    ensures parts == acc + ExperiencesParts(es)
  {
    parts := acc;
    var i := 0;
    while i < |es|
      invariant 0 <= i <= |es|
      invariant parts == acc + ExperiencesParts(es[..i])
    {
      ghost var before := parts;
      parts := AppendExperience(parts, es[i]);
      ExperiencesPartsStep(acc, before, parts, es, i);
      i := i + 1;
    }
    assert es[..i] == es;
  }

  lemma ExperiencesPartsStep(acc: seq<Json>, before: seq<Json>, parts: seq<Json>, es: seq<Experience>, i: nat)
    requires i < |es|
    requires before == acc + ExperiencesParts(es[..i]) && parts == before + ExperienceParts(es[i])
    ensures parts == acc + ExperiencesParts(es[..i + 1])
  {
    assert es[..i + 1][..i] == es[..i];
  }

  /** One experience's parts: its post and company when not empty, then
      its missions. */
  method AppendExperience(acc: seq<Json>, exp: Experience) returns (parts: seq<Json>)
    ensures parts == acc + ExperienceParts(exp)
  {
    parts := acc;
    if exp.poste != [] {
      parts := parts + [JStr(exp.poste)];
    }
    assert parts == acc + Opt(exp.poste);
    if exp.entreprise != [] {
      parts := parts + [JStr(exp.entreprise)];
    }
    assert parts == acc + Opt(exp.poste) + Opt(exp.entreprise);
    parts := parts + Strs(exp.missions);
  }

  /** Appends the non-empty string values of every dictionary in `items`
      (the formation loop shared by both flatteners). */
  method AppendDictStrings(acc: seq<Json>, items: seq<Json>) returns (parts: seq<Json>)
    ensures parts == acc + AllDictStrings(items)
  {
    parts := acc;
    var i := 0;
    while i < |items|
      invariant 0 <= i <= |items|
      invariant parts == acc + AllDictStrings(items[..i])
    {
      var item := items[i];
      ghost var before := parts;
      if item.JObj? {
        parts := AppendStringValues(parts, item.fields);
      }
      assert parts == before + DictStrings(item);
      assert items[..i + 1][..i] == items[..i];
      assert AllDictStrings(items[..i + 1]) == AllDictStrings(items[..i]) + DictStrings(item);
      i := i + 1;
    }
    assert items[..i] == items;
  }

  /** `for key, value in d.items(): if value and isinstance(value, str): parts.append(value)`. */
  method AppendStringValues(acc: seq<Json>, fs: Fields) returns (parts: seq<Json>)
    ensures parts == acc + StringValues(fs)
  {
    parts := acc;
    var k := 0;
    while k < |fs|
      invariant 0 <= k <= |fs|
      invariant parts == acc + StringValues(fs[..k])
    {
      var value := fs[k].1;
      ghost var before := parts;
      if value.JStr? && value.s != [] {
        parts := parts + [value];
      }
      assert fs[..k + 1][..k] == fs[..k];
      assert StringValues(fs[..k + 1]) == StringValues(fs[..k]) + (if IsNonEmptyStr(value) then [value] else []);
      k := k + 1;
    }
    assert fs[..k] == fs;
  }

  lemma {:induction false} StringValuesMember(fs: Fields, x: Json)
    ensures x in StringValues(fs) <==> IsNonEmptyStr(x) && x in Values(fs)
    decreases |fs|
  {
    if fs != [] {
      StringValuesMember(fs[..|fs| - 1], x);
      assert Values(fs) == Values(fs[..|fs| - 1]) + [fs[|fs| - 1].1];
    }
  }

  /** A value `x` comes out of the formation dictionaries exactly when it is a
      non-empty string value of one of them. */
  lemma {:induction false} AllDictStringsMember(js: seq<Json>, x: Json)
    ensures x in AllDictStrings(js) <==>
      IsNonEmptyStr(x) && exists k :: 0 <= k < |js| && js[k].JObj? && x in Values(js[k].fields)
    decreases |js|
  {
    if js != [] {
      var init := js[..|js| - 1];
      AllDictStringsMember(init, x);
      if js[|js| - 1].JObj? {
        StringValuesMember(js[|js| - 1].fields, x);
      }
      if IsNonEmptyStr(x) && (exists k :: 0 <= k < |js| && js[k].JObj? && x in Values(js[k].fields)) {
        var k :| 0 <= k < |js| && js[k].JObj? && x in Values(js[k].fields);
        if k < |js| - 1 {
          assert init[k] == js[k];
        }
      }
      if (exists k :: 0 <= k < |init| && init[k].JObj? && x in Values(init[k].fields)) {
        var k :| 0 <= k < |init| && init[k].JObj? && x in Values(init[k].fields);
        assert js[k] == init[k];
      }
    }
  }

  lemma {:induction false} ExperiencesPartsMember(es: seq<Experience>, x: Json)
    ensures x in ExperiencesParts(es) <==> exists k :: 0 <= k < |es| && x in ExperienceParts(es[k])
    decreases |es|
  {
    if es != [] {
      var init := es[..|es| - 1];
      var last := es[|es| - 1];
      ExperiencesPartsMember(init, x);
      assert ExperiencesParts(es) == ExperiencesParts(init) + ExperienceParts(last);
      if x in ExperiencesParts(es) {
        if x in ExperienceParts(last) {
          assert 0 <= |es| - 1 < |es| && x in ExperienceParts(es[|es| - 1]);
        } else {
          assert x in ExperiencesParts(init);
          var k :| 0 <= k < |init| && x in ExperienceParts(init[k]);
          assert es[k] == init[k];
        }
      }
      if exists k :: 0 <= k < |es| && x in ExperienceParts(es[k]) {
        var k :| 0 <= k < |es| && x in ExperienceParts(es[k]);
        if k < |es| - 1 {
          assert init[k] == es[k];
          assert x in ExperiencesParts(init);
        }
      }
    }
  }

  /** A string occurs among the flattened parts of a CV exactly when it is a
      non-empty title or summary, a skill or language, a non-empty job title
      or employer, a mission, a non-empty string value of a formation, or a
      certification or project entry. */
  lemma CvPartsStringMember(cv: Cv, s: string)
    ensures JStr(s) in CvParts(cv) <==>
      || (s != [] && (s == cv.titre || s == cv.resumeProfessionnel))
      || s in cv.competencesTechniques || s in cv.competencesTransversales || s in cv.langues
      || (exists k :: 0 <= k < |cv.experiences| &&
            ((s != [] && (s == cv.experiences[k].poste || s == cv.experiences[k].entreprise))
             || s in cv.experiences[k].missions))
      || (s != [] && exists k :: 0 <= k < |cv.formations| && cv.formations[k].JObj? && JStr(s) in Values(cv.formations[k].fields))
      || JStr(s) in cv.certifications || JStr(s) in cv.projets
  {
    var x := JStr(s);
    var es := cv.experiences;
    ExperiencesPartsMember(es, x);
    forall k | 0 <= k < |es|
      ensures x in ExperienceParts(es[k]) <==> (s != [] && (s == es[k].poste || s == es[k].entreprise)) || s in es[k].missions
    {
      ExperiencePartsMember(es[k], s);
    }
    AllDictStringsMember(cv.formations, x);
    StrsMember(cv.competencesTechniques, s);
    StrsMember(cv.competencesTransversales, s);
    StrsMember(cv.langues, s);
    OptMember(cv.titre, s);
    OptMember(cv.resumeProfessionnel, s);
  }

  lemma OptMember(t: string, s: string)
    ensures JStr(s) in Opt(t) <==> s != [] && s == t
  {
  }

  /** The text parts of one experience. */
  lemma ExperiencePartsMember(e: Experience, s: string)
    ensures JStr(s) in ExperienceParts(e) <==> (s != [] && (s == e.poste || s == e.entreprise)) || s in e.missions
  {
    StrsMember(e.missions, s);
  }

  lemma StrsMember(xs: seq<string>, s: string)
    ensures JStr(s) in Strs(xs) <==> s in xs
  {
    if s in xs {
      var k :| 0 <= k < |xs| && xs[k] == s;
      assert Strs(xs)[k] == JStr(s);
    }
  }

  /** Certification and project entries are dictionaries, and they are
      emitted as they are: the flattened list can hold non-string parts. */
  lemma CvPartsMayHoldDicts(cv: Cv)
    requires cv.certifications != [] && cv.certifications[0].JObj?
    ensures exists p :: p in CvParts(cv) && !p.JStr?
  {
    var head := Opt(cv.titre) + Opt(cv.resumeProfessionnel)
      + Strs(cv.competencesTechniques) + Strs(cv.competencesTransversales) + Strs(cv.langues)
      + ExperiencesParts(cv.experiences) + AllDictStrings(cv.formations);
    assert CvParts(cv) == head + cv.certifications + cv.projets;
    assert CvParts(cv)[|head|] == cv.certifications[0];
    assert CvParts(cv)[|head|] in CvParts(cv);
  }

  /** The parts `flatten_offre_sections` emits, in order. */
  function OffreParts(s: OffreSection): seq<Json> {
    Opt(s.titre) + Opt(s.resumeProfessionnel)
    + Strs(s.competencesTechniques) + Strs(s.competencesTransversales) + Strs(s.langues)
    + AllDictStrings(s.experiences)
    + AllDictStrings(s.formations)
    + Strs(s.certifications) + Strs(s.projets)
  }

  /** `flatten_offre_sections`. */
  method FlattenOffreSections(s: OffreSection) returns (parts: seq<Json>)
    ensures parts == OffreParts(s)
  {
    parts := [];
    if s.titre != [] {
      parts := parts + [JStr(s.titre)];
    }
    assert parts == Opt(s.titre);
    if s.resumeProfessionnel != [] {
      parts := parts + [JStr(s.resumeProfessionnel)];
    }
    assert parts == Opt(s.titre) + Opt(s.resumeProfessionnel);
    parts := parts + Strs(s.competencesTechniques);
    parts := parts + Strs(s.competencesTransversales);
    parts := parts + Strs(s.langues);
    parts := AppendDictStrings(parts, s.experiences);
    parts := AppendDictStrings(parts, s.formations);
    parts := parts + Strs(s.certifications);
    parts := parts + Strs(s.projets);
  }

  /** Every part of an offer is a string, and the parts taken from the
      experience and formation dictionaries are exactly their non-empty
      string values. */
  lemma OffrePartsAreStrings(s: OffreSection)
    ensures forall p :: p in OffreParts(s) ==> p.JStr?
    ensures forall x :: x in AllDictStrings(s.experiences) <==>
      IsNonEmptyStr(x) && exists k :: 0 <= k < |s.experiences| && s.experiences[k].JObj? && x in Values(s.experiences[k].fields)
  {
    AllDictStringsAreStrings(s.experiences);
    AllDictStringsAreStrings(s.formations);
    forall x ensures x in AllDictStrings(s.experiences) <==>
      IsNonEmptyStr(x) && exists k :: 0 <= k < |s.experiences| && s.experiences[k].JObj? && x in Values(s.experiences[k].fields)
    {
      AllDictStringsMember(s.experiences, x);
    }
  }

  lemma AllDictStringsAreStrings(js: seq<Json>)
    ensures forall x :: x in AllDictStrings(js) ==> x.JStr?
  {
    forall x | x in AllDictStrings(js) ensures x.JStr? {
      AllDictStringsMember(js, x);
    }
  }

  // --------------------------------------------------------------- result

  /** `build_matching_result`. The result record rejects a base score
      outside [0, 1] (its field bounds are checked before its clamping
      validators run), which is the `Err` case. */
  function BuildMatchingResult(cv: Cv, scoreBase: real, missing: seq<string>, factor: real,
                               coef: Option<real>, commentaire: Option<string>,
                               appreciation: Option<string>): (r: Result<ResultatMatching>)
    ensures r.Ok? <==> 0.0 <= scoreBase <= 1.0
    ensures r.Ok? ==>
      && ValidResultat(r.value)
      && r.value.cv == cv.cv
      && r.value.scoreBase == scoreBase
      && r.value.bonusNiceHave == NiceHaveMalus(|missing|, factor)
      && r.value.coefficientExperience == ValidateCoefficient(coef)
      && r.value.scoreFinal == FinalScore(scoreBase, r.value.bonusNiceHave, r.value.coefficientExperience)
      && r.value.niceHaveManquants == missing
  {
    var bonus := NiceHaveMalus(|missing|, factor);
    var c := ValidateCoefficient(coef);
    var final := FinalScore(scoreBase, bonus, c);
    if 0.0 <= scoreBase <= 1.0 then
      Ok(ResultatMatching(cv.cv, final, scoreBase, bonus, c, missing, commentaire, appreciation))
    else
      Err("score_base: value is not within [0, 1]")
  }
}
