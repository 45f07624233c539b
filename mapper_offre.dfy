/** The job-offer mapper: whatever shape an offer arrives in, it leaves as
    `{"sections": {...}}` with the ten standard section keys. Offers that
    already have `sections` are normalised, offers from the offer parser
    (`titre_cv`, `resume_professionnel`) are renamed, and anything else is
    matched key by key against a table of aliases. */
module MapperOffre {
  import opened Wrappers
  import opened Text
  import opened JsonValue
  import opened Assoc
  import opened PyOps

  /** The ten keys of a standard `sections` record, in output order. */
  const SectionKeys: seq<string> := ["titre", "resume_professionnel", "competences_techniques",
    "competences_transversales", "langues", "experiences_professionnelles", "formations",
    "certifications", "projets", "mobilite"]

  /** The keys `validate_offre_schema` demands. */
  const RequiredKeys: seq<string> := ["titre", "competences_techniques", "competences_transversales",
    "langues", "experiences_professionnelles", "formations"]

  const ExperienceKeys: seq<string> := ["poste", "entreprise", "lieu", "date_debut", "date_fin", "duree", "missions"]

  const FormationKeys: seq<string> := ["diplome", "ecole", "annee_obtention", "niveau", "specialite"]

  /** `{"permis_conduire": False, "disponibilite_geographique": ""}`. */
  const MobiliteDefault: Json := JObj([("permis_conduire", JBool(false)), ("disponibilite_geographique", JStr(""))])

  /** The default of each section key: text for the title and summary, a
      list for the seven list sections, the mobility record last. */
  function SectionDefault(i: nat): Json {
    if i < 2 then JStr("") else if i < 9 then JList([]) else MobiliteDefault
  }

  /** A dict literal: `keys[i]` maps to `values[i]`. */
  function Zip(keys: seq<string>, values: seq<Json>): (r: Fields)
    requires |keys| == |values|
    ensures |r| == |keys| && Keys(r) == keys
    ensures forall i :: 0 <= i < |r| ==> r[i] == (keys[i], values[i])
  {
    seq(|keys|, i requires 0 <= i < |keys| => (keys[i], values[i]))
  }

  predicate Distinct(keys: seq<string>) {
    forall i, j :: 0 <= i < j < |keys| ==> keys[i] != keys[j]
  }

  /** In a dict literal with distinct keys each key finds its own value. */
  lemma {:induction false} LookupZip(keys: seq<string>, values: seq<Json>, i: nat)
    requires |keys| == |values| && Distinct(keys) && i < |keys|
    ensures Lookup(Zip(keys, values), keys[i]) == Some(values[i])
    decreases i
  {
    var d := Zip(keys, values);
    if i > 0 {
      assert d[1..] == Zip(keys[1..], values[1..]);
      LookupZip(keys[1..], values[1..], i - 1);
    }
  }

  /** `{"sections": {...}}` holding the ten section values in order. */
  function Offre(values: seq<Json>): (r: Json)
    requires |values| == 10
    ensures r.JObj? && Keys(r.fields) == ["sections"]
  {
    JObj([("sections", JObj(Zip(SectionKeys, values)))])
  }

  /** The shape every mapped offer has. */
  predicate IsStandardOffre(o: Json) {
    && o.JObj? && |o.fields| == 1 && o.fields[0].0 == "sections"
    && o.fields[0].1.JObj? && Keys(o.fields[0].1.fields) == SectionKeys
  }

  /** The values of a standard offer's sections, in key order. */
  function SectionValues(o: Json): (values: seq<Json>)
    requires IsStandardOffre(o)
    ensures |values| == 10 && o == Offre(values)
  {
    var fs := o.fields[0].1.fields;
    assert Zip(SectionKeys, Values(fs)) == fs;
    Values(fs)
  }

  // ------------------------------------------------------------ the three paths

  /** `_normalize_sections`: each of the ten keys read from the existing
      `sections` with its default; every other key, inside or outside
      `sections`, is dropped. */
  function NormalizeSections(offre: Json): (r: Result<Json>)
    ensures r.Ok? <==> offre.JObj? && HasKey(offre.fields, "sections") && Get(offre, "sections", JNull).JObj?
    ensures r.Ok? ==> r.value == Offre(seq(10, i requires 0 <= i < 10 => Get(Get(offre, "sections", JNull), SectionKeys[i], SectionDefault(i))))
  {
    match GetItem(offre, "sections")
    case Err(e) => Err(e)
    case Ok(sections) =>
      if !sections.JObj? then Err("AttributeError")
      else Ok(Offre(seq(10, i requires 0 <= i < 10 => Get(sections, SectionKeys[i], SectionDefault(i)))))
  }

  /** The offer-parser key read for each section key; the two history
      sections are also passed through their normaliser. */
  const ParserKeys: seq<string> := ["titre_cv", "resume_professionnel", "competences_techniques",
    "competences_transversales", "langues", "experiences_professionnelles", "formations",
    "certifications", "projets", "mobilite"]

  /** `_map_from_parser_offre_final`: the offer parser's keys renamed,
      experiences and formations normalised; `.get` needs a dict, and a
      history value that cannot be iterated raises. */
  function MapFromParserOffre(offre: Json): (r: Result<Json>)
    ensures !offre.JObj? ==> r == Err("AttributeError")
    ensures r.Ok? ==> exists exps, forms ::
      && NormalizeExperiences(Get(offre, "experiences_professionnelles", JList([]))) == Ok(exps)
      && NormalizeFormations(Get(offre, "formations", JList([]))) == Ok(forms)
      && r.value == Offre(seq(10, i requires 0 <= i < 10 =>
           if i == 5 then JList(exps) else if i == 6 then JList(forms) else Get(offre, ParserKeys[i], SectionDefault(i))))
  {
    if !offre.JObj? then Err("AttributeError")
    else
      match NormalizeExperiences(Get(offre, "experiences_professionnelles", JList([])))
      case Err(e) => Err(e)
      case Ok(exps) =>
        match NormalizeFormations(Get(offre, "formations", JList([])))
        case Err(e) => Err(e)
        case Ok(forms) =>
          Ok(Offre(seq(10, i requires 0 <= i < 10 =>
            if i == 5 then JList(exps) else if i == 6 then JList(forms) else Get(offre, ParserKeys[i], SectionDefault(i)))))
  }

  /** The alias table of `_map_generic_offre`: for each of the first nine
      section keys, the input keys tried in order. */
  const Aliases: seq<seq<string>> := [
    ["titre", "titre_cv", "intitule", "poste", "title"],
    ["resume_professionnel", "resume", "description", "profil"],
    ["competences_techniques", "skills", "technical_skills"],
    ["competences_transversales", "soft_skills"],
    ["langues", "languages"],
    ["experiences_professionnelles", "experiences", "experience"],
    ["formations", "education"],
    ["certifications", "certificats"],
    ["projets", "projects"]]

  /** The value under the first alias the dict holds. */
  function FirstAlias(fs: Fields, aliases: seq<string>): (r: Option<Json>)
    ensures r.None? <==> forall j :: 0 <= j < |aliases| ==> !HasKey(fs, aliases[j])
    ensures r.Some? ==> exists j :: (0 <= j < |aliases| && HasKey(fs, aliases[j]) && r == Lookup(fs, aliases[j])
      && forall k :: 0 <= k < j ==> !HasKey(fs, aliases[k]))
    decreases |aliases|
  {
    if aliases == [] then None
    else if HasKey(fs, aliases[0]) then Lookup(fs, aliases[0])
    else
      var r := FirstAlias(fs, aliases[1..]);
      assert forall j :: 1 <= j < |aliases| ==> aliases[1..][j - 1] == aliases[j];
      r
  }

  /** The sections the generic mapper builds from a dict. */
  function GenericSections(fs: Fields): (r: Fields)
    ensures Keys(r) == SectionKeys
  {
    Zip(SectionKeys, seq(10, i requires 0 <= i < 10 =>
      if i < 9 then FirstAlias(fs, Aliases[i]).GetOr(SectionDefault(i)) else Get(JObj(fs), "mobilite", MobiliteDefault)))
  }

  /** Whether `key in c` holds for some alias (lists and strings answer
      `in` too). */
  predicate SomeAliasIn(c: Json) {
    exists i, j :: 0 <= i < 9 && 0 <= j < |Aliases[i]| && In(Aliases[i][j], c) == Ok(true)
  }

  /** `_map_generic_offre`. On a dict every section is filled. Any value
      that is not a dict, a list or a string fails the first `in` test. A
      list or a string gets as far as the first alias it contains, and
      indexing it with a string raises; with none, `.get` is missing. */
  function MapGenericOffre(offre: Json): (r: Result<Json>)
    ensures offre.JObj? <==> r.Ok?
    ensures r.Ok? ==> r.value == JObj([("sections", JObj(GenericSections(offre.fields)))])
    ensures !(offre.JObj? || offre.JList? || offre.JStr?) ==> r == Err("TypeError")
    ensures offre.JList? || offre.JStr? ==>
      (r == Err("TypeError") <==> SomeAliasIn(offre)) && (r == Err("AttributeError") <==> !SomeAliasIn(offre))
  {
    if offre.JObj? then Ok(JObj([("sections", JObj(GenericSections(offre.fields)))]))
    else if In(Aliases[0][0], offre).Err? then Err("TypeError")
    else if SomeAliasIn(offre) then Err("TypeError")
    else Err("AttributeError")
  }

  /** The inner loop of `_map_generic_offre`: the aliases tried in order
      until one is present. */
  method FindAlias(fs: Fields, aliases: seq<string>) returns (found: Option<Json>)
    ensures found == FirstAlias(fs, aliases)
  {
    var j := 0;
    while j < |aliases|
      invariant 0 <= j <= |aliases|
      invariant FirstAlias(fs, aliases) == FirstAlias(fs, aliases[j..])
    {
      if HasKey(fs, aliases[j]) {
        return Lookup(fs, aliases[j]);
      }
      assert aliases[j..][1..] == aliases[j + 1..];
      j := j + 1;
    }
    return None;
  }

  /** `_map_generic_offre`'s for/else loop: every section key is assigned
      once, in table order, so each assignment adds an entry. */
  method MapGenericSections(fs: Fields) returns (sections: Fields)
    ensures sections == GenericSections(fs)
  {
    sections := [];
    ghost var all := GenericSections(fs);
    GenericSectionsLength(fs);
    for k := 0 to 9
      invariant |sections| == k
      invariant forall i :: 0 <= i < k ==> sections[i] == all[i]
    {
      var found := FindAlias(fs, Aliases[k]);
      GenericSectionsEntry(fs, k);
      var entry := (SectionKeys[k], found.GetOr(SectionDefault(k)));
      assert entry == all[k];
      sections := sections + [entry];
    }
    GenericSectionsEntry(fs, 9);
    var last := ("mobilite", Get(JObj(fs), "mobilite", MobiliteDefault));
    assert last == all[9];
    sections := sections + [last];
    assert forall i :: 0 <= i < 10 ==> sections[i] == all[i];
  }

  lemma GenericSectionsLength(fs: Fields)
    ensures |GenericSections(fs)| == 10
  {
  }

  lemma GenericSectionsEntry(fs: Fields, k: nat)
    requires k < 10
    ensures k < |GenericSections(fs)|
    ensures GenericSections(fs)[k] ==
      (SectionKeys[k], if k < 9 then FirstAlias(fs, Aliases[k]).GetOr(SectionDefault(k)) else Get(JObj(fs), "mobilite", MobiliteDefault))
  {
  }

  // --------------------------------------------------------- history entries

  /** `_normalize_experiences` on one dict: seven keys, `duree` falling
      back to `durée`. */
  function ExperienceRecord(d: Fields): (r: Json)
    ensures r.JObj? && Keys(r.fields) == ExperienceKeys
  {
    var e := JObj(d);
    JObj(Zip(ExperienceKeys, [Get(e, "poste", JStr("")), Get(e, "entreprise", JStr("")), Get(e, "lieu", JStr("")),
      Get(e, "date_debut", JStr("")), Get(e, "date_fin", JStr("")), Get(e, "duree", Get(e, "durée", JStr(""))),
      Get(e, "missions", JList([]))]))
  }

  /** A bare string becomes the title of an otherwise empty experience. */
  function ExperienceOfText(s: string): (r: Json)
    ensures r.JObj? && Keys(r.fields) == ExperienceKeys
  {
    JObj(Zip(ExperienceKeys, [JStr(s), JStr(""), JStr(""), JStr(""), JStr(""), JStr(""), JList([])]))
  }

  function FormationRecord(d: Fields): (r: Json)
    ensures r.JObj? && Keys(r.fields) == FormationKeys
  {
    var f := JObj(d);
    JObj(Zip(FormationKeys, [Get(f, "diplome", JStr("")), Get(f, "ecole", JStr("")), Get(f, "annee_obtention", JStr("")),
      Get(f, "niveau", JStr("")), Get(f, "specialite", JStr(""))]))
  }

  function FormationOfText(s: string): (r: Json)
    ensures r.JObj? && Keys(r.fields) == FormationKeys
  {
    JObj(Zip(FormationKeys, [JStr(s), JStr(""), JStr(""), JStr(""), JStr("")]))
  }

  /** How many items are dicts or strings. */
  function Kept(xs: seq<Json>): nat
    decreases |xs|
  {
    if xs == [] then 0 else Kept(xs[..|xs| - 1]) + (if xs[|xs| - 1].JObj? || xs[|xs| - 1].JStr? then 1 else 0)
  }

  /** The loop of both normalisers: dicts through `ofDict`, strings through
      `ofText`, anything else skipped. */
  function NormalizeItems(xs: seq<Json>, ofDict: Fields -> Json, ofText: string -> Json): (r: seq<Json>)
    ensures |r| == Kept(xs)
    ensures forall y :: y in r ==> exists x :: x in xs && ((x.JObj? && y == ofDict(x.fields)) || (x.JStr? && y == ofText(x.s)))
    decreases |xs|
  {
    if xs == [] then []
    else
      var init := NormalizeItems(xs[..|xs| - 1], ofDict, ofText);
      var x := xs[|xs| - 1];
      assert forall z :: z in xs[..|xs| - 1] ==> z in xs;
      if x.JObj? then init + [ofDict(x.fields)]
      else if x.JStr? then init + [ofText(x.s)]
      else init
  }

  /** An empty (false) value gives `[]`; otherwise the value is iterated,
      which fails for numbers and booleans. */
  function NormalizeHistory(v: Json, ofDict: Fields -> Json, ofText: string -> Json): (r: Result<seq<Json>>)
    ensures !Truthy(v) ==> r == Ok([])
    ensures v.JList? ==> r == Ok(NormalizeItems(v.items, ofDict, ofText))
    ensures r.Err? <==> Truthy(v) && (v.JBool? || v.JInt? || v.JFloat?)
  {
    if !Truthy(v) then Ok([])
    else match Iter(v)
      case Err(e) => Err(e)
      case Ok(xs) => Ok(NormalizeItems(xs, ofDict, ofText))
  }

  /** `_normalize_experiences`. */
  function NormalizeExperiences(v: Json): Result<seq<Json>> {
    NormalizeHistory(v, ExperienceRecord, ExperienceOfText)
  }

  /** `_normalize_formations`. */
  function NormalizeFormations(v: Json): Result<seq<Json>> {
    NormalizeHistory(v, FormationRecord, FormationOfText)
  }

  /** The normalisers' loop, appending one record per dict or string. */
  method NormalizeItemsLoop(xs: seq<Json>, ofDict: Fields -> Json, ofText: string -> Json) returns (normalized: seq<Json>)
    ensures normalized == NormalizeItems(xs, ofDict, ofText)
  {
    normalized := [];
    for i := 0 to |xs|
      invariant normalized == NormalizeItems(xs[..i], ofDict, ofText)
    {
      assert xs[..i + 1][..i] == xs[..i];
      var x := xs[i];
      if x.JObj? {
        normalized := normalized + [ofDict(x.fields)];
      } else if x.JStr? {
        normalized := normalized + [ofText(x.s)];
      }
    }
    assert xs[..|xs|] == xs;
  }

  /** A dict's `duree` falls back to its `durée`, then to "". */
  lemma ExperienceDuree(d: Fields)
    ensures Lookup(ExperienceRecord(d).fields, "duree") ==
      Some(if HasKey(d, "duree") then Lookup(d, "duree").value else if HasKey(d, "durée") then Lookup(d, "durée").value else JStr(""))
  {
    var e := JObj(d);
    var values := [Get(e, "poste", JStr("")), Get(e, "entreprise", JStr("")), Get(e, "lieu", JStr("")),
      Get(e, "date_debut", JStr("")), Get(e, "date_fin", JStr("")), Get(e, "duree", Get(e, "durée", JStr(""))),
      Get(e, "missions", JList([]))];
    assert ExperienceRecord(d).fields == Zip(ExperienceKeys, values);
    ExperienceKeysDistinct();
    LookupZip(ExperienceKeys, values, 5);
  }

  lemma ExperienceKeysDistinct()
    ensures Distinct(ExperienceKeys)
  {
    forall i, j | 0 <= i < j < |ExperienceKeys| ensures ExperienceKeys[i] != ExperienceKeys[j] {
      assert ExperienceKeys[3][5] != ExperienceKeys[4][5] && ExperienceKeys[3][1] != ExperienceKeys[5][1];
    }
  }

  // ---------------------------------------------------------------- dispatch

  /** `map_offre_to_sections`. `key in offre` raises for a value that is
      not a container; a list or a string that passes the tests fails
      further on. */
  function MapOffreToSections(offre: Json): (r: Result<Json>)
    ensures !(offre.JObj? || offre.JList? || offre.JStr?) ==> r == Err("TypeError")
  {
    match In("sections", offre)
    case Err(e) => Err(e)
    case Ok(hasSections) =>
      if hasSections then NormalizeSections(offre)
      else if In("titre_cv", offre) == Ok(true) || In("resume_professionnel", offre) == Ok(true) then MapFromParserOffre(offre)
      else MapGenericOffre(offre)
  }

  /** Which path a dict takes: `sections` first, then the offer parser's
      keys, then the alias table. */
  lemma MapOffreDispatch(fs: Fields)
    ensures HasKey(fs, "sections") ==> MapOffreToSections(JObj(fs)) == NormalizeSections(JObj(fs))
    ensures !HasKey(fs, "sections") && (HasKey(fs, "titre_cv") || HasKey(fs, "resume_professionnel")) ==>
      MapOffreToSections(JObj(fs)) == MapFromParserOffre(JObj(fs))
    ensures !HasKey(fs, "sections") && !HasKey(fs, "titre_cv") && !HasKey(fs, "resume_professionnel") ==>
      MapOffreToSections(JObj(fs)) == Ok(JObj([("sections", JObj(GenericSections(fs)))]))
  {
  }

  /** Every mapped offer is `{"sections": {...}}` with exactly the ten
      section keys, in order. */
  lemma MapOffreStandard(offre: Json)
    requires MapOffreToSections(offre).Ok?
    ensures IsStandardOffre(MapOffreToSections(offre).value)
  {
    var r := MapOffreToSections(offre);
    if In("sections", offre) == Ok(true) {
      assert r == NormalizeSections(offre);
      NormalizeSectionsStandard(offre);
    } else if In("titre_cv", offre) == Ok(true) || In("resume_professionnel", offre) == Ok(true) {
      assert r == MapFromParserOffre(offre);
      MapFromParserStandard(offre);
    } else {
      assert r == MapGenericOffre(offre);
      assert Keys(GenericSections(offre.fields)) == SectionKeys;
    }
  }

  lemma NormalizeSectionsStandard(offre: Json)
    requires NormalizeSections(offre).Ok?
    ensures IsStandardOffre(NormalizeSections(offre).value)
  {
    var sections := Get(offre, "sections", JNull);
    OffreStandard(seq(10, i requires 0 <= i < 10 => Get(sections, SectionKeys[i], SectionDefault(i))));
  }

  lemma MapFromParserStandard(offre: Json)
    requires MapFromParserOffre(offre).Ok?
    ensures IsStandardOffre(MapFromParserOffre(offre).value)
  {
    var exps, forms :|
      && NormalizeExperiences(Get(offre, "experiences_professionnelles", JList([]))) == Ok(exps)
      && NormalizeFormations(Get(offre, "formations", JList([]))) == Ok(forms)
      && MapFromParserOffre(offre).value == Offre(seq(10, i requires 0 <= i < 10 =>
           if i == 5 then JList(exps) else if i == 6 then JList(forms) else Get(offre, ParserKeys[i], SectionDefault(i))));
    OffreStandard(seq(10, i requires 0 <= i < 10 =>
      if i == 5 then JList(exps) else if i == 6 then JList(forms) else Get(offre, ParserKeys[i], SectionDefault(i))));
  }

  /** Ten values under the ten section keys make a standard offer. */
  lemma OffreStandard(values: seq<Json>)
    requires |values| == 10
    ensures IsStandardOffre(Offre(values))
  {
    assert Keys(Zip(SectionKeys, values)) == SectionKeys;
  }

  /** `validate_offre_schema`'s `all(key in sections ...)`: stops at the
      first missing key; `in` raises on a value that is not a container. */
  function AllIn(keys: seq<string>, sections: Json): (r: Result<bool>)
    ensures keys != [] && !(sections.JObj? || sections.JList? || sections.JStr?) ==> r == Err("TypeError")
    ensures r == Ok(true) <==> forall k :: 0 <= k < |keys| ==> In(keys[k], sections) == Ok(true)
    decreases |keys|
  {
    if keys == [] then Ok(true)
    else match In(keys[0], sections)
      case Err(e) => Err(e)
      case Ok(b) =>
        if !b then Ok(false)
        else
          var r := AllIn(keys[1..], sections);
          assert forall k :: 1 <= k < |keys| ==> keys[1..][k - 1] == keys[k];
          r
  }

  /** `validate_offre_schema`. */
  function ValidateOffreSchema(offre: Json): (r: Result<bool>)
    ensures offre.JObj? ==> r.Ok? || (HasKey(offre.fields, "sections") && r == Err("TypeError"))
    ensures offre.JObj? ==> (r == Ok(true) <==>
      HasKey(offre.fields, "sections") && forall k :: 0 <= k < |RequiredKeys| ==> In(RequiredKeys[k], Get(offre, "sections", JNull)) == Ok(true))
  {
    match In("sections", offre)
    case Err(e) => Err(e)
    case Ok(has) =>
      if !has then Ok(false)
      else match GetItem(offre, "sections")
        case Err(e) => Err(e)
        case Ok(sections) => AllIn(RequiredKeys, sections)
  }

  lemma SectionKeysDistinct()
    ensures Distinct(SectionKeys)
  {
  }

  /** A standard offer's sections answer each of their keys with the value
      they were built from. */
  lemma OffreLookup(values: seq<Json>, i: nat)
    requires |values| == 10 && i < 10
    ensures Get(Get(Offre(values), "sections", JNull), SectionKeys[i], SectionDefault(i)) == values[i]
    ensures HasKey(Get(Offre(values), "sections", JNull).fields, SectionKeys[i])
  {
    SectionKeysDistinct();
    LookupZip(SectionKeys, values, i);
  }

  /** Every mapped offer passes `validate_offre_schema`. */
  lemma MapOffreValid(offre: Json)
    requires MapOffreToSections(offre).Ok?
    ensures ValidateOffreSchema(MapOffreToSections(offre).value) == Ok(true)
  {
    MapOffreStandard(offre);
    var values := SectionValues(MapOffreToSections(offre).value);
    StandardOffreValid(values);
  }

  /** Every standard offer passes `validate_offre_schema`. */
  lemma StandardOffreValid(values: seq<Json>)
    requires |values| == 10
    ensures ValidateOffreSchema(Offre(values)) == Ok(true)
  {
    var sections := Get(Offre(values), "sections", JNull);
    forall k | 0 <= k < |RequiredKeys| ensures In(RequiredKeys[k], sections) == Ok(true) {
      var i := if k == 0 then 0 else k + 1;
      assert RequiredKeys[k] == SectionKeys[i];
      OffreLookup(values, i);
    }
  }

  /** Mapping a standard offer again gives it back unchanged. */
  lemma StandardOffreFixed(values: seq<Json>)
    requires |values| == 10
    ensures MapOffreToSections(Offre(values)) == Ok(Offre(values))
  {
    var o := Offre(values);
    var sections := Get(o, "sections", JNull);
    forall i | 0 <= i < 10 ensures Get(sections, SectionKeys[i], SectionDefault(i)) == values[i] {
      OffreLookup(values, i);
    }
    assert seq(10, i requires 0 <= i < 10 => Get(sections, SectionKeys[i], SectionDefault(i))) == values;
  }

  /** `map_offre_to_sections` is idempotent on its own outputs. */
  lemma MapOffreIdempotent(offre: Json)
    requires MapOffreToSections(offre).Ok?
    ensures MapOffreToSections(MapOffreToSections(offre).value) == MapOffreToSections(offre)
  {
    MapOffreStandard(offre);
    var values := SectionValues(MapOffreToSections(offre).value);
    StandardOffreFixed(values);
  }
}
