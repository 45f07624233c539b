/** The last step of the streamed matching route: the re-ranked entries are
    merged with the scores computed before re-ranking, each score is
    recomputed with the re-ranker's experience coefficient, the original
    file of each CV is located, and the results are sorted. Also the size
    of the re-ranked set and the legacy `project_id/timestamp` identifier. */
module MatchingRouter {
  import opened Wrappers
  import opened Text
  import opened JsonValue
  import opened Assoc
  import opened StableSort
  import opened MatchingCore
  import opened Pathname
  import opened MatchingEngine

  /** One evidence reference of a result. */
  datatype Evidence = Evidence(id: Json, kind: Json, ref: Json)

  /** The two evidence lists a result exposes. */
  datatype EvidenceMap = EvidenceMap(commentaire: Json, appreciation: Json)

  /** The two flag lists a result exposes. */
  datatype FlagLists = FlagLists(gappes: Json, overlaps: Json)

  /** One result of the route. */
  datatype MatchResult = MatchResult(
    cv: Json,
    scoreFinal: real,
    scoreBase: real,
    bonus: real,
    manquants: seq<string>,
    coefficient: Json,
    commentaire: Json,
    appreciation: Json,
    evidences: seq<Evidence>,
    evidenceMap: Option<EvidenceMap>,
    flags: Option<FlagLists>,
    originalCvUrl: Option<string>)

  function ResultScore(r: MatchResult): real {
    r.scoreFinal
  }

  // -------------------------------------------------------------- maps

  /** `{cv.get("cv"): cv for cv in scored_cvs}`: a later CV of the same
      name replaces an earlier one. */
  function ScoredMap(scored: seq<ScoredCv>): (m: seq<(Json, ScoredCv)>)
    ensures forall k :: HasKey(m, k) <==> exists i :: 0 <= i < |scored| && scored[i].cv == k
    decreases |scored|
  {
    if scored == [] then []
    else
      var last := scored[|scored| - 1];
      var m := Put(ScoredMap(scored[..|scored| - 1]), last.cv, last);
      assert forall k :: HasKey(m, k) <==> HasKey(ScoredMap(scored[..|scored| - 1]), k) || k == last.cv by {
        forall k ensures HasKey(m, k) <==> HasKey(ScoredMap(scored[..|scored| - 1]), k) || k == last.cv {
          LookupPut(ScoredMap(scored[..|scored| - 1]), last.cv, last, k);
        }
      }
      m
  }

  /** `{meta["filename"]: meta.get("file_path") for meta in cv_metas}`; a
      missing or null path is the empty string, which is just as falsy. */
  function MetaMap(metas: seq<(string, string)>): seq<(string, string)>
    decreases |metas|
  {
    if metas == [] then []
    else Put(MetaMap(metas[..|metas| - 1]), metas[|metas| - 1].0, metas[|metas| - 1].1)
  }

  /** `cv_meta_map[name]` when the key is present, else a falsy path. */
  function PathOf(meta: seq<(string, string)>, name: string): string {
    Lookup(meta, name).GetOr([])
  }

  // ---------------------------------------------------------- one entry

  /** The coefficient as the product sees it: numbers (and booleans) take
      part, anything else makes `float * x` raise. */
  function CoefficientValue(j: Json): Option<real> {
    match j
    case JBool(b) => Some(if b then 1.0 else 0.0)
    case JInt(i) => Some(i as real)
    case JFloat(r) => Some(r)
    case _ => None
  }

  /** The recomputed score: base x bonus x the raw coefficient, clamped to
      [0, 1]; the [1.0, 1.4] coefficient clamp is not applied here. */
  function RecomputedScore(orig: Option<ScoredCv>, coef: real): real {
    var base := if orig.Some? then orig.value.scoreBase else 0.0;
    var bonus := if orig.Some? then orig.value.bonus else 1.0;
    Clamp(base * bonus * coef, 0.0, 1.0)
  }

  /** The evidence list: only dict items, with default id, type and ref.
      A truthy non-list iterates to no dict (dict, string) or raises. */
  function Evidences(raw: Json): (r: Result<seq<Evidence>>)
    ensures raw.JList? ==> r.Ok? && |r.value| <= |raw.items|
  {
    var v := if Truthy(raw) then raw else JList([]);
    if v.JList? then
      var ds := DictItems(v.items);
      Ok(seq(|ds|, i requires 0 <= i < |ds| =>
        Evidence(Get(ds[i], "id", JStr("")), Get(ds[i], "type", JStr("section")), Get(ds[i], "ref", JStr("")))))
    else if v.JObj? || v.JStr? then Ok([])
    else Err("TypeError: object is not iterable")
  }

  /** `raw or {}` read as a dict: `None` for an empty value, the two named
      lists otherwise; a truthy non-dict has no `get`. */
  function EvidenceMapOf(raw: Json): Result<Option<EvidenceMap>> {
    if !Truthy(raw) then Ok(None)
    else if !raw.JObj? then Err("AttributeError: 'get'")
    else Ok(Some(EvidenceMap(Get(raw, "commentaire_scoring", JList([])), Get(raw, "appreciation_globale", JList([])))))
  }

  function FlagListsOf(raw: Json): Result<Option<FlagLists>> {
    if !Truthy(raw) then Ok(None)
    else if !raw.JObj? then Err("AttributeError: 'get'")
    else Ok(Some(FlagLists(Get(raw, "gappes", JList([])), Get(raw, "overlaps", JList([])))))
  }

  /** The path of a CV's original file: the exact name, then the name with
      `.json` appended when it lacks that ending, then the stem with `.json`
      when the name has a dot; a falsy path counts as a miss. */
  function OriginalPath(meta: seq<(string, string)>, name: string): string {
    var p1 := PathOf(meta, name);
    var p2 := if p1 == [] && !EndsWith(name, ".json") then PathOf(meta, name + ".json") else p1;
    if p2 == [] && '.' in name then PathOf(meta, Stem(name) + ".json") else p2
  }

  function OriginalUrl(meta: seq<(string, string)>, name: string): Option<string> {
    var p := OriginalPath(meta, name);
    if p != [] then Some("/api/v1/files/" + p) else None
  }

  /** The URL is given exactly when one of the three tries finds a path,
      and then it points at the first path found. */
  lemma OriginalUrlTries(meta: seq<(string, string)>, name: string)
    ensures var hit1 := PathOf(meta, name) != [];
      var hit2 := !EndsWith(name, ".json") && PathOf(meta, name + ".json") != [];
      var hit3 := '.' in name && PathOf(meta, Stem(name) + ".json") != [];
      && (OriginalUrl(meta, name).Some? <==> hit1 || hit2 || hit3)
      && (hit1 ==> OriginalUrl(meta, name) == Some("/api/v1/files/" + PathOf(meta, name)))
      && (!hit1 && hit2 ==> OriginalUrl(meta, name) == Some("/api/v1/files/" + PathOf(meta, name + ".json")))
      && (!hit1 && !hit2 && hit3 ==> OriginalUrl(meta, name) == Some("/api/v1/files/" + PathOf(meta, Stem(name) + ".json")))
  {
  }

  /** One iteration of the merge loop. */
  function MergeOne(r: RerankedCv, scoredMap: seq<(Json, ScoredCv)>, meta: seq<(string, string)>): Result<MatchResult> {
    if !Hashable(r.cv) then Err("TypeError: unhashable type")
    else
      var orig := Lookup(scoredMap, r.cv);
      match CoefficientValue(r.coefficient)
      case None => Err("TypeError: unsupported operand type(s) for *")
      case Some(coef) =>
        match Evidences(r.evidences)
        case Err(m) => Err(m)
        case Ok(evidences) =>
          match EvidenceMapOf(r.evidenceMap)
          case Err(m) => Err(m)
          case Ok(evidenceMap) =>
            match FlagListsOf(r.flagsRaw)
            case Err(m) => Err(m)
            case Ok(flags) =>
              if !r.cv.JStr? then Err("AttributeError: 'endswith'")
              else
                Ok(MatchResult(
                  r.cv,
                  RecomputedScore(orig, coef),
                  if orig.Some? then orig.value.scoreBase else 0.0,
                  if orig.Some? then orig.value.bonus else 1.0,
                  if orig.Some? then orig.value.manquants else [],
                  r.coefficient,
                  r.commentaire,
                  r.appreciation,
                  evidences,
                  evidenceMap,
                  flags,
                  OriginalUrl(meta, r.cv.s)))
  }

  /** A merged entry keeps the re-ranked name and coefficient; its score is
      `calculate_final_score` of the original base and bonus with the raw
      coefficient; a name the scoring step never saw scores 0; evidence map
      and flags are absent exactly when their raw value is empty. */
  lemma MergeOneProperties(r: RerankedCv, scoredMap: seq<(Json, ScoredCv)>, meta: seq<(string, string)>)
    requires MergeOne(r, scoredMap, meta).Ok?
    ensures var m := MergeOne(r, scoredMap, meta).value;
      var orig := Lookup(scoredMap, r.cv);
      && m.cv == r.cv && m.coefficient == r.coefficient
      && CoefficientValue(r.coefficient).Some?
      && m.scoreFinal == FinalScore(m.scoreBase, m.bonus, CoefficientValue(r.coefficient).value)
      && 0.0 <= m.scoreFinal <= 1.0
      && (orig.Some? ==> m.scoreBase == orig.value.scoreBase && m.bonus == orig.value.bonus && m.manquants == orig.value.manquants)
      && (orig.None? ==> m.scoreBase == 0.0 && m.bonus == 1.0 && m.scoreFinal == 0.0 && m.manquants == [])
      && (m.evidenceMap.None? <==> !Truthy(r.evidenceMap))
      && (m.flags.None? <==> !Truthy(r.flagsRaw))
      && r.cv.JStr? && m.originalCvUrl == OriginalUrl(meta, r.cv.s)
  {
    var orig := Lookup(scoredMap, r.cv);
    var coef := CoefficientValue(r.coefficient).value;
    var m := MatchResult(
      r.cv, RecomputedScore(orig, coef),
      if orig.Some? then orig.value.scoreBase else 0.0,
      if orig.Some? then orig.value.bonus else 1.0,
      if orig.Some? then orig.value.manquants else [],
      r.coefficient, r.commentaire, r.appreciation,
      Evidences(r.evidences).value, EvidenceMapOf(r.evidenceMap).value, FlagListsOf(r.flagsRaw).value,
      OriginalUrl(meta, r.cv.s));
    assert MergeOne(r, scoredMap, meta) == Ok(m);
    RecomputedScoreIsFinal(orig, coef);
  }

  /** The recomputed score is `calculate_final_score` of the original base
      and bonus, and 0 for a name never scored. */
  lemma RecomputedScoreIsFinal(orig: Option<ScoredCv>, coef: real)
    ensures orig.Some? ==> RecomputedScore(orig, coef) == FinalScore(orig.value.scoreBase, orig.value.bonus, coef)
    ensures orig.None? ==> RecomputedScore(orig, coef) == FinalScore(0.0, 1.0, coef) == 0.0
  {
    if orig.None? {
      assert 0.0 * 1.0 * coef == 0.0;
    }
  }

  /** A coefficient above the [1.0, 1.4] range is used as given. */
  lemma RawCoefficientExample(cv: ScoredCv)
    requires cv.scoreBase == 0.4 && cv.bonus == 1.0
    ensures RecomputedScore(Some(cv), 2.0) == 0.8
    ensures FinalScore(cv.scoreBase, cv.bonus, ValidateCoefficient(Some(2.0))) == 0.56
  {
  }

  /** Every evidence comes from a dict item of the raw list, in order,
      with the stated defaults. */
  lemma EvidencesFromDicts(raw: Json)
    requires raw.JList?
    ensures var ds := DictItems(raw.items);
      var e := Evidences(raw).value;
      && |e| == |ds|
      && forall i :: 0 <= i < |e| ==>
           && ds[i].JObj? && ds[i] in raw.items
           && e[i] == Evidence(Get(ds[i], "id", JStr("")), Get(ds[i], "type", JStr("section")), Get(ds[i], "ref", JStr("")))
  {
  }

  // ------------------------------------------------------------- merge

  function MergeStep(scoredMap: seq<(Json, ScoredCv)>, meta: seq<(string, string)>): RerankedCv -> Result<MatchResult> {
    r => MergeOne(r, scoredMap, meta)
  }

  /** The merged results, in re-ranking order, then stably sorted by the
      recomputed score, highest first. */
  function MergeSpec(reranked: seq<RerankedCv>, scored: seq<ScoredCv>, metas: seq<(string, string)>): Result<seq<MatchResult>> {
    var merged := MapAll(reranked, MergeStep(ScoredMap(scored), MetaMap(metas)));
    if merged.Err? then Err(merged.error) else Ok(SortDesc(merged.value, ResultScore, RealLess))
  }

  /** The merge loop of the streamed route, then `results.sort`. */
  method MergeResults(reranked: seq<RerankedCv>, scored: seq<ScoredCv>, metas: seq<(string, string)>)
    returns (r: Result<seq<MatchResult>>)
    ensures r == MergeSpec(reranked, scored, metas)
  {
    var scoredMap := ScoredMap(scored);
    var meta := MetaMap(metas);
    ghost var f := MergeStep(scoredMap, meta);
    var results: seq<MatchResult> := [];
    var i := 0;
    while i < |reranked|
      invariant 0 <= i <= |reranked|
      invariant MapAll(reranked[..i], f) == Ok(results)
    {
      MapAllStep(reranked, f, i);
      var one := MergeOne(reranked[i], scoredMap, meta);
      assert f(reranked[i]) == one;
      if one.Err? {
        MapAllErr(reranked, f, i + 1);
        return Err(one.error);
      }
      results := results + [one.value];
      i := i + 1;
    }
    assert reranked[..i] == reranked;
    results := SortDesc(results, ResultScore, RealLess);
    return Ok(results);
  }

  /** One result per re-ranked entry, duplicates included; the results are
      ordered by recomputed score, highest first, with equal scores in
      re-ranking order; each result is its entry's merge. */
  lemma MergeProperties(reranked: seq<RerankedCv>, scored: seq<ScoredCv>, metas: seq<(string, string)>)
    requires MergeSpec(reranked, scored, metas).Ok?
    ensures var merged := MapAll(reranked, MergeStep(ScoredMap(scored), MetaMap(metas)));
      var r := MergeSpec(reranked, scored, metas).value;
      && merged.Ok?
      && |r| == |reranked|
      && multiset(r) == multiset(merged.value)
      && (forall i :: 0 <= i < |reranked| ==> MergeOne(reranked[i], ScoredMap(scored), MetaMap(metas)) == Ok(merged.value[i]))
      && SortedDesc(r, ResultScore, RealLess)
      && (forall s :: WithKey(r, ResultScore, s) == WithKey(merged.value, ResultScore, s))
      && (forall x :: x in r ==> 0.0 <= x.scoreFinal <= 1.0)
  {
    var f := MergeStep(ScoredMap(scored), MetaMap(metas));
    var merged := MapAll(reranked, f);
    var r := MergeSpec(reranked, scored, metas).value;
    RealLessAsymmetric();
    SortDescSorted(merged.value, ResultScore, RealLess);
    forall s ensures WithKey(r, ResultScore, s) == WithKey(merged.value, ResultScore, s) {
      SortDescStable(merged.value, ResultScore, RealLess, s);
    }
    forall x | x in r ensures 0.0 <= x.scoreFinal <= 1.0 {
      assert x in multiset(merged.value);
      var i :| 0 <= i < |merged.value| && merged.value[i] == x;
      assert f(reranked[i]) == Ok(x);
      MergeOneProperties(reranked[i], ScoredMap(scored), MetaMap(metas));
    }
  }

  // ------------------------------------------------------------ stream

  /** The `top_n_rerank` query parameter must lie in 1..50; the re-rank
      size is then capped by the number of scored CVs. */
  function RerankSize(topNRerank: int, scoredCount: nat): (r: Result<nat>)
    ensures r.Ok? <==> 1 <= topNRerank <= 50
    ensures r.Ok? ==> r.value <= scoredCount && r.value <= 50
    ensures r.Ok? && scoredCount > 0 ==> r.value >= 1
  {
    if topNRerank < 1 || topNRerank > 50 then Err("422: top_n_rerank must lie in 1..50")
    else if topNRerank < scoredCount then Ok(topNRerank)
    else Ok(scoredCount)
  }

  /** The summary the `done` event carries. */
  datatype Done = Done(results: seq<MatchResult>, totalCvs: nat, filteredMustHave: nat, topReranked: nat)

  /** The end of the stream: with no CV left after filtering it stops with
      no result; otherwise it reports the merged results and the number of
      re-ranked entries. */
  function FinishStream(totalCvs: nat, filtered: nat, reranked: seq<RerankedCv>, scored: seq<ScoredCv>,
                        metas: seq<(string, string)>): (r: Result<Done>)
    ensures filtered == 0 ==> r == Ok(Done([], totalCvs, 0, 0))
    ensures filtered > 0 && r.Ok? ==> |r.value.results| == |reranked| == r.value.topReranked
  {
    if filtered == 0 then Ok(Done([], totalCvs, 0, 0))
    else
      var m := MergeSpec(reranked, scored, metas);
      if m.Err? then Err(m.error)
      else
        MergeProperties(reranked, scored, metas);
        Ok(Done(m.value, totalCvs, filtered, |reranked|))
  }

  // ------------------------------------------------------ legacy route

  /** `matching_id.split("/")` must give exactly the project and the
      timestamp; anything else is answered with status 400. */
  function LegacyMatchingId(matchingId: string): (r: Result<(string, string)>)
    ensures r.Ok? <==> Count(matchingId, '/') == 1
    ensures r.Ok? ==> r.value.0 + "/" + r.value.1 == matchingId && '/' !in r.value.0 && '/' !in r.value.1
  {
    var parts := Split(matchingId, '/');
    if |parts| != 2 then Err("400: matching_id must be project_id/timestamp")
    else
      JoinSplit(matchingId, '/');
      JoinTwo(parts);
      Ok((parts[0], parts[1]))
  }

  lemma JoinTwo(parts: seq<string>)
    requires |parts| == 2
    ensures Join(parts, '/') == parts[0] + "/" + parts[1]
  {
    assert parts[..1] == [parts[0]];
  }
}
