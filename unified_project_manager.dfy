/** The project manager of the enterprise layout: project identifiers made
    from project names, the project directory under its enterprise, the
    candidate counts shown in a project's matching history, and the choice
    of result file when one matching is loaded. Files are a parameter: the
    set of existing directories and, for each existing file, the outcome
    of reading it as JSON. */
module UnifiedProjectManager {
  import opened Wrappers
  import opened Text
  import opened JsonValue
  import opened Assoc
  import opened PyOps
  import opened StableSort

  // ---------------------------------------------------------- project ids

  /** The characters `[a-z0-9\s-]` that survive the first substitution. */
  predicate SlugKeep(c: char) { IsAsciiLower(c) || IsDigit(c) || IsSpace(c) || c == '-' }

  /** The characters a project identifier is made of. */
  predicate SlugChar(c: char) { IsAsciiLower(c) || IsDigit(c) || c == '-' }

  predicate IsHyphen(c: char) { c == '-' }

  const MaxSlugLength: nat := 50
  const FallbackSlug: string := "projet"

  /** The name lower-cased, cut down to `[a-z0-9\s-]`, with each whitespace
      run made one hyphen and the hyphens at both ends stripped. */
  function Slugify(nom: string): (r: string)
    ensures forall i :: 0 <= i < |r| ==> SlugChar(r[i])
    ensures r == [] || (r[0] != '-' && r[|r| - 1] != '-')
  {
    var kept := Filter(LowerStr(nom), SlugKeep);
    SlugKeptChars(kept);
    ReplaceRunsChars(kept, IsSpace, '-', SlugChar);
    var dashed := ReplaceRuns(kept, IsSpace, '-');
    SlugCharsStrip(dashed);
    StripBy(dashed, IsHyphen)
  }

  /** A kept character other than whitespace is an identifier character. */
  lemma SlugKeptChars(kept: string)
    requires forall c :: c in kept ==> SlugKeep(c)
    ensures forall i :: 0 <= i < |kept| && !IsSpace(kept[i]) ==> SlugChar(kept[i])
  {
    forall i | 0 <= i < |kept| && !IsSpace(kept[i]) ensures SlugChar(kept[i]) {
      assert kept[i] in kept;
    }
  }

  /** `_generate_project_id` as written: the stripped slug is cut to 50
      characters and an empty one falls back to `projet`. The result is
      never empty, never longer than 50, made of `[a-z0-9-]`, and does not
      start with a hyphen; it may end with one (see `TrailingHyphen`). */
  function GenerateProjectId(nom: string): (r: string)
    ensures r != [] && |r| <= MaxSlugLength
    ensures forall i :: 0 <= i < |r| ==> SlugChar(r[i])
    ensures r[0] != '-'
    ensures Slugify(nom) == [] ==> r == FallbackSlug
    ensures Slugify(nom) != [] ==> |r| <= |Slugify(nom)| && r == Slugify(nom)[..|r|]
  {
    var full := Slugify(nom);
    var slug := Prefix(full, MaxSlugLength);
    if slug == [] then
      FallbackSlugShape();
      FallbackSlug
    else
      SlugPrefix(full, slug);
      slug
  }

  /** A non-empty prefix of a slug is made of identifier characters and
      does not start with a hyphen. */
  lemma SlugPrefix(full: string, slug: string)
    requires forall i :: 0 <= i < |full| ==> SlugChar(full[i])
    requires full == [] || full[0] != '-'
    requires |slug| <= |full| && slug == full[..|slug|]
    ensures forall i :: 0 <= i < |slug| ==> SlugChar(slug[i])
    ensures slug == [] || slug[0] != '-'
  {
    forall i | 0 <= i < |slug| ensures SlugChar(slug[i]) {
      assert slug[i] == full[i];
    }
  }

  lemma FallbackSlugShape()
    ensures FallbackSlug != [] && |FallbackSlug| <= MaxSlugLength && FallbackSlug[0] != '-'
    ensures forall i :: 0 <= i < |FallbackSlug| ==> SlugChar(FallbackSlug[i])
  {
  }

  /** A name of 49 letters, a space and one more letter: the cut keeps the
      hyphen made from the space, and slugging the result again drops it. */
  lemma TrailingHyphen(w: string)
    requires |w| == 49 && forall i :: 0 <= i < |w| ==> IsAsciiLower(w[i])
    ensures GenerateProjectId(w + " b") == w + "-"
    ensures GenerateProjectId(GenerateProjectId(w + " b")) == w
  {
    SlugifySpaced(w);
    assert (w + "-b")[..50] == w + "-";
    SlugifyHyphenated(w);
  }

  lemma SlugifySpaced(w: string)
    requires |w| == 49 && forall i :: 0 <= i < |w| ==> IsAsciiLower(w[i])
    ensures Slugify(w + " b") == w + "-b"
  {
    var nom := w + " b";
    assert forall i :: 0 <= i < |nom| ==> SlugKeep(nom[i]) && !IsLatinUpper(nom[i]) by {
      forall i | 0 <= i < |nom| ensures SlugKeep(nom[i]) && !IsLatinUpper(nom[i]) {
        if i < 49 { assert nom[i] == w[i]; }
      }
    }
    assert LowerStr(nom) == nom;
    FilterAll(nom, SlugKeep);
    DashSpaced(w);
    var dashed := w + "-b";
    assert dashed[0] == w[0] && dashed[|dashed| - 1] == 'b';
    assert StripBy(dashed, IsHyphen) == dashed;
  }

  lemma DashSpaced(w: string)
    requires |w| == 49 && forall i :: 0 <= i < |w| ==> IsAsciiLower(w[i])
    ensures ReplaceRuns(w + " b", IsSpace, '-') == w + "-b"
  {
    var nom := w + " b";
    var target := w + "-b";
    forall i | 0 <= i < |nom| ensures !IsSpace(nom[i]) <==> i != 49 {
      if i < 49 { assert nom[i] == w[i]; }
    }
    assert NoAdjacent(nom, IsSpace);
    ReplaceRunsSingles(nom, IsSpace, '-');
    var dashed := ReplaceRuns(nom, IsSpace, '-');
    assert |dashed| == |target| == 51;
    forall i | 0 <= i < 51 ensures dashed[i] == target[i] {
      if i < 49 {
        assert nom[i] == w[i] && target[i] == w[i];
      } else if i == 49 {
        assert nom[i] == ' ' && target[i] == '-';
      } else {
        assert nom[i] == 'b' && target[i] == 'b';
      }
    }
  }

  lemma SlugifyHyphenated(w: string)
    requires |w| == 49 && forall i :: 0 <= i < |w| ==> IsAsciiLower(w[i])
    ensures Slugify(w + "-") == w
  {
    var once := w + "-";
    assert forall i :: 0 <= i < |once| ==> SlugKeep(once[i]) && !IsLatinUpper(once[i]) && !IsSpace(once[i]) by {
      forall i | 0 <= i < |once| ensures SlugKeep(once[i]) && !IsLatinUpper(once[i]) && !IsSpace(once[i]) {
        if i < 49 { assert once[i] == w[i]; }
      }
    }
    assert LowerStr(once) == once;
    FilterAll(once, SlugKeep);
    ReplaceRunsFixed(once, IsSpace, '-');
    StripTrailingHyphen(w);
  }

  lemma StripTrailingHyphen(w: string)
    requires w != [] && w[0] != '-' && w[|w| - 1] != '-'
    ensures StripBy(w + "-", IsHyphen) == w
  {
    var s := w + "-";
    var r := StripBy(s, IsHyphen);
    assert StripOffset(s, IsHyphen) == 0;
    if |r| < |w| {
      assert IsHyphen(s[|w| - 1]) by {
        assert TrimEnd(s, IsHyphen) == r;
      }
    }
    assert r == s[..|w|] == w;
  }

  /** `_generate_project_id` with the hyphens stripped after the cut rather
      than before, so that the 50-character limit cannot leave a hyphen at
      the end. */
  function GenerateProjectIdIntended(nom: string): (r: string)
    ensures r != [] && |r| <= MaxSlugLength
    ensures forall i :: 0 <= i < |r| ==> SlugChar(r[i])
    ensures r[0] != '-' && r[|r| - 1] != '-'
  {
    CutThenStrip(Slugify(nom))
  }

  /** The cut to 50 characters, then the strip, then the fallback. */
  function CutThenStrip(full: string): (r: string)
    requires forall i :: 0 <= i < |full| ==> SlugChar(full[i])
    ensures r != [] && |r| <= MaxSlugLength
    ensures forall i :: 0 <= i < |r| ==> SlugChar(r[i])
    ensures r[0] != '-' && r[|r| - 1] != '-'
  {
    var cut := Prefix(full, MaxSlugLength);
    SlugCharsPrefix(full, cut);
    var slug := StripBy(cut, IsHyphen);
    SlugCharsStrip(cut);
    if slug == [] then FallbackSlug else slug
  }

  lemma SlugCharsPrefix(s: string, cut: string)
    requires forall i :: 0 <= i < |s| ==> SlugChar(s[i])
    requires |cut| <= |s| && cut == s[..|cut|]
    ensures forall i :: 0 <= i < |cut| ==> SlugChar(cut[i])
  {
    forall i | 0 <= i < |cut| ensures SlugChar(cut[i]) {
      assert cut[i] == s[i];
    }
  }

  lemma SlugCharsStrip(s: string)
    requires forall i :: 0 <= i < |s| ==> SlugChar(s[i])
    ensures forall i :: 0 <= i < |StripBy(s, IsHyphen)| ==> SlugChar(StripBy(s, IsHyphen)[i])
  {
    var r := StripBy(s, IsHyphen);
    forall i | 0 <= i < |r| ensures SlugChar(r[i]) {
      assert r[i] == s[StripOffset(s, IsHyphen) + i];
    }
  }

  /** The two agree except when the as-written identifier ends with a
      hyphen. */
  lemma IntendedAgrees(nom: string)
    requires GenerateProjectId(nom)[|GenerateProjectId(nom)| - 1] != '-'
    ensures GenerateProjectIdIntended(nom) == GenerateProjectId(nom)
  {
    var r := GenerateProjectId(nom);
    if Slugify(nom) != [] {
      assert Prefix(Slugify(nom), MaxSlugLength) == r;
    }
  }

  /** Making an identifier from the corrected identifier gives it back. */
  lemma GenerateProjectIdIntendedIdempotent(nom: string)
    ensures GenerateProjectIdIntended(GenerateProjectIdIntended(nom)) == GenerateProjectIdIntended(nom)
  {
    IntendedFixed(GenerateProjectIdIntended(nom));
  }

  /** A non-empty identifier of at most 50 slug characters, without a
      hyphen at either end, is its own identifier. */
  lemma IntendedFixed(s: string)
    requires s != [] && |s| <= MaxSlugLength
    requires forall i :: 0 <= i < |s| ==> SlugChar(s[i])
    requires s[0] != '-' && s[|s| - 1] != '-'
    ensures GenerateProjectIdIntended(s) == s
  {
    SlugifyFixed(s);
    CutThenStripFixed(s);
  }

  /** An identifier without a hyphen at either end is its own slug. */
  lemma SlugifyFixed(s: string)
    requires forall i :: 0 <= i < |s| ==> SlugChar(s[i])
    requires s == [] || (s[0] != '-' && s[|s| - 1] != '-')
    ensures Slugify(s) == s
  {
    forall i | 0 <= i < |s| ensures SlugKeep(s[i]) && !IsLatinUpper(s[i]) && !IsSpace(s[i]) {
      assert SlugChar(s[i]);
    }
    LowerStrFixed(s);
    var lowered := LowerStr(s);
    assert lowered == s;
    FilterAll(s, SlugKeep);
    var kept := Filter(lowered, SlugKeep);
    assert kept == s;
    ReplaceRunsFixed(s, IsSpace, '-');
    var dashed := ReplaceRuns(kept, IsSpace, '-');
    assert dashed == s;
    assert StripBy(dashed, IsHyphen) == s;
  }

  lemma CutThenStripFixed(s: string)
    requires s != [] && |s| <= MaxSlugLength
    requires forall i :: 0 <= i < |s| ==> SlugChar(s[i])
    requires s[0] != '-' && s[|s| - 1] != '-'
    ensures CutThenStrip(s) == s
  {
    assert Prefix(s, MaxSlugLength) == s;
  }

  // ------------------------------------------------------------ directories

  /** Path composition `a / b`: an absolute component replaces what is
      before it and an empty one adds nothing. */
  function Join(a: string, b: string): (r: string)
    ensures StartsWith(b, "/") ==> r == b
    ensures b == [] ==> r == a
    ensures b != [] && !StartsWith(b, "/") ==> r == a + "/" + b
  {
    if b == [] then a
    else if StartsWith(b, "/") then b
    else a + "/" + b
  }

  /** `_get_project_dir`: a falsy enterprise id is a `ValueError`; a
      string one gives `<enterprises>/<enterprise>/projects/<project>`,
      and any other value cannot be joined to a path. */
  function GetProjectDir(enterprises: string, projectId: string, enterpriseId: Json): (r: Result<string>)
    ensures !Truthy(enterpriseId) ==> r == Err("ValueError")
    ensures Truthy(enterpriseId) && !enterpriseId.JStr? ==> r == Err("TypeError")
    ensures enterpriseId.JStr? && enterpriseId.s != [] ==> r == Ok(Join(Join(Join(enterprises, enterpriseId.s), "projects"), projectId))
  {
    if !Truthy(enterpriseId) then Err("ValueError")
    else if !enterpriseId.JStr? then Err("TypeError")
    else Ok(Join(Join(Join(enterprises, enterpriseId.s), "projects"), projectId))
  }

  /** With relative, non-empty names the project directory is the four
      names joined by slashes. */
  lemma ProjectDirShape(enterprises: string, projectId: string, enterpriseId: string)
    requires enterpriseId != [] && enterpriseId[0] != '/'
    requires projectId != [] && projectId[0] != '/'
    ensures GetProjectDir(enterprises, projectId, JStr(enterpriseId)) ==
      Ok(enterprises + "/" + enterpriseId + "/projects/" + projectId)
  {
    assert !StartsWith(enterpriseId, "/") && !StartsWith(projectId, "/");
    assert !StartsWith("projects", "/");
    var a := Join(enterprises, enterpriseId);
    assert a == enterprises + "/" + enterpriseId;
    var b := Join(a, "projects");
    assert b == a + "/" + "projects";
    assert Join(b, projectId) == b + "/" + projectId;
    assert b + "/" + projectId == enterprises + "/" + enterpriseId + "/projects/" + projectId;
  }

  // ------------------------------------------------------ candidate counts

  /** A `results.json` of the current layout: `metadata.top_reranked`
      (default 0) when there is a `metadata` entry, else the length of
      `results`, else 0. Any exception raised on the way skips the file. */
  function NewFormatCount(data: Json): (r: Result<Json>)
    ensures !(data.JObj? || data.JList? || data.JStr?) ==> r.Err?
    ensures data.JObj? && HasKey(data.fields, "metadata") ==>
      var meta := Lookup(data.fields, "metadata").value;
      r == if meta.JObj? then Ok(Get(meta, "top_reranked", JInt(0))) else Err("AttributeError")
    ensures data.JObj? && !HasKey(data.fields, "metadata") && HasKey(data.fields, "results") ==>
      var results := Lookup(data.fields, "results").value;
      (r.Ok? <==> results.JObj? || results.JList? || results.JStr?) &&
      (results.JList? ==> r == Ok(JInt(|results.items|)))
    ensures data.JObj? && !HasKey(data.fields, "metadata") && !HasKey(data.fields, "results") ==> r == Ok(JInt(0))
  {
    var hasMeta := In("metadata", data);
    if hasMeta.Err? then Err(hasMeta.error)
    else if hasMeta.value then
      var meta := GetItem(data, "metadata");
      if meta.Err? then Err(meta.error)
      else DictGet(meta.value, "top_reranked", JInt(0))
    else
      if In("results", data).value then
        var results := DictGet(data, "results", JList([]));
        if results.Err? then Err(results.error)
        else
          var n := Len(results.value);
          if n.Err? then Err(n.error) else Ok(JInt(n.value))
      else Ok(JInt(0))
  }

  /** A `historique/<timestamp>.json` of the older layout: the re-ranked
      list (its length, or the length of `ranked_cvs` when it is a dict,
      or 0 for any other value) has priority over `scored_cvs`. */
  function LegacyCount(data: Json): (r: Result<Json>)
    ensures !(data.JObj? || data.JList? || data.JStr?) ==> r.Err?
    ensures data.JObj? && HasKey(data.fields, "reranked_cvs") ==>
      var reranked := Lookup(data.fields, "reranked_cvs").value;
      (reranked.JList? ==> r == Ok(JInt(|reranked.items|))) &&
      var ranked := Get(reranked, "ranked_cvs", JList([]));
      (reranked.JObj? ==> (r.Ok? <==> ranked.JObj? || ranked.JList? || ranked.JStr?)) &&
      (reranked.JObj? && ranked.JList? ==> r == Ok(JInt(|ranked.items|))) &&
      (!reranked.JList? && !reranked.JObj? ==> r == Ok(JInt(0)))
    ensures data.JObj? && !HasKey(data.fields, "reranked_cvs") && HasKey(data.fields, "scored_cvs") ==>
      var scored := Lookup(data.fields, "scored_cvs").value;
      (r.Ok? <==> scored.JObj? || scored.JList? || scored.JStr?) &&
      (scored.JList? ==> r == Ok(JInt(|scored.items|)))
    ensures data.JObj? && !HasKey(data.fields, "reranked_cvs") && !HasKey(data.fields, "scored_cvs") ==> r == Ok(JInt(0))
  {
    var hasReranked := In("reranked_cvs", data);
    if hasReranked.Err? then Err(hasReranked.error)
    else if hasReranked.value then
      var reranked := GetItem(data, "reranked_cvs");
      if reranked.Err? then Err(reranked.error)
      else if reranked.value.JList? then Ok(JInt(|reranked.value.items|))
      else if reranked.value.JObj? then
        var n := Len(Get(reranked.value, "ranked_cvs", JList([])));
        if n.Err? then Err(n.error) else Ok(JInt(n.value))
      else Ok(JInt(0))
    else
      if In("scored_cvs", data).value then
        var scored := DictGet(data, "scored_cvs", JList([]));
        if scored.Err? then Err(scored.error)
        else
          var n := Len(scored.value);
          if n.Err? then Err(n.error) else Ok(JInt(n.value))
      else Ok(JInt(0))
  }

  // -------------------------------------------------------------- history

  /** One result file met by `list_matchings`: its timestamp (the folder
      name, or the file stem), its path, and the outcome of reading it. */
  datatype StoredFile = StoredFile(name: string, path: string, data: Result<Json>)

  /** One entry of the history. */
  datatype Matching = Matching(timestamp: string, candidatsCount: Json, filePath: string)

  function Timestamp(m: Matching): string { m.timestamp }

  /** Whether a file is read and counted without an exception. */
  predicate Counted(f: StoredFile, count: Json -> Result<Json>) {
    f.data.Ok? && count(f.data.value).Ok?
  }

  function Entry(f: StoredFile, count: Json -> Result<Json>): Matching
    requires Counted(f, count)
  {
    Matching(f.name, count(f.data.value).value, f.path)
  }

  /** The entries appended by one of the two loops, in visiting order; a
      file whose reading or counting fails is skipped. */
  function Collect(files: seq<StoredFile>, count: Json -> Result<Json>): (r: seq<Matching>)
    ensures |r| <= |files|
    decreases |files|
  {
    if files == [] then []
    else
      var last := files[|files| - 1];
      Collect(files[..|files| - 1], count) + (if Counted(last, count) then [Entry(last, count)] else [])
  }

  /** An entry is collected exactly when it comes from a file that is read
      and counted. */
  lemma {:induction false} CollectMembers(files: seq<StoredFile>, count: Json -> Result<Json>, m: Matching)
    ensures m in Collect(files, count) <==> exists i :: 0 <= i < |files| && Counted(files[i], count) && m == Entry(files[i], count)
    decreases |files|
  {
    if files != [] {
      var init := files[..|files| - 1];
      CollectMembers(init, count, m);
      if m in Collect(init, count) {
        var i :| 0 <= i < |init| && Counted(init[i], count) && m == Entry(init[i], count);
        assert files[i] == init[i];
      }
      if exists i :: 0 <= i < |files| && Counted(files[i], count) && m == Entry(files[i], count) {
        var i :| 0 <= i < |files| && Counted(files[i], count) && m == Entry(files[i], count);
        if i < |init| {
          assert init[i] == files[i];
        }
      }
    }
  }

  /** The history: the new-layout entries, then the older ones, sorted by
      timestamp, most recent first. */
  function Matchings(newFiles: seq<StoredFile>, oldFiles: seq<StoredFile>): seq<Matching> {
    SortDesc(Collect(newFiles, NewFormatCount) + Collect(oldFiles, LegacyCount), Timestamp, StrLess)
  }

  /** The loops and the sort of `list_matchings`, over the files of the
      two folders in the order they are visited. */
  method ListMatchings(newFiles: seq<StoredFile>, oldFiles: seq<StoredFile>) returns (matchings: seq<Matching>)
    ensures matchings == Matchings(newFiles, oldFiles)
  {
    matchings := [];
    for i := 0 to |newFiles|
      invariant matchings == Collect(newFiles[..i], NewFormatCount)
    {
      var f := newFiles[i];
      assert newFiles[..i + 1][..i] == newFiles[..i];
      if f.data.Ok? {
        var count := NewFormatCount(f.data.value);
        if count.Ok? {
          matchings := matchings + [Matching(f.name, count.value, f.path)];
        }
      }
    }
    assert newFiles[..|newFiles|] == newFiles;
    ghost var current := matchings;
    for i := 0 to |oldFiles|
      invariant matchings == current + Collect(oldFiles[..i], LegacyCount)
    {
      var f := oldFiles[i];
      assert oldFiles[..i + 1][..i] == oldFiles[..i];
      if f.data.Ok? {
        var count := LegacyCount(f.data.value);
        if count.Ok? {
          matchings := matchings + [Matching(f.name, count.value, f.path)];
        }
      }
    }
    assert oldFiles[..|oldFiles|] == oldFiles;
    matchings := SortDesc(matchings, Timestamp, StrLess);
  }

  /** The history holds exactly the collected entries, most recent first;
      among entries with the same timestamp, the new-layout ones come
      first and each group keeps its visiting order. */
  lemma MatchingsOrder(newFiles: seq<StoredFile>, oldFiles: seq<StoredFile>, ts: string)
    ensures var all := Collect(newFiles, NewFormatCount) + Collect(oldFiles, LegacyCount);
      var r := Matchings(newFiles, oldFiles);
      multiset(r) == multiset(all) &&
      (forall i :: 0 <= i < |r| - 1 ==> r[i].timestamp == r[i + 1].timestamp || StrLess(r[i + 1].timestamp, r[i].timestamp)) &&
      WithKey(r, Timestamp, ts) == WithKey(all, Timestamp, ts)
  {
    var all := Collect(newFiles, NewFormatCount) + Collect(oldFiles, LegacyCount);
    var r := Matchings(newFiles, oldFiles);
    StrLessAsymmetric();
    SortDescSorted(all, Timestamp, StrLess);
    SortDescStable(all, Timestamp, StrLess, ts);
    forall i | 0 <= i < |r| - 1
      ensures r[i].timestamp == r[i + 1].timestamp || StrLess(r[i + 1].timestamp, r[i].timestamp)
    {
      assert !StrLess(Timestamp(r[i]), Timestamp(r[i + 1]));
      if r[i].timestamp != r[i + 1].timestamp {
        StrLessTotal(r[i].timestamp, r[i + 1].timestamp);
      }
    }
  }

  // ---------------------------------------------------------- one matching

  /** The file system as the managers see it: existing directories, and
      for each existing file the outcome of loading it as JSON. */
  datatype Files = Files(dirs: set<string>, files: map<string, Result<Json>>) {
    predicate Exists(path: string) { path in dirs || path in files }
  }

  function NewResultPath(projectDir: string, timestamp: string): string {
    Join(Join(Join(projectDir, "matchings"), timestamp), "results.json")
  }

  function OldResultPath(projectDir: string, timestamp: string): string {
    Join(Join(projectDir, "historique"), timestamp + ".json")
  }

  /** Loads an existing file; a path that is a directory cannot be
      opened. */
  function Load(fs: Files, path: string): Result<Json>
    requires fs.Exists(path)
  {
    if path in fs.files then fs.files[path] else Err("IsADirectoryError")
  }

  /** A loaded file is returned; a failed load propagates. */
  function Found(data: Result<Json>): (r: Result<Option<Json>>)
    ensures r != Ok(None)
  {
    if data.Err? then Err(data.error) else Ok(Some(data.value))
  }

  /** `load_matching`: an unknown project gives `None`; the enterprise id
      is the project's own when it is truthy, else the caller's; in an
      existing project directory, the current layout's result file wins
      over the older one, and `None` means neither exists. */
  function LoadMatching(enterprises: string, projectId: string, timestamp: string, enterpriseId: Json,
                        projet: Json, fs: Files): (r: Result<Option<Json>>)
    ensures !Truthy(projet) ==> r == Ok(None)
    ensures Truthy(projet) && !projet.JObj? ==> r == Err("AttributeError")
    ensures Truthy(projet) && projet.JObj? ==>
      var dir := GetProjectDir(enterprises, projectId, GetOrIfFalsy(projet, "enterprise_id", enterpriseId));
      if dir.Err? then r == Err(dir.error)
      else if !fs.Exists(dir.value) then r == Ok(None)
      else r == ResultInDir(fs, dir.value, timestamp)
  {
    if !Truthy(projet) then Ok(None)
    else
      var own := DictGet(projet, "enterprise_id", JNull);
      if own.Err? then Err(own.error)
      else
        var entId := if Truthy(own.value) then own.value else enterpriseId;
        var dir := GetProjectDir(enterprises, projectId, entId);
        if dir.Err? then Err(dir.error)
        else if !fs.Exists(dir.value) then Ok(None)
        else ResultInDir(fs, dir.value, timestamp)
  }

  /** The result file of one matching in an existing project directory:
      the current layout's file wins; the older one is read only when the
      current one is absent; `None` means neither exists. */
  function ResultInDir(fs: Files, projectDir: string, timestamp: string): (r: Result<Option<Json>>)
    ensures fs.Exists(NewResultPath(projectDir, timestamp)) ==> r == Found(Load(fs, NewResultPath(projectDir, timestamp)))
    ensures !fs.Exists(NewResultPath(projectDir, timestamp)) && fs.Exists(OldResultPath(projectDir, timestamp)) ==>
      r == Found(Load(fs, OldResultPath(projectDir, timestamp)))
    ensures r == Ok(None) <==> !fs.Exists(NewResultPath(projectDir, timestamp)) && !fs.Exists(OldResultPath(projectDir, timestamp))
  {
    var newFile := NewResultPath(projectDir, timestamp);
    var oldFile := OldResultPath(projectDir, timestamp);
    if fs.Exists(newFile) then Found(Load(fs, newFile))
    else if fs.Exists(oldFile) then Found(Load(fs, oldFile))
    else Ok(None)
  }
}
