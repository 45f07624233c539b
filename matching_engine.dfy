/** The deterministic layer of the matching engine: CV flattening for the
    embedder, the cleaning of extracted must-have criteria, the sequential
    must-have filter, the scoring loop, the re-ranking selection, the
    filtering of the re-ranker's answer and its fallback, and the normaliser
    of re-ranking output. Similarities, language-model answers, the clock
    and number formatting are parameters. */
module MatchingEngine {
  import opened Wrappers
  import opened Text
  import opened JsonValue
  import opened Assoc
  import opened Models
  import opened StableSort
  import opened MatchingCore
  import ExperienceAnalyzer

  // ---------------------------------------------------------- flattening

  /** Python's `str(x)`: a string is itself, anything else is rendered by
      `render` (the repr of numbers, lists and dicts). */
  function Str(j: Json, render: Json -> string): string {
    if j.JStr? then j.s else render(j)
  }

  /** The cleaned texts of the non-null values of a list or of a dict's values. */
  function ValueTexts(xs: seq<Json>, render: Json -> string): (ts: seq<string>)
    ensures |ts| <= |xs|
    decreases |xs|
  {
    if xs == [] then []
    else
      var x := xs[|xs| - 1];
      ValueTexts(xs[..|xs| - 1], render) + (if x.JNull? then [] else [CleanText(Str(x, render))])
  }

  /** The texts one `(key, value)` item contributes: nothing for the file
      name, the identity block and null values. */
  function ItemTexts(k: string, v: Json, render: Json -> string): seq<string> {
    if k == "cv" || k == "identite" || v.JNull? then []
    else if v.JList? then ValueTexts(v.items, render)
    else if v.JObj? then ValueTexts(Values(v.fields), render)
    else [CleanText(Str(v, render))]
  }

  function FieldsTexts(fs: Fields, render: Json -> string): seq<string>
    decreases |fs|
  {
    if fs == [] then []
    else
      var (k, v) := fs[|fs| - 1];
      FieldsTexts(fs[..|fs| - 1], render) + ItemTexts(k, v, render)
  }

  /** `cv["sections"]` if present, else `cv["content"]`, else the CV itself. */
  function CvData(cv: Fields): Json {
    match Lookup(cv, "sections")
    case Some(v) => v
    case None =>
      match Lookup(cv, "content")
      case Some(v) => v
      case None => JObj(cv)
  }

  /** `_flatten_cv_text`; a chosen block that is not a dict has no `items()`. */
  function FlattenCvTextSpec(cv: Fields, render: Json -> string): Result<seq<string>> {
    var d := CvData(cv);
    if d.JObj? then Ok(FieldsTexts(d.fields, render))
    else Err("AttributeError: 'items'")
  }

  method AppendValueTexts(acc: seq<string>, xs: seq<Json>, render: Json -> string) returns (out: seq<string>)
    ensures out == acc + ValueTexts(xs, render)
  {
    out := acc;
    var i := 0;
    while i < |xs|
      invariant 0 <= i <= |xs|
      invariant out == acc + ValueTexts(xs[..i], render)
    {
      ghost var before := out;
      if xs[i] != JNull {
        out := out + [CleanText(Str(xs[i], render))];
      }
      AppendValueTextsStep(acc, before, out, xs, i, render);
      i := i + 1;
    }
    assert xs[..i] == xs;
  }

  lemma AppendValueTextsStep(acc: seq<string>, before: seq<string>, out: seq<string>, xs: seq<Json>, i: nat, render: Json -> string)
    requires i < |xs| && before == acc + ValueTexts(xs[..i], render)
    requires out == before + (if xs[i].JNull? then [] else [CleanText(Str(xs[i], render))])
    ensures out == acc + ValueTexts(xs[..i + 1], render)
  {
    ValueTextsSnoc(xs, i, render);
  }

  lemma ValueTextsSnoc(xs: seq<Json>, i: nat, render: Json -> string)
    requires i < |xs|
    ensures ValueTexts(xs[..i + 1], render) ==
      ValueTexts(xs[..i], render) + (if xs[i].JNull? then [] else [CleanText(Str(xs[i], render))])
  {
    var prefix := xs[..i + 1];
    assert prefix[..i] == xs[..i];
    assert prefix[|prefix| - 1] == xs[i];
  }

  method FlattenCvText(cv: Fields, render: Json -> string) returns (r: Result<seq<string>>)
    ensures r == FlattenCvTextSpec(cv, render)
  {
    var d := CvData(cv);
    if !d.JObj? {
      return Err("AttributeError: 'items'");
    }
    var fs := d.fields;
    var texts: seq<string> := [];
    var i := 0;
    while i < |fs|
      invariant 0 <= i <= |fs|
      invariant texts == FieldsTexts(fs[..i], render)
    {
      assert fs[..i + 1][..i] == fs[..i];
      var (k, v) := fs[i];
      if k == "cv" || k == "identite" || v.JNull? {
      } else if v.JList? {
        texts := AppendValueTexts(texts, v.items, render);
      } else if v.JObj? {
        texts := AppendValueTexts(texts, Values(v.fields), render);
      } else {
        texts := texts + [CleanText(Str(v, render))];
      }
      i := i + 1;
    }
    assert fs[..i] == fs;
    return Ok(texts);
  }

  lemma {:induction false} ValueTextsClean(xs: seq<Json>, render: Json -> string)
    ensures forall t :: t in ValueTexts(xs, render) ==> IsClean(t)
    decreases |xs|
  {
    if xs != [] {
      ValueTextsClean(xs[..|xs| - 1], render);
    }
  }

  lemma {:induction false} FieldsTextsClean(fs: Fields, render: Json -> string)
    ensures forall t :: t in FieldsTexts(fs, render) ==> IsClean(t)
    decreases |fs|
  {
    if fs != [] {
      FieldsTextsClean(fs[..|fs| - 1], render);
      var (k, v) := fs[|fs| - 1];
      if v.JList? {
        ValueTextsClean(v.items, render);
      } else if v.JObj? {
        ValueTextsClean(Values(v.fields), render);
      }
    }
  }

  /** A string field outside the file name and identity contributes its
      cleaned text. */
  lemma {:induction false} FieldsTextsHasString(fs: Fields, render: Json -> string, j: nat)
    requires j < |fs| && fs[j].1.JStr? && fs[j].0 != "cv" && fs[j].0 != "identite"
    ensures CleanText(fs[j].1.s) in FieldsTexts(fs, render)
    decreases |fs|
  {
    if j < |fs| - 1 {
      FieldsTextsHasString(fs[..|fs| - 1], render, j);
    }
  }

  /** Every flattened part is a cleaned text, and every string field other
      than the file name and the identity block is among the parts. */
  lemma FlattenCvTextParts(cv: Fields, render: Json -> string)
    ensures var r := FlattenCvTextSpec(cv, render);
      && (r.Ok? <==> CvData(cv).JObj?)
      && (r.Ok? ==> forall t :: t in r.value ==> IsClean(t))
      && (r.Ok? ==> forall j :: 0 <= j < |CvData(cv).fields| && CvData(cv).fields[j].1.JStr?
                      && CvData(cv).fields[j].0 != "cv" && CvData(cv).fields[j].0 != "identite"
                      ==> CleanText(CvData(cv).fields[j].1.s) in r.value)
  {
    var d := CvData(cv);
    if d.JObj? {
      FieldsTextsClean(d.fields, render);
      forall j | 0 <= j < |d.fields| && d.fields[j].1.JStr? && d.fields[j].0 != "cv" && d.fields[j].0 != "identite"
        ensures CleanText(d.fields[j].1.s) in FieldsTexts(d.fields, render)
      {
        FieldsTextsHasString(d.fields, render, j);
      }
    }
  }

  // ------------------------------------------------- must-have cleaning

  /** The location and contract words that disqualify a criterion when they
      make up its main content. */
  const SkipKeywords: seq<string> := ["cdi", "temps plein", "paris", "télétravail", "remote", "présentiel"]

  /** `kw in lower and len(kw) / len(lower) > 0.3`, with the ratio compared
      exactly: the lengths are at most 100, so no float rounding can move
      a quotient across 0.3. */
  predicate KeywordDominates(kw: string, lower: string) {
    Contains(lower, kw) && 10 * |kw| > 3 * |lower|
  }

  predicate IsLocationContract(lower: string) {
    exists k :: 0 <= k < |SkipKeywords| && KeywordDominates(SkipKeywords[k], lower)
  }

  /** The keyword scan with its early `break`. */
  method ScanKeywords(lower: string) returns (found: bool)
    ensures found == IsLocationContract(lower)
  {
    found := false;
    var k := 0;
    while k < |SkipKeywords|
      invariant 0 <= k <= |SkipKeywords|
      invariant !found ==> forall q :: 0 <= q < k ==> !KeywordDominates(SkipKeywords[q], lower)
      invariant found ==> IsLocationContract(lower)
    {
      if KeywordDominates(SkipKeywords[k], lower) {
        found := true;
        break;
      }
      k := k + 1;
    }
  }

  /** The checks a raw criterion passes before de-duplication: a string,
      non-empty once stripped, at most 100 characters, and not mainly a
      location or contract. Its stripped text when it passes. */
  function Admit(j: Json): Option<string> {
    if !j.JStr? then None
    else
      var c := Strip(j.s);
      if c == [] || |c| > 100 || IsLocationContract(LowerStr(c)) then None else Some(c)
  }

  /** Every admitted criterion is stripped, non-empty, at most 100
      characters and not mainly a location or contract. */
  predicate Admissible(c: string) {
    && c != [] && !IsSpace(c[0]) && !IsSpace(c[|c| - 1])
    && |c| <= 100
    && !IsLocationContract(LowerStr(c))
  }

  lemma AdmitAdmissible(j: Json)
    ensures Admit(j).Some? ==> Admissible(Admit(j).value)
    ensures Admit(j).Some? <==> j.JStr? && Admissible(Strip(j.s))
  {
  }

  /** The verdict of the checks on each raw criterion, in input order. */
  function Admitted(raw: seq<Json>): (a: seq<Option<string>>)
    ensures |a| == |raw|
    ensures forall i :: 0 <= i < |raw| ==> a[i] == Admit(raw[i])
  {
    seq(|raw|, i requires 0 <= i < |raw| => Admit(raw[i]))
  }

  /** The `seen` set: the keys of the kept texts. */
  function Seen(xs: seq<string>, key: string -> string): set<string> {
    set x | x in xs :: key(x)
  }

  /** No text has the key of an earlier one. */
  predicate DistinctBy(xs: seq<string>, key: string -> string) {
    forall j :: 0 <= j < |xs| ==> key(xs[j]) !in Seen(xs[..j], key)
  }

  /** The `seen` set of `extract_must_have_with_llm`: the lower-cased forms
      of the kept criteria. */
  function Lowers(xs: seq<string>): set<string> {
    Seen(xs, LowerStr)
  }

  /** No text equals an earlier one ignoring case. */
  predicate DistinctIgnoringCase(xs: seq<string>) {
    DistinctBy(xs, LowerStr)
  }

  /** De-duplication by a key: the first admitted text of each key, as it
      was written. */
  function KeepFirst(a: seq<Option<string>>, key: string -> string): (r: seq<string>)
    ensures |r| <= |a|
    decreases |a|
  {
    if a == [] then []
    else
      var prev := KeepFirst(a[..|a| - 1], key);
      var x := a[|a| - 1];
      if x.Some? && key(x.value) !in Seen(prev, key) then prev + [x.value] else prev
  }

  /** Every admitted text is represented among the kept ones by its key. */
  lemma {:induction false} KeepFirstCovers(a: seq<Option<string>>, key: string -> string, k: nat)
    requires k < |a| && a[k].Some?
    ensures key(a[k].value) in Seen(KeepFirst(a, key), key)
    decreases |a|
  {
    var n := |a| - 1;
    var prev := KeepFirst(a[..n], key);
    KeepFirstStep(a, n, key);
    assert a[..n + 1] == a;
    if a[n].Some? && key(a[n].value) !in Seen(prev, key) {
      SeenAppend(prev, a[n].value, key);
    }
    if k < n {
      assert a[..n][k] == a[k];
      KeepFirstCovers(a[..n], key, k);
    }
  }

  /** No two kept texts share a key. */
  lemma {:induction false} KeepFirstDistinct(a: seq<Option<string>>, key: string -> string)
    ensures DistinctBy(KeepFirst(a, key), key)
    decreases |a|
  {
    if a != [] {
      var n := |a| - 1;
      KeepFirstDistinct(a[..n], key);
      KeepFirstStep(a, n, key);
      var prev := KeepFirst(a[..n], key);
      if a[n].Some? && key(a[n].value) !in Seen(prev, key) {
        var r := prev + [a[n].value];
        assert r[..|prev|] == prev;
        assert forall j :: 0 <= j < |prev| ==> r[..j] == prev[..j];
      }
    }
  }

  /** Distinctness read pairwise. */
  lemma DistinctPairwise(xs: seq<string>, i: nat, j: nat)
    requires DistinctIgnoringCase(xs) && i < j < |xs|
    ensures LowerStr(xs[i]) != LowerStr(xs[j])
  {
    assert xs[..j][i] == xs[i];
  }

  /** The input position each kept text comes from. */
  function Origins(a: seq<Option<string>>, key: string -> string): (o: seq<nat>)
    ensures |o| == |KeepFirst(a, key)|
    decreases |a|
  {
    if a == [] then []
    else
      var n := |a| - 1;
      var prev := Origins(a[..n], key);
      KeepFirstStep(a, n, key);
      if a[n].Some? && key(a[n].value) !in Seen(KeepFirst(a[..n], key), key) then prev + [n] else prev
  }

  /** Each kept text is the admitted text at its origin. */
  lemma {:induction false} OriginsAt(a: seq<Option<string>>, key: string -> string, i: nat)
    requires i < |Origins(a, key)|
    ensures Origins(a, key)[i] < |a| && a[Origins(a, key)[i]] == Some(KeepFirst(a, key)[i])
    decreases |a|
  {
    var n := |a| - 1;
    var init := a[..n];
    var prev := Origins(init, key);
    var kept := KeepFirst(init, key);
    KeepFirstStep(a, n, key);
    if a[n].Some? && key(a[n].value) !in Seen(kept, key) {
      assert Origins(a, key) == prev + [n];
      assert KeepFirst(a, key) == kept + [a[n].value];
      if i < |prev| {
        OriginsAt(init, key, i);
        assert init[prev[i]] == a[prev[i]];
      }
    } else {
      assert Origins(a, key) == prev && KeepFirst(a, key) == kept;
      OriginsAt(init, key, i);
      assert init[prev[i]] == a[prev[i]];
    }
  }

  /** The positions increase. */
  lemma {:induction false} OriginsIncreasingAt(a: seq<Option<string>>, key: string -> string, i: nat, j: nat)
    requires i < j < |Origins(a, key)|
    ensures Origins(a, key)[i] < Origins(a, key)[j]
    decreases |a|
  {
    var n := |a| - 1;
    var init := a[..n];
    var prev := Origins(init, key);
    var kept := KeepFirst(init, key);
    KeepFirstStep(a, n, key);
    if a[n].Some? && key(a[n].value) !in Seen(kept, key) {
      assert Origins(a, key) == prev + [n];
      if j < |prev| {
        OriginsIncreasingAt(init, key, i, j);
      } else {
        OriginsAt(init, key, i);
      }
    } else {
      assert Origins(a, key) == prev;
      OriginsIncreasingAt(init, key, i, j);
    }
  }

  /** The last input position either adds one kept text, with its origin,
      or leaves both unchanged. */
  lemma OriginsStep(a: seq<Option<string>>, key: string -> string)
    requires a != []
    ensures var n := |a| - 1;
      if a[n].Some? && key(a[n].value) !in Seen(KeepFirst(a[..n], key), key)
      then Origins(a, key) == Origins(a[..n], key) + [n] && KeepFirst(a, key) == KeepFirst(a[..n], key) + [a[n].value]
      else Origins(a, key) == Origins(a[..n], key) && KeepFirst(a, key) == KeepFirst(a[..n], key)
  {
    var n := |a| - 1;
    KeepFirstStep(a, n, key);
    assert a[..n + 1] == a;
  }

  /** No admitted text before the origin of a kept text has its key, so the
      first occurrence is the one kept. */
  lemma {:induction false} OriginsFirstAt(a: seq<Option<string>>, key: string -> string, i: nat, k: nat)
    requires i < |Origins(a, key)| && k < Origins(a, key)[i] && k < |a| && a[k].Some?
    ensures key(a[k].value) != key(KeepFirst(a, key)[i])
    decreases |a|
  {
    var n := |a| - 1;
    var init := a[..n];
    var kept := KeepFirst(init, key);
    OriginsStep(a, key);
    OriginsAt(a, key, i);
    assert init[k] == a[k];
    if i < |Origins(init, key)| {
      assert Origins(a, key)[i] == Origins(init, key)[i] && KeepFirst(a, key)[i] == kept[i];
      OriginsFirstAt(init, key, i, k);
    } else {
      assert KeepFirst(a, key)[i] == a[n].value && key(a[n].value) !in Seen(kept, key);
      KeepFirstCovers(init, key, k);
    }
  }

  /** Each kept text comes from an increasing input position, and no
      earlier admitted text has its key. */
  lemma OriginsProperties(a: seq<Option<string>>, key: string -> string)
    ensures var o := Origins(a, key);
      && (forall i :: 0 <= i < |o| ==> o[i] < |a| && a[o[i]] == Some(KeepFirst(a, key)[i]))
      && (forall i, j :: 0 <= i < j < |o| ==> o[i] < o[j])
      && (forall i, k :: 0 <= i < |o| && 0 <= k < o[i] && a[k].Some? ==> key(a[k].value) != key(KeepFirst(a, key)[i]))
  {
    var o := Origins(a, key);
    forall i | 0 <= i < |o| ensures o[i] < |a| && a[o[i]] == Some(KeepFirst(a, key)[i]) {
      OriginsAt(a, key, i);
    }
    forall i, j | 0 <= i < j < |o| ensures o[i] < o[j] {
      OriginsIncreasingAt(a, key, i, j);
    }
    forall i, k | 0 <= i < |o| && 0 <= k < o[i] && a[k].Some?
      ensures key(a[k].value) != key(KeepFirst(a, key)[i])
    {
      OriginsAt(a, key, i);
      OriginsFirstAt(a, key, i, k);
    }
  }

  /** The cleaned must-have list. */
  function CleanMustHaves(raw: seq<Json>): seq<string> {
    KeepFirst(Admitted(raw), LowerStr)
  }

  /** The cleaned list is an order-preserving selection of the raw
      criteria, stripped: each entry is admissible, no two are equal
      ignoring case, each is the first admitted criterion of its
      lower-cased form, and every admitted criterion is represented. */
  lemma CleanMustHavesProperties(raw: seq<Json>)
    ensures var r := CleanMustHaves(raw);
      && |r| <= |raw|
      && (forall c :: c in r ==> Admissible(c))
      && DistinctIgnoringCase(r)
      && (forall k :: 0 <= k < |raw| && Admit(raw[k]).Some? ==> LowerStr(Admit(raw[k]).value) in Lowers(r))
    ensures var r := CleanMustHaves(raw); var o := Origins(Admitted(raw), LowerStr);
      && |o| == |r|
      && (forall i :: 0 <= i < |r| ==> o[i] < |raw| && raw[o[i]].JStr? && r[i] == Strip(raw[o[i]].s))
      && (forall i, j :: 0 <= i < j < |r| ==> o[i] < o[j])
      && (forall i, k :: 0 <= i < |r| && 0 <= k < o[i] && Admit(raw[k]).Some?
            ==> LowerStr(Admit(raw[k]).value) != LowerStr(r[i]))
  {
    CleanMustHavesKept(raw);
    OriginsProperties(Admitted(raw), LowerStr);
  }

  lemma CleanMustHavesKept(raw: seq<Json>)
    ensures var r := CleanMustHaves(raw);
      && |r| <= |raw|
      && (forall c :: c in r ==> Admissible(c))
      && DistinctIgnoringCase(r)
      && (forall k :: 0 <= k < |raw| && Admit(raw[k]).Some? ==> LowerStr(Admit(raw[k]).value) in Lowers(r))
  {
    var a := Admitted(raw);
    var r := CleanMustHaves(raw);
    KeepFirstDistinct(a, LowerStr);
    forall c | c in r ensures Admissible(c) {
      var i :| 0 <= i < |r| && r[i] == c;
      OriginsAt(a, LowerStr, i);
      AdmitAdmissible(raw[Origins(a, LowerStr)[i]]);
    }
    forall k | 0 <= k < |raw| && Admit(raw[k]).Some?
      ensures LowerStr(Admit(raw[k]).value) in Lowers(r)
    {
      KeepFirstCovers(a, LowerStr, k);
    }
  }

  /** Appending a text adds its key to the seen set. */
  lemma SeenAppend(xs: seq<string>, c: string, key: string -> string)
    ensures Seen(xs + [c], key) == Seen(xs, key) + {key(c)}
  {
    assert forall x :: x in xs + [c] <==> x in xs || x == c;
  }

  lemma KeepFirstStep(a: seq<Option<string>>, i: nat, key: string -> string)
    requires i < |a|
    ensures KeepFirst(a[..i + 1], key) ==
      if a[i].Some? && key(a[i].value) !in Seen(KeepFirst(a[..i], key), key)
      then KeepFirst(a[..i], key) + [a[i].value] else KeepFirst(a[..i], key)
  {
    assert a[..i + 1][..i] == a[..i];
  }

  /** The cleaning loop of `extract_must_have_with_llm`. */
  method CleanMustHaveList(raw: seq<Json>) returns (clean: seq<string>)
    ensures clean == CleanMustHaves(raw)
  {
    clean := [];
    var seen: set<string> := {};
    ghost var a := Admitted(raw);
    var i := 0;
    while i < |raw|
      invariant 0 <= i <= |raw|
      invariant clean == KeepFirst(a[..i], LowerStr)
      invariant seen == Lowers(clean)
    {
      KeepFirstStep(a, i, LowerStr);
      var mh := raw[i];
      if !mh.JStr? {
        i := i + 1;
        continue;
      }
      var c := Strip(mh.s);
      var lower := LowerStr(c);
      if c == [] || |c| > 100 {
        i := i + 1;
        continue;
      }
      var skip := ScanKeywords(lower);
      if skip {
        i := i + 1;
        continue;
      }
      if lower !in seen {
        SeenAppend(clean, c, LowerStr);
        seen := seen + {lower};
        clean := clean + [c];
      }
      i := i + 1;
    }
    assert a[..i] == a;
  }

  lemma NotContainedChar(s: string, kw: string, c: char)
    requires c in kw && c !in s
    ensures !Contains(s, kw)
  {
    if Contains(s, kw) {
      ContainsChars(s, kw);
    }
  }

  /** "CDI" is dropped as a contract type. */
  lemma CdiDropped()
    ensures Admit(JStr("CDI")).None?
  {
    var s := "CDI";
    assert LowerStr(s) == "cdi";
    assert SkipKeywords[0] == "cdi";
    DroppedBy(s, 0);
  }

  /** "Paris" is dropped as a location. */
  lemma ParisDropped()
    ensures Admit(JStr("Paris")).None?
  {
    var s := "Paris";
    assert LowerStr(s) == "paris";
    assert SkipKeywords[2] == "paris";
    DroppedBy(s, 2);
  }

  /** A stripped text whose lower case starts with a keyword that makes up
      more than 30% of it is dropped. */
  lemma DroppedBy(s: string, k: nat)
    requires k < |SkipKeywords| && s != [] && !IsSpace(s[0]) && !IsSpace(s[|s| - 1])
    requires StartsWith(LowerStr(s), SkipKeywords[k]) && 10 * |SkipKeywords[k]| > 3 * |s|
    ensures Admit(JStr(s)).None?
  {
    assert Strip(s) == s;
    var l := LowerStr(s);
    assert Contains(l, SkipKeywords[k]);
    assert KeywordDominates(SkipKeywords[k], l);
  }

  lemma LowerPythonDjango()
    ensures LowerStr("Python et Django") == "python et django"
  {
  }

  lemma NoKeywordInPythonDjango(k: nat)
    requires k < |SkipKeywords|
    ensures !KeywordDominates(SkipKeywords[k], "python et django")
  {
    var l := "python et django";
    if k == 1 {
      NotContainedChar(l, SkipKeywords[1], 'm');
    } else if k == 2 {
      NotContainedChar(l, SkipKeywords[2], 'r');
    } else if k == 3 {
      NotContainedChar(l, SkipKeywords[3], 'é');
    } else if k == 4 {
      NotContainedChar(l, SkipKeywords[4], 'r');
    } else if k == 5 {
      NotContainedChar(l, SkipKeywords[5], 'r');
    }
  }

  /** "Python et Django" is kept: "cdi" would be under 30% of it, and no
      other keyword occurs in it. */
  lemma PythonDjangoKept()
    ensures Admit(JStr("Python et Django")) == Some("Python et Django")
  {
    var s := "Python et Django";
    StripPythonDjango();
    LowerPythonDjango();
    forall k | 0 <= k < |SkipKeywords| ensures !KeywordDominates(SkipKeywords[k], "python et django") {
      NoKeywordInPythonDjango(k);
    }
    assert !IsLocationContract(LowerStr(Strip(s)));
  }

  lemma StripPythonDjango()
    ensures Strip("Python et Django") == "Python et Django"
  {
    var s := "Python et Django";
    assert !IsSpace(s[0]) && !IsSpace(s[|s| - 1]);
  }

  // ------------------------------------------- sequential must-have filter

  /** `not indispensables or all(not c.strip() for c in indispensables)`:
      a criterion strips to nothing exactly when it is blank
      (`StripEmptyIffBlank`). */
  predicate NoCriteria(crit: seq<string>) {
    forall q :: 0 <= q < |crit| ==> Blank(crit[q])
  }

  method AllBlank(crit: seq<string>) returns (blank: bool)
    ensures blank == NoCriteria(crit)
  {
    blank := true;
    for j := 0 to |crit|
      invariant blank == NoCriteria(crit[..j])
    {
      ghost var was := blank;
      if Strip(crit[j]) != [] {
        blank := false;
      }
      AllBlankStep(crit, j, was, blank);
    }
    assert crit[..|crit|] == crit;
  }

  lemma AllBlankStep(crit: seq<string>, j: nat, was: bool, blank: bool)
    requires j < |crit| && was == NoCriteria(crit[..j])
    requires blank == (was && Strip(crit[j]) == [])
    ensures blank == NoCriteria(crit[..j + 1])
  {
    NoCriteriaStep(crit, j);
    StripEmptyIffBlank(crit[j]);
  }

  lemma NoCriteriaStep(crit: seq<string>, j: nat)
    requires j < |crit|
    ensures NoCriteria(crit[..j + 1]) <==> NoCriteria(crit[..j]) && Blank(crit[j])
  {
    var pre, post := crit[..j], crit[..j + 1];
    assert forall q :: 0 <= q < j ==> post[q] == pre[q];
    assert post[j] == crit[j];
  }

  /** The CVs the decisions accept, in input order. */
  function AcceptedCvs(cvs: seq<Fields>, decide: seq<bool>): (r: seq<Fields>)
    requires |decide| == |cvs|
    ensures |r| <= |cvs|
    decreases |cvs|
  {
    if cvs == [] then []
    else
      var n := |cvs| - 1;
      AcceptedCvs(cvs[..n], decide[..n]) + (if decide[n] then [cvs[n]] else [])
  }

  lemma {:induction false} AcceptedCvsMembers(cvs: seq<Fields>, decide: seq<bool>)
    requires |decide| == |cvs|
    ensures forall x :: x in AcceptedCvs(cvs, decide) <==> exists i :: 0 <= i < |cvs| && decide[i] && cvs[i] == x
    decreases |cvs|
  {
    if cvs != [] {
      var n := |cvs| - 1;
      AcceptedCvsMembers(cvs[..n], decide[..n]);
      forall x ensures x in AcceptedCvs(cvs, decide) <==> exists i :: 0 <= i < |cvs| && decide[i] && cvs[i] == x {
        if x in AcceptedCvs(cvs, decide) && x !in AcceptedCvs(cvs[..n], decide[..n]) {
          assert decide[n] && cvs[n] == x;
        }
        if exists i :: 0 <= i < |cvs| && decide[i] && cvs[i] == x {
          var i :| 0 <= i < |cvs| && decide[i] && cvs[i] == x;
          if i < n {
            assert cvs[..n][i] == x && decide[..n][i];
          }
        }
      }
    }
  }

  /** The sequential path of `filter_cvs_by_must_have`. `decide` holds the
      per-CV verdicts of the language-model check; `progress` records the
      `(current, total)` calls of the callback when one is given. */
  method FilterCvsByMustHave(cvs: seq<Fields>, crit: seq<string>, decide: seq<bool>, hasCallback: bool)
    returns (accepted: seq<Fields>, progress: seq<(nat, nat)>)
    requires |decide| == |cvs|
    ensures NoCriteria(crit) ==> accepted == cvs && progress == []
    ensures !NoCriteria(crit) ==> accepted == AcceptedCvs(cvs, decide)
    ensures !NoCriteria(crit) && hasCallback ==>
      |progress| == |cvs| && forall i :: 0 <= i < |cvs| ==> progress[i] == (i + 1, |cvs|)
    ensures !hasCallback ==> progress == []
  {
    progress := [];
    var blank := AllBlank(crit);
    if blank {
      return cvs, [];
    }
    accepted := [];
    var i := 0;
    while i < |cvs|
      invariant 0 <= i <= |cvs|
      invariant accepted == AcceptedCvs(cvs[..i], decide[..i])
      invariant hasCallback ==> |progress| == i && forall q :: 0 <= q < i ==> progress[q] == (q + 1, |cvs|)
      invariant !hasCallback ==> progress == []
    {
      if hasCallback {
        progress := progress + [(i + 1, |cvs|)];
      }
      assert cvs[..i + 1][..i] == cvs[..i];
      assert decide[..i + 1][..i] == decide[..i];
      if decide[i] {
        accepted := accepted + [cvs[i]];
      }
      i := i + 1;
    }
    assert cvs[..i] == cvs && decide[..i] == decide;
  }

  // --------------------------------------------------------- scoring loop

  /** One entry of the scored list. `cv` is the CV's `"cv"` value or
      `"inconnu"`; `content` is the CV itself. */
  datatype ScoredCv = ScoredCv(
    cv: Json,
    scoreBase: real,
    scoreFinal: real,
    bonus: real,
    manquants: seq<string>,
    nombreManquants: nat,
    content: Fields)

  /** The key the scoring loop reads the nice-have map with:
      `cv.get("cv", f"cv_{idx}")`. */
  function ScoringKey(cv: Fields, idx: nat): Json {
    Lookup(cv, "cv").GetOr(JStr("cv_" + NatToString(idx)))
  }

  /** `factor ** n if n > 0 else 1.0`, not clamped. */
  function Multiplier(n: nat, factor: real): real {
    if n > 0 then Pow(factor, n) else 1.0
  }

  /** For a factor in [0, 1] the scoring loop's multiplier is the core's
      nice-have malus; above 1 it can exceed 1, which the malus cannot. */
  lemma MultiplierIsMalus(n: nat, factor: real)
    ensures 0.0 <= factor <= 1.0 ==> Multiplier(n, factor) == NiceHaveMalus(n, factor)
    ensures Multiplier(1, 2.0) == 2.0 && NiceHaveMalus(1, 2.0) == 1.0
  {
    if 0.0 <= factor <= 1.0 && n > 0 {
      NiceHaveMalusIsPower(n, factor);
    }
  }

  function ScoreOne(cv: Fields, idx: nat, sim: real, niceHaveMap: seq<(Json, seq<string>)>, factor: real): (x: ScoredCv)
    ensures 0.0 <= x.scoreFinal <= 1.0 && x.scoreBase == sim
    ensures x.nombreManquants == |x.manquants|
  {
    var missing := Lookup(niceHaveMap, ScoringKey(cv, idx)).GetOr([]);
    var mult := Multiplier(|missing|, factor);
    ScoredCv(Lookup(cv, "cv").GetOr(JStr("inconnu")), sim, Clamp(sim * mult, 0.0, 1.0), mult, missing, |missing|, cv)
  }

  /** The records of the scoring loop, in input order. */
  function Scores(cvs: seq<Fields>, sims: seq<real>, niceHaveMap: seq<(Json, seq<string>)>, factor: real): (s: seq<ScoredCv>)
    requires |sims| == |cvs|
    ensures |s| == |cvs|
    ensures forall i :: 0 <= i < |cvs| ==> s[i] == ScoreOne(cvs[i], i, sims[i], niceHaveMap, factor)
  {
    seq(|cvs|, i requires 0 <= i < |cvs| => ScoreOne(cvs[i], i, sims[i], niceHaveMap, factor))
  }

  function ScoreFinal(s: ScoredCv): real {
    s.scoreFinal
  }

  /** The scoring step of `compute_similarity_with_scoring`: one record per
      CV from its similarity `sims[i]`, then a stable sort by final score,
      highest first. */
  method ComputeScores(cvs: seq<Fields>, sims: seq<real>, niceHaveMap: seq<(Json, seq<string>)>, factor: real)
    returns (sorted: seq<ScoredCv>)
    requires |sims| == |cvs|
    ensures sorted == SortDesc(Scores(cvs, sims, niceHaveMap, factor), ScoreFinal, RealLess)
  {
    var scores: seq<ScoredCv> := [];
    ghost var all := Scores(cvs, sims, niceHaveMap, factor);
    var i := 0;
    while i < |cvs|
      invariant 0 <= i <= |cvs|
      invariant scores == all[..i]
    {
      var cvId := ScoringKey(cvs[i], i);
      var missing := Lookup(niceHaveMap, cvId).GetOr([]);
      var n := |missing|;
      var mult := Multiplier(n, factor);
      var final := sims[i] * mult;
      final := Clamp(final, 0.0, 1.0);
      var record := ScoredCv(Lookup(cvs[i], "cv").GetOr(JStr("inconnu")), sims[i], final, mult, missing, n, cvs[i]);
      assert record == ScoreOne(cvs[i], i, sims[i], niceHaveMap, factor);
      scores := scores + [record];
      assert all[..i + 1] == all[..i] + [all[i]];
      i := i + 1;
    }
    assert all[..i] == all;
    sorted := SortDesc(scores, ScoreFinal, RealLess);
  }

  /** The scored list has one record per CV, every final score in [0, 1], is
      sorted by final score with the highest first, and keeps the input order
      among equal scores. A CV whose key is absent from the nice-have map
      counts nothing missing and keeps its clamped similarity. */
  lemma ScoresProperties(cvs: seq<Fields>, sims: seq<real>, niceHaveMap: seq<(Json, seq<string>)>, factor: real, score: real)
    requires |sims| == |cvs|
    ensures var s := Scores(cvs, sims, niceHaveMap, factor);
      var r := SortDesc(s, ScoreFinal, RealLess);
      && |r| == |cvs| && multiset(r) == multiset(s)
      && SortedDesc(r, ScoreFinal, RealLess)
      && WithKey(r, ScoreFinal, score) == WithKey(s, ScoreFinal, score)
      && (forall x :: x in r ==> 0.0 <= x.scoreFinal <= 1.0)
    ensures forall i :: 0 <= i < |cvs| && !HasKey(niceHaveMap, ScoringKey(cvs[i], i)) ==>
      var x := ScoreOne(cvs[i], i, sims[i], niceHaveMap, factor);
      x.nombreManquants == 0 && x.bonus == 1.0 && x.scoreFinal == Clamp(sims[i], 0.0, 1.0)
  {
    var s := Scores(cvs, sims, niceHaveMap, factor);
    var r := SortDesc(s, ScoreFinal, RealLess);
    RealLessAsymmetric();
    SortDescSorted(s, ScoreFinal, RealLess);
    SortDescStable(s, ScoreFinal, RealLess, score);
    forall x | x in r
      ensures 0.0 <= x.scoreFinal <= 1.0
    {
      assert x in multiset(s);
      var i :| 0 <= i < |s| && s[i] == x;
    }
  }

  /** With a factor in [0, 1] a final score is the core's final score with a
      neutral coefficient. */
  lemma ScoreOneIsFinalScore(cv: Fields, idx: nat, sim: real, niceHaveMap: seq<(Json, seq<string>)>, factor: real)
    requires 0.0 <= factor <= 1.0
    ensures var x := ScoreOne(cv, idx, sim, niceHaveMap, factor);
      x.scoreFinal == FinalScore(sim, NiceHaveMalus(x.nombreManquants, factor), 1.0)
  {
    var x := ScoreOne(cv, idx, sim, niceHaveMap, factor);
    var n := |Lookup(niceHaveMap, ScoringKey(cv, idx)).GetOr([])|;
    assert x.nombreManquants == n && x.scoreFinal == Clamp(sim * Multiplier(n, factor), 0.0, 1.0);
    MultiplierIsMalus(n, factor);
    assert sim * NiceHaveMalus(n, factor) * 1.0 == sim * Multiplier(n, factor);
  }

  // ------------------------------------------------------ re-rank input

  /** `top_cvs[:top_n]`, or `top_cvs[:top_rerank]` with the configured size
      when no size is passed. */
  function SelectForRerank(top: seq<ScoredCv>, topN: Option<int>, configTopRerank: int): seq<ScoredCv> {
    Prefix(top, topN.GetOr(configTopRerank))
  }

  /** The selection is a prefix of the scored list, of the requested size
      when that is non-negative and no larger than the list. */
  lemma SelectForRerankPrefix(top: seq<ScoredCv>, topN: Option<int>, configTopRerank: int)
    ensures var r := SelectForRerank(top, topN, configTopRerank);
      var n := topN.GetOr(configTopRerank);
      && r == top[..|r|]
      && (0 <= n <= |top| ==> |r| == n)
      && (n > |top| ==> r == top)
  {
  }

  /** A date argument of `parse_date`: a falsy value reads as absent, a
      string is parsed, and any other value has no `lower()`. */
  function DateArg(j: Json): Result<Option<string>> {
    if !Truthy(j) then Ok(None)
    else if j.JStr? then Ok(Some(j.s))
    else Err("AttributeError: 'lower'")
  }

  /** One experience dict as the timeline analyser reads it: its two dates,
      and its employer as given, shown through `str()` (`render`) when it
      is not a string. */
  function ExperienceOf(j: Json, render: Json -> string): (r: Result<ExperienceAnalyzer.RawExperience>)
    ensures r.Ok? <==> j.JObj? && DateArg(Get(j, "date_debut", JStr(""))).Ok? && DateArg(Get(j, "date_fin", JStr(""))).Ok?
    ensures r.Ok? ==> r.value.dateDebut == DateArg(Get(j, "date_debut", JStr(""))).value
    ensures r.Ok? ==> r.value.dateFin == DateArg(Get(j, "date_fin", JStr(""))).value
    ensures r.Ok? ==> var e := Get(j, "entreprise", JStr("Inconnu"));
      r.value.entreprise == (if e.JStr? then Named(e.s) else Unnamed(render(e)))
  {
    if !j.JObj? then Err("AttributeError: 'get'")
    else
      var e := Get(j, "entreprise", JStr("Inconnu"));
      var company := if e.JStr? then Named(e.s) else Unnamed(render(e));
      match DateArg(Get(j, "date_debut", JStr("")))
      case Err(m) => Err(m)
      case Ok(debut) =>
        match DateArg(Get(j, "date_fin", JStr("")))
        case Err(m) => Err(m)
        case Ok(fin) => Ok(ExperienceAnalyzer.RawExperience(debut, fin, company))
  }

  function ExperiencesOf(xs: seq<Json>, render: Json -> string): (r: Result<seq<ExperienceAnalyzer.RawExperience>>)
    ensures r.Ok? <==> forall i :: 0 <= i < |xs| ==> ExperienceOf(xs[i], render).Ok?
    ensures r.Ok? ==> |r.value| == |xs| && forall i :: 0 <= i < |xs| ==> r.value[i] == ExperienceOf(xs[i], render).value
    decreases |xs|
  {
    if xs == [] then Ok([])
    else
      var init := ExperiencesOf(xs[..|xs| - 1], render);
      assert forall i :: 0 <= i < |xs| - 1 ==> xs[..|xs| - 1][i] == xs[i];
      match init
      case Err(m) => Err(m)
      case Ok(init) =>
        match ExperienceOf(xs[|xs| - 1], render)
        case Err(m) => Err(m)
        case Ok(e) => Ok(init + [e])
  }

  /** `flags_raw`: the detected flags as plain dicts. */
  function GapJson(g: Gap): Json {
    JObj([("period", JStr(ExperienceAnalyzer.GapPeriod(g))), ("duration_months", JInt(g.durationMonths)),
          ("between", JStr(ExperienceAnalyzer.GapBetween(g)))])
  }

  function OverlapJson(o: Overlap): Json {
    JObj([("overlap_period", JStr(ExperienceAnalyzer.OverlapPeriod(o))), ("overlap_days", JInt(o.overlapDays)),
          ("experiences", JStr(ExperienceAnalyzer.OverlapExperiences(o))), ("same_company", JBool(o.sameCompany))])
  }

  function FlagsJson(f: Flags): (j: Json)
    ensures j.JObj? && Truthy(j)
  {
    JObj([("gappes", JList(seq(|f.gappes|, i requires 0 <= i < |f.gappes| => GapJson(f.gappes[i])))),
          ("overlaps", JList(seq(|f.overlaps|, i requires 0 <= i < |f.overlaps| => OverlapJson(f.overlaps[i]))))])
  }

  /** What the summary step keeps of one selected CV: its name, the
      candidate's name, the number of experiences, the detected flags and
      the nice-have criteria reported present. */
  datatype Summary = Summary(
    nomFichier: Json,
    candidateName: Json,
    experienceCount: nat,
    flags: Flags,
    niceHavePresents: set<string>)

  /** The local names bound in `rerank_with_llm` when the presence test
      runs: the list of nice-have criteria is not among them. */
  const RerankLocals: set<string> := {
    "self", "top_cvs", "job_description", "progress_callback", "top_n", "top_rerank",
    "cvs_to_rerank", "cv_names", "cv_summaries", "i", "cv", "cv_name", "score_base",
    "score_final", "bonus_nice_have", "nice_have_manquants", "cv_content", "sections",
    "identite", "candidate_first_name", "candidate_last_name", "candidate_name",
    "all_experiences", "detect_gaps", "format_flags", "flags", "flags_summary"}

  /** `set(nice_have_list) - set(manquants)` when `nice_have_list` is a bound
      local name and non-empty, else nothing. */
  function NiceHavePresents(locals: set<string>, niceHaveList: seq<string>, manquants: seq<string>): set<string> {
    if "nice_have_list" in locals && niceHaveList != [] then
      (set x | x in niceHaveList) - (set x | x in manquants)
    else {}
  }

  /** The presence test never sees the criteria list, so no nice-have is
      ever reported present to the re-ranker. */
  lemma NiceHavePresentsAlwaysEmpty(niceHaveList: seq<string>, manquants: seq<string>)
    ensures NiceHavePresents(RerankLocals, niceHaveList, manquants) == {}
  {
  }

  /** `(x or '').strip()` for a name part. */
  function NamePart(j: Json): Result<string> {
    if !Truthy(j) then Ok([])
    else if j.JStr? then Ok(Strip(j.s))
    else Err("AttributeError: 'strip'")
  }

  /** The summary of one selected CV; reading a non-dict identity or
      sections block, or an experience the analyser cannot read, raises. */
  function SummaryOf(cv: ScoredCv, now: Date, render: Json -> string, niceHaveList: seq<string>): (r: Result<Summary>)
    requires ExperienceAnalyzer.ValidDate(now)
    ensures r.Ok? ==> r.value.nomFichier == cv.cv && r.value.niceHavePresents == {}
  {
    var sections := Lookup(cv.content, "sections").GetOr(JObj(cv.content));
    var identite := if sections.JObj? then Get(sections, "identite", JObj([])) else JObj([]);
    if !identite.JObj? then Err("AttributeError: 'get'")
    else
      match NamePart(Get(identite, "prenom", JNull))
      case Err(m) => Err(m)
      case Ok(first) =>
        match NamePart(Get(identite, "nom", JNull))
        case Err(m) => Err(m)
        case Ok(last) =>
          var full := Strip(first + " " + last);
          var candidate := if full == [] then cv.cv else JStr(full);
          if !sections.JObj? then Err("AttributeError: 'get'")
          else
            var exps := ListOrEmpty(Get(sections, "experiences_professionnelles", JNull));
            match ExperiencesOf(exps, render)
            case Err(m) => Err(m)
            case Ok(raw) =>
              match ExperienceAnalyzer.DetectFlags(raw, now)
              case Err(m) => Err(m)
              case Ok(flags) =>
                NiceHavePresentsAlwaysEmpty(niceHaveList, cv.manquants);
                Ok(Summary(cv.cv, candidate, |exps|, flags, NiceHavePresents(RerankLocals, niceHaveList, cv.manquants)))
  }

  /** The summaries of the selected CVs, in order; the first failure escapes. */
  function Summaries(sel: seq<ScoredCv>, now: Date, render: Json -> string, niceHaveList: seq<string>): (r: Result<seq<Summary>>)
    requires ExperienceAnalyzer.ValidDate(now)
    decreases |sel|
  {
    if sel == [] then Ok([])
    else
      match Summaries(sel[..|sel| - 1], now, render, niceHaveList)
      case Err(m) => Err(m)
      case Ok(init) =>
        match SummaryOf(sel[|sel| - 1], now, render, niceHaveList)
        case Err(m) => Err(m)
        case Ok(x) => Ok(init + [x])
  }

  /** One summary per selected CV, each under the CV's file name. */
  lemma {:induction false} SummariesShape(sel: seq<ScoredCv>, now: Date, render: Json -> string, niceHaveList: seq<string>)
    requires ExperienceAnalyzer.ValidDate(now)
    ensures var r := Summaries(sel, now, render, niceHaveList);
      r.Ok? ==> |r.value| == |sel| && forall i :: 0 <= i < |sel| ==> r.value[i].nomFichier == sel[i].cv
    decreases |sel|
  {
    if sel != [] {
      var init := sel[..|sel| - 1];
      SummariesShape(init, now, render, niceHaveList);
      var r := Summaries(sel, now, render, niceHaveList);
      if r.Ok? {
        var prev := Summaries(init, now, render, niceHaveList).value;
        var x := SummaryOf(sel[|sel| - 1], now, render, niceHaveList).value;
        assert r.value == prev + [x];
        forall i | 0 <= i < |sel| ensures r.value[i].nomFichier == sel[i].cv {
          if i < |sel| - 1 {
            assert r.value[i] == prev[i] && init[i] == sel[i];
          }
        }
      }
    }
  }

  lemma SummariesStep(sel: seq<ScoredCv>, now: Date, render: Json -> string, niceHaveList: seq<string>, i: nat)
    requires ExperienceAnalyzer.ValidDate(now) && i < |sel|
    ensures Summaries(sel[..i + 1], now, render, niceHaveList) ==
      match Summaries(sel[..i], now, render, niceHaveList)
      case Err(m) => Err(m)
      case Ok(init) =>
        match SummaryOf(sel[i], now, render, niceHaveList)
        case Err(m) => Err(m)
        case Ok(x) => Ok(init + [x])
  {
    assert sel[..i + 1][..i] == sel[..i];
  }

  /** The summary loop of `rerank_with_llm`. */
  method BuildSummaries(sel: seq<ScoredCv>, now: Date, render: Json -> string, niceHaveList: seq<string>)
    returns (r: Result<seq<Summary>>)
    requires ExperienceAnalyzer.ValidDate(now)
    ensures r == Summaries(sel, now, render, niceHaveList)
  {
    var acc: seq<Summary> := [];
    var i := 0;
    while i < |sel|
      invariant 0 <= i <= |sel|
      invariant Summaries(sel[..i], now, render, niceHaveList) == Ok(acc)
    {
      SummariesStep(sel, now, render, niceHaveList, i);
      var x := SummaryOf(sel[i], now, render, niceHaveList);
      if x.Err? {
        SummariesErr(sel, now, render, niceHaveList, i + 1);
        return Err(x.error);
      }
      acc := acc + [x.value];
      i := i + 1;
    }
    assert sel[..i] == sel;
    return Ok(acc);
  }

  /** A failure on a prefix is the failure of the whole list. */
  lemma {:induction false} SummariesErr(sel: seq<ScoredCv>, now: Date, render: Json -> string, niceHaveList: seq<string>, n: nat)
    requires ExperienceAnalyzer.ValidDate(now) && n <= |sel|
    requires Summaries(sel[..n], now, render, niceHaveList).Err?
    ensures Summaries(sel, now, render, niceHaveList) == Summaries(sel[..n], now, render, niceHaveList)
    decreases |sel| - n
  {
    if n < |sel| {
      SummariesStep(sel, now, render, niceHaveList, n);
      SummariesErr(sel, now, render, niceHaveList, n + 1);
    } else {
      assert sel[..n] == sel;
    }
  }

  // -------------------------------------------------- re-ranking answer

  /** One re-ranked entry as the router reads it; `candidateName` is absent
      from fallback entries. */
  datatype RerankedCv = RerankedCv(
    cv: Json,
    candidateName: Option<Json>,
    coefficient: Json,
    commentaire: Json,
    appreciation: Json,
    evidences: Json,
    evidenceMap: Json,
    flagsRaw: Json)

  /** A value Python can use as a dict key: lists and dicts cannot. */
  predicate Hashable(j: Json) {
    !j.JList? && !j.JObj?
  }

  /** The dict items of a list, in order. */
  function DictItems(xs: seq<Json>): (r: seq<Json>)
    ensures |r| <= |xs|
    ensures forall x :: x in r ==> x.JObj? && x in xs
    ensures forall x :: x in xs && x.JObj? ==> x in r
    decreases |xs|
  {
    if xs == [] then []
    else
      var x := xs[|xs| - 1];
      DictItems(xs[..|xs| - 1]) + (if x.JObj? then [x] else [])
  }

  /** `{s['nom_fichier']: s for s in cv_summaries}`: a later summary of the
      same name replaces an earlier one. */
  function SummaryIndex(summaries: seq<Summary>): seq<(Json, Summary)>
    decreases |summaries|
  {
    if summaries == [] then []
    else
      var last := summaries[|summaries| - 1];
      Put(SummaryIndex(summaries[..|summaries| - 1]), last.nomFichier, last)
  }

  /** One entry of the enriched answer; an unhashable name cannot be looked up. */
  function EnrichOne(item: Json, byName: seq<(Json, Summary)>): (r: Result<RerankedCv>)
    ensures r.Ok? <==> Hashable(Get(item, "cv", JStr("inconnu")))
    ensures r.Ok? ==> r.value.cv == Get(item, "cv", JStr("inconnu"))
  {
    var name := Get(item, "cv", JStr("inconnu"));
    if !Hashable(name) then Err("TypeError: unhashable type")
    else
      var summary := Lookup(byName, name);
      var candidate := if summary.Some? && Truthy(summary.value.candidateName) then summary.value.candidateName else name;
      Ok(RerankedCv(
        name,
        Some(candidate),
        Get(item, "coefficient_qualite_experience", JFloat(1.0)),
        Get(item, "commentaire_scoring", JStr("")),
        Get(item, "appreciation_globale", JStr("")),
        GetOrIfFalsy(item, "evidences", JList([])),
        GetOrIfFalsy(item, "evidence_map", JObj([])),
        if summary.Some? then FlagsJson(summary.value.flags) else JObj([])))
  }

  function EnrichAll(items: seq<Json>, byName: seq<(Json, Summary)>): (r: Result<seq<RerankedCv>>)
    ensures r.Ok? ==> |r.value| == |items|
    ensures r.Ok? ==> forall i :: 0 <= i < |items| ==> EnrichOne(items[i], byName) == Ok(r.value[i])
    decreases |items|
  {
    if items == [] then Ok([])
    else
      match EnrichAll(items[..|items| - 1], byName)
      case Err(m) => Err(m)
      case Ok(init) =>
        match EnrichOne(items[|items| - 1], byName)
        case Err(m) => Err(m)
        case Ok(x) => Ok(init + [x])
  }

  /** The dict entries of the answer's `ranked_cvs` list; anything else
      yields none. */
  function ValidRanked(answer: Json): seq<Json> {
    if answer.JObj? && HasKey(answer.fields, "ranked_cvs") then
      var data := Lookup(answer.fields, "ranked_cvs").value;
      if data.JList? then DictItems(data.items) else []
    else []
  }

  /** `_rerank_with_openai` after the call: the answer must be a dict with a
      `ranked_cvs` list holding at least one dict, and every name must be
      usable as a key. */
  function RerankFromAnswer(answer: Json, sel: seq<ScoredCv>, summaries: seq<Summary>): Result<seq<RerankedCv>> {
    var valid := ValidRanked(answer);
    if !(answer.JObj? && HasKey(answer.fields, "ranked_cvs")) then Err("ValueError: no 'ranked_cvs' key")
    else if valid == [] then Err("ValueError: no valid CV in ranked_cvs")
    else if exists i :: 0 <= i < |sel| && !Hashable(sel[i].cv) then Err("TypeError: unhashable type")
    else EnrichAll(valid, SummaryIndex(summaries))
  }

  lemma EnrichAllStep(items: seq<Json>, byName: seq<(Json, Summary)>, i: nat)
    requires i < |items|
    ensures EnrichAll(items[..i + 1], byName) ==
      match EnrichAll(items[..i], byName)
      case Err(m) => Err(m)
      case Ok(init) =>
        match EnrichOne(items[i], byName)
        case Err(m) => Err(m)
        case Ok(x) => Ok(init + [x])
  {
    assert items[..i + 1][..i] == items[..i];
  }

  lemma {:induction false} EnrichAllErr(items: seq<Json>, byName: seq<(Json, Summary)>, n: nat)
    requires n <= |items| && EnrichAll(items[..n], byName).Err?
    ensures EnrichAll(items, byName) == EnrichAll(items[..n], byName)
    decreases |items| - n
  {
    if n < |items| {
      EnrichAllStep(items, byName, n);
      EnrichAllErr(items, byName, n + 1);
    } else {
      assert items[..n] == items;
    }
  }

  /** The enrichment loop of `_rerank_with_openai`. */
  method EnrichAnswer(valid: seq<Json>, byName: seq<(Json, Summary)>) returns (r: Result<seq<RerankedCv>>)
    ensures r == EnrichAll(valid, byName)
  {
    var out: seq<RerankedCv> := [];
    var i := 0;
    while i < |valid|
      invariant 0 <= i <= |valid|
      invariant EnrichAll(valid[..i], byName) == Ok(out)
    {
      EnrichAllStep(valid, byName, i);
      var x := EnrichOne(valid[i], byName);
      if x.Err? {
        EnrichAllErr(valid, byName, i + 1);
        return Err(x.error);
      }
      out := out + [x.value];
      i := i + 1;
    }
    assert valid[..i] == valid;
    return Ok(out);
  }

  /** An accepted answer yields exactly one entry per dict in `ranked_cvs`,
      in the answer's order, named as the answer names it (`"inconnu"` when
      it does not). */
  lemma RerankFromAnswerShape(answer: Json, sel: seq<ScoredCv>, summaries: seq<Summary>)
    ensures var r := RerankFromAnswer(answer, sel, summaries);
      var valid := ValidRanked(answer);
      r.Ok? ==> && 1 <= |r.value| == |valid|
                && forall i :: 0 <= i < |valid| ==> r.value[i].cv == Get(valid[i], "cv", JStr("inconnu"))
    ensures !(answer.JObj? && HasKey(answer.fields, "ranked_cvs")) ==> RerankFromAnswer(answer, sel, summaries).Err?
    ensures ValidRanked(answer) == [] ==> RerankFromAnswer(answer, sel, summaries).Err?
  {
  }

  // ---------------------------------------------------------- fallback

  function PairScore(p: (ScoredCv, Summary)): real {
    p.0.scoreFinal
  }

  function Zip(sel: seq<ScoredCv>, summaries: seq<Summary>): (z: seq<(ScoredCv, Summary)>)
    requires |summaries| == |sel|
    ensures |z| == |sel|
    ensures forall i :: 0 <= i < |sel| ==> z[i] == (sel[i], summaries[i])
  {
    seq(|sel|, i requires 0 <= i < |sel| => (sel[i], summaries[i]))
  }

  const FallbackAppreciation: string :=
    "Analyse qualitative indisponible suite à une erreur du service de reranking LLM. "
    + "Les scores quantitatifs (embeddings + nice-have) sont valides. "
    + "Coefficient qualité fixé à 1.0 (neutre) en l'absence d'analyse RH automatisée. "
    + "Recommandation : Effectuer une analyse manuelle du CV ou relancer le matching."

  /** The fallback comment: the first 100 characters of the error and the
      three scores, each rendered by `fmt3` with three decimals. */
  function FallbackComment(err: string, s: ScoredCv, fmt3: real -> string): string {
    "⚠️ Re-ranking LLM indisponible (erreur: " + Prefix(err, 100) + "). "
    + "Score base: " + fmt3(s.scoreBase) + ", "
    + "Bonus nice-have: " + fmt3(s.bonus) + ", "
    + "Score final: " + fmt3(s.scoreFinal) + ". "
    + "Tri automatique par score final (coefficient neutre appliqué)."
  }

  /** One fallback entry: neutral coefficient, no evidence, and the detected
      flags when the CV lists experiences. */
  function FallbackEntry(p: (ScoredCv, Summary), err: string, fmt3: real -> string): RerankedCv {
    var s := p.0;
    RerankedCv(
      if Truthy(s.cv) then s.cv else JStr("inconnu"),
      None,
      JFloat(1.0),
      JStr(FallbackComment(err, s, fmt3)),
      JStr(FallbackAppreciation),
      JList([]),
      JObj([]),
      if p.1.experienceCount > 0 then FlagsJson(p.1.flags) else JObj([]))
  }

  /** The selected CVs by final score, highest first, ties in selection order. */
  function FallbackOrder(sel: seq<ScoredCv>, summaries: seq<Summary>): seq<(ScoredCv, Summary)>
    requires |summaries| == |sel|
  {
    SortDesc(Zip(sel, summaries), PairScore, RealLess)
  }

  function Fallback(sel: seq<ScoredCv>, summaries: seq<Summary>, err: string, fmt3: real -> string): (r: seq<RerankedCv>)
    requires |summaries| == |sel|
    ensures |r| == |sel|
  {
    var order := FallbackOrder(sel, summaries);
    seq(|order|, i requires 0 <= i < |order| => FallbackEntry(order[i], err, fmt3))
  }

  /** The fallback loop of `rerank_with_llm`. */
  method BuildFallback(sel: seq<ScoredCv>, summaries: seq<Summary>, err: string, fmt3: real -> string)
    returns (r: seq<RerankedCv>)
    requires |summaries| == |sel|
    ensures r == Fallback(sel, summaries, err, fmt3)
  {
    var order := SortDesc(Zip(sel, summaries), PairScore, RealLess);
    r := [];
    var i := 0;
    while i < |order|
      invariant 0 <= i <= |order|
      invariant |r| == i
      invariant forall q :: 0 <= q < i ==> r[q] == FallbackEntry(order[q], err, fmt3)
    {
      r := r + [FallbackEntry(order[i], err, fmt3)];
      i := i + 1;
    }
  }

  /** The fallback returns one entry per selected CV, ordered by final score
      with the highest first, each with coefficient 1.0, no evidences and an
      empty evidence map. */
  lemma FallbackProperties(sel: seq<ScoredCv>, summaries: seq<Summary>, err: string, fmt3: real -> string)
    requires |summaries| == |sel|
    ensures var r := Fallback(sel, summaries, err, fmt3);
      var order := FallbackOrder(sel, summaries);
      && |r| == |sel| && |order| == |sel|
      && multiset(order) == multiset(Zip(sel, summaries))
      && SortedDesc(order, PairScore, RealLess)
      && (forall i :: 0 <= i < |r| ==>
            && r[i].coefficient == JFloat(1.0)
            && r[i].evidences == JList([])
            && r[i].evidenceMap == JObj([])
            && r[i].cv == (if Truthy(order[i].0.cv) then order[i].0.cv else JStr("inconnu")))
  {
    RealLessAsymmetric();
    SortDescSorted(Zip(sel, summaries), PairScore, RealLess);
  }

  // ------------------------------------------------------ rerank_with_llm

  /** `rerank_with_llm` with the OpenAI provider. `answer` is the parsed
      answer of the language model, or the exception its call raised;
      `now` is the clock reading the date parser uses. A failure while
      summarising escapes; a failure of the answer turns into the fallback. */
  function RerankSpec(top: seq<ScoredCv>, topN: Option<int>, configTopRerank: int, niceHaveList: seq<string>,
                      now: Date, render: Json -> string, answer: Result<Json>, fmt3: real -> string): (r: Result<seq<RerankedCv>>)
    requires ExperienceAnalyzer.ValidDate(now)
    ensures r.Err? ==> Summaries(SelectForRerank(top, topN, configTopRerank), now, render, niceHaveList).Err?
    ensures r.Ok? && answer.Err? ==> |r.value| == |SelectForRerank(top, topN, configTopRerank)|
  {
    var sel := SelectForRerank(top, topN, configTopRerank);
    SummariesShape(sel, now, render, niceHaveList);
    match Summaries(sel, now, render, niceHaveList)
    case Err(m) => Err(m)
    case Ok(summaries) =>
      var attempt := if answer.Err? then Err(answer.error) else RerankFromAnswer(answer.value, sel, summaries);
      if attempt.Ok? then attempt else Ok(Fallback(sel, summaries, attempt.error, fmt3))
  }

  /** The `try` block of `rerank_with_llm` once the model has answered. */
  method AttemptFromAnswer(answer: Json, sel: seq<ScoredCv>, summaries: seq<Summary>) returns (attempt: Result<seq<RerankedCv>>)
    ensures attempt == RerankFromAnswer(answer, sel, summaries)
  {
    var valid := ValidRanked(answer);
    if !(answer.JObj? && HasKey(answer.fields, "ranked_cvs")) {
      attempt := Err("ValueError: no 'ranked_cvs' key");
    } else if valid == [] {
      attempt := Err("ValueError: no valid CV in ranked_cvs");
    } else if exists i :: 0 <= i < |sel| && !Hashable(sel[i].cv) {
      attempt := Err("TypeError: unhashable type");
    } else {
      attempt := EnrichAnswer(valid, SummaryIndex(summaries));
    }
  }

  method RerankWithLlm(top: seq<ScoredCv>, topN: Option<int>, configTopRerank: int, niceHaveList: seq<string>,
                       now: Date, render: Json -> string, answer: Result<Json>, fmt3: real -> string)
    returns (r: Result<seq<RerankedCv>>)
    requires ExperienceAnalyzer.ValidDate(now)
    ensures r == RerankSpec(top, topN, configTopRerank, niceHaveList, now, render, answer, fmt3)
  {
    var sel := if topN.Some? then Prefix(top, topN.value) else Prefix(top, configTopRerank);
    var summaries := BuildSummaries(sel, now, render, niceHaveList);
    SummariesShape(sel, now, render, niceHaveList);
    if summaries.Err? {
      return Err(summaries.error);
    }
    var attempt: Result<seq<RerankedCv>>;
    if answer.Err? {
      attempt := Err(answer.error);
    } else {
      attempt := AttemptFromAnswer(answer.value, sel, summaries.value);
    }
    if attempt.Ok? {
      return attempt;
    }
    var fallback := BuildFallback(sel, summaries.value, attempt.error, fmt3);
    return Ok(fallback);
  }

  /** Whatever the answer, re-ranking either escapes with the summary
      failure or returns entries: one per dict of an accepted answer, or one
      per selected CV in the fallback. */
  lemma RerankOutcomes(top: seq<ScoredCv>, topN: Option<int>, configTopRerank: int, niceHaveList: seq<string>,
                       now: Date, render: Json -> string, answer: Result<Json>, fmt3: real -> string)
    requires ExperienceAnalyzer.ValidDate(now)
    ensures var sel := SelectForRerank(top, topN, configTopRerank);
      var r := RerankSpec(top, topN, configTopRerank, niceHaveList, now, render, answer, fmt3);
      && (r.Err? <==> Summaries(sel, now, render, niceHaveList).Err?)
      && (r.Ok? && answer.Err? ==> |r.value| == |sel| && forall x :: x in r.value ==> x.coefficient == JFloat(1.0))
      && (r.Ok? && answer.Ok? && ValidRanked(answer.value) == [] ==> |r.value| == |sel|)
  {
    var sel := SelectForRerank(top, topN, configTopRerank);
    var sm := Summaries(sel, now, render, niceHaveList);
    SummariesShape(sel, now, render, niceHaveList);
    if sm.Ok? {
      if answer.Err? {
        FallbackProperties(sel, sm.value, answer.error, fmt3);
      }
      if answer.Ok? {
        RerankFromAnswerShape(answer.value, sel, sm.value);
      }
    }
  }

  // ----------------------------------------------------- normalisation

  /** One normalised re-ranking item. */
  datatype Normalized = Normalized(cv: Json, commentaire: Json, appreciation: Json, score: Json)

  /** One item: non-dicts and nameless items are dropped; when both comment
      fields are empty the older `commentaire`/`justification` field fills
      the appreciation. */
  function NormalizeItem(it: Json): Option<Normalized> {
    if !it.JObj? then None
    else
      var c := Get(it, "cv", JNull);
      var name := if Truthy(c) then c else Get(it, "cv_id", JNull);
      if !Truthy(name) then None
      else
        var comment := Get(it, "commentaire_scoring", JStr(""));
        var appreciation := Get(it, "appreciation_globale", JStr(""));
        var legacy := Get(it, "commentaire", JNull);
        var appreciation' :=
          if !Truthy(comment) && !Truthy(appreciation) then
            (if Truthy(legacy) then legacy else Get(it, "justification", JStr("")))
          else appreciation;
        Some(Normalized(name, comment, appreciation', Get(it, "score", JFloat(0.0))))
  }

  function NormalizeItems(items: seq<Json>): (r: seq<Normalized>)
    ensures |r| <= |items|
    ensures forall x :: x in r ==> Truthy(x.cv)
    decreases |items|
  {
    if items == [] then []
    else
      var n := NormalizeItem(items[|items| - 1]);
      NormalizeItems(items[..|items| - 1]) + (if n.Some? then [n.value] else [])
  }

  /** The items `_normalize_reranked` iterates: a dict's `ranked_cvs`, a
      list itself; any other value gives none. Iterating a dict or a string
      yields no dict; iterating any other value raises. */
  function NormalizeSpec(result: Json): Result<seq<Normalized>> {
    if result.JObj? || result.JList? then
      var items := if result.JObj? then Get(result, "ranked_cvs", JList([])) else result;
      if items.JList? then Ok(NormalizeItems(items.items))
      else if items.JObj? || items.JStr? then Ok([])
      else Err("TypeError: object is not iterable")
    else Ok([])
  }

  method NormalizeReranked(result: Json) returns (r: Result<seq<Normalized>>)
    ensures r == NormalizeSpec(result)
  {
    var items: Json;
    if result.JObj? {
      items := Get(result, "ranked_cvs", JList([]));
    } else if result.JList? {
      items := result;
    } else {
      return Ok([]);
    }
    if items.JObj? || items.JStr? {
      return Ok([]);
    }
    if !items.JList? {
      return Err("TypeError: object is not iterable");
    }
    var xs := items.items;
    var out: seq<Normalized> := [];
    var i := 0;
    while i < |xs|
      invariant 0 <= i <= |xs|
      invariant out == NormalizeItems(xs[..i])
    {
      ghost var before := out;
      var n := NormalizeItem(xs[i]);
      if n.Some? {
        out := out + [n.value];
      }
      NormalizeItemsStep(before, out, xs, i);
      i := i + 1;
    }
    assert xs[..i] == xs;
    return Ok(out);
  }

  lemma NormalizeItemsStep(before: seq<Normalized>, out: seq<Normalized>, xs: seq<Json>, i: nat)
    requires i < |xs| && before == NormalizeItems(xs[..i])
    requires out == before + (if NormalizeItem(xs[i]).Some? then [NormalizeItem(xs[i]).value] else [])
    ensures out == NormalizeItems(xs[..i + 1])
  {
    assert xs[..i + 1][..i] == xs[..i];
  }

  /** A dict answer normalises as its `ranked_cvs` list does; every kept item
      is named; a value other than a dict or a list gives nothing; and the
      appreciation falls back to the older comment fields only when both
      current comment fields are empty. */
  lemma NormalizeProperties(items: seq<Json>, other: Json, it: Json)
    ensures NormalizeSpec(JObj([("ranked_cvs", JList(items))])) == NormalizeSpec(JList(items))
    ensures NormalizeSpec(JList(items)).Ok?
    ensures forall x :: x in NormalizeSpec(JList(items)).value ==> Truthy(x.cv)
    ensures !other.JObj? && !other.JList? ==> NormalizeSpec(other) == Ok([])
    ensures NormalizeItem(it).Some? && (Truthy(Get(it, "commentaire_scoring", JStr(""))) || Truthy(Get(it, "appreciation_globale", JStr(""))))
      ==> NormalizeItem(it).value.appreciation == Get(it, "appreciation_globale", JStr(""))
    ensures it.JObj? && !Truthy(Get(it, "cv", JNull)) && !Truthy(Get(it, "cv_id", JNull)) ==> NormalizeItem(it).None?
  {
  }
}
