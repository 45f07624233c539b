/** The enterprise manager: enterprise identifiers made from enterprise
    names, and the number of active projects written into each enterprise
    record it returns. The project table is a parameter. */
module EnterpriseManager {
  import opened Wrappers
  import opened Text
  import opened JsonValue
  import opened Assoc
  import opened PyOps
  import opened StableSort

  // ------------------------------------------------------- enterprise ids

  /** `\w` over Latin-1: letters, digits (including the superscripts and
      vulgar fractions, which Python counts as numeric) and `_`. */
  predicate IsWordChar(c: char) {
    IsAsciiUpper(c) || IsAsciiLower(c) || IsDigit(c) || c == '_'
    || c == 'ª' || c == '²' || c == '³' || c == 'µ' || c == '¹' || c == 'º'
    || ('¼' <= c <= '¾') || ('À' <= c <= 'ÿ' && c != '×' && c != '÷')
  }

  /** The characters `[\w\s-]` that survive the first substitution. */
  predicate IdKeep(c: char) { IsWordChar(c) || IsSpace(c) || c == '-' }

  /** The class `[-\s]` whose runs become one hyphen. */
  predicate DashOrSpace(c: char) { c == '-' || IsSpace(c) }

  predicate IsHyphen(c: char) { c == '-' }

  /** A character of an enterprise identifier: a lower-case word
      character or a hyphen. */
  predicate IdChar(c: char) { (IsWordChar(c) || c == '-') && !IsLatinUpper(c) }

  /** `_generate_enterprise_id`: the lower-cased name cut down to word
      characters, whitespace and hyphens, each run of hyphens and
      whitespace made one hyphen, and the hyphens at both ends stripped.
      The result has no whitespace, no two hyphens in a row and no hyphen
      at either end; accented letters and `_` survive, and there is no
      fallback for an empty result. */
  function GenerateEnterpriseId(nom: string): string {
    var kept := Filter(LowerStr(nom), IdKeep);
    StripBy(ReplaceRuns(kept, DashOrSpace, '-'), IsHyphen)
  }

  /** The identifier has only lower-case word characters and hyphens, no
      whitespace, no two hyphens in a row and no hyphen at either end. */
  lemma GenerateEnterpriseIdShape(nom: string)
    ensures var r := GenerateEnterpriseId(nom);
      && (forall i :: 0 <= i < |r| ==> IdChar(r[i]) && !IsSpace(r[i]))
      && (forall i :: 0 <= i < |r| - 1 ==> !(r[i] == '-' && r[i + 1] == '-'))
      && (r == [] || (r[0] != '-' && r[|r| - 1] != '-'))
  {
    var lowered := LowerStr(nom);
    var kept := Filter(lowered, IdKeep);
    KeptChars(lowered, kept);
    ReplaceRunsChars(kept, DashOrSpace, '-', IdChar);
    var dashed := ReplaceRuns(kept, DashOrSpace, '-');
    ReplaceRunsNoAdjacent(kept, DashOrSpace, '-');
    StripKeeps(dashed);
    IdCharNotSpace();
  }

  lemma KeptChars(lowered: string, kept: string)
    requires forall i :: 0 <= i < |lowered| ==> !IsLatinUpper(lowered[i])
    requires kept == Filter(lowered, IdKeep)
    ensures forall i :: 0 <= i < |kept| && !DashOrSpace(kept[i]) ==> IdChar(kept[i])
  {
    forall i | 0 <= i < |kept| && !DashOrSpace(kept[i]) ensures IdChar(kept[i]) {
      assert kept[i] in kept;
      var j :| 0 <= j < |lowered| && lowered[j] == kept[i];
    }
  }

  lemma IdCharNotSpace()
    ensures forall c :: IdChar(c) ==> !IsSpace(c)
  {
  }

  /** Stripping the hyphens keeps the character set and the absence of
      adjacent runs. */
  lemma StripKeeps(s: string)
    requires forall i :: 0 <= i < |s| ==> IdChar(s[i])
    requires NoAdjacent(s, DashOrSpace)
    ensures forall i :: 0 <= i < |StripBy(s, IsHyphen)| ==> IdChar(StripBy(s, IsHyphen)[i])
    ensures NoAdjacent(StripBy(s, IsHyphen), DashOrSpace)
  {
    StripByKeeps(s, IsHyphen, IdChar, DashOrSpace);
  }

  /** Making an identifier from an identifier gives it back. */
  lemma GenerateEnterpriseIdIdempotent(nom: string)
    ensures GenerateEnterpriseId(GenerateEnterpriseId(nom)) == GenerateEnterpriseId(nom)
  {
    var r := GenerateEnterpriseId(nom);
    GenerateEnterpriseIdShape(nom);
    LowerStrFixed(r);
    IdCharNotSpace();
    FilterAll(r, IdKeep);
    ReplaceRunsFixed(r, DashOrSpace, '-');
  }

  /** A name without word characters gives the empty identifier. */
  lemma PunctuationOnly()
    ensures GenerateEnterpriseId("!!!") == ""
  {
    assert LowerStr("!!!") == "!!!";
    assert !IdKeep('!');
    assert "!!!"[1..] == "!!" && "!!"[1..] == "!" && "!"[1..] == [];
    assert Filter("!", IdKeep) == [];
    assert Filter("!!", IdKeep) == [];
    assert Filter("!!!", IdKeep) == [];
    assert ReplaceRuns([], DashOrSpace, '-') == [];
  }

  /** A name made of lower-case word characters, accented letters and
      `_` included, is its own identifier. */
  lemma WordsKept(nom: string)
    requires nom != []
    requires forall i :: 0 <= i < |nom| ==> IsWordChar(nom[i]) && !IsLatinUpper(nom[i])
    ensures GenerateEnterpriseId(nom) == nom
  {
    assert forall i :: 0 <= i < |nom| ==> IdChar(nom[i]) && nom[i] != '-';
    IdCharNotSpace();
    assert forall i :: 0 <= i < |nom| ==> !DashOrSpace(nom[i]);
    LowerStrFixed(nom);
    FilterAll(nom, IdKeep);
    ReplaceRunsFixed(nom, DashOrSpace, '-');
    assert nom[0] != '-' && nom[|nom| - 1] != '-';
  }

  // ------------------------------------------------------- project counts

  /** A row of the project table: its enterprise and its status. */
  datatype ProjectRow = ProjectRow(enterpriseId: string, status: string)

  predicate Active(p: ProjectRow, enterpriseId: Json) {
    JStr(p.enterpriseId) == enterpriseId && p.status == "actif"
  }

  /** `len([p for p in projects if p.status == "actif"])` over the
      enterprise's projects. */
  function ActiveCount(projects: seq<ProjectRow>, enterpriseId: Json): (n: nat)
    ensures n <= |projects|
    decreases |projects|
  {
    if projects == [] then 0
    else ActiveCount(projects[..|projects| - 1], enterpriseId) + (if Active(projects[|projects| - 1], enterpriseId) then 1 else 0)
  }

  /** The count is the number of positions holding an active project of
      the enterprise. */
  lemma ActiveCountPositions(projects: seq<ProjectRow>, enterpriseId: Json)
    ensures ActiveCount(projects, enterpriseId) == |set i | 0 <= i < |projects| && Active(projects[i], enterpriseId)|
  {
    ActiveCountUpTo(projects, enterpriseId, |projects|);
    assert projects[..|projects|] == projects;
  }

  /** The positions below `n` holding an active project of the enterprise. */
  function ActiveBelow(projects: seq<ProjectRow>, enterpriseId: Json, n: nat): set<int>
    requires n <= |projects|
  {
    set i | 0 <= i < n && Active(projects[i], enterpriseId)
  }

  lemma {:induction false} ActiveCountUpTo(projects: seq<ProjectRow>, enterpriseId: Json, n: nat)
    requires n <= |projects|
    ensures ActiveCount(projects[..n], enterpriseId) == |ActiveBelow(projects, enterpriseId, n)|
    decreases n
  {
    var below := ActiveBelow(projects, enterpriseId, n);
    if n == 0 {
      assert below == {};
    } else {
      var m := n - 1;
      ActiveCountUpTo(projects, enterpriseId, m);
      var prev := ActiveBelow(projects, enterpriseId, m);
      var prefix := projects[..n];
      assert prefix[..m] == projects[..m] && prefix[m] == projects[m];
      assert ActiveCount(prefix, enterpriseId) ==
        ActiveCount(projects[..m], enterpriseId) + (if Active(projects[m], enterpriseId) then 1 else 0);
      var add := Active(projects[m], enterpriseId);
      forall i ensures i in below <==> i in prev || (add && i == m) {
      }
      CardSnoc(prev, below, m, add);
    }
  }

  /** Adding at most one new element to a set. */
  lemma CardSnoc(a: set<int>, b: set<int>, m: int, add: bool)
    requires forall i :: i in b <==> i in a || (add && i == m)
    requires m !in a
    ensures |b| == |a| + (if add then 1 else 0)
  {
    if add {
      forall i ensures i in b <==> i in a + {m} {
      }
      assert b == a + {m};
    } else {
      forall i ensures i in b <==> i in a {
      }
      assert b == a;
    }
  }

  /** Projects of other enterprises, or not active, are not counted. */
  lemma {:induction false} ActiveCountAppend(a: seq<ProjectRow>, b: seq<ProjectRow>, enterpriseId: Json)
    ensures ActiveCount(a + b, enterpriseId) == ActiveCount(a, enterpriseId) + ActiveCount(b, enterpriseId)
    decreases |b|
  {
    if b != [] {
      var n := |b| - 1;
      assert (a + b)[..|a + b| - 1] == a + b[..n];
      ActiveCountAppend(a, b[..n], enterpriseId);
    } else {
      assert a + b == a;
    }
  }

  /** The record with its `projects_count` set. */
  function WithProjectsCount(enterprise: Json, projects: seq<ProjectRow>, enterpriseId: Json): (r: Result<Json>)
    ensures r.Ok? <==> enterprise.JObj?
    ensures r.Ok? ==> r.value.JObj?
    ensures r.Ok? ==> Lookup(r.value.fields, "projects_count") == Some(JInt(ActiveCount(projects, enterpriseId)))
    ensures r.Ok? ==> forall k :: k != "projects_count" ==> Lookup(r.value.fields, k) == Lookup(enterprise.fields, k)
  {
    var count := JInt(ActiveCount(projects, enterpriseId));
    if !enterprise.JObj? then SetItem(enterprise, "projects_count", count)
    else
      LookupPutAll(enterprise.fields, "projects_count", count);
      SetItem(enterprise, "projects_count", count)
  }

  /** The loop of `list_enterprises`: each record's `projects_count` is
      the number of active projects of the enterprise it names; a record
      without an `id` stops the loop with a `KeyError`. */
  method CountProjects(enterprises: seq<Json>, projects: seq<ProjectRow>) returns (r: Result<seq<Json>>)
    ensures r.Ok? <==> forall i :: 0 <= i < |enterprises| ==> GetItem(enterprises[i], "id").Ok?
    ensures r.Ok? ==> |r.value| == |enterprises|
    ensures r.Ok? ==> forall i :: 0 <= i < |enterprises| ==>
      r.value[i] == WithProjectsCount(enterprises[i], projects, GetItem(enterprises[i], "id").value).value
  {
    var out: seq<Json> := [];
    for i := 0 to |enterprises|
      invariant |out| == i
      invariant forall j :: 0 <= j < i ==> GetItem(enterprises[j], "id").Ok?
      invariant forall j :: 0 <= j < i ==> out[j] == WithProjectsCount(enterprises[j], projects, GetItem(enterprises[j], "id").value).value
    {
      var id := GetItem(enterprises[i], "id");
      if id.Err? {
        return Err(id.error);
      }
      var updated := WithProjectsCount(enterprises[i], projects, id.value);
      out := out + [updated.value];
    }
    return Ok(out);
  }

  /** `get_enterprise`: an unknown enterprise gives `None`; a known one
      gets its count of active projects. */
  function GetEnterprise(enterprise: Json, enterpriseId: string, projects: seq<ProjectRow>): (r: Result<Option<Json>>)
    ensures !Truthy(enterprise) ==> r == Ok(None)
    ensures Truthy(enterprise) ==> (r.Ok? <==> enterprise.JObj?)
    ensures Truthy(enterprise) && r.Ok? ==> r.value.Some? && r.value.value.JObj?
    ensures Truthy(enterprise) && r.Ok? ==>
      Lookup(r.value.value.fields, "projects_count") == Some(JInt(ActiveCount(projects, JStr(enterpriseId))))
  {
    if !Truthy(enterprise) then Ok(None)
    else
      var updated := WithProjectsCount(enterprise, projects, JStr(enterpriseId));
      if updated.Err? then Err(updated.error) else Ok(Some(updated.value))
  }

  /** The sort key of `list_enterprises`: the last modification time, else
      the creation time, else the empty string. */
  function RecencyKey(enterprise: Json): Json {
    Get(enterprise, "last_modified", Get(enterprise, "created_at", JStr("")))
  }

  function KeyText(enterprise: Json): string {
    var k := RecencyKey(enterprise);
    if k.JStr? then k.s else ""
  }

  /** The sort of `list_enterprises`, most recent first and stable, when
      every key is a string; keys of other types make it a `TypeError`. */
  function SortEnterprises(enterprises: seq<Json>): (r: Result<seq<Json>>)
    ensures r.Ok? <==> |enterprises| <= 1 || forall i :: 0 <= i < |enterprises| ==> RecencyKey(enterprises[i]).JStr?
    ensures r.Ok? ==> multiset(r.value) == multiset(enterprises)
  {
    if |enterprises| <= 1 then Ok(enterprises)
    else if forall i :: 0 <= i < |enterprises| ==> RecencyKey(enterprises[i]).JStr? then
      Ok(SortDesc(enterprises, KeyText, StrLess))
    else Err("TypeError")
  }

  /** The sorted list has no record followed by a more recent one, and
      records with the same key keep their order. */
  lemma SortEnterprisesOrder(enterprises: seq<Json>, key: string)
    requires SortEnterprises(enterprises).Ok?
    ensures var r := SortEnterprises(enterprises).value;
      (forall i :: 0 <= i < |r| - 1 ==> !StrLess(KeyText(r[i]), KeyText(r[i + 1]))) &&
      WithKey(r, KeyText, key) == WithKey(enterprises, KeyText, key)
  {
    StrLessAsymmetric();
    if |enterprises| > 1 {
      SortDescSorted(enterprises, KeyText, StrLess);
      SortDescStable(enterprises, KeyText, StrLess, key);
    } else {
      SortDescSortedInput(enterprises, KeyText, StrLess);
      SortDescStable(enterprises, KeyText, StrLess, key);
    }
  }
}
