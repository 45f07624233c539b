/** Merging the accepted enrichment proposals into an offer, and recording
    the answers to clarification questions. Both work on a deep copy, which
    in this model is the value itself: Dafny values are never shared, so
    the input offer is never changed. */
module OfferEnrichment {
  import opened Wrappers
  import opened Text
  import opened JsonValue
  import opened Assoc
  import opened PyOps

  /** A proposal kind: the key in the selections and proposals, the offer
      section it is merged into, and the proposal field that is merged. */
  datatype Category = Category(selection: string, field: string, nameKey: string)

  const Categories: seq<Category> := [
    Category("competences", "competences_techniques", "name"),
    Category("outils", "outils", "name"),
    Category("langages", "langages", "name"),
    Category("certifications", "certifications", "name"),
    Category("missions", "responsabilites", "text")]

  /** The sections the merge may touch. */
  const MergedFields: set<string> := {"competences_techniques", "outils", "langages", "certifications", "responsabilites"}

  /** The integer a value stands for as a list or string index: an
      integer itself, or a boolean as 0 or 1. */
  function AsIndex(idx: Json): Option<int>
  {
    match idx
    case JInt(i) => Some(i)
    case JBool(b) => Some(if b then 1 else 0)
    case _ => None
  }

  /** `c[idx]` with a value as index: a list or a string takes an integer
      (a boolean counts as 0 or 1, a negative one counts from the end), a
      dict a string key; anything else raises. */
  function Subscript(c: Json, idx: Json): (r: Result<Json>)
    ensures (c.JList? || c.JStr?) && AsIndex(idx).None? ==> r == Err("TypeError")
    ensures c.JList? && AsIndex(idx).Some? ==> var n := AsIndex(idx).value;
      && (r.Ok? <==> -|c.items| <= n < |c.items|)
      && (0 <= n < |c.items| ==> r == Ok(c.items[n]))
      && (-|c.items| <= n < 0 ==> r == Ok(c.items[n + |c.items|]))
      && (|c.items| <= n || n < -|c.items| ==> r == Err("IndexError"))
    ensures c.JStr? && AsIndex(idx).Some? ==> var n := AsIndex(idx).value;
      && (r.Ok? <==> -|c.s| <= n < |c.s|)
      && (0 <= n < |c.s| ==> r == Ok(JStr([c.s[n]])))
      && (-|c.s| <= n < 0 ==> r == Ok(JStr([c.s[n + |c.s|]])))
      && (|c.s| <= n || n < -|c.s| ==> r == Err("IndexError"))
  {
    match c
    case JList(xs) =>
      var n := AsIndex(idx);
      if n.None? then Err("TypeError")
      else if -|xs| <= n.value < 0 then Ok(xs[n.value + |xs|])
      else if 0 <= n.value < |xs| then Ok(xs[n.value])
      else Err("IndexError")
    case JObj(fs) =>
      if idx.JStr? then GetItem(c, idx.s)
      else if idx.JList? || idx.JObj? then Err("TypeError")
      else Err("KeyError")
    case JStr(s) =>
      var n := AsIndex(idx);
      if n.None? then Err("TypeError")
      else if -|s| <= n.value < 0 then Ok(JStr([s[n.value + |s|]]))
      else if 0 <= n.value < |s| then Ok(JStr([s[n.value]]))
      else Err("IndexError")
    case _ => Err("TypeError")
  }

  /** `name in field` for a section value of any kind. */
  function FieldContains(field: Json, name: Json): (r: Result<bool>)
    ensures field.JList? ==> r == Ok(name in field.items)
  {
    match field
    case JList(xs) => Ok(name in xs)
    case JObj(fs) =>
      if name.JStr? then Ok(HasKey(fs, name.s))
      else if name.JList? || name.JObj? then Err("TypeError")
      else Ok(false)
    case JStr(s) => if name.JStr? then Ok(Contains(s, name.s)) else Err("TypeError")
    case _ => Err("TypeError")
  }

  /** The confirmation printed after an append: the competence line reads
      the proposal's `type`, the mission line slices the mission text. */
  function Announce(cat: Category, entry: Json, name: Json): Option<string> {
    if cat.selection == "competences" then (match GetItem(entry, "type") case Err(e) => Some(e) case Ok(_) => None)
    else if cat.selection == "missions" && !(name.JStr? || name.JList?) then Some("TypeError")
    else None
  }

  /** One selected index: the proposal is looked up, and its name is
      appended to the section list unless already there. */
  function AddOne(sections: Json, cat: Category, propositions: Json, idx: Json): (r: Result<Json>)
  {
    match GetItem(propositions, cat.selection)
    case Err(e) => Err(e)
    case Ok(proposals) =>
      match Subscript(proposals, idx)
      case Err(e) => Err(e)
      case Ok(entry) =>
        match GetItem(entry, cat.nameKey)
        case Err(e) => Err(e)
        case Ok(name) =>
          match GetItem(sections, cat.field)
          case Err(e) => Err(e)
          case Ok(current) =>
            match FieldContains(current, name)
            case Err(e) => Err(e)
            case Ok(present) =>
              if present then Ok(sections)
              else if !current.JList? then Err("AttributeError")
              else if Announce(cat, entry, name).Some? then Err(Announce(cat, entry, name).value)
              else Ok(JObj(Put(sections.fields, cat.field, JList(current.items + [name]))))
  }

  /** The loop over the selected indices. */
  function AddAll(sections: Json, cat: Category, propositions: Json, idxs: seq<Json>): Result<Json>
    decreases |idxs|
  {
    if idxs == [] then Ok(sections)
    else match AddAll(sections, cat, propositions, idxs[..|idxs| - 1])
      case Err(e) => Err(e)
      case Ok(s) => AddOne(s, cat, propositions, idxs[|idxs| - 1])
  }

  /** One category's block: only when it is selected and the offer has
      sections; the section list is created empty when missing. */
  function MergeCategory(offre: Json, cat: Category, selections: Json, propositions: Json): Result<Json> {
    match In(cat.selection, selections)
    case Err(e) => Err(e)
    case Ok(selected) =>
      if !selected then Ok(offre)
      else match In("sections", offre)
        case Err(e) => Err(e)
        case Ok(hasSections) =>
          if !hasSections then Ok(offre)
          else match GetItem(offre, "sections")
            case Err(e) => Err(e)
            case Ok(sections) =>
              match In(cat.field, sections)
              case Err(e) => Err(e)
              case Ok(has) =>
                match (if has then Ok(sections) else SetItem(sections, cat.field, JList([])))
                case Err(e) => Err(e)
                case Ok(s0) =>
                  match GetItem(selections, cat.selection)
                  case Err(e) => Err(e)
                  case Ok(chosen) =>
                    match Iter(chosen)
                    case Err(e) => Err(e)
                    case Ok(idxs) =>
                      match AddAll(s0, cat, propositions, idxs)
                      case Err(e) => Err(e)
                      case Ok(s1) => SetItem(offre, "sections", s1)
  }

  /** The five category blocks in order. */
  function MergeAll(offre: Json, cats: seq<Category>, selections: Json, propositions: Json): Result<Json>
    decreases |cats|
  {
    if cats == [] then Ok(offre)
    else match MergeAll(offre, cats[..|cats| - 1], selections, propositions)
      case Err(e) => Err(e)
      case Ok(o) => MergeCategory(o, cats[|cats| - 1], selections, propositions)
  }

  /** `merge_enrichment`. */
  function MergeEnrichment(offre: Json, enrichment: Json, selections: Json): (r: Result<Json>)
    ensures enrichment.JObj? && !HasKey(enrichment.fields, "propositions") ==> r == Err("KeyError")
  {
    match GetItem(enrichment, "propositions")
    case Err(e) => Err(e)
    case Ok(propositions) => MergeAll(offre, Categories, selections, propositions)
  }

  /** The loop over one category's selected indices. */
  method AddAllLoop(s0: Json, cat: Category, propositions: Json, idxs: seq<Json>) returns (r: Result<Json>)
    ensures r == AddAll(s0, cat, propositions, idxs)
  {
    var sections := s0;
    for i := 0 to |idxs|
      invariant AddAll(s0, cat, propositions, idxs[..i]) == Ok(sections)
    {
      assert idxs[..i + 1][..i] == idxs[..i];
      var added := AddOne(sections, cat, propositions, idxs[i]);
      if added.Err? {
        AddAllErr(s0, cat, propositions, idxs, i + 1);
        return added;
      }
      sections := added.value;
    }
    assert idxs[..|idxs|] == idxs;
    return Ok(sections);
  }

  /** One category's block. */
  method MergeCategoryStep(offre: Json, cat: Category, selections: Json, propositions: Json) returns (r: Result<Json>)
    ensures r == MergeCategory(offre, cat, selections, propositions)
  {
    var selected := In(cat.selection, selections);
    if selected.Err? || !selected.value {
      return if selected.Err? then Err(selected.error) else Ok(offre);
    }
    var hasSections := In("sections", offre);
    if hasSections.Err? || !hasSections.value {
      return if hasSections.Err? then Err(hasSections.error) else Ok(offre);
    }
    var sections := GetItem(offre, "sections");
    if sections.Err? {
      return Err(sections.error);
    }
    var has := In(cat.field, sections.value);
    if has.Err? {
      return Err(has.error);
    }
    var s0 := if has.value then Ok(sections.value) else SetItem(sections.value, cat.field, JList([]));
    if s0.Err? {
      return Err(s0.error);
    }
    var chosen := GetItem(selections, cat.selection);
    if chosen.Err? {
      return Err(chosen.error);
    }
    var idxs := Iter(chosen.value);
    if idxs.Err? {
      return Err(idxs.error);
    }
    var s1 := AddAllLoop(s0.value, cat, propositions, idxs.value);
    if s1.Err? {
      return Err(s1.error);
    }
    r := SetItem(offre, "sections", s1.value);
  }

  /** `merge_enrichment` with its loops: one block per category, one
      append per selected index. */
  method MergeEnrichmentLoop(offre: Json, enrichment: Json, selections: Json) returns (r: Result<Json>)
    ensures r == MergeEnrichment(offre, enrichment, selections)
  {
    var p := GetItem(enrichment, "propositions");
    if p.Err? {
      return Err(p.error);
    }
    var enriched := offre;
    for k := 0 to |Categories|
      invariant MergeAll(offre, Categories[..k], selections, p.value) == Ok(enriched)
    {
      MergeAllNext(offre, Categories, selections, p.value, k, enriched);
      var step := MergeCategoryStep(enriched, Categories[k], selections, p.value);
      if step.Err? {
        MergeAllErr(offre, Categories, selections, p.value, k + 1);
        return step;
      }
      enriched := step.value;
    }
    assert Categories[..|Categories|] == Categories;
    r := Ok(enriched);
  }

  /** One more category block after the first `k`. */
  lemma MergeAllNext(offre: Json, cats: seq<Category>, selections: Json, propositions: Json, k: nat, o: Json)
    requires k < |cats| && MergeAll(offre, cats[..k], selections, propositions) == Ok(o)
    ensures MergeAll(offre, cats[..k + 1], selections, propositions) == MergeCategory(o, cats[k], selections, propositions)
  {
    assert cats[..k + 1][..k] == cats[..k];
  }

  /** An exception at one index ends the loop with that exception. */
  lemma {:induction false} AddAllErr(sections: Json, cat: Category, propositions: Json, idxs: seq<Json>, n: nat)
    requires 0 < n <= |idxs| && AddAll(sections, cat, propositions, idxs[..n]).Err?
    ensures AddAll(sections, cat, propositions, idxs) == AddAll(sections, cat, propositions, idxs[..n])
    decreases |idxs| - n
  {
    if n < |idxs| {
      assert idxs[..n + 1][..n] == idxs[..n];
      AddAllErr(sections, cat, propositions, idxs, n + 1);
    } else {
      assert idxs[..n] == idxs;
    }
  }

  /** An exception in one category's block ends the merge with it. */
  lemma {:induction false} MergeAllErr(offre: Json, cats: seq<Category>, selections: Json, propositions: Json, n: nat)
    requires 0 < n <= |cats| && MergeAll(offre, cats[..n], selections, propositions).Err?
    ensures MergeAll(offre, cats, selections, propositions) == MergeAll(offre, cats[..n], selections, propositions)
    decreases |cats| - n
  {
    if n < |cats| {
      assert cats[..n + 1][..n] == cats[..n];
      MergeAllErr(offre, cats, selections, propositions, n + 1);
    } else {
      assert cats[..n] == cats;
    }
  }

  // -------------------------------------------------------------- properties

  /** `zs` is `xs` followed by new items, each different from everything
      before it. */
  predicate AppendedFresh(xs: seq<Json>, zs: seq<Json>) {
    && |xs| <= |zs| && zs[..|xs|] == xs
    && forall i, j :: |xs| <= i < |zs| && 0 <= j < i ==> zs[i] != zs[j]
  }

  /** How a section may change: a list only grows by fresh items, a
      missing section may appear as such a list, anything else stays. */
  predicate KeyEvolves(before: Option<Json>, after: Option<Json>) {
    match before
    case None => after.None? || (after.value.JList? && AppendedFresh([], after.value.items))
    case Some(v) =>
      if v.JList? then after.Some? && after.value.JList? && AppendedFresh(v.items, after.value.items)
      else after == before
  }

  /** Sections `a` became `b`: only the named fields change, each as
      `KeyEvolves` allows. */
  ghost predicate Evolves(a: Fields, b: Fields, fields: set<string>) {
    forall k :: if k in fields then KeyEvolves(Lookup(a, k), Lookup(b, k)) else Lookup(b, k) == Lookup(a, k)
  }

  lemma AppendedFreshTrans(xs: seq<Json>, ys: seq<Json>, zs: seq<Json>)
    requires AppendedFresh(xs, ys) && AppendedFresh(ys, zs)
    ensures AppendedFresh(xs, zs)
  {
    assert zs[..|xs|] == zs[..|ys|][..|xs|];
  }

  lemma KeyEvolvesTrans(a: Option<Json>, b: Option<Json>, c: Option<Json>)
    requires KeyEvolves(a, b) && KeyEvolves(b, c)
    ensures KeyEvolves(a, c)
  {
    if a.None? && b.Some? && c.Some? {
      AppendedFreshTrans([], b.value.items, c.value.items);
    } else if a.Some? && a.value.JList? {
      AppendedFreshTrans(a.value.items, b.value.items, c.value.items);
    }
  }

  lemma EvolvesTrans(a: Fields, b: Fields, c: Fields, fields: set<string>, more: set<string>)
    requires Evolves(a, b, fields) && Evolves(b, c, more) && fields <= more
    ensures Evolves(a, c, more)
  {
    forall k ensures if k in more then KeyEvolves(Lookup(a, k), Lookup(c, k)) else Lookup(c, k) == Lookup(a, k) {
      if k in more {
        if k in fields {
          KeyEvolvesTrans(Lookup(a, k), Lookup(b, k), Lookup(c, k));
        } else {
          assert Lookup(b, k) == Lookup(a, k);
        }
      }
    }
  }

  /** One append keeps the section list growing by fresh items only. */
  lemma AddOneEvolves(sections: Json, cat: Category, propositions: Json, idx: Json)
    requires sections.JObj? && AddOne(sections, cat, propositions, idx).Ok?
    ensures AddOne(sections, cat, propositions, idx).value.JObj?
    ensures Evolves(sections.fields, AddOne(sections, cat, propositions, idx).value.fields, {cat.field})
  {
    var r := AddOne(sections, cat, propositions, idx).value;
    var entry := Subscript(GetItem(propositions, cat.selection).value, idx).value;
    var name := GetItem(entry, cat.nameKey).value;
    var current := GetItem(sections, cat.field).value;
    if r == sections {
      assert Evolves(sections.fields, r.fields, {cat.field});
    } else {
      assert current.JList? && name !in current.items;
      var grown := current.items + [name];
      assert r == JObj(Put(sections.fields, cat.field, JList(grown)));
      assert AppendedFresh(current.items, grown);
      LookupPutAll(sections.fields, cat.field, JList(grown));
    }
  }

  /** The appends of one category. */
  lemma {:induction false} AddAllEvolves(sections: Json, cat: Category, propositions: Json, idxs: seq<Json>)
    requires sections.JObj? && AddAll(sections, cat, propositions, idxs).Ok?
    ensures AddAll(sections, cat, propositions, idxs).value.JObj?
    ensures Evolves(sections.fields, AddAll(sections, cat, propositions, idxs).value.fields, {cat.field})
    decreases |idxs|
  {
    if idxs != [] {
      var init := idxs[..|idxs| - 1];
      AddAllEvolves(sections, cat, propositions, init);
      var s := AddAll(sections, cat, propositions, init).value;
      AddOneEvolves(s, cat, propositions, idxs[|idxs| - 1]);
      EvolvesTrans(sections.fields, s.fields, AddOne(s, cat, propositions, idxs[|idxs| - 1]).value.fields, {cat.field}, {cat.field});
    } else {
      assert Evolves(sections.fields, sections.fields, {cat.field});
    }
  }

  lemma KeyEvolvesRefl(o: Option<Json>)
    ensures KeyEvolves(o, o)
  {
    if o.Some? && o.value.JList? {
      assert o.value.items[..|o.value.items|] == o.value.items;
    }
  }

  lemma EvolvesWiden(a: Fields, b: Fields, fields: set<string>, more: set<string>)
    requires Evolves(a, b, fields) && fields <= more
    ensures Evolves(a, b, more)
  {
    forall k | k in more && k !in fields ensures KeyEvolves(Lookup(a, k), Lookup(b, k)) {
      KeyEvolvesRefl(Lookup(a, k));
    }
  }

  /** The category's list, created empty when missing, then its appends. */
  lemma PreparedEvolves(sections: Json, cat: Category, propositions: Json, idxs: seq<Json>, has: bool, s0: Json)
    requires sections.JObj?
    requires s0 == if has then sections else JObj(Put(sections.fields, cat.field, JList([])))
    requires has == HasKey(sections.fields, cat.field)
    requires AddAll(s0, cat, propositions, idxs).Ok?
    ensures AddAll(s0, cat, propositions, idxs).value.JObj?
    ensures Evolves(sections.fields, AddAll(s0, cat, propositions, idxs).value.fields, {cat.field})
  {
    if has {
      assert Evolves(sections.fields, s0.fields, {cat.field}) by {
        forall k { KeyEvolvesRefl(Lookup(sections.fields, k)); }
      }
    } else {
      LookupPutAll(sections.fields, cat.field, JList([]));
      assert Evolves(sections.fields, s0.fields, {cat.field});
    }
    AddAllEvolves(s0, cat, propositions, idxs);
    EvolvesTrans(sections.fields, s0.fields, AddAll(s0, cat, propositions, idxs).value.fields, {cat.field}, {cat.field});
  }

  /** One category block on a dict offer: only `sections` can change, and
      inside it only the category's field, by appending fresh items; an
      offer without sections comes back as it was. */
  lemma MergeCategoryShape(o: Json, cat: Category, selections: Json, propositions: Json)
    requires o.JObj? && MergeCategory(o, cat, selections, propositions).Ok?
    ensures var r := MergeCategory(o, cat, selections, propositions).value;
      && r.JObj?
      && (forall k :: k != "sections" ==> Lookup(r.fields, k) == Lookup(o.fields, k))
      && (!HasKey(o.fields, "sections") ==> r == o)
      && (Get(o, "sections", JNull).JObj? ==>
            Get(r, "sections", JNull).JObj? && Evolves(Get(o, "sections", JNull).fields, Get(r, "sections", JNull).fields, {cat.field}))
  {
    var r := MergeCategory(o, cat, selections, propositions).value;
    var sections := Get(o, "sections", JNull);
    if In(cat.selection, selections) == Ok(true) && HasKey(o.fields, "sections") {
      MergeSelectedShape(o, cat, selections, propositions);
    } else {
      assert r == o;
      if sections.JObj? {
        forall k ensures KeyEvolves(Lookup(sections.fields, k), Lookup(sections.fields, k)) {
          KeyEvolvesRefl(Lookup(sections.fields, k));
        }
      }
    }
  }

  /** `MergeCategoryShape` for a selected category of an offer that has
      sections. */
  lemma MergeSelectedShape(o: Json, cat: Category, selections: Json, propositions: Json)
    requires o.JObj? && MergeCategory(o, cat, selections, propositions).Ok?
    requires In(cat.selection, selections) == Ok(true) && HasKey(o.fields, "sections")
    ensures var r := MergeCategory(o, cat, selections, propositions).value;
      && r.JObj?
      && (forall k :: k != "sections" ==> Lookup(r.fields, k) == Lookup(o.fields, k))
      && (Get(o, "sections", JNull).JObj? ==>
            Get(r, "sections", JNull).JObj? && Evolves(Get(o, "sections", JNull).fields, Get(r, "sections", JNull).fields, {cat.field}))
  {
    var r := MergeCategory(o, cat, selections, propositions).value;
    var sections := Get(o, "sections", JNull);
    var has := In(cat.field, sections).value;
    var s0 := if has then sections else SetItem(sections, cat.field, JList([])).value;
    var idxs := Iter(GetItem(selections, cat.selection).value).value;
    var s1 := AddAll(s0, cat, propositions, idxs).value;
    assert r == JObj(Put(o.fields, "sections", s1));
    LookupPutAll(o.fields, "sections", s1);
    if sections.JObj? {
      PreparedEvolves(sections, cat, propositions, idxs, has, s0);
    }
  }

  /** The fields of a list of categories. */
  function FieldsOf(cats: seq<Category>): (fs: set<string>)
    ensures forall i :: 0 <= i < |cats| ==> cats[i].field in fs
    decreases |cats|
  {
    if cats == [] then {} else FieldsOf(cats[..|cats| - 1]) + {cats[|cats| - 1].field}
  }

  lemma {:induction false} MergeAllShape(o: Json, cats: seq<Category>, selections: Json, propositions: Json)
    requires o.JObj? && MergeAll(o, cats, selections, propositions).Ok?
    ensures var r := MergeAll(o, cats, selections, propositions).value;
      && r.JObj?
      && (forall k :: k != "sections" ==> Lookup(r.fields, k) == Lookup(o.fields, k))
      && (!HasKey(o.fields, "sections") ==> r == o)
      && (Get(o, "sections", JNull).JObj? ==>
            Get(r, "sections", JNull).JObj? && Evolves(Get(o, "sections", JNull).fields, Get(r, "sections", JNull).fields, FieldsOf(cats)))
    decreases |cats|
  {
    if cats == [] {
      if Get(o, "sections", JNull).JObj? {
        var f := Get(o, "sections", JNull).fields;
        forall k ensures KeyEvolves(Lookup(f, k), Lookup(f, k)) {
          KeyEvolvesRefl(Lookup(f, k));
        }
      }
    } else {
      var init := cats[..|cats| - 1];
      var cat := cats[|cats| - 1];
      MergeAllShape(o, init, selections, propositions);
      var m := MergeAll(o, init, selections, propositions).value;
      MergeCategoryShape(m, cat, selections, propositions);
      var r := MergeCategory(m, cat, selections, propositions).value;
      assert Lookup(m.fields, "sections") == Lookup(o.fields, "sections") || HasKey(o.fields, "sections");
      if Get(o, "sections", JNull).JObj? {
        var a := Get(o, "sections", JNull).fields;
        EvolvesWiden(a, Get(m, "sections", JNull).fields, FieldsOf(init), FieldsOf(cats));
        EvolvesWiden(Get(m, "sections", JNull).fields, Get(r, "sections", JNull).fields, {cat.field}, FieldsOf(cats));
        EvolvesTrans(a, Get(m, "sections", JNull).fields, Get(r, "sections", JNull).fields, FieldsOf(cats), FieldsOf(cats));
      }
      if !HasKey(o.fields, "sections") {
        assert m == o;
      }
    }
  }

  /** `merge_enrichment` on a dict offer: nothing outside `sections`
      changes; inside it, only the five merged sections change, and each
      existing list keeps its entries in place and order and gains only
      names it did not hold, each once. An offer without sections comes
      back unchanged. */
  lemma MergeEnrichmentAppendOnly(offre: Json, enrichment: Json, selections: Json)
    requires offre.JObj? && MergeEnrichment(offre, enrichment, selections).Ok?
    ensures var r := MergeEnrichment(offre, enrichment, selections).value;
      && r.JObj?
      && (forall k :: k != "sections" ==> Lookup(r.fields, k) == Lookup(offre.fields, k))
      && (!HasKey(offre.fields, "sections") ==> r == offre)
      && (Get(offre, "sections", JNull).JObj? ==>
            Get(r, "sections", JNull).JObj? && Evolves(Get(offre, "sections", JNull).fields, Get(r, "sections", JNull).fields, MergedFields))
  {
    var propositions := GetItem(enrichment, "propositions").value;
    MergeAllShape(offre, Categories, selections, propositions);
    assert FieldsOf(Categories) == MergedFields by {
      assert Categories[..1][..0] == [];
      assert FieldsOf(Categories[..1]) == {"competences_techniques"};
      assert Categories[..2][..1] == Categories[..1];
      assert FieldsOf(Categories[..2]) == {"competences_techniques", "outils"};
      assert Categories[..3][..2] == Categories[..2];
      assert FieldsOf(Categories[..3]) == {"competences_techniques", "outils", "langages"};
      assert Categories[..4][..3] == Categories[..3];
      assert FieldsOf(Categories[..4]) == {"competences_techniques", "outils", "langages", "certifications"};
      assert Categories[..5][..4] == Categories[..4] && Categories[..5] == Categories;
    }
  }

  /** The name a selected index stands for: the proposal at that index in
      its category, and the proposal's name (or text) field. */
  function SelectedName(cat: Category, propositions: Json, idx: Json): Result<Json> {
    match GetItem(propositions, cat.selection)
    case Err(e) => Err(e)
    case Ok(proposals) =>
      match Subscript(proposals, idx)
      case Err(e) => Err(e)
      case Ok(entry) => GetItem(entry, cat.nameKey)
  }

  /** The section `field` is a list holding `name`. */
  predicate Holds(sections: Fields, field: string, name: Json) {
    Lookup(sections, field).Some? && Lookup(sections, field).value.JList? && name in Lookup(sections, field).value.items
  }

  /** The section `field` is missing or a list: the cases in which the
      merge appends to it. */
  predicate ListOrAbsent(sections: Fields, field: string) {
    Lookup(sections, field).None? || Lookup(sections, field).value.JList?
  }

  lemma HoldsKept(a: Fields, b: Fields, fields: set<string>, field: string, name: Json)
    requires Evolves(a, b, fields) && Holds(a, field, name)
    ensures Holds(b, field, name)
  {
    if field in fields {
      var xs := Lookup(a, field).value.items;
      var zs := Lookup(b, field).value.items;
      assert zs[..|xs|] == xs;
      var i :| 0 <= i < |xs| && xs[i] == name;
      assert zs[i] == name;
    }
  }

  lemma ListOrAbsentKept(a: Fields, b: Fields, fields: set<string>, field: string)
    requires Evolves(a, b, fields) && ListOrAbsent(a, field)
    ensures ListOrAbsent(b, field)
  {
  }

  /** An append that succeeds leaves the proposal's name in the section
      list, whether it was there already or has just been added. */
  lemma AddOneAdds(sections: Json, cat: Category, propositions: Json, idx: Json)
    requires sections.JObj? && AddOne(sections, cat, propositions, idx).Ok?
    requires Lookup(sections.fields, cat.field).Some? && Lookup(sections.fields, cat.field).value.JList?
    ensures SelectedName(cat, propositions, idx).Ok?
    ensures AddOne(sections, cat, propositions, idx).value.JObj?
    ensures Holds(AddOne(sections, cat, propositions, idx).value.fields, cat.field, SelectedName(cat, propositions, idx).value)
  {
    var r := AddOne(sections, cat, propositions, idx).value;
    var name := SelectedName(cat, propositions, idx).value;
    var current := GetItem(sections, cat.field).value;
    if FieldContains(current, name) == Ok(true) {
      assert r == sections && name in current.items;
    } else {
      LookupPutAll(sections.fields, cat.field, JList(current.items + [name]));
      assert (current.items + [name])[|current.items|] == name;
    }
  }

  /** Every index of one category's loop leaves its name in the list. */
  lemma {:induction false} AddAllAdds(sections: Json, cat: Category, propositions: Json, idxs: seq<Json>)
    requires sections.JObj? && AddAll(sections, cat, propositions, idxs).Ok?
    requires Lookup(sections.fields, cat.field).Some? && Lookup(sections.fields, cat.field).value.JList?
    ensures AddAll(sections, cat, propositions, idxs).value.JObj?
    ensures forall j :: 0 <= j < |idxs| ==>
      SelectedName(cat, propositions, idxs[j]).Ok? &&
      Holds(AddAll(sections, cat, propositions, idxs).value.fields, cat.field, SelectedName(cat, propositions, idxs[j]).value)
    decreases |idxs|
  {
    AddAllEvolves(sections, cat, propositions, idxs);
    if idxs != [] {
      var init := idxs[..|idxs| - 1];
      var last := idxs[|idxs| - 1];
      AddAllAdds(sections, cat, propositions, init);
      AddAllEvolves(sections, cat, propositions, init);
      var s := AddAll(sections, cat, propositions, init).value;
      var r := AddOne(s, cat, propositions, last).value;
      AddOneAdds(s, cat, propositions, last);
      AddOneEvolves(s, cat, propositions, last);
      forall j | 0 <= j < |idxs| - 1
        ensures SelectedName(cat, propositions, idxs[j]).Ok? && Holds(r.fields, cat.field, SelectedName(cat, propositions, idxs[j]).value)
      {
        assert init[j] == idxs[j];
        HoldsKept(s.fields, r.fields, {cat.field}, cat.field, SelectedName(cat, propositions, idxs[j]).value);
      }
    }
  }

  /** A selected category's block leaves every selected name in its
      section list, when that section was a list or missing. */
  lemma MergeCategoryAdds(o: Json, cat: Category, selections: Json, propositions: Json)
    requires o.JObj? && Get(o, "sections", JNull).JObj? && ListOrAbsent(Get(o, "sections", JNull).fields, cat.field)
    requires In(cat.selection, selections) == Ok(true) && MergeCategory(o, cat, selections, propositions).Ok?
    ensures var r := MergeCategory(o, cat, selections, propositions).value;
      && GetItem(selections, cat.selection).Ok? && Iter(GetItem(selections, cat.selection).value).Ok?
      && r.JObj? && Get(r, "sections", JNull).JObj?
      && forall idx :: idx in Iter(GetItem(selections, cat.selection).value).value ==>
           SelectedName(cat, propositions, idx).Ok? &&
           Holds(Get(r, "sections", JNull).fields, cat.field, SelectedName(cat, propositions, idx).value)
  {
    var r := MergeCategory(o, cat, selections, propositions).value;
    var sections := Get(o, "sections", JNull);
    assert HasKey(o.fields, "sections");
    var has := In(cat.field, sections).value;
    var s0 := if has then sections else SetItem(sections, cat.field, JList([])).value;
    if !has {
      LookupPutAll(sections.fields, cat.field, JList([]));
    }
    var idxs := Iter(GetItem(selections, cat.selection).value).value;
    var s1 := AddAll(s0, cat, propositions, idxs).value;
    assert r == JObj(Put(o.fields, "sections", s1));
    LookupPutAll(o.fields, "sections", s1);
    assert Get(r, "sections", JNull) == s1;
    assert s0.JObj? && Lookup(s0.fields, cat.field).Some? && Lookup(s0.fields, cat.field).value.JList?;
    AddAllAddsEach(s0, cat, propositions, idxs);
    var rs := Get(r, "sections", JNull);
    assert rs == s1;
    forall idx | idx in idxs
      ensures SelectedName(cat, propositions, idx).Ok? && Holds(rs.fields, cat.field, SelectedName(cat, propositions, idx).value)
    {
    }
  }

  /** `AddAllAdds`, read over the indices themselves. */
  lemma AddAllAddsEach(sections: Json, cat: Category, propositions: Json, idxs: seq<Json>)
    requires sections.JObj? && AddAll(sections, cat, propositions, idxs).Ok?
    requires Lookup(sections.fields, cat.field).Some? && Lookup(sections.fields, cat.field).value.JList?
    ensures AddAll(sections, cat, propositions, idxs).value.JObj?
    ensures forall idx :: idx in idxs ==>
      SelectedName(cat, propositions, idx).Ok? &&
      Holds(AddAll(sections, cat, propositions, idxs).value.fields, cat.field, SelectedName(cat, propositions, idx).value)
  {
    AddAllAdds(sections, cat, propositions, idxs);
    forall idx | idx in idxs
      ensures SelectedName(cat, propositions, idx).Ok? &&
        Holds(AddAll(sections, cat, propositions, idxs).value.fields, cat.field, SelectedName(cat, propositions, idx).value)
    {
      var j :| 0 <= j < |idxs| && idxs[j] == idx;
    }
  }

  /** The category at position `c` adds its names, and the later blocks
      keep them. */
  lemma {:induction false} MergeAllAdds(o: Json, cats: seq<Category>, selections: Json, propositions: Json, c: nat)
    requires o.JObj? && Get(o, "sections", JNull).JObj? && c < |cats|
    requires ListOrAbsent(Get(o, "sections", JNull).fields, cats[c].field)
    requires In(cats[c].selection, selections) == Ok(true) && MergeAll(o, cats, selections, propositions).Ok?
    ensures var r := MergeAll(o, cats, selections, propositions).value;
      && GetItem(selections, cats[c].selection).Ok? && Iter(GetItem(selections, cats[c].selection).value).Ok?
      && r.JObj? && Get(r, "sections", JNull).JObj?
      && forall idx :: idx in Iter(GetItem(selections, cats[c].selection).value).value ==>
           SelectedName(cats[c], propositions, idx).Ok? &&
           Holds(Get(r, "sections", JNull).fields, cats[c].field, SelectedName(cats[c], propositions, idx).value)
    decreases |cats|
  {
    var init := cats[..|cats| - 1];
    var cat := cats[|cats| - 1];
    MergeAllShape(o, init, selections, propositions);
    var m := MergeAll(o, init, selections, propositions).value;
    var r := MergeCategory(m, cat, selections, propositions).value;
    if c == |cats| - 1 {
      ListOrAbsentKept(Get(o, "sections", JNull).fields, Get(m, "sections", JNull).fields, FieldsOf(init), cat.field);
      MergeCategoryAdds(m, cat, selections, propositions);
    } else {
      assert init[c] == cats[c];
      MergeAllAdds(o, init, selections, propositions, c);
      MergeCategoryShape(m, cat, selections, propositions);
      forall idx | idx in Iter(GetItem(selections, cats[c].selection).value).value
        ensures SelectedName(cats[c], propositions, idx).Ok? &&
                Holds(Get(r, "sections", JNull).fields, cats[c].field, SelectedName(cats[c], propositions, idx).value)
      {
        HoldsKept(Get(m, "sections", JNull).fields, Get(r, "sections", JNull).fields, {cat.field}, cats[c].field,
                  SelectedName(cats[c], propositions, idx).value);
      }
    }
  }

  /** `merge_enrichment` does merge: for a selected category whose section
      is a list or missing, after a merge that raises nothing, the name of
      every selected proposal is in that section's list. */
  lemma MergeEnrichmentAddsSelected(offre: Json, enrichment: Json, selections: Json, c: nat)
    requires offre.JObj? && Get(offre, "sections", JNull).JObj? && c < |Categories|
    requires ListOrAbsent(Get(offre, "sections", JNull).fields, Categories[c].field)
    requires In(Categories[c].selection, selections) == Ok(true)
    requires MergeEnrichment(offre, enrichment, selections).Ok?
    ensures var r := MergeEnrichment(offre, enrichment, selections).value;
      var propositions := GetItem(enrichment, "propositions").value;
      var chosen := GetItem(selections, Categories[c].selection);
      && chosen.Ok? && Iter(chosen.value).Ok?
      && Get(r, "sections", JNull).JObj?
      && forall idx :: idx in Iter(chosen.value).value ==>
           SelectedName(Categories[c], propositions, idx).Ok? &&
           Holds(Get(r, "sections", JNull).fields, Categories[c].field, SelectedName(Categories[c], propositions, idx).value)
  {
    MergeAllAdds(offre, Categories, selections, GetItem(enrichment, "propositions").value, c);
  }

  /** A selected competence index past the end of the proposals raises
      IndexError. */
  lemma SelectionOutOfRange(offre: Fields, proposals: seq<Json>, i: int)
    requires HasKey(offre, "sections") && Get(JObj(offre), "sections", JNull).JObj?
    requires |proposals| <= i
    ensures MergeEnrichment(JObj(offre), JObj([("propositions", JObj([("competences", JList(proposals))]))]),
                            JObj([("competences", JList([JInt(i)]))])) == Err("IndexError")
  {
    var propositions := JObj([("competences", JList(proposals))]);
    var selections := JObj([("competences", JList([JInt(i)]))]);
    var cat := Categories[0];
    assert Categories[..1] == [cat] && [cat][..0] == [];
    var sections := Get(JObj(offre), "sections", JNull);
    assert In(cat.selection, selections) == Ok(true);
    assert In("sections", JObj(offre)) == Ok(true);
    var s0 := if HasKey(sections.fields, cat.field) then sections else JObj(Put(sections.fields, cat.field, JList([])));
    assert [JInt(i)][..0] == [];
    assert AddOne(s0, cat, propositions, JInt(i)) == Err("IndexError");
    assert AddAll(s0, cat, propositions, [JInt(i)]) == Err("IndexError");
    assert MergeCategory(JObj(offre), cat, selections, propositions) == Err("IndexError");
    assert MergeAll(JObj(offre), Categories[..1], selections, propositions) == Err("IndexError");
    MergeAllErr(JObj(offre), Categories, selections, propositions, 1);
  }

  // ----------------------------------------------------- clarification answers

  const InfoKey: string := "informations_complementaires"

  /** The key an answer is stored under: the question lower-cased, without
      `?` and `'`, spaces turned into `_`, cut to 50 characters. */
  function QuestionKey(q: string): (k: string)
    ensures |k| <= 50
    ensures '?' !in k && '\'' !in k && ' ' !in k
  {
    var a := Filter(Filter(LowerStr(q), c => c != '?'), c => c != '\'');
    var b := ReplaceChar(a, ' ', '_');
    var k := Prefix(b, 50);
    forall i | 0 <= i < |k| ensures k[i] != '?' && k[i] != '\'' && k[i] != ' ' {
      assert k[i] == b[i];
      assert a[i] in a;
    }
    k
  }

  /** `if response and response.strip()`: a false value is skipped, a
      true value must be a string, and a blank one is skipped too. */
  function Accepts(response: Json): (r: Result<bool>)
    ensures r == Ok(true) <==> response.JStr? && !Blank(response.s)
  {
    if !Truthy(response) then
      assert response.JStr? ==> response.s == [];
      Ok(false)
    else if !response.JStr? then Err("AttributeError")
    else
      StripEmptyIffBlank(response.s);
      Ok(Strip(response.s) != [])
  }

  /** The stored record: the question and the stripped answer. */
  function AnswerRecord(q: string, response: string): Json {
    JObj([("question", JStr(q)), ("reponse", JStr(Strip(response)))])
  }

  /** The answers loop over the (question, response) pairs in order; each
      accepted one is written into the information section. */
  function Answers(sections: Json, qs: Fields): Result<Json>
    decreases |qs|
  {
    if qs == [] then Ok(sections)
    else match Answers(sections, qs[..|qs| - 1])
      case Err(e) => Err(e)
      case Ok(s) => Answer(s, qs[|qs| - 1].0, qs[|qs| - 1].1)
  }

  function Answer(sections: Json, q: string, response: Json): Result<Json> {
    match Accepts(response)
    case Err(e) => Err(e)
    case Ok(accepted) =>
      if !accepted then Ok(sections)
      else match GetItem(sections, InfoKey)
        case Err(e) => Err(e)
        case Ok(info) =>
          match SetItem(info, QuestionKey(q), AnswerRecord(q, response.s))
          case Err(e) => Err(e)
          case Ok(info1) => SetItem(sections, InfoKey, info1)
  }

  /** `integrate_question_responses`. */
  function IntegrateQuestionResponses(offre: Json, qs: Fields): (r: Result<Json>)
    ensures offre.JObj? && !HasKey(offre.fields, "sections") ==> r == Ok(offre)
  {
    match In("sections", offre)
    case Err(e) => Err(e)
    case Ok(hasSections) =>
      if !hasSections then Ok(offre)
      else match GetItem(offre, "sections")
        case Err(e) => Err(e)
        case Ok(sections) =>
          match In(InfoKey, sections)
          case Err(e) => Err(e)
          case Ok(has) =>
            match (if has then Ok(sections) else SetItem(sections, InfoKey, JObj([])))
            case Err(e) => Err(e)
            case Ok(s0) =>
              match Answers(s0, qs)
              case Err(e) => Err(e)
              case Ok(s1) => SetItem(offre, "sections", s1)
  }

  /** The answers loop of `integrate_question_responses`. */
  method AnswersLoop(s0: Json, qs: Fields) returns (r: Result<Json>)
    ensures r == Answers(s0, qs)
  {
    var sections := s0;
    for i := 0 to |qs|
      invariant Answers(s0, qs[..i]) == Ok(sections)
    {
      assert qs[..i + 1][..i] == qs[..i];
      var next := Answer(sections, qs[i].0, qs[i].1);
      if next.Err? {
        AnswersErr(s0, qs, i + 1);
        return next;
      }
      sections := next.value;
    }
    assert qs[..|qs|] == qs;
    return Ok(sections);
  }

  lemma {:induction false} AnswersErr(s0: Json, qs: Fields, n: nat)
    requires 0 < n <= |qs| && Answers(s0, qs[..n]).Err?
    ensures Answers(s0, qs) == Answers(s0, qs[..n])
    decreases |qs| - n
  {
    if n < |qs| {
      assert qs[..n + 1][..n] == qs[..n];
      AnswersErr(s0, qs, n + 1);
    } else {
      assert qs[..n] == qs;
    }
  }

  /** The record of the last accepted answer whose question gives `key`. */
  function LastAnswer(qs: Fields, key: string): Option<Json>
    decreases |qs|
  {
    if qs == [] then None
    else
      var (q, response) := qs[|qs| - 1];
      if Accepts(response) == Ok(true) && QuestionKey(q) == key then Some(AnswerRecord(q, response.s))
      else LastAnswer(qs[..|qs| - 1], key)
  }

  /** With the information section a dict, each key ends up holding the
      last accepted answer filed under it, or what it held before; blank
      and missing answers change nothing, and nothing else in the sections
      changes. */
  lemma {:induction false} AnswersLast(sections: Json, qs: Fields)
    requires sections.JObj? && Get(sections, InfoKey, JNull).JObj? && Answers(sections, qs).Ok?
    ensures var r := Answers(sections, qs).value;
      && r.JObj? && Get(r, InfoKey, JNull).JObj?
      && (forall k :: k != InfoKey ==> Lookup(r.fields, k) == Lookup(sections.fields, k))
      && forall key :: Lookup(Get(r, InfoKey, JNull).fields, key) ==
           if LastAnswer(qs, key).Some? then LastAnswer(qs, key) else Lookup(Get(sections, InfoKey, JNull).fields, key)
    decreases |qs|
  {
    if qs != [] {
      var init := qs[..|qs| - 1];
      var last := qs[|qs| - 1];
      assert Answers(sections, init).Ok?;
      AnswersLast(sections, init);
      var s := Answers(sections, init).value;
      assert Answers(sections, qs) == Answer(s, last.0, last.1);
      AnswerOne(s, last.0, last.1);
      forall key ensures LastAnswer(qs, key) ==
        if Accepts(last.1) == Ok(true) && QuestionKey(last.0) == key then Some(AnswerRecord(last.0, last.1.s))
        else LastAnswer(init, key)
      {
      }
    }
  }

  /** One answer: an accepted one is filed under its key in the information
      section, and nothing else changes. */
  lemma AnswerOne(s: Json, q: string, response: Json)
    requires s.JObj? && Get(s, InfoKey, JNull).JObj? && Answer(s, q, response).Ok?
    ensures var r := Answer(s, q, response).value;
      && r.JObj? && Get(r, InfoKey, JNull).JObj?
      && (forall k :: k != InfoKey ==> Lookup(r.fields, k) == Lookup(s.fields, k))
      && forall key :: Lookup(Get(r, InfoKey, JNull).fields, key) ==
           if Accepts(response) == Ok(true) && QuestionKey(q) == key then Some(AnswerRecord(q, response.s))
           else Lookup(Get(s, InfoKey, JNull).fields, key)
  {
    var r := Answer(s, q, response).value;
    if Accepts(response) == Ok(true) {
      var info := Get(s, InfoKey, JNull);
      var key0, rec := QuestionKey(q), AnswerRecord(q, response.s);
      var got := GetItem(s, InfoKey);
      assert got.Ok? && got.value == info;
      var info1 := JObj(Put(info.fields, key0, rec));
      assert SetItem(info, key0, rec) == Ok(info1);
      assert r == JObj(Put(s.fields, InfoKey, info1));
      FileUnder(s, key0, rec);
    } else {
      assert r == s;
    }
  }

  /** Filing `rec` under `key0` in the information section changes that one
      key there and nothing else. */
  lemma FileUnder(s: Json, key0: string, rec: Json)
    requires s.JObj? && Get(s, InfoKey, JNull).JObj?
    ensures var info := Get(s, InfoKey, JNull);
      var r := JObj(Put(s.fields, InfoKey, JObj(Put(info.fields, key0, rec))));
      && Get(r, InfoKey, JNull).JObj?
      && (forall k :: k != InfoKey ==> Lookup(r.fields, k) == Lookup(s.fields, k))
      && forall key :: Lookup(Get(r, InfoKey, JNull).fields, key) == if key == key0 then Some(rec) else Lookup(info.fields, key)
  {
    var info := Get(s, InfoKey, JNull);
    var info1 := JObj(Put(info.fields, key0, rec));
    LookupPutAll(info.fields, key0, rec);
    LookupPutAll(s.fields, InfoKey, info1);
  }

  /** `integrate_question_responses` on a dict offer whose sections are a
      dict: only the information section changes; it is created empty when
      missing, and each key holds the last accepted answer filed under it. */
  lemma IntegrateLast(offre: Json, qs: Fields)
    requires offre.JObj? && Get(offre, "sections", JNull).JObj?
    requires var info := Get(Get(offre, "sections", JNull), InfoKey, JNull); info.JObj? || !HasKey(Get(offre, "sections", JNull).fields, InfoKey)
    requires IntegrateQuestionResponses(offre, qs).Ok?
    ensures var r := IntegrateQuestionResponses(offre, qs).value;
      var before := Get(Get(offre, "sections", JNull), InfoKey, JObj([]));
      && r.JObj? && Get(r, "sections", JNull).JObj?
      && (forall k :: k != "sections" ==> Lookup(r.fields, k) == Lookup(offre.fields, k))
      && (forall k :: k != InfoKey ==> Lookup(Get(r, "sections", JNull).fields, k) == Lookup(Get(offre, "sections", JNull).fields, k))
      && Get(Get(r, "sections", JNull), InfoKey, JNull).JObj?
      && forall key :: Lookup(Get(Get(r, "sections", JNull), InfoKey, JNull).fields, key) ==
           if LastAnswer(qs, key).Some? then LastAnswer(qs, key) else Lookup(before.fields, key)
  {
    var sections := Get(offre, "sections", JNull);
    var s0 := if HasKey(sections.fields, InfoKey) then sections else JObj(Put(sections.fields, InfoKey, JObj([])));
    if !HasKey(sections.fields, InfoKey) {
      LookupPutAll(sections.fields, InfoKey, JObj([]));
    }
    AnswersLast(s0, qs);
    var s1 := Answers(s0, qs).value;
    LookupPutAll(offre.fields, "sections", s1);
  }
}
