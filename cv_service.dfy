/** The CV index service: collision-free file names for uploaded CVs, and
    the `cv_meta` index table, whose rows are keyed by file name and
    project. The database is a sequence of rows in table order; the JSON
    files beside it are not modelled. */
module CvService {
  import opened Wrappers
  import opened Text
  import opened JsonValue
  import opened Assoc
  import opened PyOps
  import opened Pathname

  // ----------------------------------------------------------- unique names

  /** The candidate stem for counter `c`: `<base>__<timestamp>`, then
      `_<c>` from the second candidate on. */
  function Candidate(base: string, timestamp: string, c: nat): string {
    base + "__" + timestamp + (if c == 0 then "" else "_" + NatToString(c))
  }

  /** Different counters give different candidates. */
  lemma CandidateInjective(base: string, timestamp: string, c: nat, d: nat)
    requires Candidate(base, timestamp, c) == Candidate(base, timestamp, d)
    ensures c == d
  {
    var p := base + "__" + timestamp;
    var x := if c == 0 then "" else "_" + NatToString(c);
    var y := if d == 0 then "" else "_" + NatToString(d);
    assert p + x == p + y;
    assert x == (p + x)[|p|..] && y == (p + y)[|p|..];
    if c != 0 && d != 0 {
      assert NatToString(c) == x[1..] && NatToString(d) == y[1..];
      NatToStringInjective(c, d);
    }
  }

  /** The JSON names of the first `n` candidates. */
  function CandidateNames(base: string, timestamp: string, n: nat): (s: set<string>)
    ensures forall c :: 0 <= c < n ==> Candidate(base, timestamp, c) + ".json" in s
    decreases n
  {
    if n == 0 then {} else CandidateNames(base, timestamp, n - 1) + {Candidate(base, timestamp, n - 1) + ".json"}
  }

  /** A later candidate is not among the first `n`. */
  lemma {:induction false} CandidateAbsent(base: string, timestamp: string, m: nat, n: nat)
    requires n <= m
    ensures Candidate(base, timestamp, m) + ".json" !in CandidateNames(base, timestamp, n)
    decreases n
  {
    if n > 0 {
      CandidateAbsent(base, timestamp, m, n - 1);
      var x, y := Candidate(base, timestamp, m) + ".json", Candidate(base, timestamp, n - 1) + ".json";
      if x == y {
        assert Candidate(base, timestamp, m) == x[..|x| - 5] == y[..|y| - 5] == Candidate(base, timestamp, n - 1);
        CandidateInjective(base, timestamp, m, n - 1);
      }
    }
  }

  /** The first `n` candidates are `n` different names. */
  lemma {:induction false} CandidateNamesSize(base: string, timestamp: string, n: nat)
    ensures |CandidateNames(base, timestamp, n)| == n
    decreases n
  {
    if n > 0 {
      CandidateNamesSize(base, timestamp, n - 1);
      CandidateAbsent(base, timestamp, n - 1, n - 1);
    }
  }

  /** `get_unique_filename`, with the project's existing JSON names as a
      set and the current time as its `%Y%m%dT%H%M%S` text. A name whose
      JSON form is free is kept; otherwise the first free candidate is
      used with the original extension, and the loop ends because the set
      is finite. */
  method GetUniqueFilename(existing: set<string>, original: string, timestamp: string) returns (name: string, collision: bool)
    ensures Stem(original) + ".json" !in existing ==> name == original && !collision
    ensures Stem(original) + ".json" in existing ==>
      collision &&
      exists c: nat :: c <= |existing| &&
        name == Candidate(Stem(original), timestamp, c) + Suffix(original) &&
        Candidate(Stem(original), timestamp, c) + ".json" !in existing &&
        forall d :: 0 <= d < c ==> Candidate(Stem(original), timestamp, d) + ".json" in existing
  {
    var base := Stem(original);
    var ext := Suffix(original);
    if base + ".json" !in existing {
      return original, false;
    }
    var counter: nat := 0;
    while true
      invariant CandidateNames(base, timestamp, counter) <= existing
      invariant counter <= |existing|
      decreases |existing| - counter
    {
      var candidate := Candidate(base, timestamp, counter);
      if candidate + ".json" !in existing {
        name, collision := candidate + ext, true;
        assert forall d :: 0 <= d < counter ==> Candidate(base, timestamp, d) + ".json" in existing;
        return;
      }
      CandidateNamesSize(base, timestamp, counter + 1);
      assert CandidateNames(base, timestamp, counter + 1) <= existing;
      SubsetSize(CandidateNames(base, timestamp, counter + 1), existing);
      counter := counter + 1;
    }
  }

  lemma SubsetSize(a: set<string>, b: set<string>)
    requires a <= b
    ensures |a| <= |b|
  {
    assert b == a + (b - a);
  }

  // ------------------------------------------------------------ the index

  /** A `cv_meta` row; every column holds what the caller passed. */
  datatype CvMeta = CvMeta(filename: Json, projectId: Json, jsonPath: Json, filePath: Json, parsedAt: Json,
                           candidatNom: Json, candidatTitre: Json, lastModified: Json)

  /** The first row satisfying `p`, as the index of `.first()`. */
  function FirstRow(rows: seq<CvMeta>, p: CvMeta -> bool): (r: Option<nat>)
    ensures r.Some? ==> r.value < |rows| && p(rows[r.value])
    ensures forall i :: 0 <= i < |rows| && (r.None? || i < r.value) ==> !p(rows[i])
    decreases |rows|
  {
    if rows == [] then None
    else if p(rows[0]) then Some(0)
    else match FirstRow(rows[1..], p)
      case None => None
      case Some(i) => Some(i + 1)
  }

  /** `delete_cv`'s name rewrite: a name not ending in `.json` becomes its
      stem plus `.json`. */
  function JsonName(filename: string): (r: string)
    ensures EndsWith(r, ".json")
    ensures EndsWith(filename, ".json") ==> r == filename
    ensures !EndsWith(filename, ".json") ==> r == Stem(filename) + ".json"
  {
    if EndsWith(filename, ".json") then filename
    else
      var r := Stem(filename) + ".json";
      assert r[|r| - 5..] == ".json";
      r
  }

  /** The row `create_or_update_cv` writes over an existing one: each of
      the five columns is taken from the input when its key is present
      (even as `None`), else kept; the modification time is refreshed. */
  function UpdatedRow(row: CvMeta, data: Json, now: Json): (r: CvMeta)
    ensures r.filename == row.filename && r.projectId == row.projectId && r.lastModified == now
    ensures !Has(data, "json_path") ==> r.jsonPath == row.jsonPath
    ensures Has(data, "json_path") ==> Some(r.jsonPath) == Lookup(data.fields, "json_path")
    ensures !Has(data, "file_path") ==> r.filePath == row.filePath
    ensures Has(data, "file_path") ==> Some(r.filePath) == Lookup(data.fields, "file_path")
    ensures !Has(data, "parsed_at") ==> r.parsedAt == row.parsedAt
    ensures Has(data, "parsed_at") ==> Some(r.parsedAt) == Lookup(data.fields, "parsed_at")
    ensures !Has(data, "candidat_nom") ==> r.candidatNom == row.candidatNom
    ensures Has(data, "candidat_nom") ==> Some(r.candidatNom) == Lookup(data.fields, "candidat_nom")
    ensures !Has(data, "candidat_titre") ==> r.candidatTitre == row.candidatTitre
    ensures Has(data, "candidat_titre") ==> Some(r.candidatTitre) == Lookup(data.fields, "candidat_titre")
  {
    row.(jsonPath := Get(data, "json_path", row.jsonPath),
         filePath := Get(data, "file_path", row.filePath),
         parsedAt := Get(data, "parsed_at", row.parsedAt),
         candidatNom := Get(data, "candidat_nom", row.candidatNom),
         candidatTitre := Get(data, "candidat_titre", row.candidatTitre),
         lastModified := now)
  }

  /** The row `create_or_update_cv` inserts: `json_path` is required, the
      parse time defaults to now, the other columns to `None`. */
  function NewRow(filename: Json, projectId: Json, data: Json, now: Json): (r: Result<CvMeta>)
    ensures r.Ok? <==> data.JObj? && HasKey(data.fields, "json_path")
    ensures r.Ok? ==> r.value.filename == filename && r.value.projectId == projectId && r.value.lastModified == now
    ensures r.Ok? && !Has(data, "parsed_at") ==> r.value.parsedAt == now
  {
    match GetItem(data, "json_path")
    case Err(e) => Err(e)
    case Ok(jsonPath) =>
      Ok(CvMeta(filename, projectId, jsonPath, Get(data, "file_path", JNull), Get(data, "parsed_at", now),
                Get(data, "candidat_nom", JNull), Get(data, "candidat_titre", JNull), now))
  }

  predicate SameKey(a: CvMeta, b: CvMeta) {
    a.filename == b.filename && a.projectId == b.projectId
  }

  /** No two rows share a primary key. */
  predicate DistinctKeys(rows: seq<CvMeta>) {
    forall i, j :: 0 <= i < j < |rows| ==> !SameKey(rows[i], rows[j])
  }

  /** Removing a row keeps the keys distinct. */
  lemma RemoveDistinct(rows: seq<CvMeta>, k: nat)
    requires DistinctKeys(rows) && k < |rows|
    ensures DistinctKeys(rows[..k] + rows[k + 1..])
  {
    var after := rows[..k] + rows[k + 1..];
    forall i | 0 <= i < |after| ensures after[i] == rows[if i < k then i else i + 1] {
    }
  }

  /** The `cv_meta` table. */
  class CvIndex {
    var rows: seq<CvMeta>

    /** The primary key (file name, project) identifies a row. */
    ghost predicate Valid()
      reads this
    {
      DistinctKeys(rows)
    }

    constructor()
      ensures Valid() && rows == []
    {
      rows := [];
    }

    /** `create_or_update_cv`: the row with the input's file name and
        project is updated in place, or a new row is appended; a missing
        key is a `KeyError` that changes nothing. */
    method CreateOrUpdateCv(data: Json, now: Json) returns (r: Result<CvMeta>)
      requires Valid()
      modifies this
      ensures Valid()
      ensures r.Err? ==> rows == old(rows)
      ensures r.Ok? ==> GetItem(data, "project_id").Ok? && GetItem(data, "filename").Ok?
      ensures var pid := GetItem(data, "project_id");
        var name := GetItem(data, "filename");
        pid.Ok? && name.Ok? ==>
          var k := FirstRow(old(rows), (row: CvMeta) => row.projectId == pid.value && row.filename == name.value);
          if k.Some? then
            r == Ok(UpdatedRow(old(rows)[k.value], data, now)) && rows == old(rows)[k.value := r.value]
          else
            r == NewRow(name.value, pid.value, data, now) && (r.Ok? ==> rows == old(rows) + [r.value])
    {
      var pid := GetItem(data, "project_id");
      if pid.Err? {
        return Err(pid.error);
      }
      var name := GetItem(data, "filename");
      if name.Err? {
        return Err(name.error);
      }
      var k := FirstRow(rows, (row: CvMeta) => row.projectId == pid.value && row.filename == name.value);
      if k.Some? {
        var row := UpdatedRow(rows[k.value], data, now);
        rows := rows[k.value := row];
        return Ok(row);
      }
      r := NewRow(name.value, pid.value, data, now);
      if r.Ok? {
        rows := rows + [r.value];
      }
    }

    /** `delete_cv`: the name is rewritten to its JSON form and the first
        row with that file name, in any project, is removed. */
    method DeleteCv(filename: string) returns (deleted: bool)
      requires Valid()
      modifies this
      ensures Valid()
      ensures var k := FirstRow(old(rows), (row: CvMeta) => row.filename == JStr(JsonName(filename)));
        (deleted <==> k.Some?) &&
        (if k.Some? then rows == old(rows)[..k.value] + old(rows)[k.value + 1..] else rows == old(rows))
    {
      var k := FirstRow(rows, (row: CvMeta) => row.filename == JStr(JsonName(filename)));
      if k.None? {
        return false;
      }
      RemoveDistinct(rows, k.value);
      rows := rows[..k.value] + rows[k.value + 1..];
      return true;
    }
  }

  /** No row with the rewritten name means nothing is deleted, whatever
      the project. */
  lemma DeleteAbsent(rows: seq<CvMeta>, filename: string)
    requires forall i :: 0 <= i < |rows| ==> rows[i].filename != JStr(JsonName(filename))
    ensures FirstRow(rows, (row: CvMeta) => row.filename == JStr(JsonName(filename))).None?
  {
  }
}
