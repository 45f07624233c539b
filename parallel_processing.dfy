/** The file-extraction and validation helpers of the parallel pipeline.
    Extraction runs one task per path; the order in which tasks complete is
    an input, and the collected results are sorted back by the position of
    their path. Validation retries `validate_and_repair` one attempt at a
    time, with an optional language-model repair between attempts. */
module ParallelProcessing {
  import opened Wrappers
  import opened JsonValue
  import opened Completion
  import opened StableSort
  import opened Validation
  import opened Assoc

  /** One extraction result: `{"file", "success", "data", "error", "duration"}`. */
  datatype Extraction = Extraction(file: string, success: bool, data: Json, error: Option<string>, duration: real)

  /** `extract_single_file`: the outcome of the extraction function and the
      elapsed time are inputs; a failure becomes a result, never an
      exception. */
  function ExtractSingleFile(path: string, outcome: Result<Json>, elapsed: real): (r: Extraction)
    ensures r.file == path
    ensures r.success <==> outcome.Ok?
    ensures r.success ==> r.data == outcome.value && r.error.None? && r.duration == elapsed
    ensures !r.success ==> r.data == JNull && r.error == Some(outcome.error) && r.duration == 0.0
  {
    match outcome
    case Ok(data) => Extraction(path, true, data, None, elapsed)
    case Err(e) => Extraction(path, false, JNull, Some(e), 0.0)
  }

  /** Every task's result, in submission order. */
  function Tasks(paths: seq<string>, extract: string -> Result<Json>, elapsed: seq<real>): (r: seq<Extraction>)
    requires |elapsed| == |paths|
    ensures |r| == |paths| && forall i :: 0 <= i < |paths| ==> r[i] == ExtractSingleFile(paths[i], extract(paths[i]), elapsed[i])
  {
    seq(|paths|, i requires 0 <= i < |paths| => ExtractSingleFile(paths[i], extract(paths[i]), elapsed[i]))
  }

  /** `file_paths.index(f)`: the first position of `f`. */
  function IndexOf(paths: seq<string>, f: string): (r: nat)
    ensures f in paths ==> r < |paths| && paths[r] == f && forall j :: 0 <= j < r ==> paths[j] != f
    ensures f !in paths ==> r == |paths|
    decreases |paths|
  {
    if paths == [] then 0 else if paths[0] == f then 0 else 1 + IndexOf(paths[1..], f)
  }

  function Greater(a: nat, b: nat): bool { a > b }

  lemma GreaterAsymmetric()
    ensures Asymmetric(Greater)
  {
  }

  /** The sort key: the position of the result's path. */
  function ByPath(paths: seq<string>): Extraction -> nat {
    (r: Extraction) => IndexOf(paths, r.file)
  }

  /** `results.sort(key=lambda r: file_paths.index(r["file"]))`: a stable
      sort into non-decreasing key order. */
  function SortByPath(paths: seq<string>, results: seq<Extraction>): seq<Extraction> {
    SortDesc(results, ByPath(paths), Greater)
  }

  /** What `parallel_extract_files` returns for a completion order. */
  function ExtractAll(paths: seq<string>, extract: string -> Result<Json>, elapsed: seq<real>, order: seq<nat>): seq<Extraction>
    requires |elapsed| == |paths| && IsCompletionOrder(order, |paths|)
  {
    InRange(order, |paths|);
    SortByPath(paths, Permute(Tasks(paths, extract, elapsed), order))
  }

  /** `parallel_extract_files`: results are collected as tasks complete,
      the progress callback (when there is one) counts them off, and the
      list is sorted in place at the end. */
  method ParallelExtractFiles(paths: seq<string>, extract: string -> Result<Json>, elapsed: seq<real>,
                              order: seq<nat>, hasCallback: bool)
    returns (results: seq<Extraction>, progress: seq<(nat, nat)>)
    requires |elapsed| == |paths| && IsCompletionOrder(order, |paths|)
    ensures results == ExtractAll(paths, extract, elapsed, order)
    ensures progress == if hasCallback then Progress(|paths|) else []
  {
    InRange(order, |paths|);
    var tasks := Tasks(paths, extract, elapsed);
    var total := |paths|;
    results := [];
    progress := [];
    var completed := 0;
    while completed < |order|
      invariant 0 <= completed <= |order|
      invariant results == Permute(tasks, order[..completed])
      invariant progress == if hasCallback then Progress(total)[..completed] else []
    {
      var result := tasks[order[completed]];
      assert Permute(tasks, order[..completed + 1]) == Permute(tasks, order[..completed]) + [result];
      results := results + [result];
      completed := completed + 1;
      if hasCallback {
        ProgressPrefix(total, completed - 1);
        progress := progress + [(completed, total)];
      }
    }
    assert order[..completed] == order;
    results := SortByPath(paths, results);
  }

  /** The results are the task results rearranged, ordered by the position
      of their path. */
  lemma ExtractAllOrdered(paths: seq<string>, extract: string -> Result<Json>, elapsed: seq<real>, order: seq<nat>)
    requires |elapsed| == |paths| && IsCompletionOrder(order, |paths|)
    ensures var r := ExtractAll(paths, extract, elapsed, order);
      && |r| == |paths|
      && multiset(r) == multiset(Tasks(paths, extract, elapsed))
      && forall i :: 0 <= i < |r| - 1 ==> IndexOf(paths, r[i].file) <= IndexOf(paths, r[i + 1].file)
  {
    var tasks := Tasks(paths, extract, elapsed);
    PermuteIsPermutation(tasks, order);
    GreaterAsymmetric();
    SortDescSorted(Permute(tasks, order), ByPath(paths), Greater);
  }

  /** `xs` through `f`, element by element. */
  function Map<T, U>(f: T -> U, xs: seq<T>): (r: seq<U>)
    ensures |r| == |xs| && forall i :: 0 <= i < |xs| ==> r[i] == f(xs[i])
  {
    seq(|xs|, i requires 0 <= i < |xs| => f(xs[i]))
  }

  /** Taking out one element, before and after mapping. */
  lemma MapRemoveAt<T, U>(f: T -> U, s: seq<T>, p: nat)
    requires p < |s|
    ensures multiset(s[..p] + s[p + 1..]) == multiset(s) - multiset{s[p]}
    ensures multiset(Map(f, s)) == multiset(Map(f, s[..p] + s[p + 1..])) + multiset{f(s[p])}
  {
    var a, x, b := s[..p], s[p], s[p + 1..];
    assert s == (a + [x]) + b;
    assert multiset(s) == multiset(a) + multiset{x} + multiset(b);
    MapAppend(f, a + [x], b);
    MapAppend(f, a, [x]);
    MapAppend(f, a, b);
    var ma, mb := Map(f, a), Map(f, b);
    assert Map(f, [x]) == [f(x)];
    assert Map(f, s) == (ma + [f(x)]) + mb;
    assert multiset(Map(f, s)) == multiset(ma) + multiset{f(x)} + multiset(mb);
    assert multiset(Map(f, a + b)) == multiset(ma) + multiset(mb);
  }

  lemma MapAppend<T, U>(f: T -> U, a: seq<T>, b: seq<T>)
    ensures Map(f, a + b) == Map(f, a) + Map(f, b)
  {
  }

  lemma {:induction false} MapMultiset<T, U>(f: T -> U, xs: seq<T>, ys: seq<T>)
    requires multiset(xs) == multiset(ys)
    ensures multiset(Map(f, xs)) == multiset(Map(f, ys))
    decreases |xs|
  {
    if xs != [] {
      var m := |xs| - 1;
      assert xs[m] in multiset(ys);
      var p :| 0 <= p < |ys| && ys[p] == xs[m];
      MapRemoveAt(f, xs, m);
      MapRemoveAt(f, ys, p);
      assert xs[..m] + xs[m + 1..] == xs[..m];
      MapMultiset(f, xs[..m], ys[..p] + ys[p + 1..]);
    }
  }

  lemma {:induction false} NonDecreasingFrom(ks: seq<nat>, j: nat, i: nat)
    requires forall k :: 0 <= k < |ks| - 1 ==> ks[k] <= ks[k + 1]
    requires j <= i < |ks|
    ensures ks[j] <= ks[i]
    decreases i - j
  {
    if j < i {
      NonDecreasingFrom(ks, j + 1, i);
    }
  }

  /** A non-decreasing arrangement of `0..n-1` is `0..n-1` itself. */
  lemma {:induction false} SortedRange(ks: seq<nat>, n: nat)
    requires multiset(ks) == multiset(Range(n))
    requires forall i :: 0 <= i < |ks| - 1 ==> ks[i] <= ks[i + 1]
    ensures ks == Range(n)
    decreases n
  {
    InRange(ks, n);
    if n > 0 {
      SortedRangeLast(ks, n);
      DropLast(ks, n);
      SortedRange(ks[..n - 1], n - 1);
      assert ks == ks[..n - 1] + [ks[n - 1]];
      assert Range(n) == Range(n - 1) + [n - 1];
    }
  }

  /** The last of a non-decreasing arrangement of `0..n-1` is `n - 1`. */
  lemma SortedRangeLast(ks: seq<nat>, n: nat)
    requires multiset(ks) == multiset(Range(n))
    requires forall i :: 0 <= i < |ks| - 1 ==> ks[i] <= ks[i + 1]
    requires |ks| == n > 0
    requires forall k :: 0 <= k < |ks| ==> ks[k] < n
    ensures ks[n - 1] == n - 1
  {
    assert Range(n)[n - 1] == n - 1;
    assert n - 1 in multiset(Range(n));
    var j :| 0 <= j < |ks| && ks[j] == n - 1;
    NonDecreasingFrom(ks, j, n - 1);
  }

  /** Dropping the last index `n - 1` leaves an arrangement of `0..n-2`. */
  lemma DropLast(ks: seq<nat>, n: nat)
    requires multiset(ks) == multiset(Range(n))
    requires |ks| == n > 0 && ks[n - 1] == n - 1
    ensures multiset(ks[..n - 1]) == multiset(Range(n - 1))
  {
    var m := n - 1;
    assert ks == ks[..m] + [m];
    assert Range(n) == Range(m) + [m];
    assert multiset(ks[..m]) == multiset(ks) - multiset{m};
    assert multiset(Range(m)) == multiset(Range(n)) - multiset{m};
  }

  /** A key-sorted rearrangement of a sequence whose keys are `0..n-1` in
      order is that sequence. */
  lemma SortedByRankedKey<T>(r: seq<T>, xs: seq<T>, key: T -> nat)
    requires multiset(r) == multiset(xs)
    requires Map(key, xs) == Range(|xs|)
    requires forall i :: 0 <= i < |r| - 1 ==> key(r[i]) <= key(r[i + 1])
    ensures r == xs
  {
    assert |r| == |multiset(xs)| == |xs|;
    MapMultiset(key, r, xs);
    SortedRange(Map(key, r), |xs|);
    forall k | 0 <= k < |r| ensures r[k] == xs[k] {
      assert r[k] in multiset(xs);
      var j :| 0 <= j < |xs| && xs[j] == r[k];
      assert Map(key, r)[k] == k && Map(key, xs)[j] == j;
    }
  }

  /** With distinct paths, whatever the completion order, the results come
      back in the order of the paths. */
  lemma ExtractAllInInputOrder(paths: seq<string>, extract: string -> Result<Json>, elapsed: seq<real>, order: seq<nat>)
    requires |elapsed| == |paths| && IsCompletionOrder(order, |paths|)
    requires forall i, j :: 0 <= i < j < |paths| ==> paths[i] != paths[j]
    ensures ExtractAll(paths, extract, elapsed, order) == Tasks(paths, extract, elapsed)
  {
    var tasks := Tasks(paths, extract, elapsed);
    var key := ByPath(paths);
    ExtractAllOrdered(paths, extract, elapsed, order);
    forall i | 0 <= i < |paths| ensures Map(key, tasks)[i] == Range(|paths|)[i] {
      assert paths[i] in paths;
    }
    SortedByRankedKey(ExtractAll(paths, extract, elapsed, order), tasks, key);
  }

  // ------------------------------------------------------ validation retry

  /** `validate_with_retry`'s report: `{"success", "data", "attempts",
      "errors", "warnings"}`. */
  datatype RetryReport = RetryReport(success: bool, data: Json, attempts: int, errors: seq<string>, warnings: seq<Warning>)

  /** The language-model repair: absent, or called with the attempt number,
      the data and the validation errors; a failure is caught and skipped. */
  type LlmRepair = Option<(nat, Json, seq<string>) -> Result<Json>>

  /** The attempts of `validate_with_retry` from `attempt` on, each a
      single-attempt `validate_and_repair`; `last` is the previous
      attempt's result. A failed attempt leaves `data` as the repair
      rewrote it in place (`DataAfter`), and the language-model repair,
      when there is one, starts from that. Running out of attempts before
      any has been made reads an unbound variable. A success names the
      attempt that validated, within the limit; a failure reports every
      attempt used, the data as it then stands and, since an invalid result
      is false in a boolean test, no warnings. */
  function RetrySpec(data: Json, schemaType: string, attempt: nat, maxAttempts: int, last: Option<Validation>,
                     llm: LlmRepair, loads: string -> Result<Json>, check: (SchemaKind, Json) -> Option<string>,
                     parse: string -> Option<real>): (r: Result<RetryReport>)
    ensures (last.Some? ==> !last.value.valid) && r.Ok? ==>
      && (r.value.success ==> attempt + 1 <= r.value.attempts <= maxAttempts && r.value.errors == [])
      && (!r.value.success ==> r.value.attempts == maxAttempts && r.value.warnings == [])
    decreases if attempt <= maxAttempts then maxAttempts - attempt else 0
  {
    if attempt >= maxAttempts then
      if last.None? then Err("UnboundLocalError")
      else Ok(RetryReport(false, data, maxAttempts, last.value.errors, if last.value.valid then last.value.warnings else []))
    else match ValidateAndRepair(data, schemaType, 1, loads, check, parse)
      case Err(e) => Err(e)
      case Ok(result) =>
        if result.valid then Ok(RetryReport(true, result.data, attempt + 1, [], result.warnings))
        else
          var kept := DataAfter(data, schemaType, result, parse);
          var next := if llm.Some? && attempt < maxAttempts - 1 && llm.value(attempt, kept, result.errors).Ok?
                      then llm.value(attempt, kept, result.errors).value else kept;
          RetrySpec(next, schemaType, attempt + 1, maxAttempts, Some(result), llm, loads, check, parse)
  }

  /** `validate_with_retry`. */
  function ValidateWithRetry(data: Json, schemaType: string, llm: LlmRepair, maxAttempts: int,
                             loads: string -> Result<Json>, check: (SchemaKind, Json) -> Option<string>,
                             parse: string -> Option<real>): (r: Result<RetryReport>)
    ensures maxAttempts <= 0 ==> r == Err("UnboundLocalError")
    ensures r.Ok? ==>
      && (r.value.success ==> 1 <= r.value.attempts <= maxAttempts && r.value.errors == [])
      && (!r.value.success ==> r.value.attempts == maxAttempts && r.value.warnings == [])
  {
    RetrySpec(data, schemaType, 0, maxAttempts, None, llm, loads, check, parse)
  }

  /** `validate_with_retry`, with its loop. */
  method ValidateWithRetryLoop(data: Json, schemaType: string, llm: LlmRepair, maxAttempts: int,
                               loads: string -> Result<Json>, check: (SchemaKind, Json) -> Option<string>,
                               parse: string -> Option<real>) returns (r: Result<RetryReport>)
    ensures r == ValidateWithRetry(data, schemaType, llm, maxAttempts, loads, check, parse)
  {
    var current := data;
    var result: Option<Validation> := None;
    var attempt: nat := 0;
    while attempt < maxAttempts
      invariant ValidateWithRetry(data, schemaType, llm, maxAttempts, loads, check, parse) ==
        RetrySpec(current, schemaType, attempt, maxAttempts, result, llm, loads, check, parse)
      decreases maxAttempts - attempt
    {
      var v := ValidateAndRepairData(current, schemaType, 1, loads, check, parse);
      if v.Err? {
        return Err(v.error);
      }
      if v.value.valid {
        return Ok(RetryReport(true, v.value.data, attempt + 1, [], v.value.warnings));
      }
      // the repair has rewritten the caller's value in place
      current := DataAfter(current, schemaType, v.value, parse);
      if llm.Some? && attempt < maxAttempts - 1 {
        var repaired := llm.value(attempt, current, v.value.errors);
        if repaired.Ok? {
          current := repaired.value;
        }
      }
      result := Some(v.value);
      attempt := attempt + 1;
    }
    if result.None? {
      return Err("UnboundLocalError");
    }
    r := Ok(RetryReport(false, current, maxAttempts, result.value.errors, if result.value.valid then result.value.warnings else []));
  }

  /** Without a repair function, a failed attempt that leaves the data as
      it was (a JSON text, an unknown schema, a value the in-place repair
      does not change) is repeated to the end: the run fails after every
      attempt and reports that data. */
  lemma {:induction false} RetryWithoutRepair(data: Json, schemaType: string, attempt: nat, maxAttempts: int,
                                              last: Option<Validation>,
                                              loads: string -> Result<Json>, check: (SchemaKind, Json) -> Option<string>,
                                              parse: string -> Option<real>)
    requires attempt < maxAttempts
    requires ValidateAndRepair(data, schemaType, 1, loads, check, parse).Ok?
    requires !ValidateAndRepair(data, schemaType, 1, loads, check, parse).value.valid
    requires DataAfter(data, schemaType, ValidateAndRepair(data, schemaType, 1, loads, check, parse).value, parse) == data
    ensures RetrySpec(data, schemaType, attempt, maxAttempts, last, None, loads, check, parse) ==
      Ok(RetryReport(false, data, maxAttempts, ValidateAndRepair(data, schemaType, 1, loads, check, parse).value.errors, []))
    decreases maxAttempts - attempt
  {
    var v := ValidateAndRepair(data, schemaType, 1, loads, check, parse).value;
    RetryFailedStep(data, schemaType, attempt, maxAttempts, last, loads, check, parse, v);
    if attempt + 1 < maxAttempts {
      RetryWithoutRepair(data, schemaType, attempt + 1, maxAttempts, Some(v), loads, check, parse);
    }
  }

  /** A failed attempt without a repair function moves on with the data as
      the repair left it. */
  lemma RetryFailedStep(data: Json, schemaType: string, attempt: nat, maxAttempts: int,
                        last: Option<Validation>,
                        loads: string -> Result<Json>, check: (SchemaKind, Json) -> Option<string>,
                        parse: string -> Option<real>, v: Validation)
    requires attempt < maxAttempts
    requires ValidateAndRepair(data, schemaType, 1, loads, check, parse) == Ok(v) && !v.valid
    ensures RetrySpec(data, schemaType, attempt, maxAttempts, last, None, loads, check, parse) ==
      RetrySpec(DataAfter(data, schemaType, v, parse), schemaType, attempt + 1, maxAttempts, Some(v), None, loads, check, parse)
  {
  }

  /** An attempt that validates ends the run with its data and warnings. */
  lemma RetryValidStep(data: Json, schemaType: string, attempt: nat, maxAttempts: int,
                       last: Option<Validation>, llm: LlmRepair,
                       loads: string -> Result<Json>, check: (SchemaKind, Json) -> Option<string>,
                       parse: string -> Option<real>, v: Validation)
    requires attempt < maxAttempts
    requires ValidateAndRepair(data, schemaType, 1, loads, check, parse) == Ok(v) && v.valid
    ensures RetrySpec(data, schemaType, attempt, maxAttempts, last, llm, loads, check, parse) ==
      Ok(RetryReport(true, v.data, attempt + 1, [], v.warnings))
  {
  }

  /** Without a repair function, a dict holding the schema's top key that
      fails its first attempt is retried on the repaired form the first
      attempt wrote into it, not on the original: when `validate_and_repair`
      accepts that form, the run succeeds at attempt 2 with its outcome.
      (That form has failed validation once already, so the acceptance comes
      from one more repair round, `OneAttemptValidates`.) */
  lemma RetryValidatesRepairedData(data: Json, schemaType: string, maxAttempts: int,
                                   loads: string -> Result<Json>, check: (SchemaKind, Json) -> Option<string>,
                                   parse: string -> Option<real>)
    requires 2 <= maxAttempts
    requires data.JObj? && SchemaOf(schemaType).Some? && HasKey(data.fields, TopKey(SchemaOf(schemaType).value))
    requires ValidateAndRepair(data, schemaType, 1, loads, check, parse).Ok?
    requires !ValidateAndRepair(data, schemaType, 1, loads, check, parse).value.valid
    requires var again := ValidateAndRepair(ValidateAndRepair(data, schemaType, 1, loads, check, parse).value.data, schemaType, 1, loads, check, parse);
      again.Ok? && again.value.valid
    ensures var again := ValidateAndRepair(ValidateAndRepair(data, schemaType, 1, loads, check, parse).value.data, schemaType, 1, loads, check, parse);
      ValidateWithRetry(data, schemaType, None, maxAttempts, loads, check, parse) ==
        Ok(RetryReport(true, again.value.data, 2, [], again.value.warnings))
  {
    var v := ValidateAndRepair(data, schemaType, 1, loads, check, parse).value;
    var w := ValidateAndRepair(v.data, schemaType, 1, loads, check, parse).value;
    RetryFailedStep(data, schemaType, 0, maxAttempts, None, loads, check, parse, v);
    RetryValidStep(v.data, schemaType, 1, maxAttempts, Some(v), None, loads, check, parse, w);
  }

  // --------------------------------------------------------------- pipeline

  /** `ParallelPipeline`: its settings, and whether a client was given. */
  datatype Pipeline = Pipeline(maxFileWorkers: int, maxLlmConcurrent: int, hasClient: bool)

  function NewPipeline(maxFileWorkers: int, maxLlmConcurrent: int, hasClient: bool): (p: Pipeline)
    ensures p.maxFileWorkers == maxFileWorkers && p.maxLlmConcurrent == maxLlmConcurrent && p.hasClient == hasClient
  {
    Pipeline(maxFileWorkers, maxLlmConcurrent, hasClient)
  }

  /** The keys the parallel caller reads with `[]` from each call. */
  const CallKeys: seq<string> := ["model", "messages", "call_id"]

  /** `ParallelPipeline.process_llm_batch`: without a client it raises
      ValueError. With one it hands the calls to the parallel caller, whose
      semaphore raises ValueError for a negative concurrency limit; it then
      builds the first call's arguments (a dict without one of `CallKeys`
      raises KeyError, anything that is not a dict TypeError) and then
      calls without the required temperature, which raises TypeError; an
      empty batch gives []. */
  function ProcessLlmBatch(p: Pipeline, calls: seq<Json>): (r: Result<seq<Json>>)
    ensures r == Err("ValueError") <==> !p.hasClient || p.maxLlmConcurrent < 0
    ensures p.hasClient && p.maxLlmConcurrent >= 0 && calls == [] ==> r == Ok([])
    ensures r.Ok? ==> r.value == [] && p.hasClient && p.maxLlmConcurrent >= 0
    ensures r == Err("KeyError") <==>
      p.hasClient && p.maxLlmConcurrent >= 0 && calls != [] && calls[0].JObj? && exists k :: k in CallKeys && !Has(calls[0], k)
    ensures (p.hasClient && p.maxLlmConcurrent >= 0 && calls != [] &&
             (!calls[0].JObj? || forall k :: k in CallKeys ==> Has(calls[0], k))) ==>
      r == Err("TypeError")
  {
    if !p.hasClient then Err("ValueError")
    else if p.maxLlmConcurrent < 0 then Err("ValueError")
    else if calls == [] then Ok([])
    else if calls[0].JObj? && (!Has(calls[0], "model") || !Has(calls[0], "messages") || !Has(calls[0], "call_id")) then
      Err("KeyError")
    else Err("TypeError")
  }

  /** `ParallelPipeline.validate_batch`: one `validate_with_retry` per item,
      without a repair function, results in input order; an exception in
      any item propagates. */
  function ValidateBatch(p: Pipeline, items: seq<Json>, schemaType: string, maxAttempts: int,
                         loads: string -> Result<Json>, check: (SchemaKind, Json) -> Option<string>,
                         parse: string -> Option<real>): (r: Result<seq<RetryReport>>)
    ensures r.Ok? <==> forall i :: 0 <= i < |items| ==> ValidateWithRetry(items[i], schemaType, None, maxAttempts, loads, check, parse).Ok?
    ensures r.Ok? ==> |r.value| == |items|
    ensures r.Ok? ==> forall i :: 0 <= i < |items| ==> r.value[i] == ValidateWithRetry(items[i], schemaType, None, maxAttempts, loads, check, parse).value
    decreases |items|
  {
    if items == [] then Ok([])
    else
      var first := ValidateWithRetry(items[0], schemaType, None, maxAttempts, loads, check, parse);
      var rest := ValidateBatch(p, items[1..], schemaType, maxAttempts, loads, check, parse);
      if first.Err? then Err(first.error)
      else if rest.Err? then Err(rest.error)
      else Ok([first.value] + rest.value)
  }
}
