/** The concurrent CV parser: every file's text is extracted and parsed by
    the language model, with retries; the results are collected as tasks
    complete, and large sets of files are cut into batches. Each attempt's
    outcome is scripted per file and the completion order is an input. */
module ParallelEngine {
  import opened Wrappers
  import opened JsonValue
  import opened Assoc
  import opened Throttle
  import opened Completion
  import opened Pathname

  const DefaultConcurrency := 500
  const DefaultQps := 100.0
  const DefaultTimeoutS := 200
  const DefaultRetries := 2
  const DefaultBackoffS := 2.0

  // ----------------------------------------------------------- pool sizes

  /** `max(4, min(concurrency, 128))` worker threads. */
  function PoolSize(concurrency: int): (r: int)
    ensures 4 <= r <= 128
    ensures 4 <= concurrency <= 128 ==> r == concurrency
    ensures concurrency < 4 ==> r == 4
    ensures concurrency > 128 ==> r == 128
  {
    var m := if concurrency < 128 then concurrency else 128;
    if m > 4 then m else 4
  }

  /** `max(1, concurrency)` semaphore permits. */
  function Permits(concurrency: int): (r: int)
    ensures r >= 1 && r >= concurrency
    ensures concurrency >= 1 ==> r == concurrency
  {
    if concurrency > 1 then concurrency else 1
  }

  // ---------------------------------------------------------- one attempt

  /** How one attempt goes: the text extraction raises, the model call
      times out or raises, or the model answers with the CV's fields. */
  datatype ParseAttempt = ExtractFails(message: string) | ParseTimesOut | ParseFails(message: string) | Parsed(data: Fields)

  /** `CV(cv=filename, **parsed_data)`: a second `cv` argument is a type
      error; otherwise the CV schema must accept the record (`invalid` holds
      the records it rejects). */
  function Build(filename: string, parsed: Fields, invalid: set<Fields>): (r: Result<Fields>)
    ensures HasKey(parsed, "cv") ==> r.Err?
    ensures r.Ok? ==> r.value == [("cv", JStr(filename))] + parsed && Lookup(r.value, "cv") == Some(JStr(filename))
  {
    if HasKey(parsed, "cv") then Err("__init__() got multiple values for keyword argument 'cv'")
    else
      var d := [("cv", JStr(filename))] + parsed;
      if d !in invalid then Ok(d) else Err("validation error for CV")
  }

  /** The attempt as the retry loop sees it: a built record, a timeout, or
      the message of whatever raised. */
  function AttemptOf(a: ParseAttempt, filename: string, invalid: set<Fields>): Attempt<Fields> {
    match a
    case ExtractFails(m) => Raised(m)
    case ParseTimesOut => TimedOut
    case ParseFails(m) => Raised(m)
    case Parsed(d) =>
      var b := Build(filename, d, invalid);
      if b.Ok? then Success(b.value) else Raised(b.error)
  }

  /** The scripted attempts of one file, and the jitter fractions drawn
      between them. */
  datatype ParseScript = ParseScript(tries: seq<ParseAttempt>, jitter: seq<real>)

  predicate ParseCovers(s: ParseScript, retries: int) {
    Rounds(retries) <= |s.tries| && Rounds(retries) <= |s.jitter| + 1
  }

  function AttemptsOf(tries: seq<ParseAttempt>, filename: string, invalid: set<Fields>): (r: seq<Attempt<Fields>>)
    ensures |r| == |tries| && forall k :: 0 <= k < |tries| ==> r[k] == AttemptOf(tries[k], filename, invalid)
    decreases |tries|
  {
    if tries == [] then []
    else AttemptsOf(tries[..|tries| - 1], filename, invalid) + [AttemptOf(tries[|tries| - 1], filename, invalid)]
  }

  function ScriptOf(s: ParseScript, filename: string, invalid: set<Fields>): (r: Script<Fields>)
    ensures |r.tries| == |s.tries| && r.jitter == s.jitter
  {
    Script(AttemptsOf(s.tries, filename, invalid), s.jitter)
  }

  /** The in-flight events of one attempt as the code runs them: the start
      is counted only once the text is extracted, every failure branch
      counts an end, and a record that fails to build has already counted
      the success path's end. */
  function AttemptEvents(a: ParseAttempt, filename: string, invalid: set<Fields>): seq<Event> {
    match a
    case ExtractFails(_) => [End]
    case ParseTimesOut => [Start, End]
    case ParseFails(_) => [Start, End]
    case Parsed(d) => if Build(filename, d, invalid).Ok? then [Start, End] else [Start, End, End]
  }

  /** The ends counted without a matching start. */
  function Unpaired(a: ParseAttempt, filename: string, invalid: set<Fields>): nat {
    match a
    case ExtractFails(_) => 1
    case Parsed(d) => if Build(filename, d, invalid).Ok? then 0 else 1
    case _ => 0
  }

  function AllEvents(tries: seq<ParseAttempt>, filename: string, invalid: set<Fields>): (es: seq<Event>)
    ensures Reset !in es
    decreases |tries|
  {
    if tries == [] then []
    else AllEvents(tries[..|tries| - 1], filename, invalid) + AttemptEvents(tries[|tries| - 1], filename, invalid)
  }

  function AllUnpaired(tries: seq<ParseAttempt>, filename: string, invalid: set<Fields>): nat
    decreases |tries|
  {
    if tries == [] then 0
    else AllUnpaired(tries[..|tries| - 1], filename, invalid) + Unpaired(tries[|tries| - 1], filename, invalid)
  }

  lemma OpenedAppend(a: seq<Event>, b: seq<Event>)
    ensures Opened(a + b) == Opened(a) + Opened(b)
    decreases |b|
  {
    if b == [] {
      assert a + b == a;
    } else {
      assert (a + b)[..|a + b| - 1] == a + b[..|b| - 1];
      OpenedAppend(a, b[..|b| - 1]);
    }
  }

  /** The counter drops by one for every end without its start. */
  lemma {:induction false} AllEventsOpened(tries: seq<ParseAttempt>, filename: string, invalid: set<Fields>)
    ensures Opened(AllEvents(tries, filename, invalid)) + AllUnpaired(tries, filename, invalid) == 0
    decreases |tries|
  {
    if tries != [] {
      var init := tries[..|tries| - 1];
      var a := tries[|tries| - 1];
      AllEventsOpened(init, filename, invalid);
      OpenedAppend(AllEvents(init, filename, invalid), AttemptEvents(a, filename, invalid));
      var es := AttemptEvents(a, filename, invalid);
      assert es == [End] || es == [Start, End] || es == [Start, End, End];
      assert [Start, End][..1] == [Start];
      assert [Start, End, End][..2] == [Start, End];
    }
  }

  /** A failed extraction takes the counter below where it started; so does
      a record that fails to build. */
  lemma UnpairedEnds(invalid: set<Fields>)
    ensures Run(Gauge(0, 0), AttemptEvents(ExtractFails("boom"), "a.pdf", invalid)) == Gauge(-1, 0)
    ensures Run(Gauge(0, 0), AttemptEvents(Parsed([("cv", JStr("x"))]), "a.pdf", invalid)) == Gauge(-1, 1)
  {
    assert HasKey([("cv", JStr("x"))], "cv");
    assert [End][..0] == [];
    assert [Start, End, End][..2] == [Start, End];
    assert [Start, End][..1] == [Start];
  }

  /** The pairing the counter is meant to keep: an end only for a start
      that happened. */
  function PairedAttemptEvents(a: ParseAttempt): seq<Event> {
    if a.ExtractFails? then [] else [Start, End]
  }

  function AllPairedEvents(tries: seq<ParseAttempt>): (es: seq<Event>)
    ensures Reset !in es
    decreases |tries|
  {
    if tries == [] then []
    else AllPairedEvents(tries[..|tries| - 1]) + PairedAttemptEvents(tries[|tries| - 1])
  }

  /** Paired tracking returns the counter to where it was, whatever the
      attempts do, and the peak still covers it. */
  lemma {:induction false} PairedAttemptsBalanced(g: Gauge, tries: seq<ParseAttempt>)
    requires g.peak >= g.current
    ensures Run(g, AllPairedEvents(tries)).current == g.current
    ensures Run(g, AllPairedEvents(tries)).peak >= Run(g, AllPairedEvents(tries)).current
    decreases |tries|
  {
    PairedOpened(tries);
    RunCurrent(g, AllPairedEvents(tries));
    RunPeakCovers(g, AllPairedEvents(tries));
  }

  lemma {:induction false} PairedOpened(tries: seq<ParseAttempt>)
    ensures Opened(AllPairedEvents(tries)) == 0
    decreases |tries|
  {
    if tries != [] {
      var init := tries[..|tries| - 1];
      PairedOpened(init);
      OpenedAppend(AllPairedEvents(init), PairedAttemptEvents(tries[|tries| - 1]));
      assert [Start, End][..1] == [Start];
    }
  }

  // ------------------------------------------------------------ one file

  /** `CVParseResult` without its timings. */
  datatype CvParseResult = CvParseResult(filename: string, success: bool, data: Option<Fields>, error: Option<string>)

  function ResultOf(r: Retried<Fields>, filename: string): (res: CvParseResult)
    ensures res.success <==> r.value.Some?
    ensures res.success ==> res.data == r.value && res.error.None?
    ensures !res.success ==> res.data.None? && res.error == r.lastError
  {
    if r.value.Some? then CvParseResult(filename, true, r.value, None)
    else CvParseResult(filename, false, None, r.lastError)
  }

  function ParseOneSpec(path: string, s: ParseScript, invalid: set<Fields>,
                        retries: int, backoff: real, timeoutS: int): CvParseResult
    requires ParseCovers(s, retries)
  {
    ResultOf(RetryScript(ScriptOf(s, Name(path), invalid), retries, backoff, timeoutS), Name(path))
  }

  /** `_parse_single_cv_async`. */
  method ParseSingleCv(counter: InflightCounter, path: string, s: ParseScript, invalid: set<Fields>,
                       retries: int, backoff: real, timeoutS: int)
    returns (res: CvParseResult, attempts: nat)
    requires ParseCovers(s, retries)
    modifies counter
    ensures res == ParseOneSpec(path, s, invalid, retries, backoff, timeoutS)
    ensures attempts == RetryScript(ScriptOf(s, Name(path), invalid), retries, backoff, timeoutS).attempts
    ensures attempts <= |s.tries|
    ensures counter.State() == Run(old(counter.State()), AllEvents(s.tries[..attempts], Name(path), invalid))
  {
    var filename := Name(path);
    var t := ScriptOf(s, filename, invalid);
    var r := Retry(t.tries, retries, backoff, timeoutS, t.jitter);
    ScriptAttemptsBound(t, retries, backoff, timeoutS);
    counter.Track(AllEvents(s.tries[..r.attempts], filename, invalid));
    res := ResultOf(r, filename);
    attempts := r.attempts;
  }

  lemma ScriptAttemptsBound(t: Script<Fields>, retries: int, backoff: real, timeoutS: int)
    requires Covers(t, retries)
    ensures RetryScript(t, retries, backoff, timeoutS).attempts <= Rounds(retries) <= |t.tries|
  {
  }

  /** A file succeeds with the record built from the first attempt whose
      answer builds, after at most `retries + 1` attempts; otherwise it
      fails with no data and the last attempt's error. */
  lemma ParseOneOutcome(path: string, s: ParseScript, invalid: set<Fields>,
                        retries: int, backoff: real, timeoutS: int)
    requires ParseCovers(s, retries) && retries >= 0
    requires backoff >= 0.0 && forall k :: 0 <= k < |s.jitter| ==> 0.0 <= s.jitter[k] <= 1.0
    ensures var t := ScriptOf(s, Name(path), invalid);
      var r := RetryScript(t, retries, backoff, timeoutS);
      var res := ParseOneSpec(path, s, invalid, retries, backoff, timeoutS);
      && r.attempts <= retries + 1
      && res.filename == Name(path)
      && (res.success ==>
            && s.tries[r.attempts - 1].Parsed?
            && res.data == Some([("cv", JStr(Name(path)))] + s.tries[r.attempts - 1].data))
      && (!res.success ==>
            && res.data.None?
            && r.attempts == retries + 1
            && res.error == Some(FailureMessage(t.tries[retries], retries, timeoutS, retries)))
  {
    ScriptOutcome(Name(path), s, invalid, retries, backoff, timeoutS);
  }

  /** `ParseOneOutcome` for a given file name. */
  lemma ScriptOutcome(filename: string, s: ParseScript, invalid: set<Fields>,
                      retries: int, backoff: real, timeoutS: int)
    requires ParseCovers(s, retries) && retries >= 0
    requires backoff >= 0.0 && forall k :: 0 <= k < |s.jitter| ==> 0.0 <= s.jitter[k] <= 1.0
    ensures var t := ScriptOf(s, filename, invalid);
      var r := RetryScript(t, retries, backoff, timeoutS);
      var res := ResultOf(r, filename);
      && r.attempts <= retries + 1
      && res.filename == filename
      && (res.success ==>
            && s.tries[r.attempts - 1].Parsed?
            && res.data == Some([("cv", JStr(filename))] + s.tries[r.attempts - 1].data))
      && (!res.success ==>
            && res.data.None?
            && r.attempts == retries + 1
            && res.error == Some(FailureMessage(t.tries[retries], retries, timeoutS, retries)))
  {
    var t := ScriptOf(s, filename, invalid);
    RetryProperties(t.tries, retries, backoff, timeoutS, t.jitter);
    var r := RetryScript(t, retries, backoff, timeoutS);
    if r.value.Some? {
      var a := s.tries[r.attempts - 1];
      assert AttemptOf(a, filename, invalid).Success?;
    }
  }

  // ------------------------------------------------------------- the run

  /** The collected statistics and results. */
  datatype Batch = Batch(successCount: nat, failedCount: nat, total: nat, results: seq<CvParseResult>, progress: seq<(nat, nat)>)

  function Successes(rs: seq<CvParseResult>): (n: nat)
    ensures n <= |rs|
    decreases |rs|
  {
    if rs == [] then 0 else Successes(rs[..|rs| - 1]) + (if rs[|rs| - 1].success then 1 else 0)
  }

  predicate Scripted(scripts: seq<ParseScript>, n: nat, retries: int) {
    |scripts| == n && forall i :: 0 <= i < n ==> ParseCovers(scripts[i], retries)
  }

  function AllResults(files: seq<string>, scripts: seq<ParseScript>, invalid: set<Fields>,
                      retries: int, backoff: real, timeoutS: int): (r: seq<CvParseResult>)
    requires Scripted(scripts, |files|, retries)
    ensures |r| == |files| && forall i :: 0 <= i < |files| ==>
      r[i] == ParseOneSpec(files[i], scripts[i], invalid, retries, backoff, timeoutS)
  {
    seq(|files|, i requires 0 <= i < |files| => ParseOneSpec(files[i], scripts[i], invalid, retries, backoff, timeoutS))
  }

  /** `parse_cvs_parallel_async`: nothing to do for no files; otherwise the
      results in completion order, counted. */
  function ParseAllSpec(files: seq<string>, scripts: seq<ParseScript>, order: seq<nat>, invalid: set<Fields>,
                        retries: int, backoff: real, timeoutS: int, hasCallback: bool): Batch
    requires Scripted(scripts, |files|, retries) && IsCompletionOrder(order, |files|)
  {
    if files == [] then Batch(0, 0, 0, [], [])
    else
      InRange(order, |files|);
      Collected(Permute(AllResults(files, scripts, invalid, retries, backoff, timeoutS), order), |files|, hasCallback)
  }

  method ParseCvsParallel(counter: InflightCounter, files: seq<string>, scripts: seq<ParseScript>,
                          order: seq<nat>, invalid: set<Fields>,
                          retries: int, backoff: real, timeoutS: int, hasCallback: bool)
    returns (b: Batch)
    requires Scripted(scripts, |files|, retries) && IsCompletionOrder(order, |files|)
    modifies counter
    ensures b == ParseAllSpec(files, scripts, order, invalid, retries, backoff, timeoutS, hasCallback)
    ensures files == [] ==> counter.State() == old(counter.State())
    ensures files != [] ==> counter.State().current <= 0 && counter.State().peak >= 0
  {
    if files == [] {
      return Batch(0, 0, 0, [], []);
    }
    counter.ResetTracking();
    InRange(order, |files|);
    ghost var rs := Permute(AllResults(files, scripts, invalid, retries, backoff, timeoutS), order);
    b := CollectResults(counter, files, scripts, order, invalid, retries, backoff, timeoutS, hasCallback, rs);
  }

  lemma CounterStaysDown(g: Gauge, tries: seq<ParseAttempt>, filename: string, invalid: set<Fields>)
    requires g.current <= 0 && g.peak >= 0
    ensures Run(g, AllEvents(tries, filename, invalid)).current <= 0
    ensures Run(g, AllEvents(tries, filename, invalid)).peak >= 0
  {
    AllEventsOpened(tries, filename, invalid);
    RunCurrent(g, AllEvents(tries, filename, invalid));
  }

  lemma ResultStep(rs: seq<CvParseResult>, k: nat, res: CvParseResult)
    requires k < |rs| && rs[k] == res
    ensures rs[..k + 1] == rs[..k] + [res]
    ensures Successes(rs[..k + 1]) == Successes(rs[..k]) + (if res.success then 1 else 0)
  {
    assert rs[..k + 1][..k] == rs[..k];
  }

  /** One task of the run: its file parsed, the counter left at or below zero. */
  method RunTask(counter: InflightCounter, path: string, s: ParseScript,
                 invalid: set<Fields>, retries: int, backoff: real, timeoutS: int, ghost expected: CvParseResult)
    returns (res: CvParseResult)
    requires ParseCovers(s, retries)
    requires expected == ParseOneSpec(path, s, invalid, retries, backoff, timeoutS)
    requires counter.State().current <= 0 && counter.State().peak >= 0
    modifies counter
    ensures res == expected
    ensures counter.State().current <= 0 && counter.State().peak >= 0
  {
    ghost var before := counter.State();
    var attempts;
    res, attempts := ParseSingleCv(counter, path, s, invalid, retries, backoff, timeoutS);
    CounterStaysDown(before, s.tries[..attempts], Name(path), invalid);
  }

  /** One completed task taken in: its result appended and counted, and the
      progress reported when there is a callback. */
  function Record(b: Batch, res: CvParseResult, hasCallback: bool): Batch {
    Batch(b.successCount + (if res.success then 1 else 0),
          b.failedCount + (if res.success then 0 else 1),
          b.total, b.results + [res],
          if hasCallback then b.progress + [(|b.results| + 1, b.total)] else b.progress)
  }

  function Collected(rs: seq<CvParseResult>, n: nat, hasCallback: bool): Batch
    decreases |rs|
  {
    if rs == [] then Batch(0, 0, n, [], [])
    else Record(Collected(rs[..|rs| - 1], n, hasCallback), rs[|rs| - 1], hasCallback)
  }

  /** What the collection loop has after taking in `rs`: the counts of
      successes and failures, the results in order, one progress report
      per result. */
  lemma {:induction false} CollectedCounts(rs: seq<CvParseResult>, n: nat, hasCallback: bool)
    requires |rs| <= n
    ensures var b := Collected(rs, n, hasCallback);
      && b.successCount == Successes(rs) && b.failedCount == |rs| - Successes(rs)
      && b.total == n && b.results == rs
      && b.progress == if hasCallback then Progress(n)[..|rs|] else []
    decreases |rs|
  {
    if rs != [] {
      var init, x := rs[..|rs| - 1], rs[|rs| - 1];
      CollectedCounts(init, n, hasCallback);
      assert rs == init + [x];
      RecordCounts(Collected(init, n, hasCallback), init, x, n, hasCallback);
    }
  }

  /** Recording one more result keeps the counts of `CollectedCounts`. */
  lemma RecordCounts(prev: Batch, init: seq<CvParseResult>, x: CvParseResult, n: nat, hasCallback: bool)
    requires |init| < n
    requires prev.successCount == Successes(init) && prev.failedCount == |init| - Successes(init)
    requires prev.total == n && prev.results == init
    requires prev.progress == if hasCallback then Progress(n)[..|init|] else []
    ensures var b := Record(prev, x, hasCallback);
      var rs := init + [x];
      && b.successCount == Successes(rs) && b.failedCount == |rs| - Successes(rs)
      && b.total == n && b.results == rs
      && b.progress == if hasCallback then Progress(n)[..|rs|] else []
  {
    var rs := init + [x];
    assert rs[..|rs| - 1] == init;
    if hasCallback {
      ProgressPrefix(n, |init|);
    }
  }

  /** The tasks run and their results collected in completion order. */
  method CollectResults(counter: InflightCounter, files: seq<string>, scripts: seq<ParseScript>,
                        order: seq<nat>, invalid: set<Fields>,
                        retries: int, backoff: real, timeoutS: int, hasCallback: bool,
                        ghost rs: seq<CvParseResult>)
    returns (b: Batch)
    requires Scripted(scripts, |files|, retries) && |order| == |files| && forall k :: 0 <= k < |order| ==> order[k] < |files|
    requires |rs| == |order| && forall k :: 0 <= k < |order| ==> rs[k] == ParseOneSpec(files[order[k]], scripts[order[k]], invalid, retries, backoff, timeoutS)
    requires counter.State() == Gauge(0, 0)
    modifies counter
    ensures b == Collected(rs, |files|, hasCallback)
    ensures counter.State().current <= 0 && counter.State().peak >= 0
  {
    b := Batch(0, 0, |order|, [], []);
    var k := 0;
    while k < |order|
      invariant 0 <= k <= |order|
      invariant b == Collected(rs[..k], |order|, hasCallback)
      invariant counter.State().current <= 0 && counter.State().peak >= 0
    {
      b := TakeOne(counter, files[order[k]], scripts[order[k]], invalid, retries, backoff, timeoutS, hasCallback, rs, k, |order|, b);
      k := k + 1;
    }
    assert rs[..k] == rs;
  }

  /** One iteration of the collection loop: the next task run and its
      result recorded. */
  method TakeOne(counter: InflightCounter, path: string, s: ParseScript, invalid: set<Fields>,
                 retries: int, backoff: real, timeoutS: int, hasCallback: bool,
                 ghost rs: seq<CvParseResult>, k: nat, n: nat, b: Batch)
    returns (b': Batch)
    requires ParseCovers(s, retries) && k < |rs|
    requires rs[k] == ParseOneSpec(path, s, invalid, retries, backoff, timeoutS)
    requires b == Collected(rs[..k], n, hasCallback)
    requires counter.State().current <= 0 && counter.State().peak >= 0
    modifies counter
    ensures b' == Collected(rs[..k + 1], n, hasCallback)
    ensures counter.State().current <= 0 && counter.State().peak >= 0
  {
    var res := RunTask(counter, path, s, invalid, retries, backoff, timeoutS, rs[k]);
    CollectedSnoc(rs, k, n, hasCallback);
    b' := Record(b, res, hasCallback);
  }

  lemma CollectedSnoc(rs: seq<CvParseResult>, k: nat, n: nat, hasCallback: bool)
    requires k < |rs|
    ensures Collected(rs[..k + 1], n, hasCallback) == Record(Collected(rs[..k], n, hasCallback), rs[k], hasCallback)
  {
    TakeSnoc(rs, k);
    assert (rs[..k] + [rs[k]])[..k] == rs[..k];
  }

  /** Every file yields exactly one result: the counts add up to the number
      of files, the results are the per-file results rearranged, and
      progress reports `1..n` of `n`. No files give zero counts. */
  lemma ParseAllProperties(files: seq<string>, scripts: seq<ParseScript>, order: seq<nat>, invalid: set<Fields>,
                           retries: int, backoff: real, timeoutS: int, hasCallback: bool)
    requires Scripted(scripts, |files|, retries) && IsCompletionOrder(order, |files|)
    ensures var b := ParseAllSpec(files, scripts, order, invalid, retries, backoff, timeoutS, hasCallback);
      && b.successCount + b.failedCount == b.total == |b.results| == |files|
      && b.successCount == Successes(b.results)
      && multiset(b.results) == multiset(AllResults(files, scripts, invalid, retries, backoff, timeoutS))
      && (hasCallback ==> b.progress == Progress(|files|))
      && (files == [] ==> b == Batch(0, 0, 0, [], []))
  {
    if files != [] {
      InRange(order, |files|);
      var all := AllResults(files, scripts, invalid, retries, backoff, timeoutS);
      var rs := Permute(all, order);
      var b := ParseAllSpec(files, scripts, order, invalid, retries, backoff, timeoutS, hasCallback);
      assert b == Collected(rs, |files|, hasCallback);
      CollectedCounts(rs, |files|, hasCallback);
      assert Progress(|files|)[..|rs|] == Progress(|files|);
      PermuteIsPermutation(all, order);
      assert b.results == rs;
    }
  }

  /** Consistent counts for one batch. */
  predicate Consistent(b: Batch, size: nat) {
    b.total == size == |b.results| && b.successCount + b.failedCount == size && b.successCount == Successes(b.results)
  }

  lemma ParseAllConsistent(files: seq<string>, scripts: seq<ParseScript>, order: seq<nat>, invalid: set<Fields>,
                           retries: int, backoff: real, timeoutS: int, hasCallback: bool)
    requires Scripted(scripts, |files|, retries) && IsCompletionOrder(order, |files|)
    ensures Consistent(ParseAllSpec(files, scripts, order, invalid, retries, backoff, timeoutS, hasCallback), |files|)
  {
    ParseAllProperties(files, scripts, order, invalid, retries, backoff, timeoutS, hasCallback);
  }

  // ------------------------------------------------------------ batching

  /** `[files[i:i + size] for i in range(0, len(files), size)]` for a
      positive size. */
  function Chunks<T>(files: seq<T>, size: nat): (bs: seq<seq<T>>)
    requires size > 0
    ensures forall j :: 0 <= j < |bs| ==> 1 <= |bs[j]| <= size
    decreases |files|
  {
    if files == [] then []
    else if |files| <= size then [files]
    else [files[..size]] + Chunks(files[size..], size)
  }

  function Concat<T>(bs: seq<seq<T>>): seq<T>
    decreases |bs|
  {
    if bs == [] then [] else bs[0] + Concat(bs[1..])
  }

  /** `batch_files`: a zero step makes `range` raise; a negative one gives
      no batches. */
  function BatchFilesSpec<T>(files: seq<T>, size: int): Result<seq<seq<T>>> {
    if size == 0 then Err("ValueError: range() arg 3 must not be zero")
    else if size < 0 then Ok([])
    else Ok(Chunks(files, size))
  }

  method BatchFiles<T>(files: seq<T>, size: int) returns (r: Result<seq<seq<T>>>)
    ensures r == BatchFilesSpec(files, size)
  {
    if size == 0 {
      return Err("ValueError: range() arg 3 must not be zero");
    }
    if size < 0 {
      return Ok([]);
    }
    var batches: seq<seq<T>> := [];
    var i := 0;
    while i < |files|
      invariant 0 <= i <= |files|
      invariant batches + Chunks(files[i..], size) == Chunks(files, size)
      decreases |files| - i
    {
      var j := if i + size < |files| then i + size else |files|;
      BatchStep(files, i, size, batches);
      batches := batches + [files[i..j]];
      i := j;
    }
    assert Chunks(files[i..], size) == [];
    assert batches + [] == batches;
    return Ok(batches);
  }

  lemma BatchStep<T>(files: seq<T>, i: nat, size: nat, batches: seq<seq<T>>)
    requires i < |files| && size > 0
    requires batches + Chunks(files[i..], size) == Chunks(files, size)
    ensures var j := if i + size < |files| then i + size else |files|;
      (batches + [files[i..j]]) + Chunks(files[j..], size) == Chunks(files, size)
  {
    var j := if i + size < |files| then i + size else |files|;
    ChunksStep(files, i, size);
    assert (batches + [files[i..j]]) + Chunks(files[j..], size) == batches + ([files[i..j]] + Chunks(files[j..], size));
  }

  /** One batch off the front of the remaining files. */
  lemma ChunksStep<T>(files: seq<T>, i: nat, size: nat)
    requires i < |files| && size > 0
    ensures var j := if i + size < |files| then i + size else |files|;
      Chunks(files[i..], size) == [files[i..j]] + Chunks(files[j..], size)
  {
    var t := files[i..];
    if i + size < |files| {
      assert t[..size] == files[i..i + size];
      assert t[size..] == files[i + size..];
    } else {
      assert files[|files|..] == [];
      assert t == files[i..|files|];
    }
  }

  /** The batches put back together are the files. */
  lemma {:induction false} ChunksConcat<T>(files: seq<T>, size: nat)
    requires size > 0
    ensures Concat(Chunks(files, size)) == files
    decreases |files|
  {
    if files != [] && |files| > size {
      ChunksConcat(files[size..], size);
      assert files == files[..size] + files[size..];
    } else if files != [] {
      assert Concat([files]) == files + Concat([files][1..]);
    }
  }

  /** Every batch but the last is full, so there are `ceil(n / size)` of
      them: the fewest batches of `size` that hold every file. */
  lemma {:induction false} ChunksShape<T>(files: seq<T>, size: nat)
    requires size > 0
    ensures var bs := Chunks(files, size);
      && (forall j :: 0 <= j < |bs| - 1 ==> |bs[j]| == size)
      && |files| <= |bs| * size
      && (files != [] ==> (|bs| - 1) * size < |files|)
    decreases |files|
  {
    if files != [] && |files| > size {
      ChunksShape(files[size..], size);
      var bs := Chunks(files, size);
      var rest := Chunks(files[size..], size);
      assert bs == [files[..size]] + rest;
      forall j | 0 <= j < |bs| - 1 ensures |bs[j]| == size {
        if j > 0 {
          assert bs[j] == rest[j - 1];
        }
      }
      MulSucc(|rest|, size);
      MulSucc(|rest| - 1, size);
    }
  }

  lemma MulSucc(k: int, m: nat)
    ensures (k + 1) * m == k * m + m
  {
  }

  // --------------------------------------------------------- aggregation

  lemma ConcatSnoc<T>(bs: seq<seq<T>>, b: seq<T>)
    ensures Concat(bs + [b]) == Concat(bs) + b
    decreases |bs|
  {
    if bs == [] {
      assert Concat([b]) == b + Concat([b][1..]);
    } else {
      assert (bs + [b])[1..] == bs[1..] + [b];
      ConcatSnoc(bs[1..], b);
    }
  }

  /** The sums over the batches processed so far, and the global progress
      call after each: the number of files in the batches up to it. */
  function Aggregate(batches: seq<seq<string>>, results: seq<Batch>, n: nat, hasCallback: bool): Batch
    requires |results| == |batches|
    decreases |batches|
  {
    if batches == [] then Batch(0, 0, n, [], [])
    else
      var m := |batches| - 1;
      var prev := Aggregate(batches[..m], results[..m], n, hasCallback);
      var last := results[m];
      Batch(prev.successCount + last.successCount, prev.failedCount + last.failedCount, n,
            prev.results + last.results,
            if hasCallback then prev.progress + [(|Concat(batches)|, n)] else prev.progress)
  }

  /** `process_cvs_in_batches_sync`. The run of each batch is an input,
      `runs[i]` being what `parse_cvs_parallel_sync` returned for batch `i`. */
  function ProcessSpec(files: seq<string>, size: int, runs: seq<Batch>, hasCallback: bool): Result<Batch>
    requires size > 0 ==> |runs| == |Chunks(files, size)|
    requires size < 0 ==> runs == []
  {
    var bs := BatchFilesSpec(files, size);
    if bs.Err? then Err(bs.error) else Ok(Aggregate(bs.value, runs, |files|, hasCallback))
  }

  method ProcessInBatches(files: seq<string>, size: int, runs: seq<Batch>, hasCallback: bool) returns (r: Result<Batch>)
    requires size > 0 ==> |runs| == |Chunks(files, size)|
    requires size < 0 ==> runs == []
    ensures r == ProcessSpec(files, size, runs, hasCallback)
  {
    var bs := BatchFiles(files, size);
    if bs.Err? {
      return Err(bs.error);
    }
    var batches := bs.value;
    var all: seq<CvParseResult> := [];
    var success: nat := 0;
    var failed: nat := 0;
    var progress: seq<(nat, nat)> := [];
    var i := 0;
    while i < |batches|
      invariant 0 <= i <= |batches|
      invariant Aggregate(batches[..i], runs[..i], |files|, hasCallback) == Batch(success, failed, |files|, all, progress)
    {
      assert batches[..i + 1][..i] == batches[..i];
      assert runs[..i + 1][..i] == runs[..i];
      all := all + runs[i].results;
      success := success + runs[i].successCount;
      failed := failed + runs[i].failedCount;
      if hasCallback {
        progress := progress + [(|Concat(batches[..i + 1])|, |files|)];
      }
      i := i + 1;
    }
    assert batches[..i] == batches && runs[..i] == runs;
    r := Ok(Batch(success, failed, |files|, all, progress));
  }

  /** When every batch's run is consistent, the totals are the sums: as many
      results as files, successes and failures adding up to the file count,
      and the progress call after batch `i` reporting the files of batches
      `1..i`. */
  lemma AggregateProperties(batches: seq<seq<string>>, runs: seq<Batch>, n: nat, hasCallback: bool)
    requires |runs| == |batches| && forall i :: 0 <= i < |runs| ==> Consistent(runs[i], |batches[i]|)
    ensures var a := Aggregate(batches, runs, n, hasCallback);
      && |a.results| == |Concat(batches)|
      && a.successCount + a.failedCount == |Concat(batches)|
      && a.successCount == Successes(a.results)
      && a.total == n
      && (hasCallback ==> |a.progress| == |batches| && forall i :: 0 <= i < |batches| ==> a.progress[i] == (|Concat(batches[..i + 1])|, n))
  {
    AggregateCounts(batches, runs, n, hasCallback);
    if hasCallback {
      var a := Aggregate(batches, runs, n, hasCallback);
      forall i | 0 <= i < |batches| ensures |a.progress| == |batches| && a.progress[i] == (|Concat(batches[..i + 1])|, n) {
        AggregateProgressAt(batches, runs, n, i);
      }
      if batches == [] {
        assert |a.progress| == 0;
      }
    }
  }

  lemma {:induction false} AggregateCounts(batches: seq<seq<string>>, runs: seq<Batch>, n: nat, hasCallback: bool)
    requires |runs| == |batches| && forall i :: 0 <= i < |runs| ==> Consistent(runs[i], |batches[i]|)
    ensures var a := Aggregate(batches, runs, n, hasCallback);
      && |a.results| == |Concat(batches)|
      && a.successCount + a.failedCount == |Concat(batches)|
      && a.successCount == Successes(a.results)
      && a.total == n
    decreases |batches|
  {
    if batches != [] {
      var m := |batches| - 1;
      var bs, rs := batches[..m], runs[..m];
      forall i | 0 <= i < m ensures Consistent(rs[i], |bs[i]|) {
        assert rs[i] == runs[i] && bs[i] == batches[i];
      }
      AggregateCounts(bs, rs, n, hasCallback);
      assert batches == bs + [batches[m]];
      ConcatSnoc(bs, batches[m]);
      var prev := Aggregate(bs, rs, n, hasCallback);
      var last := runs[m];
      assert Consistent(last, |batches[m]|);
      SuccessesAppend(prev.results, last.results);
      var a := Aggregate(batches, runs, n, hasCallback);
      assert a.results == prev.results + last.results;
      assert a.successCount == prev.successCount + last.successCount;
      assert a.failedCount == prev.failedCount + last.failedCount;
      assert |Concat(batches)| == |Concat(bs)| + |batches[m]|;
    }
  }

  lemma {:induction false} AggregateProgressAt(batches: seq<seq<string>>, runs: seq<Batch>, n: nat, i: nat)
    requires |runs| == |batches| && i < |batches|
    ensures var a := Aggregate(batches, runs, n, true);
      |a.progress| == |batches| && a.progress[i] == (|Concat(batches[..i + 1])|, n)
    decreases |batches|
  {
    var m := |batches| - 1;
    var bs, rs := batches[..m], runs[..m];
    var prev := Aggregate(bs, rs, n, true);
    var a := Aggregate(batches, runs, n, true);
    assert a.progress == prev.progress + [(|Concat(batches)|, n)];
    if i < m {
      AggregateProgressAt(bs, rs, n, i);
      assert bs[..i + 1] == batches[..i + 1];
    } else {
      if m > 0 {
        AggregateProgressAt(bs, rs, n, m - 1);
      }
      assert batches[..i + 1] == batches;
    }
  }

  lemma {:induction false} SuccessesAppend(a: seq<CvParseResult>, b: seq<CvParseResult>)
    ensures Successes(a + b) == Successes(a) + Successes(b)
    decreases |b|
  {
    if b == [] {
      assert a + b == a;
    } else {
      assert (a + b)[..|a + b| - 1] == a + b[..|b| - 1];
      SuccessesAppend(a, b[..|b| - 1]);
    }
  }

  /** Processing in batches accounts for every file once: total and result
      count equal the number of files, and the last progress call reports
      all of them. A batch size of zero raises. */
  lemma ProcessProperties(files: seq<string>, size: int, runs: seq<Batch>, hasCallback: bool)
    requires size > 0 ==> |runs| == |Chunks(files, size)| && forall i :: 0 <= i < |runs| ==> Consistent(runs[i], |Chunks(files, size)[i]|)
    requires size < 0 ==> runs == []
    ensures size == 0 <==> ProcessSpec(files, size, runs, hasCallback).Err?
    ensures size > 0 ==>
      var a := ProcessSpec(files, size, runs, hasCallback).value;
      && a.total == |a.results| == |files|
      && a.successCount + a.failedCount == |files|
      && (hasCallback && files != [] ==> a.progress[|a.progress| - 1] == (|files|, |files|))
  {
    if size > 0 {
      var bs := Chunks(files, size);
      AggregateProperties(bs, runs, |files|, hasCallback);
      ChunksConcat(files, size);
      if hasCallback && files != [] {
        assert bs[..|bs|] == bs;
      }
    }
  }
}
