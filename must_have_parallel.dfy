/** The concurrent must-have filter: every CV is put to the language-model
    check, with retries, and lands in the accepted or the rejected list as
    its task completes. The check's outcomes are scripted per CV, the order
    in which tasks complete is an input, and the tasks run one after the
    other in that order. */
module MustHaveParallel {
  import opened Wrappers
  import opened Text
  import opened JsonValue
  import opened Assoc
  import opened Throttle
  import opened Completion
  import opened MatchingEngine

  const DefaultConcurrency := 500
  const DefaultQps := 100.0
  const DefaultTimeoutS := 20
  const DefaultRetries := 2
  const DefaultBackoffS := 1.0

  /** `_is_empty`: no list, or only empty and whitespace-only criteria. */
  predicate IsEmpty(xs: Option<seq<string>>) {
    xs.None? || forall i :: 0 <= i < |xs.value| ==> StripsToNothing(xs.value[i])
  }

  /** `(not s) or (not s.strip())`. */
  predicate StripsToNothing(s: string) {
    s == [] || Strip(s) == []
  }

  /** The criteria count as empty exactly when they are absent or every
      one of them is blank. */
  lemma IsEmptyIffBlank(xs: Option<seq<string>>)
    ensures IsEmpty(xs) <==> xs.None? || NoCriteria(xs.value)
  {
    if xs.Some? {
      forall i | 0 <= i < |xs.value|
        ensures StripsToNothing(xs.value[i]) <==> Blank(xs.value[i])
      {
        StripEmptyIffBlank(xs.value[i]);
      }
    }
  }

  /** What the check says of one CV: accepted or not, why, and its raw trace. */
  datatype Decision = Decision(accepted: bool, rationale: string, raw: Json)

  /** `str(last_err)`. */
  function ErrorText(e: Option<string>): string {
    if e.Some? then e.value else "None"
  }

  /** `_run_one`'s answer: the first successful decision, or a cautious
      rejection naming the last error. */
  function Decide(r: Retried<Decision>, retries: int): (d: Decision)
    ensures r.value.Some? ==> d == r.value.value
    ensures r.value.None? ==>
      && !d.accepted
      && d.rationale == "[ERREUR après " + IntToString(retries + 1) + " tentatives] " + ErrorText(r.lastError)
      && d.raw == JObj([("error", JStr(ErrorText(r.lastError)))])
  {
    if r.value.Some? then r.value.value
    else
      var err := ErrorText(r.lastError);
      Decision(false, "[ERREUR après " + IntToString(retries + 1) + " tentatives] " + err, JObj([("error", JStr(err))]))
  }

  /** `_run_one`: the retry loop, each call counted in flight while it runs. */
  method RunOne(counter: InflightCounter, s: Script<Decision>, retries: int, backoff: real, timeoutS: int)
    returns (d: Decision, attempts: nat)
    requires Covers(s, retries)
    modifies counter
    ensures d == Decide(RetryScript(s, retries, backoff, timeoutS), retries)
    ensures attempts == RetryScript(s, retries, backoff, timeoutS).attempts
    ensures counter.State() == Run(old(counter.State()), PairedEvents(attempts))
  {
    var r := Retry(s.tries, retries, backoff, timeoutS, s.jitter);
    counter.Track(PairedEvents(r.attempts));
    d := Decide(r, retries);
    attempts := r.attempts;
  }

  /** A CV answers with the decision of its first successful call; once all
      `retries + 1` calls have failed it is rejected with the last error, and
      no call more than `retries + 1` is made. */
  lemma RunOneOutcome(s: Script<Decision>, retries: int, backoff: real, timeoutS: int)
    requires Covers(s, retries) && retries >= 0
    requires backoff >= 0.0 && forall k :: 0 <= k < |s.jitter| ==> 0.0 <= s.jitter[k] <= 1.0
    ensures var r := RetryScript(s, retries, backoff, timeoutS);
      var d := Decide(r, retries);
      && r.attempts <= retries + 1
      && (r.value.Some? ==> s.tries[r.attempts - 1] == Success(d))
      && (r.value.None? ==>
            && r.attempts == retries + 1
            && !d.accepted
            && d.rationale == "[ERREUR après " + IntToString(retries + 1) + " tentatives] "
                              + FailureMessage(s.tries[retries], retries, timeoutS, retries)
            && |r.sleeps| == retries)
      && (forall k :: 0 <= k < |r.sleeps| ==> backoff * Pow2(k) <= r.sleeps[k] <= 1.25 * (backoff * Pow2(k)))
  {
    RetryProperties(s.tries, retries, backoff, timeoutS, s.jitter);
  }

  // ------------------------------------------------------------- identity

  const IdKeys: seq<string> := ["cv", "id", "filename", "nom"]

  /** Python's `a or b` on JSON values. */
  function Or(a: Json, b: Json): Json {
    if Truthy(a) then a else b
  }

  /** `cv.get("cv") or cv.get("id") or cv.get("filename") or cv.get("nom")
      or f"cv_{len(traces)+1}"`, where `count` is `len(traces)`. */
  function CvId(cv: Fields, count: nat): (id: Json)
    ensures Truthy(id)
  {
    var o := JObj(cv);
    Or(Get(o, "cv", JNull), Or(Get(o, "id", JNull), Or(Get(o, "filename", JNull),
      Or(Get(o, "nom", JNull), JStr("cv_" + NatToString(count + 1))))))
  }

  /** The id is the first truthy one of the four fields, or the numbered
      fallback when none of them is. */
  lemma CvIdChoice(cv: Fields, count: nat)
    ensures (exists i :: 0 <= i < |IdKeys| && CvId(cv, count) == Get(JObj(cv), IdKeys[i], JNull)
              && forall j :: 0 <= j < i ==> !Truthy(Get(JObj(cv), IdKeys[j], JNull)))
         || (CvId(cv, count) == JStr("cv_" + NatToString(count + 1))
             && forall i :: 0 <= i < |IdKeys| ==> !Truthy(Get(JObj(cv), IdKeys[i], JNull)))
  {
    var o := JObj(cv);
    var g := seq(4, i requires 0 <= i < 4 => Get(o, IdKeys[i], JNull));
    if Truthy(g[0]) {
      assert CvId(cv, count) == g[0];
    } else if Truthy(g[1]) {
      assert CvId(cv, count) == g[1];
    } else if Truthy(g[2]) {
      assert CvId(cv, count) == g[2];
    } else if Truthy(g[3]) {
      assert CvId(cv, count) == g[3];
    }
  }

  // ------------------------------------------------------------ collecting

  /** The three outputs and the progress calls made so far. */
  datatype Filtered = Filtered(
    accepted: seq<Fields>,
    rejected: seq<Fields>,
    traces: seq<(Json, Decision)>,
    progress: seq<(nat, nat)>)

  /** One completed task: store its trace under its id, file the CV on the
      side its decision names, and report progress. */
  function CollectStep(f: Filtered, cv: Fields, d: Decision, completed: nat, total: nat, hasCallback: bool): Result<Filtered> {
    var id := CvId(cv, |f.traces|);
    if !Hashable(id) then Err("TypeError: unhashable type")
    else
      Ok(Filtered(
        if d.accepted then f.accepted + [cv] else f.accepted,
        if d.accepted then f.rejected else f.rejected + [cv],
        Put(f.traces, id, d),
        if hasCallback then f.progress + [(completed, total)] else f.progress))
  }

  /** The consumer loop over completed tasks: `done` holds each CV with its
      decision, in completion order. An unhashable id makes the trace store
      raise. */
  function Collect(done: seq<(Fields, Decision)>, total: nat, hasCallback: bool): (r: Result<Filtered>)
    ensures r.Ok? ==> |r.value.accepted| + |r.value.rejected| == |done|
    ensures r.Ok? ==> |r.value.traces| <= |done|
    decreases |done|
  {
    if done == [] then Ok(Filtered([], [], [], []))
    else
      var n := |done| - 1;
      var prev := Collect(done[..n], total, hasCallback);
      if prev.Err? then prev
      else CollectStep(prev.value, done[n].0, done[n].1, n + 1, total, hasCallback)
  }

  lemma CollectAppend(prefix: seq<(Fields, Decision)>, x: (Fields, Decision), total: nat, hasCallback: bool, f: Filtered)
    requires Collect(prefix, total, hasCallback) == Ok(f)
    ensures Collect(prefix + [x], total, hasCallback) == CollectStep(f, x.0, x.1, |prefix| + 1, total, hasCallback)
  {
    var done := prefix + [x];
    var n := |done| - 1;
    assert done[..n] == prefix;
    assert done[n] == x;
    var prev := Collect(done[..n], total, hasCallback);
    assert prev == Ok(f);
  }

  lemma CollectSnoc(done: seq<(Fields, Decision)>, k: nat, total: nat, hasCallback: bool, f: Filtered)
    requires k < |done| && Collect(done[..k], total, hasCallback) == Ok(f)
    ensures Collect(done[..k + 1], total, hasCallback) == CollectStep(f, done[k].0, done[k].1, k + 1, total, hasCallback)
  {
    TakeSnoc(done, k);
    CollectAppend(done[..k], done[k], total, hasCallback, f);
  }

  /** Once the trace store has raised, later completions change nothing. */
  lemma {:induction false} CollectErr(done: seq<(Fields, Decision)>, n: nat, total: nat, hasCallback: bool)
    requires n <= |done| && Collect(done[..n], total, hasCallback).Err?
    ensures Collect(done, total, hasCallback) == Collect(done[..n], total, hasCallback)
    decreases |done| - n
  {
    if n < |done| {
      var init := done[..|done| - 1];
      assert init[..n] == done[..n];
      CollectErr(init, n, total, hasCallback);
      assert Collect(init, total, hasCallback).Err?;
    } else {
      assert done[..n] == done;
    }
  }

  function Firsts<T>(done: seq<(T, Decision)>): (r: seq<T>)
    ensures |r| == |done| && forall k :: 0 <= k < |done| ==> r[k] == done[k].0
  {
    seq(|done|, k requires 0 <= k < |done| => done[k].0)
  }

  /** The items of `done` whose decision is (or is not) an acceptance, in
      order. */
  function Side<T>(done: seq<(T, Decision)>, accepted: bool): seq<T>
    decreases |done|
  {
    if done == [] then []
    else
      var last := done[|done| - 1];
      Side(done[..|done| - 1], accepted) + (if last.1.accepted == accepted then [last.0] else [])
  }

  lemma SideAppend<T>(init: seq<(T, Decision)>, x: (T, Decision), accepted: bool)
    ensures Side(init + [x], accepted) == Side(init, accepted) + (if x.1.accepted == accepted then [x.0] else [])
  {
    assert (init + [x])[..|init|] == init;
  }

  /** Every item lands on exactly one side. */
  lemma {:induction false} SidesPartition<T>(done: seq<(T, Decision)>)
    ensures multiset(Side(done, true) + Side(done, false)) == multiset(Firsts(done))
    decreases |done|
  {
    if done != [] {
      var n := |done| - 1;
      var init, x := done[..n], done[n];
      assert done == init + [x];
      SidesPartition(init);
      SideAppend(init, x, true);
      SideAppend(init, x, false);
      assert Firsts(done) == Firsts(init) + [x.0];
      var a, r := Side(init, true), Side(init, false);
      if x.1.accepted {
        assert Side(done, true) + Side(done, false) == a + [x.0] + r;
        assert multiset(a + [x.0] + r) == multiset(a + r) + multiset{x.0};
      } else {
        assert Side(done, true) + Side(done, false) == (a + r) + [x.0];
      }
    }
  }

  /** Each item on a side came with a decision naming that side. */
  lemma {:induction false} SideMembers<T>(done: seq<(T, Decision)>, accepted: bool)
    ensures forall x :: x in Side(done, accepted) ==>
      exists k :: 0 <= k < |done| && done[k].0 == x && done[k].1.accepted == accepted
    decreases |done|
  {
    if done != [] {
      var n := |done| - 1;
      var init, last := done[..n], done[n];
      assert done == init + [last];
      SideMembers(init, accepted);
      SideAppend(init, last, accepted);
      forall x | x in Side(done, accepted)
        ensures exists k :: 0 <= k < |done| && done[k].0 == x && done[k].1.accepted == accepted
      {
        if x in Side(init, accepted) {
          var k :| 0 <= k < n && init[k].0 == x && init[k].1.accepted == accepted;
          assert done[k] == init[k];
        } else {
          assert done[n].0 == x && done[n].1.accepted == accepted;
        }
      }
    }
  }

  /** The collected lists are the two sides of the completed decisions. */
  lemma {:induction false} CollectSides(done: seq<(Fields, Decision)>, total: nat, hasCallback: bool)
    requires Collect(done, total, hasCallback).Ok?
    ensures Collect(done, total, hasCallback).value.accepted == Side(done, true)
    ensures Collect(done, total, hasCallback).value.rejected == Side(done, false)
    decreases |done|
  {
    if done != [] {
      var n := |done| - 1;
      var init, x := done[..n], done[n];
      assert done == init + [x];
      CollectSides(init, total, hasCallback);
      CollectAppend(init, x, total, hasCallback, Collect(init, total, hasCallback).value);
      SideAppend(init, x, true);
      SideAppend(init, x, false);
    }
  }

  /** Progress reports `1..n` of `total`, and traces are keyed by truthy ids. */
  lemma {:induction false} CollectProgress(done: seq<(Fields, Decision)>, total: nat, hasCallback: bool)
    requires Collect(done, total, hasCallback).Ok?
    ensures var f := Collect(done, total, hasCallback).value;
      && (hasCallback ==> |f.progress| == |done| && forall k :: 0 <= k < |done| ==> f.progress[k] == (k + 1, total))
      && (!hasCallback ==> f.progress == [])
      && (forall k :: 0 <= k < |f.traces| ==> Truthy(f.traces[k].0))
    decreases |done|
  {
    if done != [] {
      var n := |done| - 1;
      var before := Collect(done[..n], total, hasCallback);
      assert before.Ok?;
      CollectProgress(done[..n], total, hasCallback);
      var f := before.value;
      assert Collect(done, total, hasCallback) == CollectStep(f, done[n].0, done[n].1, n + 1, total, hasCallback);
      var g := Collect(done, total, hasCallback).value;
      PutTruthyKeys(f.traces, CvId(done[n].0, |f.traces|), done[n].1);
      if hasCallback {
        forall k | 0 <= k < |done| ensures g.progress[k] == (k + 1, total) {
          if k < n {
            assert g.progress[k] == f.progress[k];
          }
        }
      }
    }
  }

  lemma {:induction false} PutTruthyKeys(d: seq<(Json, Decision)>, k: Json, v: Decision)
    requires Truthy(k) && forall i :: 0 <= i < |d| ==> Truthy(d[i].0)
    ensures forall i :: 0 <= i < |Put(d, k, v)| ==> Truthy(Put(d, k, v)[i].0)
  {
    PutKeys(d, k, v);
    forall i | 0 <= i < |Put(d, k, v)| ensures Truthy(Put(d, k, v)[i].0) {
      assert Put(d, k, v)[i].0 == Keys(Put(d, k, v))[i];
      if i < |d| {
        assert Keys(d)[i] == d[i].0;
      }
    }
  }

  // --------------------------------------------------------------- filter

  /** A script for every CV, each long enough for all rounds. */
  predicate Scripted(scripts: seq<Script<Decision>>, n: nat, retries: int) {
    |scripts| == n && forall i :: 0 <= i < n ==> Covers(scripts[i], retries)
  }

  /** Each CV paired with its task's decision, in input order. */
  function Decisions(cvs: seq<Fields>, scripts: seq<Script<Decision>>, retries: int, backoff: real, timeoutS: int)
    : (r: seq<(Fields, Decision)>)
    requires Scripted(scripts, |cvs|, retries)
    ensures |r| == |cvs| && forall i :: 0 <= i < |cvs| ==>
      r[i] == (cvs[i], Decide(RetryScript(scripts[i], retries, backoff, timeoutS), retries))
  {
    seq(|cvs|, i requires 0 <= i < |cvs| => (cvs[i], Decide(RetryScript(scripts[i], retries, backoff, timeoutS), retries)))
  }

  /** `filter_cvs_by_must_have_parallel`: all CVs when there are no
      criteria; otherwise the completed tasks collected in `order`. */
  function FilterSpec(cvs: seq<Fields>, mustHaves: Option<seq<string>>, scripts: seq<Script<Decision>>,
                      order: seq<nat>, retries: int, backoff: real, timeoutS: int, hasCallback: bool): Result<Filtered>
    requires Scripted(scripts, |cvs|, retries) && IsCompletionOrder(order, |cvs|)
  {
    if IsEmpty(mustHaves) then Ok(Filtered(cvs, [], [], []))
    else
      InRange(order, |cvs|);
      Collect(Permute(Decisions(cvs, scripts, retries, backoff, timeoutS), order), |cvs|, hasCallback)
  }

  /** The filter itself. `counter` is the module's in-flight gauge; the
      returned `calls` counts the calls made to the check. */
  method FilterCvsByMustHaveParallel(counter: InflightCounter, cvs: seq<Fields>, mustHaves: Option<seq<string>>,
                                     scripts: seq<Script<Decision>>, order: seq<nat>,
                                     retries: int, backoff: real, timeoutS: int, hasCallback: bool)
    returns (r: Result<Filtered>, calls: nat)
    requires Scripted(scripts, |cvs|, retries) && IsCompletionOrder(order, |cvs|)
    modifies counter
    ensures r == FilterSpec(cvs, mustHaves, scripts, order, retries, backoff, timeoutS, hasCallback)
    ensures calls <= |cvs| * Rounds(retries)
    ensures IsEmpty(mustHaves) ==> calls == 0 && counter.State() == old(counter.State())
    ensures !IsEmpty(mustHaves) ==> counter.State().current == 0 && counter.State().peak >= 0
  {
    calls := 0;
    if IsEmpty(mustHaves) {
      return Ok(Filtered(cvs, [], [], [])), 0;
    }
    counter.ResetTracking();
    InRange(order, |cvs|);
    ghost var done := Permute(Decisions(cvs, scripts, retries, backoff, timeoutS), order);
    r, calls := CollectTasks(counter, cvs, scripts, order, retries, backoff, timeoutS, hasCallback, done);
  }

  /** The tasks run and their decisions collected in completion order;
      `done` is each completed CV with its decision. */
  method CollectTasks(counter: InflightCounter, cvs: seq<Fields>, scripts: seq<Script<Decision>>, order: seq<nat>,
                      retries: int, backoff: real, timeoutS: int, hasCallback: bool,
                      ghost done: seq<(Fields, Decision)>)
    returns (r: Result<Filtered>, calls: nat)
    requires Scripted(scripts, |cvs|, retries) && |order| == |cvs| && forall k :: 0 <= k < |order| ==> order[k] < |cvs|
    requires |done| == |order| && forall k :: 0 <= k < |order| ==>
      done[k] == (cvs[order[k]], Decide(RetryScript(scripts[order[k]], retries, backoff, timeoutS), retries))
    requires counter.State() == Gauge(0, 0)
    modifies counter
    ensures r == Collect(done, |cvs|, hasCallback)
    ensures calls <= |cvs| * Rounds(retries)
    ensures counter.State().current == 0 && counter.State().peak >= 0
  {
    calls := 0;
    var f := Filtered([], [], [], []);
    var k := 0;
    while k < |order|
      invariant 0 <= k <= |order|
      invariant Collect(done[..k], |cvs|, hasCallback) == Ok(f)
      invariant calls <= Times(k, Rounds(retries))
      invariant counter.State().current == 0 && counter.State().peak >= 0
    {
      var step, attempts := CollectOne(counter, cvs, scripts, order, k, retries, backoff, timeoutS, hasCallback, f, done);
      calls := calls + attempts;
      if step.Err? {
        CollectErr(done, k + 1, |cvs|, hasCallback);
        CallsWithin(calls, k + 1, |cvs|, Rounds(retries));
        return step, calls;
      }
      f := step.value;
      k := k + 1;
    }
    assert done[..k] == done;
    CallsWithin(calls, k, |cvs|, Rounds(retries));
    r := Ok(f);
  }

  /** One pass of the consumer loop: the `k`-th task to complete is awaited
      and its decision filed. */
  method CollectOne(counter: InflightCounter, cvs: seq<Fields>, scripts: seq<Script<Decision>>, order: seq<nat>, k: nat,
                    retries: int, backoff: real, timeoutS: int, hasCallback: bool, f: Filtered,
                    ghost done: seq<(Fields, Decision)>)
    returns (step: Result<Filtered>, attempts: nat)
    requires Scripted(scripts, |cvs|, retries) && |order| == |cvs| && k < |order| && order[k] < |cvs|
    requires |done| == |order|
    requires done[k] == (cvs[order[k]], Decide(RetryScript(scripts[order[k]], retries, backoff, timeoutS), retries))
    requires Collect(done[..k], |cvs|, hasCallback) == Ok(f)
    requires counter.State().current == 0 && counter.State().peak >= 0
    modifies counter
    ensures step == Collect(done[..k + 1], |cvs|, hasCallback)
    ensures attempts <= Rounds(retries)
    ensures counter.State().current == 0 && counter.State().peak >= 0
  {
    var i := order[k];
    ghost var before := counter.State();
    var d;
    d, attempts := RunOne(counter, scripts[i], retries, backoff, timeoutS);
    PairedRunBalanced(before, attempts);
    CollectSnoc(done, k, |cvs|, hasCallback, f);
    step := CollectStep(f, cvs[i], d, k + 1, |cvs|, hasCallback);
  }

  /** `k * m` by repeated addition, which keeps the call bound linear. */
  function Times(k: nat, m: nat): nat {
    if k == 0 then 0 else Times(k - 1, m) + m
  }

  lemma {:induction false} TimesIsProduct(k: nat, m: nat)
    ensures Times(k, m) == k * m
  {
    if k > 0 {
      TimesIsProduct(k - 1, m);
    }
  }

  lemma {:induction false} TimesMono(k: nat, n: nat, m: nat)
    requires k <= n
    ensures Times(k, m) <= Times(n, m)
    decreases n - k
  {
    if k < n {
      TimesMono(k, n - 1, m);
    }
  }

  /** A bound of `k * m` calls, reached by `k <= n`, is within `n * m`. */
  lemma CallsWithin(calls: nat, k: nat, n: nat, m: nat)
    requires calls <= Times(k, m) && k <= n
    ensures calls <= n * m
  {
    TimesMono(k, n, m);
    TimesIsProduct(n, m);
  }

  /** Each completed task is the CV it was run for. */
  lemma FirstsOfDecisions(cvs: seq<Fields>, scripts: seq<Script<Decision>>, order: seq<nat>,
                          retries: int, backoff: real, timeoutS: int)
    requires Scripted(scripts, |cvs|, retries) && forall k :: 0 <= k < |order| ==> order[k] < |cvs|
    ensures Firsts(Permute(Decisions(cvs, scripts, retries, backoff, timeoutS), order)) == Permute(cvs, order)
  {
  }

  /** The accepted and rejected lists split the input CVs exactly (in
      completion order), and there are at most as many traces as CVs
      (repeated ids overwrite). */
  lemma FilterPartition(cvs: seq<Fields>, mustHaves: Option<seq<string>>, scripts: seq<Script<Decision>>,
                        order: seq<nat>, retries: int, backoff: real, timeoutS: int, hasCallback: bool)
    requires Scripted(scripts, |cvs|, retries) && IsCompletionOrder(order, |cvs|)
    requires FilterSpec(cvs, mustHaves, scripts, order, retries, backoff, timeoutS, hasCallback).Ok?
    ensures var f := FilterSpec(cvs, mustHaves, scripts, order, retries, backoff, timeoutS, hasCallback).value;
      && multiset(f.accepted + f.rejected) == multiset(cvs)
      && |f.traces| <= |cvs|
  {
    if !IsEmpty(mustHaves) {
      InRange(order, |cvs|);
      var done := Permute(Decisions(cvs, scripts, retries, backoff, timeoutS), order);
      CollectSides(done, |cvs|, hasCallback);
      SidesPartition(done);
      FirstsOfDecisions(cvs, scripts, order, retries, backoff, timeoutS);
      PermuteIsPermutation(cvs, order);
    }
  }

  /** Without criteria every CV is accepted and nothing else is produced;
      with them and a callback, progress reports `1..n` of `n`. */
  lemma FilterProgress(cvs: seq<Fields>, mustHaves: Option<seq<string>>, scripts: seq<Script<Decision>>,
                       order: seq<nat>, retries: int, backoff: real, timeoutS: int, hasCallback: bool)
    requires Scripted(scripts, |cvs|, retries) && IsCompletionOrder(order, |cvs|)
    requires FilterSpec(cvs, mustHaves, scripts, order, retries, backoff, timeoutS, hasCallback).Ok?
    ensures var f := FilterSpec(cvs, mustHaves, scripts, order, retries, backoff, timeoutS, hasCallback).value;
      && (IsEmpty(mustHaves) ==> f == Filtered(cvs, [], [], []))
      && (!IsEmpty(mustHaves) && hasCallback ==> f.progress == Progress(|cvs|))
      && (!IsEmpty(mustHaves) && !hasCallback ==> f.progress == [])
  {
    if !IsEmpty(mustHaves) {
      InRange(order, |cvs|);
      var done := Permute(Decisions(cvs, scripts, retries, backoff, timeoutS), order);
      CollectProgress(done, |cvs|, hasCallback);
    }
  }

  /** With criteria, each accepted CV is one whose task decided to accept it. */
  lemma FilterAccepted(cvs: seq<Fields>, mustHaves: Option<seq<string>>, scripts: seq<Script<Decision>>,
                       order: seq<nat>, retries: int, backoff: real, timeoutS: int, hasCallback: bool)
    requires Scripted(scripts, |cvs|, retries) && IsCompletionOrder(order, |cvs|)
    requires FilterSpec(cvs, mustHaves, scripts, order, retries, backoff, timeoutS, hasCallback).Ok?
    requires !IsEmpty(mustHaves)
    ensures var f := FilterSpec(cvs, mustHaves, scripts, order, retries, backoff, timeoutS, hasCallback).value;
      forall x :: x in f.accepted ==>
        exists i :: 0 <= i < |cvs| && cvs[i] == x && Decide(RetryScript(scripts[i], retries, backoff, timeoutS), retries).accepted
  {
    InRange(order, |cvs|);
    var all := Decisions(cvs, scripts, retries, backoff, timeoutS);
    var done := Permute(all, order);
    assert FilterSpec(cvs, mustHaves, scripts, order, retries, backoff, timeoutS, hasCallback) == Collect(done, |cvs|, hasCallback);
    CollectSides(done, |cvs|, hasCallback);
    SideMembers(done, true);
    forall x | x in Side(done, true)
      ensures exists i :: 0 <= i < |cvs| && cvs[i] == x && Decide(RetryScript(scripts[i], retries, backoff, timeoutS), retries).accepted
    {
      var k :| 0 <= k < |done| && done[k].0 == x && done[k].1.accepted == true;
      var i := order[k];
      assert done[k] == all[i];
      assert all[i] == (cvs[i], Decide(RetryScript(scripts[i], retries, backoff, timeoutS), retries));
    }
  }
}
