/** The concurrent nice-have detection: for every CV the language model
    names the nice-have criteria the CV lacks, with retries; the answers are
    gathered in a dictionary keyed by CV id as tasks complete. Outcomes are
    scripted per CV and the completion order is an input. */
module NiceHaveParallel {
  import opened Wrappers
  import opened Text
  import opened JsonValue
  import opened Assoc
  import opened Throttle
  import opened Completion
  import opened MatchingEngine
  import opened MustHaveParallel

  /** `_find_nice_have_missing_one`'s answer: the missing criteria, and the
      last error when every call failed. */
  datatype Found = Found(missing: seq<string>, error: Option<string>)

  /** A successful call's list is returned unchanged; after the last failure
      the CV is taken to miss every criterion. */
  function FoundOf(r: Retried<seq<string>>, niceHaves: seq<string>): (f: Found)
    ensures r.value.Some? ==> f == Found(r.value.value, None)
    ensures r.value.None? ==> f == Found(niceHaves, r.lastError)
  {
    if r.value.Some? then Found(r.value.value, None) else Found(niceHaves, r.lastError)
  }

  method FindOne(counter: InflightCounter, s: Script<seq<string>>, niceHaves: seq<string>,
                 retries: int, backoff: real, timeoutS: int)
    returns (f: Found, attempts: nat)
    requires Covers(s, retries)
    modifies counter
    ensures f == FoundOf(RetryScript(s, retries, backoff, timeoutS), niceHaves)
    ensures attempts == RetryScript(s, retries, backoff, timeoutS).attempts
    ensures counter.State() == Run(old(counter.State()), PairedEvents(attempts))
  {
    var r := Retry(s.tries, retries, backoff, timeoutS, s.jitter);
    counter.Track(PairedEvents(r.attempts));
    f := FoundOf(r, niceHaves);
    attempts := r.attempts;
  }

  /** A CV's answer is the first successful call's list; once all
      `retries + 1` calls have failed it is the whole criteria list with the
      last error; the sleeps are `retries` doubling back-offs. */
  lemma FindOneOutcome(s: Script<seq<string>>, niceHaves: seq<string>, retries: int, backoff: real, timeoutS: int)
    requires Covers(s, retries) && retries >= 0
    requires backoff >= 0.0 && forall k :: 0 <= k < |s.jitter| ==> 0.0 <= s.jitter[k] <= 1.0
    ensures var r := RetryScript(s, retries, backoff, timeoutS);
      var f := FoundOf(r, niceHaves);
      && r.attempts <= retries + 1
      && (r.value.Some? ==> s.tries[r.attempts - 1] == Success(f.missing) && f.error.None?)
      && (r.value.None? ==>
            && f.missing == niceHaves
            && f.error == Some(FailureMessage(s.tries[retries], retries, timeoutS, retries))
            && |r.sleeps| == retries)
      && (forall k :: 0 <= k < |r.sleeps| ==> backoff * Pow2(k) <= r.sleeps[k] <= 1.25 * (backoff * Pow2(k)))
  {
    RetryProperties(s.tries, retries, backoff, timeoutS, s.jitter);
  }

  // ------------------------------------------------------------ no criteria

  /** `{cv.get("cv", f"cv_{i}"): [] for i, cv in enumerate(cvs)}`. */
  function EmptyMap(cvs: seq<Fields>): (r: Result<seq<(Json, seq<string>)>>)
    ensures r.Ok? ==> |r.value| <= |cvs|
    decreases |cvs|
  {
    if cvs == [] then Ok([])
    else
      var n := |cvs| - 1;
      var prev := EmptyMap(cvs[..n]);
      if prev.Err? then prev
      else
        var key := ScoringKey(cvs[n], n);
        if !Hashable(key) then Err("TypeError: unhashable type")
        else Ok(Put(prev.value, key, []))
  }

  lemma PutKeepsKey<K, V>(d: seq<(K, V)>, k: K, v: V, k': K)
    requires HasKey(d, k')
    ensures HasKey(Put(d, k, v), k')
  {
    LookupPut(d, k, v, k');
  }

  /** The last CV's key is assigned on top of the map built for the others. */
  lemma EmptyMapLast(cvs: seq<Fields>)
    requires cvs != [] && EmptyMap(cvs).Ok?
    ensures EmptyMap(cvs[..|cvs| - 1]).Ok?
    ensures EmptyMap(cvs).value == Put(EmptyMap(cvs[..|cvs| - 1]).value, ScoringKey(cvs[|cvs| - 1], |cvs| - 1), [])
  {
  }

  /** Assigning `[]` keeps every key that already read `[]`. */
  lemma PutEmptyKeeps<K, V>(d: seq<(K, seq<V>)>, k: K, k': K)
    requires k' == k || Lookup(d, k') == Some([])
    ensures Lookup(Put(d, k, []), k') == Some([])
  {
    LookupPut(d, k, [], k');
  }

  /** Every value of the map is the empty list. */
  lemma {:induction false} EmptyMapValues(cvs: seq<Fields>)
    requires EmptyMap(cvs).Ok?
    ensures forall k :: 0 <= k < |EmptyMap(cvs).value| ==> EmptyMap(cvs).value[k].1 == []
    decreases |cvs|
  {
    if cvs != [] {
      var n := |cvs| - 1;
      EmptyMapLast(cvs);
      EmptyMapValues(cvs[..n]);
      var prev := EmptyMap(cvs[..n]).value;
      var key := ScoringKey(cvs[n], n);
      forall k | 0 <= k < |Put(prev, key, [])| ensures Put(prev, key, [])[k].1 == [] {
        PutEntry(prev, key, [], k);
      }
    }
  }

  /** Without criteria every CV is listed, under the very key the scoring
      loop reads, as missing nothing. */
  lemma {:induction false} EmptyMapKeys(cvs: seq<Fields>)
    requires EmptyMap(cvs).Ok?
    ensures forall i :: 0 <= i < |cvs| ==> Lookup(EmptyMap(cvs).value, ScoringKey(cvs[i], i)) == Some([])
    ensures forall k :: 0 <= k < |EmptyMap(cvs).value| ==> EmptyMap(cvs).value[k].1 == []
    decreases |cvs|
  {
    EmptyMapValues(cvs);
    if cvs != [] {
      var n := |cvs| - 1;
      EmptyMapLast(cvs);
      EmptyMapKeys(cvs[..n]);
      var prev := EmptyMap(cvs[..n]).value;
      var key := ScoringKey(cvs[n], n);
      forall i | 0 <= i < |cvs| ensures Lookup(Put(prev, key, []), ScoringKey(cvs[i], i)) == Some([]) {
        if i < n {
          assert cvs[..n][i] == cvs[i];
          PutEmptyKeeps(prev, key, ScoringKey(cvs[i], i));
        } else {
          PutEmptyKeeps(prev, key, key);
        }
      }
    }
  }

  /** Each entry after a `Put` is the new pair or the entry that was there. */
  lemma {:induction false} PutEntry<K, V>(d: seq<(K, V)>, k: K, v: V, j: nat)
    requires j < |Put(d, k, v)|
    ensures Put(d, k, v)[j] == (k, v) || (j < |d| && Put(d, k, v)[j] == d[j])
    decreases |d|
  {
    if d != [] && d[0].0 != k && j > 0 {
      PutEntry(d[1..], k, v, j - 1);
    }
  }

  // ------------------------------------------------------------ gathering

  datatype Gathered = Gathered(results: seq<(Json, seq<string>)>, progress: seq<(nat, nat)>)

  /** One completed task: store its list under its id and report progress. */
  function GatherStep(g: Gathered, cv: Fields, missing: seq<string>, completed: nat, total: nat, hasCallback: bool)
    : Result<Gathered>
  {
    var id := CvId(cv, |g.results|);
    if !Hashable(id) then Err("TypeError: unhashable type")
    else Ok(Gathered(Put(g.results, id, missing), if hasCallback then g.progress + [(completed, total)] else g.progress))
  }

  /** The consumer loop over completed tasks, `done` in completion order. */
  function Gather(done: seq<(Fields, seq<string>)>, total: nat, hasCallback: bool): (r: Result<Gathered>)
    ensures r.Ok? ==> |r.value.results| <= |done|
    decreases |done|
  {
    if done == [] then Ok(Gathered([], []))
    else
      var n := |done| - 1;
      var prev := Gather(done[..n], total, hasCallback);
      if prev.Err? then prev
      else GatherStep(prev.value, done[n].0, done[n].1, n + 1, total, hasCallback)
  }

  lemma GatherAppend(prefix: seq<(Fields, seq<string>)>, x: (Fields, seq<string>), total: nat, hasCallback: bool, g: Gathered)
    requires Gather(prefix, total, hasCallback) == Ok(g)
    ensures Gather(prefix + [x], total, hasCallback) == GatherStep(g, x.0, x.1, |prefix| + 1, total, hasCallback)
  {
    assert (prefix + [x])[..|prefix|] == prefix;
  }

  lemma GatherSnoc(done: seq<(Fields, seq<string>)>, k: nat, total: nat, hasCallback: bool, g: Gathered)
    requires k < |done| && Gather(done[..k], total, hasCallback) == Ok(g)
    ensures Gather(done[..k + 1], total, hasCallback) == GatherStep(g, done[k].0, done[k].1, k + 1, total, hasCallback)
  {
    TakeSnoc(done, k);
    GatherAppend(done[..k], done[k], total, hasCallback, g);
  }

  lemma {:induction false} GatherErr(done: seq<(Fields, seq<string>)>, n: nat, total: nat, hasCallback: bool)
    requires n <= |done| && Gather(done[..n], total, hasCallback).Err?
    ensures Gather(done, total, hasCallback) == Gather(done[..n], total, hasCallback)
    decreases |done| - n
  {
    if n < |done| {
      var init := done[..|done| - 1];
      assert init[..n] == done[..n];
      GatherErr(init, n, total, hasCallback);
      assert Gather(init, total, hasCallback).Err?;
    } else {
      assert done[..n] == done;
    }
  }

  /** Progress reports `1..n` of `total`. */
  lemma {:induction false} GatherProgress(done: seq<(Fields, seq<string>)>, total: nat, hasCallback: bool)
    requires Gather(done, total, hasCallback).Ok?
    ensures var g := Gather(done, total, hasCallback).value;
      && (hasCallback ==> |g.progress| == |done| && forall k :: 0 <= k < |done| ==> g.progress[k] == (k + 1, total))
      && (!hasCallback ==> g.progress == [])
    decreases |done|
  {
    if done != [] {
      var n := |done| - 1;
      var init, x := done[..n], done[n];
      assert done == init + [x];
      GatherProgress(init, total, hasCallback);
      GatherAppend(init, x, total, hasCallback, Gather(init, total, hasCallback).value);
    }
  }

  /** Every stored list is the answer of some completed CV, under a truthy id. */
  lemma GatherEntries(done: seq<(Fields, seq<string>)>, total: nat, hasCallback: bool)
    requires Gather(done, total, hasCallback).Ok?
    ensures var g := Gather(done, total, hasCallback).value;
      forall j :: 0 <= j < |g.results| ==>
        Truthy(g.results[j].0) && exists k :: 0 <= k < |done| && done[k].1 == g.results[j].1
  {
    var g := Gather(done, total, hasCallback).value;
    forall j | 0 <= j < |g.results|
      ensures Truthy(g.results[j].0) && exists k :: 0 <= k < |done| && done[k].1 == g.results[j].1
    {
      GatherEntryAt(done, total, hasCallback, j);
    }
  }

  lemma {:induction false} GatherEntryAt(done: seq<(Fields, seq<string>)>, total: nat, hasCallback: bool, j: nat)
    requires Gather(done, total, hasCallback).Ok? && j < |Gather(done, total, hasCallback).value.results|
    ensures var e := Gather(done, total, hasCallback).value.results[j];
      Truthy(e.0) && exists k :: 0 <= k < |done| && done[k].1 == e.1
    decreases |done|
  {
    var n := |done| - 1;
    var init, x := done[..n], done[n];
    assert done == init + [x];
    var before := Gather(init, total, hasCallback);
    assert before.Ok?;
    var prev := before.value;
    GatherAppend(init, x, total, hasCallback, prev);
    var id := CvId(x.0, |prev.results|);
    var res := Put(prev.results, id, x.1);
    assert Gather(done, total, hasCallback).value.results == res;
    PutEntry(prev.results, id, x.1, j);
    var e := res[j];
    var k: nat;
    if e == (id, x.1) {
      k := n;
    } else {
      GatherEntryAt(init, total, hasCallback, j);
      k :| 0 <= k < n && init[k].1 == prev.results[j].1;
      assert done[k] == init[k];
    }
    assert Truthy(e.0);
    assert 0 <= k < |done| && done[k].1 == e.1;
  }

  // -------------------------------------------------------------- the map

  predicate Scripted(scripts: seq<Script<seq<string>>>, n: nat, retries: int) {
    |scripts| == n && forall i :: 0 <= i < n ==> Covers(scripts[i], retries)
  }

  function Answers(cvs: seq<Fields>, niceHaves: seq<string>, scripts: seq<Script<seq<string>>>,
                   retries: int, backoff: real, timeoutS: int): (r: seq<(Fields, seq<string>)>)
    requires Scripted(scripts, |cvs|, retries)
    ensures |r| == |cvs| && forall i :: 0 <= i < |cvs| ==>
      r[i] == (cvs[i], FoundOf(RetryScript(scripts[i], retries, backoff, timeoutS), niceHaves).missing)
  {
    seq(|cvs|, i requires 0 <= i < |cvs| =>
      (cvs[i], FoundOf(RetryScript(scripts[i], retries, backoff, timeoutS), niceHaves).missing))
  }

  /** `find_nice_have_missing_parallel`. */
  function FindSpec(cvs: seq<Fields>, niceHaves: Option<seq<string>>, scripts: seq<Script<seq<string>>>,
                    order: seq<nat>, retries: int, backoff: real, timeoutS: int, hasCallback: bool): Result<Gathered>
    requires Scripted(scripts, |cvs|, retries) && IsCompletionOrder(order, |cvs|)
  {
    if IsEmpty(niceHaves) then
      var m := EmptyMap(cvs);
      if m.Err? then Err(m.error) else Ok(Gathered(m.value, []))
    else
      InRange(order, |cvs|);
      Gather(Permute(Answers(cvs, niceHaves.value, scripts, retries, backoff, timeoutS), order), |cvs|, hasCallback)
  }

  method FindNiceHaveMissingParallel(counter: InflightCounter, cvs: seq<Fields>, niceHaves: Option<seq<string>>,
                                     scripts: seq<Script<seq<string>>>, order: seq<nat>,
                                     retries: int, backoff: real, timeoutS: int, hasCallback: bool)
    returns (r: Result<Gathered>, calls: nat)
    requires Scripted(scripts, |cvs|, retries) && IsCompletionOrder(order, |cvs|)
    modifies counter
    ensures r == FindSpec(cvs, niceHaves, scripts, order, retries, backoff, timeoutS, hasCallback)
    ensures calls <= |cvs| * Rounds(retries)
    ensures IsEmpty(niceHaves) ==> calls == 0 && counter.State() == old(counter.State())
    ensures !IsEmpty(niceHaves) ==> counter.State().current == 0 && counter.State().peak >= 0
  {
    if IsEmpty(niceHaves) {
      var m := EmptyMap(cvs);
      if m.Err? {
        return Err(m.error), 0;
      }
      return Ok(Gathered(m.value, [])), 0;
    }
    counter.ResetTracking();
    InRange(order, |cvs|);
    r, calls := GatherTasks(counter, cvs, niceHaves.value, scripts, order, retries, backoff, timeoutS, hasCallback);
  }

  /** The tasks run and their answers gathered in completion order. */
  method GatherTasks(counter: InflightCounter, cvs: seq<Fields>, niceHaves: seq<string>,
                     scripts: seq<Script<seq<string>>>, order: seq<nat>,
                     retries: int, backoff: real, timeoutS: int, hasCallback: bool)
    returns (r: Result<Gathered>, calls: nat)
    requires Scripted(scripts, |cvs|, retries) && |order| == |cvs| && forall k :: 0 <= k < |order| ==> order[k] < |cvs|
    requires counter.State() == Gauge(0, 0)
    modifies counter
    ensures r == Gather(Permute(Answers(cvs, niceHaves, scripts, retries, backoff, timeoutS), order), |cvs|, hasCallback)
    ensures calls <= |cvs| * Rounds(retries)
    ensures counter.State().current == 0 && counter.State().peak >= 0
  {
    calls := 0;
    ghost var done := Permute(Answers(cvs, niceHaves, scripts, retries, backoff, timeoutS), order);
    var g := Gathered([], []);
    var k := 0;
    while k < |order|
      invariant 0 <= k <= |order|
      invariant Gather(done[..k], |cvs|, hasCallback) == Ok(g)
      invariant calls <= Times(k, Rounds(retries))
      invariant counter.State().current == 0 && counter.State().peak >= 0
    {
      var step, attempts := GatherOne(counter, cvs, niceHaves, scripts, order, k, retries, backoff, timeoutS, hasCallback, g, done);
      calls := calls + attempts;
      if step.Err? {
        GatherErr(done, k + 1, |cvs|, hasCallback);
        CallsWithin(calls, k + 1, |cvs|, Rounds(retries));
        return step, calls;
      }
      g := step.value;
      k := k + 1;
    }
    assert done[..k] == done;
    CallsWithin(calls, k, |cvs|, Rounds(retries));
    r := Ok(g);
  }

  /** One pass of the consumer loop: the `k`-th task to complete is awaited
      and its list stored. */
  method GatherOne(counter: InflightCounter, cvs: seq<Fields>, niceHaves: seq<string>,
                   scripts: seq<Script<seq<string>>>, order: seq<nat>, k: nat,
                   retries: int, backoff: real, timeoutS: int, hasCallback: bool, g: Gathered,
                   ghost done: seq<(Fields, seq<string>)>)
    returns (step: Result<Gathered>, attempts: nat)
    requires Scripted(scripts, |cvs|, retries) && |order| == |cvs| && k < |order| && order[k] < |cvs|
    requires |done| == |order|
    requires done[k] == (cvs[order[k]], FoundOf(RetryScript(scripts[order[k]], retries, backoff, timeoutS), niceHaves).missing)
    requires Gather(done[..k], |cvs|, hasCallback) == Ok(g)
    requires counter.State().current == 0 && counter.State().peak >= 0
    modifies counter
    ensures step == Gather(done[..k + 1], |cvs|, hasCallback)
    ensures attempts <= Rounds(retries)
    ensures counter.State().current == 0 && counter.State().peak >= 0
  {
    var i := order[k];
    ghost var before := counter.State();
    var f;
    f, attempts := FindOne(counter, scripts[i], niceHaves, retries, backoff, timeoutS);
    PairedRunBalanced(before, attempts);
    GatherSnoc(done, k, |cvs|, hasCallback, g);
    step := GatherStep(g, cvs[i], f.missing, k + 1, |cvs|, hasCallback);
  }

  /** Without criteria every CV maps to `[]` under its scoring key and no
      progress is reported. */
  lemma FindWithoutCriteria(cvs: seq<Fields>, niceHaves: Option<seq<string>>, scripts: seq<Script<seq<string>>>,
                            order: seq<nat>, retries: int, backoff: real, timeoutS: int, hasCallback: bool)
    requires Scripted(scripts, |cvs|, retries) && IsCompletionOrder(order, |cvs|)
    requires FindSpec(cvs, niceHaves, scripts, order, retries, backoff, timeoutS, hasCallback).Ok?
    requires IsEmpty(niceHaves)
    ensures var g := FindSpec(cvs, niceHaves, scripts, order, retries, backoff, timeoutS, hasCallback).value;
      && |g.results| <= |cvs|
      && g.progress == []
      && forall i :: 0 <= i < |cvs| ==> Lookup(g.results, ScoringKey(cvs[i], i)) == Some([])
  {
    EmptyMapKeys(cvs);
  }

  /** With criteria the map has at most one entry per CV, and with a
      callback progress reports `1..n` of `n`. */
  lemma FindProgress(cvs: seq<Fields>, niceHaves: Option<seq<string>>, scripts: seq<Script<seq<string>>>,
                     order: seq<nat>, retries: int, backoff: real, timeoutS: int, hasCallback: bool)
    requires Scripted(scripts, |cvs|, retries) && IsCompletionOrder(order, |cvs|)
    requires FindSpec(cvs, niceHaves, scripts, order, retries, backoff, timeoutS, hasCallback).Ok?
    requires !IsEmpty(niceHaves)
    ensures var g := FindSpec(cvs, niceHaves, scripts, order, retries, backoff, timeoutS, hasCallback).value;
      && |g.results| <= |cvs|
      && (hasCallback ==> g.progress == Progress(|cvs|))
      && (!hasCallback ==> g.progress == [])
  {
    InRange(order, |cvs|);
    var done := Permute(Answers(cvs, niceHaves.value, scripts, retries, backoff, timeoutS), order);
    GatherProgress(done, |cvs|, hasCallback);
  }

  /** With criteria every entry is some CV's answer: its own list, or the
      whole criteria list after repeated failure. */
  lemma FindEntries(cvs: seq<Fields>, niceHaves: Option<seq<string>>, scripts: seq<Script<seq<string>>>,
                    order: seq<nat>, retries: int, backoff: real, timeoutS: int, hasCallback: bool)
    requires Scripted(scripts, |cvs|, retries) && IsCompletionOrder(order, |cvs|)
    requires FindSpec(cvs, niceHaves, scripts, order, retries, backoff, timeoutS, hasCallback).Ok?
    requires !IsEmpty(niceHaves)
    ensures var g := FindSpec(cvs, niceHaves, scripts, order, retries, backoff, timeoutS, hasCallback).value;
      forall j :: 0 <= j < |g.results| ==>
        exists i :: 0 <= i < |cvs| && g.results[j].1 == FoundOf(RetryScript(scripts[i], retries, backoff, timeoutS), niceHaves.value).missing
  {
    InRange(order, |cvs|);
    var all := Answers(cvs, niceHaves.value, scripts, retries, backoff, timeoutS);
    var done := Permute(all, order);
    var g := Gather(done, |cvs|, hasCallback).value;
    assert FindSpec(cvs, niceHaves, scripts, order, retries, backoff, timeoutS, hasCallback).value == g;
    forall j | 0 <= j < |g.results|
      ensures exists i :: 0 <= i < |cvs| && g.results[j].1 == FoundOf(RetryScript(scripts[i], retries, backoff, timeoutS), niceHaves.value).missing
    {
      GatherEntryAt(done, |cvs|, hasCallback, j);
      var k :| 0 <= k < |done| && done[k].1 == g.results[j].1;
      var i := order[k];
      assert done[k] == all[i];
      assert g.results[j].1 == FoundOf(RetryScript(scripts[i], retries, backoff, timeoutS), niceHaves.value).missing;
    }
  }

  // ------------------------------------------- agreement with the scorer

  /** A CV without any id field: the nice-have stage files its answer under
      `cv_1`, while the scoring loop looks it up under `cv_0`, misses it, and
      applies no malus although the CV lacks the one criterion. */
  lemma UnnamedCvLosesMalus()
    ensures var done := [([], ["Docker"])];
      var g := Gather(done, 1, false);
      && g == Ok(Gathered([(JStr("cv_1"), ["Docker"])], []))
      && ScoreOne([], 0, 0.8, g.value.results, 0.95).nombreManquants == 0
  {
    var empty: Fields := [];
    assert NatToString(1) == "1";
    assert CvId(empty, 0) == JStr("cv_1");
    assert Gather([([], ["Docker"])][..0], 1, false) == Ok(Gathered([], []));
    assert NatToString(0) == "0";
    assert Lookup(empty, "cv") == None;
    assert ScoringKey([], 0) == JStr("cv_0");
    assert Lookup([(JStr("cv_1"), ["Docker"])], JStr("cv_0")) == None;
  }

  /** The answers filed under the key the scoring loop reads,
      `cv.get("cv", f"cv_{i}")` with `i` the CV's input position, in
      completion order. */
  function AlignedMap(cvs: seq<Fields>, missing: seq<seq<string>>, order: seq<nat>): (r: Result<seq<(Json, seq<string>)>>)
    requires |missing| == |cvs| && forall k :: 0 <= k < |order| ==> order[k] < |cvs|
    decreases |order|
  {
    if order == [] then Ok([])
    else
      var n := |order| - 1;
      var prev := AlignedMap(cvs, missing, order[..n]);
      if prev.Err? then prev
      else
        var i := order[n];
        var key := ScoringKey(cvs[i], i);
        if !Hashable(key) then Err("TypeError: unhashable type")
        else Ok(Put(prev.value, key, missing[i]))
  }

  lemma {:induction false} AlignedMapHasKeys(cvs: seq<Fields>, missing: seq<seq<string>>, order: seq<nat>)
    requires |missing| == |cvs| && forall k :: 0 <= k < |order| ==> order[k] < |cvs|
    requires AlignedMap(cvs, missing, order).Ok?
    ensures forall k :: 0 <= k < |order| ==> HasKey(AlignedMap(cvs, missing, order).value, ScoringKey(cvs[order[k]], order[k]))
    decreases |order|
  {
    if order != [] {
      var n := |order| - 1;
      AlignedMapHasKeys(cvs, missing, order[..n]);
      var prev := AlignedMap(cvs, missing, order[..n]).value;
      var key := ScoringKey(cvs[order[n]], order[n]);
      forall k | 0 <= k < |order| ensures HasKey(AlignedMap(cvs, missing, order).value, ScoringKey(cvs[order[k]], order[k])) {
        if k < n {
          assert order[..n][k] == order[k];
          PutKeepsKey(prev, key, missing[order[n]], ScoringKey(cvs[order[k]], order[k]));
        }
      }
    }
  }

  /** No two CVs share a scoring key. */
  predicate DistinctScoringKeys(cvs: seq<Fields>) {
    forall i, j :: 0 <= i < j < |cvs| ==> ScoringKey(cvs[i], i) != ScoringKey(cvs[j], j)
  }

  /** With distinct scoring keys, the entry under a filed CV's key is that
      CV's own answer. */
  lemma {:induction false} AlignedMapLookups(cvs: seq<Fields>, missing: seq<seq<string>>, order: seq<nat>)
    requires |missing| == |cvs| && forall k :: 0 <= k < |order| ==> order[k] < |cvs|
    requires AlignedMap(cvs, missing, order).Ok? && DistinctScoringKeys(cvs)
    ensures forall k :: 0 <= k < |order| ==>
      Lookup(AlignedMap(cvs, missing, order).value, ScoringKey(cvs[order[k]], order[k])) == Some(missing[order[k]])
    decreases |order|
  {
    if order != [] {
      var n := |order| - 1;
      AlignedMapLookups(cvs, missing, order[..n]);
      var prev := AlignedMap(cvs, missing, order[..n]).value;
      var key := ScoringKey(cvs[order[n]], order[n]);
      forall k | 0 <= k < |order|
        ensures Lookup(AlignedMap(cvs, missing, order).value, ScoringKey(cvs[order[k]], order[k])) == Some(missing[order[k]])
      {
        var i := order[k];
        LookupPut(prev, key, missing[order[n]], ScoringKey(cvs[i], i));
        if k < n {
          assert order[..n][k] == i;
          if i < order[n] {
            assert ScoringKey(cvs[i], i) != key;
          } else if order[n] < i {
            assert key != ScoringKey(cvs[i], i);
          }
        }
      }
    }
  }

  /** With answers filed under the scorer's key, every CV's entry is found
      in any completion order, so no CV loses its malus to a key mismatch;
      when no two CVs share a key, the entry found is the CV's own answer. */
  lemma AlignedMapFindsEveryCv(cvs: seq<Fields>, missing: seq<seq<string>>, order: seq<nat>)
    requires |missing| == |cvs| && IsCompletionOrder(order, |cvs|)
    ensures forall k :: 0 <= k < |order| ==> order[k] < |cvs|
    ensures AlignedMap(cvs, missing, order).Ok? ==>
      forall i :: 0 <= i < |cvs| ==> HasKey(AlignedMap(cvs, missing, order).value, ScoringKey(cvs[i], i))
    ensures AlignedMap(cvs, missing, order).Ok? && DistinctScoringKeys(cvs) ==>
      forall i :: 0 <= i < |cvs| ==> Lookup(AlignedMap(cvs, missing, order).value, ScoringKey(cvs[i], i)) == Some(missing[i])
  {
    InRange(order, |cvs|);
    if AlignedMap(cvs, missing, order).Ok? {
      AlignedMapHasKeys(cvs, missing, order);
      if DistinctScoringKeys(cvs) {
        AlignedMapLookups(cvs, missing, order);
      }
      forall i | 0 <= i < |cvs|
        ensures HasKey(AlignedMap(cvs, missing, order).value, ScoringKey(cvs[i], i))
        ensures DistinctScoringKeys(cvs) ==> Lookup(AlignedMap(cvs, missing, order).value, ScoringKey(cvs[i], i)) == Some(missing[i])
      {
        assert i in multiset(Range(|cvs|)) by { assert Range(|cvs|)[i] == i; }
        assert i in order;
        var k :| 0 <= k < |order| && order[k] == i;
      }
    }
  }

  /** On the unnamed CV above, the aligned map gives the scorer the one
      missing criterion. */
  lemma UnnamedCvKeepsMalus()
    ensures var m := AlignedMap([[]], [["Docker"]], [0]);
      && m == Ok([(JStr("cv_0"), ["Docker"])])
      && ScoreOne([], 0, 0.8, m.value, 0.95).nombreManquants == 1
  {
    assert NatToString(0) == "0";
    assert ScoringKey([], 0) == JStr("cv_0");
    assert [0][..0] == [];
  }
}
