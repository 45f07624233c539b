/** Character and string primitives of Python's `str` that the matcher relies
    on: `isspace`/`\s`, `lower`, `upper`, `strip`, `re.sub` over a character
    class, `split`, `replace`, `in` on strings. Case mapping is modelled
    character by character over ASCII and Latin-1. */
module Text {

  /** Python's `str.isspace()`, which is also the set matched by `\s` and the
      set removed by `strip()` without arguments. */
  predicate IsSpace(c: char) {
    c == ' ' || ('\t' <= c <= '\r') || ('\U{1C}' <= c <= '\U{1F}')
    || c == '\U{0085}' || c == '\U{00A0}' || c == '\U{1680}'
    || ('\U{2000}' <= c <= '\U{200A}') || c == '\U{2028}' || c == '\U{2029}'
    || c == '\U{202F}' || c == '\U{205F}' || c == '\U{3000}'
  }

  predicate IsAsciiUpper(c: char) { 'A' <= c <= 'Z' }
  predicate IsAsciiLower(c: char) { 'a' <= c <= 'z' }
  predicate IsDigit(c: char) { '0' <= c <= '9' }

  predicate IsLatinUpper(c: char) { IsAsciiUpper(c) || ('À' <= c <= 'Þ' && c != '×') }
  predicate IsLatinLower(c: char) { IsAsciiLower(c) || ('à' <= c <= 'þ' && c != '÷') }

  /** `str.lower()` on one character. */
  function Lower(c: char): (r: char)
    ensures IsLatinUpper(c) ==> IsLatinLower(r)
    ensures !IsLatinUpper(c) ==> r == c
    ensures !IsLatinUpper(r)
  {
    if IsLatinUpper(c) then (c as int + 32) as char else c
  }

  /** `str.upper()` on one character. */
  function Upper(c: char): (r: char)
    ensures IsLatinLower(c) ==> IsLatinUpper(r)
    ensures !IsLatinLower(c) ==> r == c
    ensures !IsLatinLower(r)
  {
    if IsLatinLower(c) then (c as int - 32) as char else c
  }

  function LowerStr(s: string): (r: string)
    ensures |r| == |s|
    ensures forall i :: 0 <= i < |s| ==> r[i] == Lower(s[i])
  {
    seq(|s|, i requires 0 <= i < |s| => Lower(s[i]))
  }

  /** Text without an upper-case letter is its own lower case. */
  lemma LowerStrFixed(s: string)
    requires forall i :: 0 <= i < |s| ==> !IsLatinUpper(s[i])
    ensures LowerStr(s) == s
  {
  }

  function UpperStr(s: string): (r: string)
    ensures |r| == |s|
    ensures forall i :: 0 <= i < |s| ==> r[i] == Upper(s[i])
  {
    seq(|s|, i requires 0 <= i < |s| => Upper(s[i]))
  }

  /** `str.capitalize()`: first character upper-cased, the rest lower-cased. */
  function Capitalize(s: string): (r: string)
    ensures |r| == |s|
  {
    if s == [] then [] else [Upper(s[0])] + LowerStr(s[1..])
  }

  lemma {:induction false} CapitalizeIdempotent(s: string)
    ensures Capitalize(Capitalize(s)) == Capitalize(s)
  {
    if s != [] {
      var c := Capitalize(s);
      assert c[1..] == LowerStr(s[1..]);
      assert LowerStr(c[1..]) == c[1..];
    }
  }

  /** `s.replace(a, b)` for single characters. */
  function ReplaceChar(s: string, a: char, b: char): (r: string)
    ensures |r| == |s|
    ensures forall i :: 0 <= i < |s| ==> r[i] == (if s[i] == a then b else s[i])
  {
    seq(|s|, i requires 0 <= i < |s| => if s[i] == a then b else s[i])
  }

  /** Keeps the characters satisfying `keep` (`re.sub(r'[^...]', '', s)`). */
  function Filter(s: string, keep: char -> bool): (r: string)
    ensures |r| <= |s|
    ensures forall c :: c in r ==> c in s && keep(c)
    decreases |s|
  {
    if s == [] then []
    else (if keep(s[0]) then [s[0]] else []) + Filter(s[1..], keep)
  }

  /** Text whose characters are all kept is left unchanged. */
  lemma {:induction false} FilterAll(s: string, keep: char -> bool)
    requires forall i :: 0 <= i < |s| ==> keep(s[i])
    ensures Filter(s, keep) == s
    decreases |s|
  {
    if s != [] {
      FilterAll(s[1..], keep);
      assert [s[0]] + s[1..] == s;
    }
  }

  /** Drops the leading characters satisfying `p`. */
  function TrimStart(s: string, p: char -> bool): (r: string)
    ensures |r| <= |s| && r == s[|s| - |r|..]
    ensures r == [] || !p(r[0])
    ensures forall i :: 0 <= i < |s| - |r| ==> p(s[i])
    ensures s != [] && p(s[0]) ==> |r| < |s|
    ensures s != [] && !p(s[0]) ==> r == s
    decreases |s|
  {
    if s != [] && p(s[0]) then TrimStart(s[1..], p) else s
  }

  /** Drops the trailing characters satisfying `p`. */
  function TrimEnd(s: string, p: char -> bool): (r: string)
    ensures |r| <= |s| && r == s[..|r|]
    ensures r == [] || !p(r[|r| - 1])
    ensures forall i :: |r| <= i < |s| ==> p(s[i])
    ensures s != [] && !p(s[|s| - 1]) ==> r == s
    decreases |s|
  {
    if s != [] && p(s[|s| - 1]) then TrimEnd(s[..|s| - 1], p) else s
  }

  /** Number of leading characters that `StripBy` removes. */
  function StripOffset(s: string, p: char -> bool): nat {
    |s| - |TrimStart(s, p)|
  }

  /** `s.strip(chars)` with the stripped set given as a predicate. */
  function StripBy(s: string, p: char -> bool): (r: string)
    ensures r == [] || (!p(r[0]) && !p(r[|r| - 1]))
    ensures StripOffset(s, p) + |r| <= |s|
    ensures r == s[StripOffset(s, p)..StripOffset(s, p) + |r|]
    ensures s == [] || (!p(s[0]) && !p(s[|s| - 1])) ==> r == s
  {
    var t := TrimStart(s, p);
    var r := TrimEnd(t, p);
    assert r == t[..|r|] && t == s[|s| - |t|..];
    assert r == s[|s| - |t|..|s| - |t| + |r|];
    r
  }

  /** `s.strip()`. */
  function Strip(s: string): (r: string)
    ensures r == [] || (!IsSpace(r[0]) && !IsSpace(r[|r| - 1]))
    ensures |r| <= |s|
    ensures forall c :: c in r ==> c in s
    ensures s == [] || (!IsSpace(s[0]) && !IsSpace(s[|s| - 1])) ==> r == s
  {
    var k := StripOffset(s, IsSpace);
    var r := StripBy(s, IsSpace);
    SliceMembers(s, k, k + |r|);
    r
  }

  lemma SliceMembers(s: string, a: nat, b: nat)
    requires a <= b <= |s|
    ensures forall c :: c in s[a..b] ==> c in s
  {
    forall c | c in s[a..b]
      ensures c in s
    {
      var j :| 0 <= j < b - a && s[a..b][j] == c;
      assert s[a + j] == c;
    }
  }

  /** Nothing but whitespace, or nothing at all. */
  predicate Blank(s: string) {
    forall i :: 0 <= i < |s| ==> IsSpace(s[i])
  }

  /** `s.strip()` is empty exactly for a blank string. */
  lemma StripEmptyIffBlank(s: string)
    ensures Strip(s) == [] <==> Blank(s)
  {
    var t := TrimStart(s, IsSpace);
    assert Strip(s) == TrimEnd(t, IsSpace);
    if !Blank(s) {
      var i :| 0 <= i < |s| && !IsSpace(s[i]);
      assert i >= |s| - |t|;
      assert !IsSpace(t[0]);
    }
  }

  /** Python `re.sub(r'<p>+', rep, s)`: every maximal run of characters
      satisfying `p` becomes the single character `rep`. */
  function ReplaceRuns(s: string, p: char -> bool, rep: char): (r: string)
    decreases |s|
  {
    if s == [] then []
    else if p(s[0]) then [rep] + ReplaceRuns(TrimStart(s, p), p, rep)
    else [s[0]] + ReplaceRuns(s[1..], p, rep)
  }

  /** No two neighbouring characters both satisfy `p`. */
  predicate NoAdjacent(s: string, p: char -> bool) {
    forall i :: 0 <= i < |s| - 1 ==> !(p(s[i]) && p(s[i + 1]))
  }

  lemma {:induction false} ReplaceRunsLength(s: string, p: char -> bool, rep: char)
    ensures |ReplaceRuns(s, p, rep)| <= |s|
    ensures ReplaceRuns(s, p, rep) == [] <==> s == []
    decreases |s|
  {
    if s != [] {
      if p(s[0]) {
        ReplaceRunsLength(TrimStart(s, p), p, rep);
      } else {
        ReplaceRunsLength(s[1..], p, rep);
      }
    }
  }

  /** A last character outside the runs is kept as the last character. */
  lemma {:induction false} ReplaceRunsLast(s: string, p: char -> bool, rep: char)
    requires s != [] && !p(s[|s| - 1])
    ensures ReplaceRuns(s, p, rep) != [] && ReplaceRuns(s, p, rep)[|ReplaceRuns(s, p, rep)| - 1] == s[|s| - 1]
    decreases |s|
  {
    var t := if p(s[0]) then TrimStart(s, p) else s[1..];
    if t != [] {
      assert t[|t| - 1] == s[|s| - 1];
      ReplaceRunsLast(t, p, rep);
    }
  }

  /** Every output character is `rep` or an input character outside the runs;
      so any property `q` shared by those characters holds of the output. */
  lemma {:induction false} ReplaceRunsChars(s: string, p: char -> bool, rep: char, q: char -> bool)
    requires q(rep)
    requires forall i :: 0 <= i < |s| && !p(s[i]) ==> q(s[i])
    ensures forall i :: 0 <= i < |ReplaceRuns(s, p, rep)| ==> q(ReplaceRuns(s, p, rep)[i])
    decreases |s|
  {
    if s != [] {
      var t := if p(s[0]) then TrimStart(s, p) else s[1..];
      SuffixKeeps(s, t, p, q);
      ReplaceRunsChars(t, p, rep, q);
      ReplaceRunsCons(s, p, rep);
      ConsKeeps(if p(s[0]) then rep else s[0], ReplaceRuns(t, p, rep), q);
    }
  }

  /** One step of `ReplaceRuns`. */
  lemma ReplaceRunsCons(s: string, p: char -> bool, rep: char)
    requires s != []
    ensures ReplaceRuns(s, p, rep) ==
      [if p(s[0]) then rep else s[0]] + ReplaceRuns(if p(s[0]) then TrimStart(s, p) else s[1..], p, rep)
  {
  }

  /** A suffix keeps a property of the characters outside the runs. */
  lemma SuffixKeeps(s: string, t: string, p: char -> bool, q: char -> bool)
    requires |t| <= |s| && t == s[|s| - |t|..]
    requires forall i :: 0 <= i < |s| && !p(s[i]) ==> q(s[i])
    ensures forall i :: 0 <= i < |t| && !p(t[i]) ==> q(t[i])
  {
    forall i | 0 <= i < |t| && !p(t[i])
      ensures q(t[i])
    {
      assert t[i] == s[|s| - |t| + i];
    }
  }

  /** A property of every character survives putting one more in front. */
  lemma ConsKeeps(c: char, rt: string, q: char -> bool)
    requires q(c) && forall i :: 0 <= i < |rt| ==> q(rt[i])
    ensures forall i :: 0 <= i < |[c] + rt| ==> q(([c] + rt)[i])
  {
    forall i | 0 <= i < |[c] + rt|
      ensures q(([c] + rt)[i])
    {
      if i > 0 {
        assert ([c] + rt)[i] == rt[i - 1];
      }
    }
  }

  lemma {:induction false} ReplaceRunsNoAdjacent(s: string, p: char -> bool, rep: char)
    ensures NoAdjacent(ReplaceRuns(s, p, rep), p)
    decreases |s|
  {
    if s != [] {
      var t := if p(s[0]) then TrimStart(s, p) else s[1..];
      ReplaceRunsNoAdjacent(t, p, rep);
      var rt := ReplaceRuns(t, p, rep);
      if p(s[0]) && t != [] {
        assert rt[0] == t[0];
      }
      assert ReplaceRuns(s, p, rep)[1..] == rt;
    }
  }

  /** A string whose runs are already single `rep` characters is left unchanged. */
  lemma {:induction false} ReplaceRunsFixed(s: string, p: char -> bool, rep: char)
    requires NoAdjacent(s, p)
    requires forall i :: 0 <= i < |s| && p(s[i]) ==> s[i] == rep
    ensures ReplaceRuns(s, p, rep) == s
    decreases |s|
  {
    if s == [] {
    } else {
      assert NoAdjacent(s[1..], p) by {
        forall i | 0 <= i < |s[1..]| - 1 ensures !(p(s[1..][i]) && p(s[1..][i + 1])) {
          assert s[1..][i] == s[i + 1] && s[1..][i + 1] == s[i + 2];
        }
      }
      ReplaceRunsFixed(s[1..], p, rep);
      if p(s[0]) {
        assert TrimStart(s, p) == s[1..] by {
          if |s| > 1 {
            assert !p(s[1]);
            assert TrimStart(s[1..], p) == s[1..];
          }
        }
        assert ReplaceRuns(s, p, rep) == [rep] + s[1..];
        assert [rep] + s[1..] == s;
      } else {
        assert [s[0]] + s[1..] == s;
      }
    }
  }

  /** Stripping keeps a property of every character and the absence of
      adjacent characters of a class. */
  lemma StripByKeeps(s: string, p: char -> bool, q: char -> bool, d: char -> bool)
    requires forall i :: 0 <= i < |s| ==> q(s[i])
    requires NoAdjacent(s, d)
    ensures forall i :: 0 <= i < |StripBy(s, p)| ==> q(StripBy(s, p)[i])
    ensures NoAdjacent(StripBy(s, p), d)
  {
    var r := StripBy(s, p);
    var o := StripOffset(s, p);
    assert o + |r| <= |s| && r == s[o..o + |r|];
    SliceKeeps(s, o, r, q, d);
  }

  /** A slice keeps a property of every character and the absence of
      adjacent characters of a class. */
  lemma SliceKeeps(s: string, o: nat, r: string, q: char -> bool, d: char -> bool)
    requires o + |r| <= |s| && r == s[o..o + |r|]
    requires forall i :: 0 <= i < |s| ==> q(s[i])
    requires NoAdjacent(s, d)
    ensures forall i :: 0 <= i < |r| ==> q(r[i])
    ensures NoAdjacent(r, d)
  {
    SliceAll(s, o, o + |r|, q);
    SliceNoAdjacent(s, o, o + |r|, d);
  }

  lemma SliceAll(s: string, a: nat, b: nat, q: char -> bool)
    requires a <= b <= |s|
    requires forall i :: 0 <= i < |s| ==> q(s[i])
    ensures forall i :: 0 <= i < b - a ==> q(s[a..b][i])
  {
    forall i | 0 <= i < b - a ensures q(s[a..b][i]) {
      assert s[a..b][i] == s[a + i];
    }
  }

  /** A slice keeps the absence of neighbours both satisfying `p`. */
  lemma SliceNoAdjacent(s: string, a: nat, b: nat, p: char -> bool)
    requires a <= b <= |s| && NoAdjacent(s, p)
    ensures NoAdjacent(s[a..b], p)
  {
    forall i | 0 <= i < b - a - 1 ensures !(p(s[a..b][i]) && p(s[a..b][i + 1])) {
      assert s[a..b][i] == s[a + i] && s[a..b][i + 1] == s[a + i + 1];
    }
  }

  /** Where no two neighbouring characters satisfy `p`, every run is one
      character long and is replaced by `rep` in place. */
  lemma {:induction false} ReplaceRunsSingles(s: string, p: char -> bool, rep: char)
    requires NoAdjacent(s, p)
    ensures |ReplaceRuns(s, p, rep)| == |s|
    ensures forall i :: 0 <= i < |s| ==> ReplaceRuns(s, p, rep)[i] == if p(s[i]) then rep else s[i]
    decreases |s|
  {
    if s != [] {
      assert NoAdjacent(s[1..], p) by {
        forall i | 0 <= i < |s[1..]| - 1 ensures !(p(s[1..][i]) && p(s[1..][i + 1])) {
          assert s[1..][i] == s[i + 1] && s[1..][i + 1] == s[i + 2];
        }
      }
      ReplaceRunsSingles(s[1..], p, rep);
      if p(s[0]) {
        assert TrimStart(s, p) == s[1..] by {
          if |s| > 1 {
            assert !p(s[1]);
            assert TrimStart(s[1..], p) == s[1..];
          }
        }
      }
      var r := ReplaceRuns(s, p, rep);
      assert r == [if p(s[0]) then rep else s[0]] + ReplaceRuns(s[1..], p, rep);
    }
  }

  /** `re.sub(r'\s+', ' ', s)`. */
  function CollapseSpaces(s: string): string {
    ReplaceRuns(s, IsSpace, ' ')
  }

  /** `s.startswith(pre)`. */
  predicate StartsWith(s: string, pre: string) {
    |pre| <= |s| && s[..|pre|] == pre
  }

  /** `s.endswith(suf)`. */
  predicate EndsWith(s: string, suf: string) {
    |suf| <= |s| && s[|s| - |suf|..] == suf
  }

  /** `sub in s` for strings. */
  predicate Contains(s: string, sub: string)
    decreases |s|
  {
    StartsWith(s, sub) || (s != [] && Contains(s[1..], sub))
  }

  lemma {:induction false} ContainsAt(s: string, sub: string, i: nat)
    requires i + |sub| <= |s| && s[i..i + |sub|] == sub
    ensures Contains(s, sub)
    decreases i
  {
    if i > 0 {
      assert s[1..][i - 1..i - 1 + |sub|] == s[i..i + |sub|];
      ContainsAt(s[1..], sub, i - 1);
    } else {
      assert s[..|sub|] == s[0..|sub|];
    }
  }

  /** `sub` occurs in `s` at index `i`. */
  predicate OccursAt(s: string, sub: string, i: nat) {
    i + |sub| <= |s| && s[i..i + |sub|] == sub
  }

  lemma {:induction false} ContainsWitness(s: string, sub: string)
    requires Contains(s, sub)
    ensures exists i: nat :: OccursAt(s, sub, i)
    decreases |s|
  {
    if StartsWith(s, sub) {
      assert OccursAt(s, sub, 0);
    } else {
      ContainsWitness(s[1..], sub);
      var i: nat :| OccursAt(s[1..], sub, i);
      assert s[i + 1..i + 1 + |sub|] == s[1..][i..i + |sub|];
      assert OccursAt(s, sub, i + 1);
    }
  }

  /** Every character of a substring occurs in the string. */
  lemma {:induction false} ContainsChars(s: string, sub: string)
    requires Contains(s, sub)
    ensures forall c :: c in sub ==> c in s
  {
    ContainsWitness(s, sub);
    var i: nat :| OccursAt(s, sub, i);
    forall c | c in sub ensures c in s {
      var k :| 0 <= k < |sub| && sub[k] == c;
      assert s[i + k] == s[i..i + |sub|][k];
    }
  }

  /** Python's `xs[:n]`; a negative bound counts from the end. */
  function Prefix<T>(xs: seq<T>, n: int): (r: seq<T>)
    ensures |r| <= |xs| && r == xs[..|r|]
    ensures 0 <= n ==> |r| == if n < |xs| then n else |xs|
    ensures n < 0 ==> |r| == if |xs| + n < 0 then 0 else |xs| + n
  {
    if 0 <= n then xs[..if n < |xs| then n else |xs|]
    else xs[..if |xs| + n < 0 then 0 else |xs| + n]
  }

  /** Number of occurrences of `c` in `s`. */
  function Count(s: string, c: char): nat
    decreases |s|
  {
    if s == [] then 0 else (if s[0] == c then 1 else 0) + Count(s[1..], c)
  }

  /** `s.split(sep)` for a one-character separator. */
  function Split(s: string, sep: char): (parts: seq<string>)
    ensures |parts| == Count(s, sep) + 1
    ensures forall k :: 0 <= k < |parts| ==> sep !in parts[k]
    decreases |s|
  {
    if s == [] then [[]]
    else
      var rest := Split(s[1..], sep);
      if s[0] == sep then [[]] + rest
      else [[s[0]] + rest[0]] + rest[1..]
  }

  /** `sep.join(parts)`. */
  function Join(parts: seq<string>, sep: char): string
    decreases |parts|
  {
    if parts == [] then []
    else if |parts| == 1 then parts[0]
    else parts[0] + [sep] + Join(parts[1..], sep)
  }

  lemma {:induction false} JoinSplit(s: string, sep: char)
    ensures Join(Split(s, sep), sep) == s
    decreases |s|
  {
    if s != [] {
      JoinSplit(s[1..], sep);
      var rest := Split(s[1..], sep);
      if s[0] == sep {
        assert Join([[]] + rest, sep) == [] + [sep] + Join(rest, sep);
        assert [sep] + s[1..] == s;
      } else {
        var parts := [[s[0]] + rest[0]] + rest[1..];
        if |rest| == 1 {
          assert Join(rest, sep) == rest[0];
          assert parts == [[s[0]] + rest[0]];
        } else {
          assert rest == [rest[0]] + rest[1..];
          assert Join(rest, sep) == rest[0] + [sep] + Join(rest[1..], sep);
          assert parts[1..] == rest[1..];
        }
        assert [s[0]] + s[1..] == s;
      }
    }
  }

  /** Splitting at a separator splits each side on its own. */
  lemma {:induction false} SplitAppend(a: string, b: string, sep: char)
    ensures Split(a + [sep] + b, sep) == Split(a, sep) + Split(b, sep)
    decreases |a|
  {
    var s := a + [sep] + b;
    if a == [] {
      assert s[1..] == b;
    } else {
      assert s[1..] == a[1..] + [sep] + b;
      SplitAppend(a[1..], b, sep);
    }
  }

  /** A text without the separator is one part. */
  lemma {:induction false} SplitWhole(s: string, sep: char)
    requires sep !in s
    ensures Split(s, sep) == [s]
    decreases |s|
  {
    if s != [] {
      SplitWhole(s[1..], sep);
      assert [s[0]] + s[1..] == s;
    }
  }

  /** `len(s.split())`: the number of maximal runs of non-space characters,
      counted at the character that ends each run. */
  function WordCount(s: string): nat
    decreases |s|
  {
    if s == [] then 0
    else (if !IsSpace(s[0]) && (|s| == 1 || IsSpace(s[1])) then 1 else 0) + WordCount(s[1..])
  }

  /** Python's `s.replace(target, repl)`: leftmost, non-overlapping occurrences. */
  function ReplaceAll(s: string, target: string, repl: string): string
    requires target != []
    decreases |s|
  {
    if |s| < |target| then s
    else if s[..|target|] == target then repl + ReplaceAll(s[|target|..], target, repl)
    else [s[0]] + ReplaceAll(s[1..], target, repl)
  }

  lemma {:induction false} ReplaceAllAbsent(s: string, target: string, repl: string)
    requires target != [] && !Contains(s, target)
    ensures ReplaceAll(s, target, repl) == s
    decreases |s|
  {
    if |s| >= |target| {
      assert !StartsWith(s, target);
      ReplaceAllAbsent(s[1..], target, repl);
      assert [s[0]] + s[1..] == s;
    }
  }

  /** Decimal rendering of a natural number, as `str(n)` prints it. */
  function NatToString(n: nat): (r: string)
    ensures r != []
    decreases n
  {
    var d := ['0' + (n % 10) as char];
    if n < 10 then d else NatToString(n / 10) + d
  }

  /** Different numbers are written differently. */
  lemma {:induction false} NatToStringInjective(a: nat, b: nat)
    requires NatToString(a) == NatToString(b)
    ensures a == b
    decreases a
  {
    var ra, rb := NatToString(a), NatToString(b);
    assert ra[|ra| - 1] == '0' + (a % 10) as char;
    assert rb[|rb| - 1] == '0' + (b % 10) as char;
    if a >= 10 && b >= 10 {
      assert NatToString(a / 10) == ra[..|ra| - 1] == rb[..|rb| - 1] == NatToString(b / 10);
      NatToStringInjective(a / 10, b / 10);
    }
  }

  /** `str(i)` for any integer. */
  function IntToString(i: int): string {
    if i < 0 then "-" + NatToString(-i) else NatToString(i)
  }

  /** Text with no whitespace at either end, no two whitespace characters in
      a row, and the plain space as its only whitespace character. */
  predicate Collapsed(s: string) {
    && (s == [] || (!IsSpace(s[0]) && !IsSpace(s[|s| - 1])))
    && NoAdjacent(s, IsSpace)
    && forall i :: 0 <= i < |s| && IsSpace(s[i]) ==> s[i] == ' '
  }

  predicate BlankIsSpace(c: char) { IsSpace(c) ==> c == ' ' }

  /** Collapsing the whitespace runs of a stripped text gives collapsed text,
      and leaves already collapsed text unchanged. */
  lemma CollapseStripped(t: string)
    requires t == [] || (!IsSpace(t[0]) && !IsSpace(t[|t| - 1]))
    ensures Collapsed(CollapseSpaces(t))
    ensures Collapsed(t) ==> CollapseSpaces(t) == t
  {
    var r := CollapseSpaces(t);
    ReplaceRunsNoAdjacent(t, IsSpace, ' ');
    ReplaceRunsChars(t, IsSpace, ' ', BlankIsSpace);
    assert forall i :: 0 <= i < |r| ==> BlankIsSpace(r[i]);
    ReplaceRunsLength(t, IsSpace, ' ');
    if t != [] {
      assert r[0] == t[0];
      ReplaceRunsLast(t, IsSpace, ' ');
    }
    if Collapsed(t) {
      ReplaceRunsFixed(t, IsSpace, ' ');
    }
  }

  /** Case mapping touches letters only: it keeps whitespace, and upper- or
      lower-casing a character forgets which case it had. */
  lemma CaseMapping(c: char)
    ensures Upper(Lower(c)) == Upper(c) && Lower(Upper(c)) == Lower(c)
    ensures IsSpace(Upper(c)) == IsSpace(c) && IsSpace(Lower(c)) == IsSpace(c)
    ensures IsSpace(c) ==> Upper(c) == c && Lower(c) == c
  {
  }
}
