/** CV parsing helpers: the cleaning of the model's JSON reply, the choice
    of text extractor by file extension, and the wrapper that turns any
    failure of the parse into a result record. The Markdown-fence
    expressions are shared with the older parser script. */
module CvParsing {
  import opened Wrappers
  import opened Text
  import opened JsonValue
  import opened Pathname

  /** No three backticks in a row. */
  predicate NoFence(s: string) {
    forall i :: 0 <= i < |s| - 2 ==> !(s[i] == '`' && s[i + 1] == '`' && s[i + 2] == '`')
  }

  predicate FenceAt(s: string, i: nat) {
    i + 3 <= |s| && s[i] == '`' && s[i + 1] == '`' && s[i + 2] == '`'
  }

  /** The length of the match of ```` ```(?:json)?\s* ```` at the start of
      `s`, which begins with three backticks. */
  function OpenFenceLength(s: string): (n: nat)
    requires FenceAt(s, 0)
    ensures 3 <= n <= |s|
  {
    var rest := if StartsWith(s[3..], "json") then s[7..] else s[3..];
    |s| - |TrimStart(rest, IsSpace)|
  }

  /** `re.sub(r"```(?:json)?\s*", "", s)`: scanning from the left, every
      fence is removed with an optional `json` tag and the whitespace
      after it. */
  function StripOpenFences(s: string): (r: string)
    decreases |s|
  {
    if s == [] then []
    else if FenceAt(s, 0) then StripOpenFences(s[OpenFenceLength(s)..])
    else [s[0]] + StripOpenFences(s[1..])
  }

  /** Whether `s` starts with whitespace and then three backticks. */
  predicate CloseFenceAt(s: string) {
    FenceAt(TrimStart(s, IsSpace), 0)
  }

  /** `re.sub(r"\s*```", "", s)`: every fence is removed together with the
      whitespace before it. */
  function StripCloseFences(s: string): (r: string)
    decreases |s|
  {
    if s == [] then []
    else if CloseFenceAt(s) then StripCloseFences(s[|s| - |TrimStart(s, IsSpace)| + 3..])
    else [s[0]] + StripCloseFences(s[1..])
  }

  /** A text left by `StripOpenFences` that starts with a character other
      than a backtick starts with that character. */
  lemma StripOpenFencesHead(s: string)
    requires s != [] && s[0] != '`'
    ensures StripOpenFences(s) != [] && StripOpenFences(s)[0] == s[0]
  {
  }

  /** No fence survives the first expression: a fence in the output would
      have been matched further left in the input. */
  lemma {:induction false} StripOpenFencesNoFence(s: string)
    ensures NoFence(StripOpenFences(s))
    decreases |s|
  {
    if s == [] {
    } else if FenceAt(s, 0) {
      StripOpenFencesNoFence(s[OpenFenceLength(s)..]);
    } else {
      var t := s[1..];
      var out := StripOpenFences(s);
      StripOpenFencesNoFence(t);
      assert out == [s[0]] + StripOpenFences(t);
      if s[0] == '`' && |out| >= 3 && out[1] == '`' {
        // `t` does not start with two backticks, so its output does not either
        if t[0] != '`' {
          StripOpenFencesHead(t);
        } else {
          assert |t| == 1 || t[1] != '`';
          assert StripOpenFences(t) == [t[0]] + StripOpenFences(t[1..]);
          if |t| > 1 {
            StripOpenFencesHead(t[1..]);
          }
        }
      }
    }
  }

  /** Text without a fence goes through the second expression unchanged. */
  lemma {:induction false} StripCloseFencesAbsent(s: string)
    requires NoFence(s)
    ensures StripCloseFences(s) == s
    decreases |s|
  {
    if s != [] {
      NoCloseFence(s);
      SliceNoFence(s, 1, |s|);
      StripCloseFencesAbsent(s[1..]);
    }
  }

  lemma NoCloseFence(s: string)
    requires NoFence(s)
    ensures !CloseFenceAt(s)
  {
    var t := TrimStart(s, IsSpace);
    assert t == s[|s| - |t|..];
  }

  /** Text without a fence goes through the first expression unchanged. */
  lemma {:induction false} StripOpenFencesAbsent(s: string)
    requires NoFence(s)
    ensures StripOpenFences(s) == s
    decreases |s|
  {
    if s != [] {
      StripOpenFencesAbsent(s[1..]);
    }
  }

  /** Both fence expressions in order: no fence is left. */
  function StripFences(s: string): (r: string)
    ensures NoFence(r)
  {
    StripOpenFencesNoFence(s);
    StripCloseFencesAbsent(StripOpenFences(s));
    StripCloseFences(StripOpenFences(s))
  }

  lemma StripFencesAbsent(s: string)
    requires NoFence(s)
    ensures StripFences(s) == s
  {
    StripOpenFencesAbsent(s);
    StripCloseFencesAbsent(s);
  }

  /** The first quote replacement of `clean_json_text` as the module's text
      has it: a triple-quoted literal swallows the intended curly quotes, so
      the 15-character text `, '"').replace(` is what is replaced by `"`. */
  const SwallowedLiteral: string := ", '\"').replace("

  /** `s.replace(target, repl)` with a one-character replacement other
      than a backtick keeps text free of fences. */
  lemma {:induction false} ReplaceAllNoFence(s: string, target: string, repl: char)
    requires target != [] && repl != '`' && NoFence(s)
    ensures NoFence(ReplaceAll(s, target, [repl]))
    decreases |s|
  {
    if |s| >= |target| {
      if s[..|target|] == target {
        assert NoFence(s[|target|..]) by {
          forall i | 0 <= i < |s[|target|..]| - 2 ensures !FenceAt(s[|target|..], i) {
            assert !FenceAt(s, i + |target|);
          }
        }
        ReplaceAllNoFence(s[|target|..], target, repl);
      } else {
        var out := ReplaceAll(s, target, [repl]);
        ReplaceAllNoFence(s[1..], target, repl);
        if |out| >= 3 && out[0] == '`' && out[1] == '`' && out[2] == '`' {
          ReplaceAllHead(s[1..], target, repl);
          ReplaceAllHead(s[2..], target, repl);
          assert s[1..][1..] == s[2..];
          assert FenceAt(s, 0);
        }
      }
    }
  }

  /** What `ReplaceAll` starts with. */
  lemma ReplaceAllHead(s: string, target: string, repl: char)
    requires target != []
    ensures var out := ReplaceAll(s, target, [repl]);
      out != [] ==>
        if |s| >= |target| && s[..|target|] == target then out[0] == repl
        else s != [] && out[0] == s[0] && (|s| < |target| || out[1..] == ReplaceAll(s[1..], target, [repl]))
  {
  }

  /** `clean_json_text` of the CV parsing library. */
  function CleanJsonText(text: string): (r: string)
    ensures NoFence(r)
    ensures r == [] || (!IsSpace(r[0]) && !IsSpace(r[|r| - 1]))
  {
    var unfenced := StripFences(text);
    ReplaceAllNoFence(unfenced, SwallowedLiteral, '"');
    var replaced := ReplaceAll(unfenced, SwallowedLiteral, "\"");
    StripNoFence(replaced);
    Strip(replaced)
  }

  /** Stripping the surrounding whitespace cannot create a fence. */
  lemma StripNoFence(s: string)
    requires NoFence(s)
    ensures NoFence(Strip(s))
  {
    var k := StripOffset(s, IsSpace);
    StripIsSlice(s);
    SliceNoFence(s, k, k + |Strip(s)|);
  }

  lemma StripIsSlice(s: string)
    ensures StripOffset(s, IsSpace) + |Strip(s)| <= |s|
    ensures Strip(s) == s[StripOffset(s, IsSpace)..StripOffset(s, IsSpace) + |Strip(s)|]
  {
    assert Strip(s) == StripBy(s, IsSpace);
  }

  lemma SliceNoFence(s: string, a: nat, b: nat)
    requires a <= b <= |s| && NoFence(s)
    ensures NoFence(s[a..b])
  {
    forall i | 0 <= i < b - a - 2 ensures !FenceAt(s[a..b], i) {
      assert !FenceAt(s, a + i);
    }
  }

  // -------------------------------------------------------- text extraction

  /** `extract_text_from_file`: the lower-cased extension picks the PDF or
      the Word extractor; any other extension is refused, naming it. */
  function ExtractTextFromFile(path: string, pdf: string -> Result<string>, docx: string -> Result<string>): (r: Result<string>)
    ensures LowerStr(Suffix(path)) == ".pdf" ==> r == pdf(path)
    ensures LowerStr(Suffix(path)) == ".docx" ==> r == docx(path)
    ensures LowerStr(Suffix(path)) != ".pdf" && LowerStr(Suffix(path)) != ".docx" ==>
      r == Err("Format de fichier non supporté: " + LowerStr(Suffix(path)) + ". Accepté: .pdf, .docx")
  {
    var ext := LowerStr(Suffix(path));
    if ext == ".pdf" then pdf(path)
    else if ext == ".docx" then docx(path)
    else Err("Format de fichier non supporté: " + ext + ". Accepté: .pdf, .docx")
  }

  /** `round(x, 3)`, to the nearest thousandth with halves rounded up. */
  function Round3(x: real): (r: real)
    ensures x - 0.0005 < r <= x + 0.0005
  {
    (x * 1000.0 + 0.5).Floor as real / 1000.0
  }

  /** The `timings` record: extraction and parsing only on success, the
      error flag only on failure. */
  datatype Timings = Timings(extraction: Option<real>, parsing: Option<real>, total: real, error: bool)

  /** `CVParseResult`. */
  datatype ParseResult = ParseResult(filename: string, success: bool, data: Option<Json>, error: Option<string>, timings: Timings)

  /** The clock readings taken during one parse: at the start, around the
      extraction, around the model call, and at the end (or at the
      failure). */
  datatype Clock = Clock(start: real, extractionStart: real, extractionEnd: real, parsingStart: real, parsingEnd: real, end: real)

  /** `parse_cv_from_file`: extraction, the model call and the CV record
      construction are oracles; the first failure becomes a failed result
      with its message, and nothing escapes. */
  function ParseCvFromFile(path: string, extract: string -> Result<string>, parse: string -> Result<Json>,
                           build: (string, Json) -> Result<Json>, clock: Clock): (r: ParseResult)
    ensures r.filename == Name(path)
    ensures r.success <==> extract(path).Ok? && parse(extract(path).value).Ok? && build(Name(path), parse(extract(path).value).value).Ok?
    ensures r.success ==>
      r.data == Some(build(Name(path), parse(extract(path).value).value).value) && r.error.None? &&
      r.timings.extraction.Some? && r.timings.parsing.Some? && !r.timings.error
    ensures !r.success ==> r.data.None? && r.error.Some? && r.timings.extraction.None? && r.timings.parsing.None? && r.timings.error
    ensures r.timings.total == Round3(clock.end - clock.start)
  {
    var filename := Name(path);
    var failed := (e: string) => ParseResult(filename, false, None, Some(e), Timings(None, None, Round3(clock.end - clock.start), true));
    match extract(path)
    case Err(e) => failed(e)
    case Ok(text) =>
      match parse(text)
      case Err(e) => failed(e)
      case Ok(parsed) =>
        match build(filename, parsed)
        case Err(e) => failed(e)
        case Ok(cv) =>
          ParseResult(filename, true, Some(cv), None,
            Timings(Some(Round3(clock.extractionEnd - clock.extractionStart)), Some(Round3(clock.parsingEnd - clock.parsingStart)),
                    Round3(clock.end - clock.start), false))
  }
}
