/** The JSON-reply cleaning of the stand-alone parser script: the same two
    Markdown-fence expressions as the CV parsing library, then typographic
    quotes made straight, then the surrounding whitespace stripped. */
module ParseurCv {
  import opened Text
  import opened CvParsing

  const LeftDouble: char := '\U{201C}'
  const RightDouble: char := '\U{201D}'
  const LeftSingle: char := '\U{2018}'
  const RightSingle: char := '\U{2019}'

  predicate IsCurlyQuote(c: char) {
    c == LeftDouble || c == RightDouble || c == LeftSingle || c == RightSingle
  }

  /** The character each typographic quote becomes. */
  function Straight(c: char): char {
    if c == LeftDouble || c == RightDouble then '"'
    else if c == LeftSingle || c == RightSingle then '\''
    else c
  }

  /** The four chained `replace` calls: the result is the text with each
      character straightened, and no typographic quote is left. */
  function StraightenQuotes(s: string): (r: string)
    ensures |r| == |s|
    ensures forall i :: 0 <= i < |s| ==> r[i] == Straight(s[i])
    ensures forall c :: c in r ==> !IsCurlyQuote(c)
  {
    ReplaceChar(ReplaceChar(ReplaceChar(ReplaceChar(s, LeftDouble, '"'), RightDouble, '"'), LeftSingle, '\''), RightSingle, '\'')
  }

  /** Straightening maps backticks to backticks and nothing else to a
      backtick, so it cannot create a fence. */
  lemma StraightenNoFence(s: string)
    requires NoFence(s)
    ensures NoFence(StraightenQuotes(s))
  {
    var r := StraightenQuotes(s);
    forall i | 0 <= i < |r| - 2 ensures !FenceAt(r, i) {
      assert !FenceAt(s, i);
    }
  }

  /** Text without a typographic quote is left unchanged. */
  lemma StraightenAbsent(s: string)
    requires forall c :: c in s ==> !IsCurlyQuote(c)
    ensures StraightenQuotes(s) == s
  {
    var r := StraightenQuotes(s);
    assert forall i :: 0 <= i < |s| ==> r[i] == s[i] by {
      forall i | 0 <= i < |s| ensures r[i] == s[i] {
        assert s[i] in s;
      }
    }
  }

  /** `clean_json_text` of the parser script: no fence, no typographic
      quote, and no whitespace at either end. */
  function CleanJsonText(text: string): (r: string)
    ensures NoFence(r)
    ensures forall c :: c in r ==> !IsCurlyQuote(c)
    ensures r == [] || (!IsSpace(r[0]) && !IsSpace(r[|r| - 1]))
  {
    var unfenced := StripFences(text);
    var straight := StraightenQuotes(unfenced);
    StraightenNoFence(unfenced);
    StripNoFence(straight);
    Strip(straight)
  }

  /** Cleaning a cleaned text changes nothing. */
  lemma CleanJsonTextIdempotent(text: string)
    ensures CleanJsonText(CleanJsonText(text)) == CleanJsonText(text)
  {
    var r := CleanJsonText(text);
    StripFencesAbsent(r);
    StraightenAbsent(r);
  }
}
