/** Textual classification of an `x-data` attribute (`detectXDataType`) and the
    JavaScript `String.prototype.trim` applied before it. */
module XData {
  import opened Sequences

  /** JavaScript's white space and line terminators: the set matched by `\s`
      in a regular expression and removed by `trim`. */
  predicate IsSpace(c: char)
  {
    c == '\t' || c == '\n' || c == '\U{000B}' || c == '\U{000C}' || c == '\r' || c == ' '
    || c == '\U{00A0}' || c == '\U{1680}' || ('\U{2000}' <= c <= '\U{200A}')
    || c == '\U{2028}' || c == '\U{2029}' || c == '\U{202F}' || c == '\U{205F}'
    || c == '\U{3000}' || c == '\U{FEFF}'
  }

  /** The `\w` class: ASCII letters, digits and underscore. */
  predicate IsWord(c: char)
  {
    ('a' <= c <= 'z') || ('A' <= c <= 'Z') || ('0' <= c <= '9') || c == '_'
  }

  predicate EndsWith(s: string, p: string) { |p| <= |s| && s[|s| - |p|..] == p }

  lemma StartsWithHead(s: string, p: string)
    requires |p| > 0
    ensures StartsWith(s, p) ==> s[0] == p[0]
  {
    if StartsWith(s, p) { assert s[0] == s[..|p|][0]; }
  }

  /** The end of the white-space run that starts at index `k`. */
  function SpaceEnd(s: string, k: nat): (n: nat)
    requires k <= |s|
    ensures k <= n <= |s|
    ensures forall i :: k <= i < n ==> IsSpace(s[i])
    ensures n < |s| ==> !IsSpace(s[n])
    decreases |s| - k
  {
    if k == |s| || !IsSpace(s[k]) then k else SpaceEnd(s, k + 1)
  }

  /** The end of the word run that starts at index `k`. */
  function WordEnd(s: string, k: nat): (n: nat)
    requires k <= |s|
    ensures k <= n <= |s|
    ensures forall i :: k <= i < n ==> IsWord(s[i])
    ensures n < |s| ==> !IsWord(s[n])
    decreases |s| - k
  {
    if k == |s| || !IsWord(s[k]) then k else WordEnd(s, k + 1)
  }

  /** The start of the white-space run that ends at index `hi`. */
  function SpaceStart(s: string, hi: nat): (n: nat)
    requires hi <= |s|
    ensures n <= hi
    ensures forall i :: n <= i < hi ==> IsSpace(s[i])
    ensures 0 < n ==> !IsSpace(s[n - 1])
  {
    if hi == 0 || !IsSpace(s[hi - 1]) then hi else SpaceStart(s, hi - 1)
  }

  /** `r` sits at index `i` of `s` with only white space around it. */
  ghost predicate Surrounds(s: string, r: string, i: nat)
  {
    i + |r| <= |s| && s[i..i + |r|] == r
    && (forall k :: 0 <= k < i ==> IsSpace(s[k]))
    && (forall k :: i + |r| <= k < |s| ==> IsSpace(s[k]))
  }

  /** `String.prototype.trim`: the result is the infix of `s` left after removing
      the white space at both ends, and it neither starts nor ends with white space. */
  function Trim(s: string): (r: string)
    ensures exists i :: Surrounds(s, r, i)
    ensures r != [] ==> !IsSpace(r[0]) && !IsSpace(r[|r| - 1])
    ensures r == [] <==> forall k :: 0 <= k < |s| ==> IsSpace(s[k])
  {
    var a := SpaceEnd(s, 0);
    var b := SpaceStart(s, |s|);
    if a < b then
      var r := s[a..b];
      assert r[0] == s[a] && r[b - a - 1] == s[b - 1];
      assert !IsSpace(r[0]);
      assert Surrounds(s, r, a);
      r
    else
      assert a == |s|;
      assert Surrounds(s, [], 0);
      []
  }

  /** `\s*\(\s*\)\s*` followed by `close`, matched from index `k`. */
  predicate EmptyParensThen(s: string, k: nat, close: string)
    requires k <= |s|
  {
    var a := SpaceEnd(s, k);
    a < |s| && s[a] == '(' &&
    var b := SpaceEnd(s, a + 1);
    b < |s| && s[b] == ')' &&
    StartsWith(s[SpaceEnd(s, b + 1)..], close)
  }

  /** `/^\s*\(\s*\)\s*=>/`: an argument-less arrow function head. */
  predicate MatchesArrowHead(s: string)
  {
    EmptyParensThen(s, 0, "=>")
  }

  /** `/^\s*\w+\s*\(\s*\)\s*{/`: a method-shorthand head such as `data() {`.
      The word run is taken in full: backing off inside it would leave a word
      character where the pattern needs white space or `(`. */
  predicate MatchesMethodHead(s: string)
  {
    var a := SpaceEnd(s, 0);
    var w := WordEnd(s, a);
    a < w && EmptyParensThen(s, w, "{")
  }

  /** The regular expression's own reading of the method-shorthand pattern: some
      split of `s` into white space `s[..i]`, a non-empty word `s[i..j]`, and the
      parenthesis-brace tail from `j`. */
  ghost predicate MethodHeadShape(s: string)
  {
    exists i, j :: 0 <= i < j <= |s| && SplitFits(s, i, j)
  }

  ghost predicate SplitFits(s: string, i: nat, j: nat)
    requires i <= j <= |s|
  {
    (forall k :: 0 <= k < i ==> IsSpace(s[k]))
    && (forall k :: i <= k < j ==> IsWord(s[k]))
    && EmptyParensThen(s, j, "{")
  }

  lemma SpaceIsNotWord(c: char)
    ensures IsSpace(c) ==> !IsWord(c)
  {
  }

  /** Text that fits the parenthesis-brace tail at `k` has white space or `(`
      at `k`, never a word character. */
  lemma ParensStart(s: string, k: nat, close: string)
    requires k <= |s| && EmptyParensThen(s, k, close)
    ensures k < |s| && !IsWord(s[k])
  {
    SpaceIsNotWord(s[k]);
  }

  /** Any split that fits the pattern starts its word exactly after the leading
      white space and ends it exactly where the word run ends. */
  lemma SplitIsForced(s: string, i: nat, j: nat)
    requires i < j <= |s| && SplitFits(s, i, j)
    ensures i == SpaceEnd(s, 0)
    ensures j == WordEnd(s, i)
  {
    SpaceIsNotWord(s[i]);
    ParensStart(s, j, "{");
  }

  /** The deterministic matcher agrees with the pattern's own reading. */
  lemma MethodHeadMatcherCorrect(s: string)
    ensures MatchesMethodHead(s) <==> MethodHeadShape(s)
  {
    var a := SpaceEnd(s, 0);
    var w := WordEnd(s, a);
    if MatchesMethodHead(s) {
      assert SplitFits(s, a, w);
    }
    if MethodHeadShape(s) {
      var i, j :| 0 <= i < j <= |s| && SplitFits(s, i, j);
      SplitIsForced(s, i, j);
    }
  }

  /** The three shapes an `x-data` value is sorted into. */
  datatype XDataType = FunctionData | ObjectData | ExpressionData

  predicate IsFunctionData(s: string)
  {
    StartsWith(s, "(") || StartsWith(s, "function") || MatchesArrowHead(s) || MatchesMethodHead(s)
  }

  predicate IsObjectLiteral(s: string)
  {
    StartsWith(s, "{") && EndsWith(s, "}")
  }

  /** `detectXDataType`: the function test first, then the object test, else an expression. */
  function DetectXDataType(s: string): (k: XDataType)
    ensures k == FunctionData <==> IsFunctionData(s)
    ensures k == ObjectData <==> !IsFunctionData(s) && IsObjectLiteral(s)
    ensures k == ExpressionData <==> !IsFunctionData(s) && !IsObjectLiteral(s)
  {
    if IsFunctionData(s) then FunctionData
    else if IsObjectLiteral(s) then ObjectData
    else ExpressionData
  }

  /** The function test and the object test never both succeed, so the order in
      which `detectXDataType` applies them does not change any classification. */
  lemma FunctionAndObjectDisjoint(s: string)
    ensures !(IsFunctionData(s) && IsObjectLiteral(s))
  {
    if IsObjectLiteral(s) {
      StartsWithHead(s, "{");
      StartsWithHead(s, "(");
      StartsWithHead(s, "function");
      assert SpaceEnd(s, 0) == 0;
      assert WordEnd(s, 0) == 0;
    }
  }

  /** On trimmed text the arrow pattern adds nothing to the leading-`(` test. */
  lemma ArrowHeadImpliesParen(s: string)
    requires s == [] || !IsSpace(s[0])
    requires MatchesArrowHead(s)
    ensures StartsWith(s, "(")
  {
    assert SpaceEnd(s, 0) == 0;
    assert s[..1] == [s[0]];
  }

  /** Identifiers that merely begin with `function` are classified as functions. */
  lemma FunctionPrefixIsFunction(rest: string)
    ensures DetectXDataType("function" + rest) == FunctionData
  {
    assert ("function" + rest)[..8] == "function";
  }

  /** An object literal, and a method-shorthand head. */
  lemma ObjectLiteralExample()
    ensures DetectXDataType("{ count: 0 }") == ObjectData
  {
    var o := "{ count: 0 }";
    assert o[..1] == "{" && o[11..] == "}";
    FunctionAndObjectDisjoint(o);
  }

  lemma MethodShorthandExample()
    ensures DetectXDataType("data() {}") == FunctionData
  {
    var m := "data() {}";
    assert SpaceEnd(m, 0) == 0;
    assert WordEnd(m, 4) == 4;
    assert WordEnd(m, 0) == 4;
    assert SpaceEnd(m, 4) == 4;
    assert SpaceEnd(m, 5) == 5;
    assert SpaceEnd(m, 7) == 7;
    assert SpaceEnd(m, 6) == 7;
    assert m[7..][..1] == "{";
    assert MatchesMethodHead(m);
  }
}
