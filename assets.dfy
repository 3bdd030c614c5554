/** The global style and script lists (`stylesList`, `scriptsList` of lib/utils.ts,
    and the closure-level lists of the same name in lib/main.ts): each configured
    string is recorded once, tagged as a URL or as inline text. */
module Assets {
  import opened Sequences

  /** `StyleType` and `ScriptType` together: `url`, `inlineStyle`, `inlineScript`. */
  datatype AssetKind = Url | InlineStyle | InlineScript

  /** One entry: its kind and the configured string, kept unchanged. */
  datatype Asset = Asset(kind: AssetKind, str: string)

  /** `/^https?:\/\//`, read left to right: `http`, an optional `s`, then `://`.
      Backing off the optional `s` never helps, since `:` would then have to be `s`. */
  predicate MatchesUrlPattern(s: string)
  {
    4 <= |s| && s[0] == 'h' && s[1] == 't' && s[2] == 't' && s[3] == 'p' &&
    var k := if 4 < |s| && s[4] == 's' then 5 else 4;
    k + 3 <= |s| && s[k] == ':' && s[k + 1] == '/' && s[k + 2] == '/'
  }

  /** The pattern accepts exactly the strings with the case-sensitive prefix
      `http://` or `https://`. */
  lemma MatchesUrlPatternIffPrefix(s: string)
    ensures MatchesUrlPattern(s) <==> StartsWith(s, "http://") || StartsWith(s, "https://")
  {
    if StartsWith(s, "http://") {
      assert s[..7][4] == ':';
      assert forall i :: 0 <= i < 7 ==> s[i] == s[..7][i];
    }
    if StartsWith(s, "https://") {
      assert forall i :: 0 <= i < 8 ==> s[i] == s[..8][i];
    }
    if MatchesUrlPattern(s) {
      if 4 < |s| && s[4] == 's' {
        assert s[..8] == "https://";
      } else {
        assert s[..7] == "http://";
      }
    }
  }

  /** One string, tagged `url` when it matches the pattern and `inline` otherwise. */
  function Classify(s: string, inline: AssetKind): (a: Asset)
    requires inline != Url
    ensures a.str == s
    ensures a.kind == Url <==> StartsWith(s, "http://") || StartsWith(s, "https://")
    ensures a.kind != Url ==> a.kind == inline
  {
    MatchesUrlPatternIffPrefix(s);
    Asset(if MatchesUrlPattern(s) then Url else inline, s)
  }

  /** The entries a list of strings contributes, in input order. */
  function ClassifyAll(xs: seq<string>, inline: AssetKind): (r: seq<Asset>)
    requires inline != Url
    ensures |r| == |xs|
    ensures forall i :: 0 <= i < |xs| ==> r[i] == Classify(xs[i], inline)
  {
    if xs == [] then [] else ClassifyAll(xs[..|xs| - 1], inline) + [Classify(xs[|xs| - 1], inline)]
  }

  /** Classifying two lists one after the other is classifying their concatenation:
      calling `initStyleAndScript` twice records the same as calling it once on the
      joined input. */
  lemma {:induction false} ClassifyAllAppend(xs: seq<string>, ys: seq<string>, inline: AssetKind)
    requires inline != Url
    ensures ClassifyAll(xs + ys, inline) == ClassifyAll(xs, inline) + ClassifyAll(ys, inline)
  {
    var l := ClassifyAll(xs + ys, inline);
    var r := ClassifyAll(xs, inline) + ClassifyAll(ys, inline);
    assert |l| == |r|;
    forall i | 0 <= i < |l|
      ensures l[i] == r[i]
    {
      if i < |xs| {
        assert (xs + ys)[i] == xs[i];
      } else {
        assert (xs + ys)[i] == ys[i - |xs|];
      }
    }
  }

  /** The two module-level lists. */
  class AssetLists {
    var stylesList: seq<Asset>
    var scriptsList: seq<Asset>

    constructor()
      ensures stylesList == [] && scriptsList == []
    {
      stylesList := [];
      scriptsList := [];
    }

    /** `initStyleAndScript`: appends one entry per style, then one per script,
        in input order; earlier entries are kept. */
    method InitStyleAndScript(styleList: seq<string>, scriptList: seq<string>)
      modifies this
      ensures stylesList == old(stylesList) + ClassifyAll(styleList, InlineStyle)
      ensures scriptsList == old(scriptsList) + ClassifyAll(scriptList, InlineScript)
    {
      var i := 0;
      while i < |styleList|
        invariant 0 <= i <= |styleList|
        invariant stylesList == old(stylesList) + ClassifyAll(styleList[..i], InlineStyle)
        invariant scriptsList == old(scriptsList)
      {
        var str := styleList[i];
        var kind := InlineStyle;
        if MatchesUrlPattern(str) {
          kind := Url;
        }
        MatchesUrlPatternIffPrefix(str);
        stylesList := stylesList + [Asset(kind, str)];
        assert styleList[..i + 1][..i] == styleList[..i];
        i := i + 1;
      }
      assert styleList[..i] == styleList;
      var j := 0;
      while j < |scriptList|
        invariant 0 <= j <= |scriptList|
        invariant stylesList == old(stylesList) + ClassifyAll(styleList, InlineStyle)
        invariant scriptsList == old(scriptsList) + ClassifyAll(scriptList[..j], InlineScript)
      {
        var str := scriptList[j];
        var kind := InlineScript;
        if MatchesUrlPattern(str) {
          kind := Url;
        }
        MatchesUrlPatternIffPrefix(str);
        scriptsList := scriptsList + [Asset(kind, str)];
        assert scriptList[..j + 1][..j] == scriptList[..j];
        j := j + 1;
      }
      assert scriptList[..j] == scriptList;
    }
  }

  /** `https://cdn.example/x.css` is a URL; `https:/x` and `HTTP://x` are inline. */
  lemma ClassifyExamples()
    ensures Classify("https://cdn.example/x.css", InlineStyle).kind == Url
    ensures Classify("https:/x", InlineStyle).kind == InlineStyle
    ensures Classify("HTTP://x", InlineScript).kind == InlineScript
  {
    assert "https://cdn.example/x.css"[..8] == "https://";
    assert "https:/x"[..7] != "http://" by { assert "https:/x"[4] == 's'; }
    assert "https:/x"[..8] != "https://" by { assert "https:/x"[7] == 'x'; }
    assert "HTTP://x"[0] == 'H';
  }
}
