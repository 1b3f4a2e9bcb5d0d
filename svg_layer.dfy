/**
 * The small helpers of svg_layer_parser.py around the path walker: the
 * tokenizer of the `points` attribute of polylines and polygons, fill
 * detection, the tag name of an element, the first-match layer lookup, and
 * the fixed corner lists of rectangles, circles, ellipses and lines. The
 * document itself (XPath, element classes, `float()`, transforms) is reduced
 * to plain values and parameters.
 */
module SvgLayer {
  import opened Geometry
  import opened Outcomes
  import opened SvgPath

  // Strings as Python sees them

  /** The characters Python's `str.split()` and `str.strip()` treat as whitespace. */
  predicate IsSpace(c: char)
  {
    c == ' ' || '\t' <= c <= '\r' || '\U{1C}' <= c <= '\U{1F}' || c == '\U{85}' || c == '\U{A0}' ||
    c == '\U{1680}' || '\U{2000}' <= c <= '\U{200A}' || c == '\U{2028}' || c == '\U{2029}' ||
    c == '\U{202F}' || c == '\U{205F}' || c == '\U{3000}'
  }

  /** `s.replace(",", " ")`. */
  function CommasToSpaces(s: string): (r: string)
    ensures |r| == |s|
    ensures forall i :: 0 <= i < |s| ==> r[i] != ',' && (s[i] != ',' ==> r[i] == s[i])
    ensures forall i :: 0 <= i < |s| && s[i] == ',' ==> r[i] == ' '
  {
    seq(|s|, i requires 0 <= i < |s| => if s[i] == ',' then ' ' else s[i])
  }

  /** The length of the run of non-whitespace characters that s starts with. */
  function TokenLength(s: string): (n: nat)
    ensures n <= |s| && (n == |s| || IsSpace(s[n]))
    ensures forall i :: 0 <= i < n ==> !IsSpace(s[i])
  {
    if |s| == 0 || IsSpace(s[0]) then 0 else 1 + TokenLength(s[1..])
  }

  /** `s.split()`: the maximal runs of non-whitespace characters, in order. */
  function Split(s: string): seq<string>
    decreases |s|
  {
    if |s| == 0 then []
    else if IsSpace(s[0]) then Split(s[1..])
    else
      var n := TokenLength(s);
      [s[..n]] + Split(s[n..])
  }

  /** The characters of s that are not whitespace, in order. */
  function NonSpace(s: string): string
  {
    if |s| == 0 then [] else (if IsSpace(s[0]) then [] else [s[0]]) + NonSpace(s[1..])
  }

  function Concat(tokens: seq<string>): string
  {
    if |tokens| == 0 then [] else tokens[0] + Concat(tokens[1..])
  }

  lemma {:induction false} NonSpaceAppend(a: string, b: string)
    ensures NonSpace(a + b) == NonSpace(a) + NonSpace(b)
    decreases |a|
  {
    if |a| == 0 {
      assert a + b == b;
    } else {
      assert (a + b)[1..] == a[1..] + b;
      NonSpaceAppend(a[1..], b);
    }
  }

  predicate NoSpace(t: string)
  {
    forall i :: 0 <= i < |t| ==> !IsSpace(t[i])
  }

  lemma {:induction false} NonSpaceOfToken(t: string)
    requires NoSpace(t)
    ensures NonSpace(t) == t
  {
    if |t| > 0 {
      NonSpaceOfToken(t[1..]);
    }
  }

  /**
   * The tokens of `split()` are non-empty, hold no whitespace, and together
   * hold every other character of the string, in order.
   */
  lemma {:induction false} SplitTokens(s: string)
    ensures forall k :: 0 <= k < |Split(s)| ==> |Split(s)[k]| > 0 && NoSpace(Split(s)[k])
    ensures Concat(Split(s)) == NonSpace(s)
    decreases |s|
  {
    if |s| == 0 {
    } else if IsSpace(s[0]) {
      SplitTokens(s[1..]);
    } else {
      var n := TokenLength(s);
      SplitTokens(s[n..]);
      assert s == s[..n] + s[n..];
      NonSpaceAppend(s[..n], s[n..]);
      NonSpaceOfToken(s[..n]);
      assert ([s[..n]] + Split(s[n..]))[1..] == Split(s[n..]);
    }
  }

  /** Skipping whitespace at the front does not change the tokens. */
  lemma {:induction false} SplitSkip(s: string, l: nat)
    requires l <= |s| && forall k :: 0 <= k < l ==> IsSpace(s[k])
    ensures Split(s) == Split(s[l..])
  {
    if l > 0 {
      SplitSkip(s[1..], l - 1);
      assert s[1..][l - 1..] == s[l..];
    }
  }

  /**
   * The whitespace around the tokens of s: the run before the first token,
   * the run after each token (the last one possibly empty).
   */
  function Gaps(s: string): seq<string>
    decreases |s|
  {
    var l := LeadingSpace(s);
    if l == |s| then [s]
    else
      var t := s[l..];
      [s[..l]] + Gaps(t[TokenLength(t)..])
  }

  /** gaps[0] + tokens[0] + gaps[1] + ... + tokens[k - 1] + gaps[k]. */
  function Interleave(gaps: seq<string>, tokens: seq<string>): string
    requires |gaps| == |tokens| + 1
    decreases |tokens|
  {
    if |tokens| == 0 then gaps[0] else gaps[0] + tokens[0] + Interleave(gaps[1..], tokens[1..])
  }

  /**
   * On a string with a non-whitespace character, the first token of
   * `split()` is the non-empty run that starts after the leading whitespace,
   * followed by the tokens of what comes after that run.
   */
  lemma SplitStepTokens(s: string)
    requires LeadingSpace(s) < |s|
    ensures var t := s[LeadingSpace(s)..]; var n := TokenLength(t);
      n > 0 && Split(s) == [t[..n]] + Split(t[n..])
  {
    SplitSkip(s, LeadingSpace(s));
  }

  /** The first gap is the leading whitespace; the other gaps are those of what follows the first token. */
  lemma SplitStepGaps(s: string)
    requires LeadingSpace(s) < |s|
    ensures var l := LeadingSpace(s); var t := s[l..];
      Gaps(s) == [s[..l]] + Gaps(t[TokenLength(t)..])
  {
  }

  /** Cutting s at l and then l + n gives back s. */
  lemma SliceThree(s: string, l: nat, n: nat)
    requires l <= |s| && n <= |s[l..]|
    ensures s == s[..l] + s[l..][..n] + s[l..][n..]
  {
    assert s[l..] == s[l..][..n] + s[l..][n..];
    assert s == s[..l] + s[l..];
  }

  /** s is its leading whitespace, its first token and the rest, and the rest starts with whitespace. */
  lemma SplitStepParts(s: string)
    requires LeadingSpace(s) < |s|
    ensures var l := LeadingSpace(s); var t := s[l..]; var n := TokenLength(t);
      s == s[..l] + t[..n] + t[n..] && (n < |t| ==> IsSpace(t[n]))
  {
    var l := LeadingSpace(s);
    SliceThree(s, l, TokenLength(s[l..]));
  }

  /** There is one gap more than there are tokens. */
  lemma {:induction false} GapsCount(s: string)
    ensures |Gaps(s)| == |Split(s)| + 1
    decreases |s|
  {
    var l := LeadingSpace(s);
    if l == |s| {
      SplitSkip(s, l);
      assert s[l..] == [];
    } else {
      var t := s[l..];
      SplitStepTokens(s);
      SplitStepGaps(s);
      GapsCount(t[TokenLength(t)..]);
    }
  }

  /** The first gap is the leading whitespace, so it is whitespace only. */
  lemma FirstGapAllSpace(s: string)
    ensures |Gaps(s)| > 0 && AllSpace(Gaps(s)[0])
  {
    var l := LeadingSpace(s);
    assert Gaps(s)[0] == s[..l];
    forall k | 0 <= k < l
      ensures IsSpace(s[..l][k])
    {
      assert s[..l][k] == s[k];
    }
  }

  /** The gaps after the first are those of a shorter string. */
  lemma GapsTail(s: string)
    requires |Gaps(s)| > 1
    ensures exists rest: string :: |rest| < |s| && Gaps(s)[1..] == Gaps(rest)
  {
    var l := LeadingSpace(s);
    var t := s[l..];
    var rest := t[TokenLength(t)..];
    SplitStepGaps(s);
    assert Gaps(s)[1..] == Gaps(rest);
  }

  /** Gap j is whitespace only. */
  lemma {:induction false} GapAllSpace(s: string, j: nat)
    requires j < |Gaps(s)|
    ensures AllSpace(Gaps(s)[j])
    decreases |s|
  {
    if j == 0 {
      FirstGapAllSpace(s);
    } else {
      GapsTail(s);
      var rest: string :| |rest| < |s| && Gaps(s)[1..] == Gaps(rest);
      var g := Gaps(rest)[j - 1];
      assert Gaps(s)[j] == g;
      GapAllSpace(rest, j - 1);
      AllSpaceEqual(g, Gaps(s)[j]);
    }
  }

  lemma AllSpaceEqual(a: string, b: string)
    requires AllSpace(a) && a == b
    ensures AllSpace(b)
  {
  }

  /** Every gap is whitespace only. */
  lemma GapsAllSpace(s: string)
    ensures forall j :: 0 <= j < |Gaps(s)| ==> AllSpace(Gaps(s)[j])
  {
    forall j | 0 <= j < |Gaps(s)|
      ensures AllSpace(Gaps(s)[j])
    {
      GapAllSpace(s, j);
    }
  }

  /** A string that starts with whitespace has a non-empty first gap. */
  lemma FirstGapNonEmpty(r: string)
    requires |r| > 0 && IsSpace(r[0])
    ensures |Gaps(r)| > 0 && |Gaps(r)[0]| > 0
  {
    assert LeadingSpace(r) > 0;
  }

  /** What follows the first token is empty or starts with a non-empty gap. */
  lemma GapAfterToken(s: string)
    requires LeadingSpace(s) < |s|
    ensures var t := s[LeadingSpace(s)..]; var rest := t[TokenLength(t)..];
      |Gaps(rest)| > 0 && (|rest| > 0 ==> |Gaps(rest)[0]| > 0)
  {
    var t := s[LeadingSpace(s)..];
    var rest := t[TokenLength(t)..];
    if |rest| > 0 {
      assert rest[0] == t[TokenLength(t)];
      FirstGapNonEmpty(rest);
    }
  }

  /**
   * Every gap but the first and the last is non-empty; by GapsCount these
   * are exactly the gaps between two tokens.
   */
  lemma {:induction false} GapsNonEmpty(s: string)
    ensures forall j :: 0 < j < |Gaps(s)| - 1 ==> |Gaps(s)[j]| > 0
    decreases |s|
  {
    var l := LeadingSpace(s);
    if l < |s| {
      var t := s[l..];
      var rest := t[TokenLength(t)..];
      SplitStepGaps(s);
      GapAfterToken(s);
      GapsNonEmpty(rest);
      var gs := Gaps(s);
      forall j | 0 < j < |gs| - 1
        ensures |gs[j]| > 0
      {
        assert gs[j] == Gaps(rest)[j - 1];
      }
    }
  }

  /**
   * The tokens of `split()` are maximal: s is its whitespace gaps and its
   * tokens interleaved. With GapsAllSpace and GapsNonEmpty (gaps between
   * tokens are non-empty whitespace) and SplitTokens (tokens are non-empty without whitespace)
   * this pins the tokens down as the maximal runs of non-whitespace
   * characters.
   */
  lemma {:induction false} SplitMaximal(s: string)
    ensures |Gaps(s)| == |Split(s)| + 1
    ensures Interleave(Gaps(s), Split(s)) == s
    decreases |s|
  {
    var l := LeadingSpace(s);
    if l == |s| {
      SplitSkip(s, l);
      assert s[l..] == [];
    } else {
      SplitStepTokens(s);
      SplitStepGaps(s);
      SplitStepParts(s);
      var t := s[l..];
      var rest := t[TokenLength(t)..];
      SplitMaximal(rest);
      assert Gaps(s)[1..] == Gaps(rest) && Split(s)[1..] == Split(rest);
    }
  }

  // The points attribute of polylines and polygons

  /**
   * `(x, y)` for the tokens at i and i + 1, i = 0, 2, 4, ...: a pair where
   * `float()` fails on either token is skipped, and a trailing odd token is
   * ignored.
   */
  function PairPoints(raw: seq<string>, parse: string -> Option<real>, tf: Point -> Point): seq<Point>
    decreases |raw|
  {
    if |raw| < 2 then []
    else
      var rest := PairPoints(raw[2..], parse, tf);
      match (parse(raw[0]), parse(raw[1]))
      case (Some(x), Some(y)) => [tf(Point(x, y))] + rest
      case _ => rest
  }

  /** The result of `_points_from_points_attr`; a missing attribute is None. */
  function AttrPoints(attr: Option<string>, parse: string -> Option<real>, tf: Point -> Point): seq<Point>
  {
    if attr.None? || attr.value == "" then []
    else PairPoints(Split(CommasToSpaces(attr.value)), parse, tf)
  }

  /** `_points_from_points_attr`: nothing for a missing or empty attribute, else the pairs of its tokens. */
  method PointsFromAttr(attr: Option<string>, parse: string -> Option<real>, tf: Point -> Point) returns (pts: seq<Point>)
    ensures pts == AttrPoints(attr, parse, tf)
  {
    if attr.None? || attr.value == "" {
      return [];
    }
    var raw := Split(CommasToSpaces(attr.value));
    pts := PointsOfTokens(raw, parse, tf);
  }

  /** The loop over even token indices, which skips a pair where `float()` raises. */
  method PointsOfTokens(raw: seq<string>, parse: string -> Option<real>, tf: Point -> Point) returns (pts: seq<Point>)
    ensures pts == PairPoints(raw, parse, tf)
  {
    pts := [];
    var i := 0;
    while i < |raw| - 1
      invariant 0 <= i <= |raw| && i % 2 == 0
      invariant pts + PairPoints(raw[i..], parse, tf) == PairPoints(raw, parse, tf)
    {
      var x, y := parse(raw[i]), parse(raw[i + 1]);
      ghost var rest := PairPoints(raw[i + 2..], parse, tf);
      assert raw[i..][2..] == raw[i + 2..];
      assert raw[i..][0] == raw[i] && raw[i..][1] == raw[i + 1];
      if x.None? || y.None? {
        assert PairPoints(raw[i..], parse, tf) == rest;
        i := i + 2;
        continue;
      }
      var p := tf(Point(x.value, y.value));
      assert PairPoints(raw[i..], parse, tf) == [p] + rest;
      assert pts + [p] + rest == pts + ([p] + rest);
      pts := pts + [p];
      i := i + 2;
    }
  }

  /**
   * Pairs are taken at even indices whatever happens to earlier pairs: a
   * skipped pair does not shift the later ones, so the points of an even-length
   * prefix come before those of the rest.
   */
  lemma {:induction false} PairPointsAppend(a: seq<string>, b: seq<string>, parse: string -> Option<real>, tf: Point -> Point)
    requires |a| % 2 == 0
    ensures PairPoints(a + b, parse, tf) == PairPoints(a, parse, tf) + PairPoints(b, parse, tf)
    decreases |a|
  {
    if |a| == 0 {
      assert a + b == b;
    } else {
      assert (a + b)[2..] == a[2..] + b;
      PairPointsAppend(a[2..], b, parse, tf);
    }
  }

  /** A trailing odd token is ignored. */
  lemma TrailingTokenIgnored(raw: seq<string>, t: string, parse: string -> Option<real>, tf: Point -> Point)
    requires |raw| % 2 == 0
    ensures PairPoints(raw + [t], parse, tf) == PairPoints(raw, parse, tf)
  {
    PairPointsAppend(raw, [t], parse, tf);
  }

  /** At most one point per two tokens, and exactly one when every token parses. */
  lemma {:induction false} PairPointsCount(raw: seq<string>, parse: string -> Option<real>, tf: Point -> Point)
    ensures |PairPoints(raw, parse, tf)| <= |raw| / 2
    ensures (forall i :: 0 <= i < |raw| ==> parse(raw[i]).Some?) ==> |PairPoints(raw, parse, tf)| == |raw| / 2
    decreases |raw|
  {
    if |raw| >= 2 {
      PairPointsCount(raw[2..], parse, tf);
      if forall i :: 0 <= i < |raw| ==> parse(raw[i]).Some? {
        assert parse(raw[0]).Some? && parse(raw[1]).Some?;
        assert forall i :: 0 <= i < |raw[2..]| ==> parse(raw[2..][i]).Some? by {
          forall i | 0 <= i < |raw[2..]| ensures parse(raw[2..][i]).Some? {
            assert raw[2..][i] == raw[i + 2];
          }
        }
      }
    }
  }

  /** A missing or empty attribute gives no points; otherwise at most one point per two tokens. */
  lemma AttrPointsBound(attr: Option<string>, parse: string -> Option<real>, tf: Point -> Point)
    ensures attr.None? || attr.value == "" ==> AttrPoints(attr, parse, tf) == []
    ensures attr.Some? ==> |AttrPoints(attr, parse, tf)| <= |Split(CommasToSpaces(attr.value))| / 2
  {
    if attr.Some? && attr.value != "" {
      PairPointsCount(Split(CommasToSpaces(attr.value)), parse, tf);
    }
  }

  // Fill

  /** The fill of an element: the style's `fill` wins over the `fill` attribute. */
  function FillOf(style: map<string, string>, attrs: map<string, string>): Option<string>
  {
    if "fill" in style then Some(style["fill"])
    else if "fill" in attrs then Some(attrs["fill"])
    else None
  }

  predicate AllSpace(s: string)
  {
    forall k :: 0 <= k < |s| ==> IsSpace(s[k])
  }

  /** The number of whitespace characters s starts with. */
  function LeadingSpace(s: string): (n: nat)
    ensures n <= |s| && (n == |s| || !IsSpace(s[n]))
    ensures forall k :: 0 <= k < n ==> IsSpace(s[k])
  {
    if |s| == 0 || !IsSpace(s[0]) then 0 else 1 + LeadingSpace(s[1..])
  }

  /** The number of whitespace characters s ends with. */
  function TrailingSpace(s: string): (n: nat)
    ensures n <= |s| && (n == |s| || !IsSpace(s[|s| - 1 - n]))
    ensures forall k :: |s| - n <= k < |s| ==> IsSpace(s[k])
  {
    if |s| == 0 || !IsSpace(s[|s| - 1]) then 0 else 1 + TrailingSpace(s[..|s| - 1])
  }

  /** `s.strip()`. */
  function Strip(s: string): string
  {
    var t := s[LeadingSpace(s)..];
    t[..|t| - TrailingSpace(t)]
  }

  /**
   * What strip keeps: the slice of s left once whitespace is cut from both
   * ends, which neither starts nor ends with whitespace.
   */
  lemma StripShape(s: string)
    ensures var i, r := LeadingSpace(s), Strip(s);
      i + |r| <= |s| && r == s[i..i + |r|] &&
      (forall k :: 0 <= k < i ==> IsSpace(s[k])) && (forall k :: i + |r| <= k < |s| ==> IsSpace(s[k])) &&
      (|r| > 0 ==> !IsSpace(r[0]) && !IsSpace(r[|r| - 1]))
  {
    var i := LeadingSpace(s);
    var t := s[i..];
    var n := TrailingSpace(t);
    var r := t[..|t| - n];
    assert r == s[i..i + |r|];
    forall k | i + |r| <= k < |s| ensures IsSpace(s[k]) {
      assert s[k] == t[k - i];
    }
    if |r| > 0 {
      assert r[0] == s[i];
      assert r[|r| - 1] == t[|t| - 1 - n];
    }
  }

  /** Stripping a word padded with whitespace gives the word back. */
  lemma StripPadded(pre: string, w: string, post: string)
    requires AllSpace(pre) && AllSpace(post)
    requires |w| > 0 && !IsSpace(w[0]) && !IsSpace(w[|w| - 1])
    ensures Strip(pre + w + post) == w
  {
    var s := pre + w + post;
    assert s[|pre|] == w[0];
    assert forall k :: 0 <= k < |pre| ==> s[k] == pre[k];
    assert LeadingSpace(s) == |pre|;
    var t := s[|pre|..];
    assert t == w + post;
    assert t[|w| - 1] == w[|w| - 1];
    assert forall k :: |w| <= k < |t| ==> t[k] == post[k - |w|];
    assert TrailingSpace(t) == |post|;
    assert t[..|w|] == w;
  }

  /** Stripping whitespace only leaves nothing. */
  lemma StripBlank(s: string)
    requires AllSpace(s)
    ensures Strip(s) == ""
  {
    assert LeadingSpace(s) == |s|;
  }

  /** Lower case for ASCII letters. */
  function LowerChar(c: char): char
  {
    if 'A' <= c <= 'Z' then (c as int + 32) as char else c
  }

  /** `s.lower()`, on ASCII letters. */
  function Lower(s: string): string
  {
    seq(|s|, i requires 0 <= i < |s| => LowerChar(s[i]))
  }

  /** `is_filled`: there is a fill, and once stripped and lower-cased it is neither "none" nor empty. */
  function IsFilled(style: map<string, string>, attrs: map<string, string>): bool
  {
    match FillOf(style, attrs)
    case None => false
    case Some(f) =>
      var v := Lower(Strip(f));
      v != "none" && v != ""
  }

  /**
   * The style's fill decides alone when it is there; the attribute decides
   * when it is not; without either the element is not filled.
   */
  lemma FillPrecedence(style: map<string, string>, attrs: map<string, string>, attrs': map<string, string>)
    ensures "fill" in style ==> IsFilled(style, attrs) == IsFilled(style, attrs')
    ensures "fill" !in style ==> IsFilled(style, attrs) == IsFilled(map[], attrs)
    ensures "fill" !in style && "fill" !in attrs ==> !IsFilled(style, attrs)
  {
  }

  /** The letters of "none" in any mix of cases. */
  predicate SpellsNone(w: string)
  {
    |w| == 4 && LowerChar(w[0]) == 'n' && LowerChar(w[1]) == 'o' && LowerChar(w[2]) == 'n' && LowerChar(w[3]) == 'e'
  }

  /**
   * A fill that is one word with any whitespace around it marks the element
   * filled exactly when the word is not "none" in some mix of cases.
   */
  lemma FilledUnlessNone(style: map<string, string>, attrs: map<string, string>, pre: string, w: string, post: string)
    requires FillOf(style, attrs) == Some(pre + w + post)
    requires AllSpace(pre) && AllSpace(post)
    requires |w| > 0 && !IsSpace(w[0]) && !IsSpace(w[|w| - 1])
    ensures IsFilled(style, attrs) <==> !SpellsNone(w)
  {
    StripPadded(pre, w, post);
    var v := Lower(w);
    if SpellsNone(w) {
      assert v == "none";
    }
    if v == "none" {
      assert v[0] == 'n' && v[1] == 'o' && v[2] == 'n' && v[3] == 'e';
    }
  }

  /** A fill of whitespace only marks the element not filled. */
  lemma BlankNotFilled(style: map<string, string>, attrs: map<string, string>)
    requires FillOf(style, attrs).Some? && AllSpace(FillOf(style, attrs).value)
    ensures !IsFilled(style, attrs)
  {
    StripBlank(FillOf(style, attrs).value);
  }

  // Tag names

  /** The index of the first c in s. */
  function FirstIndex(s: string, c: char): (i: nat)
    requires c in s
    ensures i < |s| && s[i] == c
    ensures forall j :: 0 <= j < i ==> s[j] != c
  {
    if s[0] == c then 0 else 1 + FirstIndex(s[1..], c)
  }

  /** `element_type`: "path" for path elements, otherwise the tag without its `{namespace}` prefix. */
  function ElementType(isPath: bool, tag: string): (r: string)
    ensures isPath ==> r == "path"
    ensures !isPath && '}' in tag ==> (exists ns :: '}' !in ns && tag == ns + "}" + r)
    ensures !isPath && '}' !in tag ==> r == tag
  {
    if isPath then "path"
    else if '}' in tag then
      var i := FirstIndex(tag, '}');
      assert tag == tag[..i] + "}" + tag[i + 1..];
      assert forall j :: 0 <= j < i ==> tag[..i][j] != '}';
      tag[i + 1..]
    else tag
  }

  /** A tag qualified as `{ns}local`, with ns free of '}', gives back its local name. */
  lemma LocalName(ns: string, local: string)
    requires '}' !in ns
    ensures ElementType(false, "{" + ns + "}" + local) == local
  {
    var tag := "{" + ns + "}" + local;
    var k := |ns| + 1;
    assert tag[k] == '}';
    assert forall j :: 1 <= j < k ==> tag[j] == ns[j - 1];
    assert forall j :: 0 <= j < k ==> tag[j] != '}';
    assert FirstIndex(tag, '}') == k;
    assert tag[k + 1..] == local;
  }

  // Layers

  /** An Inkscape layer, by its attributes. */
  datatype Layer = Layer(attrs: map<string, string>)

  /** `inkex.addNS("label", "inkscape")`. */
  const InkscapeLabel: string := "{http://www.inkscape.org/namespaces/inkscape}label"

  /**
   * The layer's label: its `inkscape:label` when that is there and not empty
   * (Python's `or` passes over an empty string), else its plain `label`.
   */
  function LabelOf(layer: Layer): Option<string>
  {
    if InkscapeLabel in layer.attrs && layer.attrs[InkscapeLabel] != "" then Some(layer.attrs[InkscapeLabel])
    else if "label" in layer.attrs then Some(layer.attrs["label"])
    else None
  }

  predicate Named(layer: Layer, name: string)
  {
    LabelOf(layer) == Some(name)
  }

  /** `get_layer_by_name`: the first layer, in document order, whose label is name; None when there is none. */
  method GetLayerByName(layers: seq<Layer>, name: string) returns (r: Option<Layer>)
    ensures r.None? <==> forall i :: 0 <= i < |layers| ==> !Named(layers[i], name)
    ensures r.Some? ==> exists i :: 0 <= i < |layers| && layers[i] == r.value && Named(layers[i], name) &&
                                   forall j :: 0 <= j < i ==> !Named(layers[j], name)
  {
    for i := 0 to |layers|
      invariant forall j :: 0 <= j < i ==> !Named(layers[j], name)
    {
      var layerLabel := LabelOf(layers[i]);
      if layerLabel == Some(name) {
        return Some(layers[i]);
      }
    }
    return None;
  }

  // Shapes with fixed corners

  /** `float(elem.get(key, 0.0))`: 0 when the attribute is missing, None where `float()` raises. */
  function AttrNumber(attrs: map<string, string>, key: string, parse: string -> Option<real>): Option<real>
  {
    if key in attrs then parse(attrs[key]) else Some(0.0)
  }

  /**
   * `float(elem.get(key, 0.0))` for each key in turn: all the numbers, or
   * None as soon as `float()` raises on one of them.
   */
  function Numbers(attrs: map<string, string>, keys: seq<string>, parse: string -> Option<real>): (r: Option<seq<real>>)
    ensures r.Some? ==> |r.value| == |keys|
    ensures r.Some? ==> forall i :: 0 <= i < |keys| ==> AttrNumber(attrs, keys[i], parse) == Some(r.value[i])
    ensures r.None? <==> exists i :: 0 <= i < |keys| && keys[i] in attrs && parse(attrs[keys[i]]).None?
  {
    if |keys| == 0 then Some([])
    else
      match AttrNumber(attrs, keys[0], parse)
      case None => None
      case Some(v) =>
        match Numbers(attrs, keys[1..], parse)
        case None =>
          ghost var i :| 0 <= i < |keys[1..]| && keys[1..][i] in attrs && parse(attrs[keys[1..][i]]).None?;
          assert keys[i + 1] == keys[1..][i];
          None
        case Some(vs) =>
          assert forall i :: 1 <= i < |keys| ==> keys[i] == keys[1..][i - 1];
          Some([v] + vs)
  }

  /** The corners of a rectangle, going round from (x, y): right by w, down by h, left by w, up by h. */
  function RectCorners(x: real, y: real, w: real, h: real): (c: seq<Point>)
    ensures |c| == 4 && c[0] == Point(x, y)
    ensures Sub(c[1], c[0]) == Point(w, 0.0) && Sub(c[2], c[1]) == Point(0.0, h)
    ensures Sub(c[3], c[2]) == Point(-w, 0.0) && Sub(c[0], c[3]) == Point(0.0, -h)
  {
    [Point(x, y), Point(x + w, y), Point(x + w, y + h), Point(x, y + h)]
  }

  /** The squared length of a vector. */
  function SqLen(p: Point): real { p.x * p.x + p.y * p.y }

  /**
   * The four axis points of an ellipse with centre c and radii rx and ry, in
   * the order +x, +y, -x, -y: opposite points are symmetric about the centre.
   */
  function AxisPoints(c: Point, rx: real, ry: real): (p: seq<Point>)
    ensures |p| == 4
    ensures Sub(p[0], c) == Point(rx, 0.0) && Sub(p[1], c) == Point(0.0, ry)
    ensures Add(p[0], p[2]) == Scale(c, 2.0) && Add(p[1], p[3]) == Scale(c, 2.0)
  {
    [Point(c.x + rx, c.y), Point(c.x, c.y + ry), Point(c.x - rx, c.y), Point(c.x, c.y - ry)]
  }

  /** The four axis points lie on the ellipse (x - cx)^2 / rx^2 + (y - cy)^2 / ry^2 = 1, written without division. */
  lemma AxisPointsOnEllipse(c: Point, rx: real, ry: real)
    ensures var p := AxisPoints(c, rx, ry);
      forall i :: 0 <= i < 4 ==>
        (p[i].x - c.x) * (p[i].x - c.x) * ry * ry + (p[i].y - c.y) * (p[i].y - c.y) * rx * rx == rx * rx * ry * ry
  {
    var p := AxisPoints(c, rx, ry);
    assert Sub(p[2], c) == Point(-rx, 0.0) && Sub(p[3], c) == Point(0.0, -ry);
  }

  /** A circle's four axis points are all at distance r from its centre. */
  lemma CirclePointsOnCircle(c: Point, r: real)
    ensures forall i :: 0 <= i < 4 ==> SqLen(Sub(AxisPoints(c, r, r)[i], c)) == r * r
  {
    var p := AxisPoints(c, r, r);
    assert Sub(p[0], c) == Point(r, 0.0) && Sub(p[1], c) == Point(0.0, r);
    assert Sub(p[2], c) == Point(-r, 0.0) && Sub(p[3], c) == Point(0.0, -r);
    assert SqLen(Point(r, 0.0)) == r * r && SqLen(Point(0.0, r)) == r * r;
    assert SqLen(Point(-r, 0.0)) == r * r && SqLen(Point(0.0, -r)) == r * r;
  }

  const RectKeys: seq<string> := ["x", "y", "width", "height"]
  const CircleKeys: seq<string> := ["cx", "cy", "r"]
  const EllipseKeys: seq<string> := ["cx", "cy", "rx", "ry"]
  const LineKeys: seq<string> := ["x1", "y1", "x2", "y2"]

  /** `_points_from_rect`; None where `float()` raises on an attribute. */
  function RectPoints(attrs: map<string, string>, parse: string -> Option<real>, tf: Point -> Point): Option<seq<Point>>
  {
    match Numbers(attrs, RectKeys, parse)
    case None => None
    case Some(v) => Some(MapPoints(tf, RectCorners(v[0], v[1], v[2], v[3])))
  }

  /** `_points_from_circle`; None where `float()` raises on an attribute. */
  function CirclePoints(attrs: map<string, string>, parse: string -> Option<real>, tf: Point -> Point): Option<seq<Point>>
  {
    match Numbers(attrs, CircleKeys, parse)
    case None => None
    case Some(v) => Some(MapPoints(tf, AxisPoints(Point(v[0], v[1]), v[2], v[2])))
  }

  /** `_points_from_ellipse`; None where `float()` raises on an attribute. */
  function EllipsePoints(attrs: map<string, string>, parse: string -> Option<real>, tf: Point -> Point): Option<seq<Point>>
  {
    match Numbers(attrs, EllipseKeys, parse)
    case None => None
    case Some(v) => Some(MapPoints(tf, AxisPoints(Point(v[0], v[1]), v[2], v[3])))
  }

  /** `_points_from_line`; None where `float()` raises on an attribute. */
  function LinePoints(attrs: map<string, string>, parse: string -> Option<real>, tf: Point -> Point): Option<seq<Point>>
  {
    match Numbers(attrs, LineKeys, parse)
    case None => None
    case Some(v) => Some([tf(Point(v[0], v[1])), tf(Point(v[2], v[3]))])
  }

  /** With no attributes at all, every number read is 0. */
  lemma NoAttributes(keys: seq<string>, parse: string -> Option<real>)
    ensures Numbers(map[], keys, parse).Some?
    ensures forall i :: 0 <= i < |keys| ==> Numbers(map[], keys, parse).value[i] == 0.0
  {
  }

  /** With no attributes at all every coordinate and size is 0: four copies of the transformed origin. */
  lemma RectDefaults(parse: string -> Option<real>, tf: Point -> Point)
    ensures RectPoints(map[], parse, tf) == Some([tf(Origin), tf(Origin), tf(Origin), tf(Origin)])
  {
    NoAttributes(RectKeys, parse);
    var o := tf(Origin);
    assert MapPoints(tf, RectCorners(0.0, 0.0, 0.0, 0.0)) == [o, o, o, o];
  }

  /** With no attributes at all a circle is four copies of the transformed origin. */
  lemma CircleDefaults(parse: string -> Option<real>, tf: Point -> Point)
    ensures CirclePoints(map[], parse, tf) == Some([tf(Origin), tf(Origin), tf(Origin), tf(Origin)])
  {
    NoAttributes(CircleKeys, parse);
    var o := tf(Origin);
    assert MapPoints(tf, AxisPoints(Origin, 0.0, 0.0)) == [o, o, o, o];
  }

  /** With no attributes at all an ellipse is four copies of the transformed origin. */
  lemma EllipseDefaults(parse: string -> Option<real>, tf: Point -> Point)
    ensures EllipsePoints(map[], parse, tf) == Some([tf(Origin), tf(Origin), tf(Origin), tf(Origin)])
  {
    NoAttributes(EllipseKeys, parse);
    var o := tf(Origin);
    assert MapPoints(tf, AxisPoints(Origin, 0.0, 0.0)) == [o, o, o, o];
  }

  /** With no attributes at all a line is two copies of the transformed origin. */
  lemma LineDefaults(parse: string -> Option<real>, tf: Point -> Point)
    ensures LinePoints(map[], parse, tf) == Some([tf(Origin), tf(Origin)])
  {
    NoAttributes(LineKeys, parse);
  }
}
