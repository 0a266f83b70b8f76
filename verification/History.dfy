/**
 Token counting and hard truncation of a conversation history
 (internal/orchestration/context_manager.go).
 */
module History {
  datatype Message = Message(role: string, content: string)

  type Messages = seq<Message>

  const COMPRESSION_THRESHOLD := 3000
  const COMPRESSION_TARGET := 2500

  // ---------- words ----------

  // The characters at which strings.Fields splits.
  predicate IsSpace(c: char) {
    || '\t' <= c <= '\r' || c == ' ' || c == '\U{85}' || c == '\U{A0}' || c == '\U{1680}'
    || '\U{2000}' <= c <= '\U{200A}' || c == '\U{2028}' || c == '\U{2029}' || c == '\U{202F}'
    || c == '\U{205F}' || c == '\U{3000}'
  }

  // The number of characters that begin a word.
  function Words(s: string): nat {
    if s == "" then 0
    else
      var n := |s| - 1;
      Words(s[..n]) + if !IsSpace(s[n]) && (n == 0 || IsSpace(s[n - 1])) then 1 else 0
  }

  /** These are the characters that separate words, and no others. */
  lemma SpacesAre(c: char)
    ensures IsSpace(c) <==> c in [
      '\t', '\n', '\U{0B}', '\U{0C}', '\r', ' ', '\U{85}', '\U{A0}', '\U{1680}',
      '\U{2000}', '\U{2001}', '\U{2002}', '\U{2003}', '\U{2004}', '\U{2005}', '\U{2006}', '\U{2007}',
      '\U{2008}', '\U{2009}', '\U{200A}', '\U{2028}', '\U{2029}', '\U{202F}', '\U{205F}', '\U{3000}']
  {
  }

  predicate AllSpace(s: string) {
    forall i :: 0 <= i < |s| ==> IsSpace(s[i])
  }

  // A field of a string: characters that are not white space, at least one.
  predicate IsField(w: string) {
    w != "" && forall i :: 0 <= i < |w| ==> !IsSpace(w[i])
  }

  // The fields with the white space around them: gap, field, gap, field, ..., gap.
  function Weave(gaps: seq<string>, fields: seq<string>): string
    requires |gaps| == |fields| + 1
  {
    if fields == [] then gaps[0]
    else
      var n := |fields| - 1;
      Weave(gaps[..n + 1], fields[..n]) + fields[n] + gaps[n + 1]
  }

  /** The fields make up s with white space only, and some between any two of them. */
  ghost predicate Splits(s: string, gaps: seq<string>, fields: seq<string>) {
    && |gaps| == |fields| + 1 && s == Weave(gaps, fields)
    && (forall i :: 0 <= i < |fields| ==> IsField(fields[i]))
    && (forall i :: 0 <= i < |gaps| ==> AllSpace(gaps[i]))
    && (forall i :: 0 < i < |fields| ==> gaps[i] != "")
  }

  // White space at the end adds no word.
  lemma {:induction false} TrailingSpace(s: string, gap: string)
    requires AllSpace(gap)
    ensures Words(s + gap) == Words(s)
  {
    if gap == "" {
      assert s + gap == s;
    } else {
      var n := |gap| - 1;
      assert (s + gap)[..|s| + n] == s + gap[..n];
      TrailingSpace(s, gap[..n]);
    }
  }

  // A field after white space, or at the start, adds one.
  lemma {:induction false} TrailingField(s: string, w: string)
    requires IsField(w) && (s == "" || IsSpace(s[|s| - 1]))
    ensures Words(s + w) == Words(s) + 1
  {
    var n := |w| - 1;
    assert (s + w)[..|s| + n] == s + w[..n];
    if n == 0 {
      assert s + w[..0] == s;
    } else {
      TrailingField(s, w[..n]);
    }
  }

  lemma SplitsInit(s: string, gaps: seq<string>, fields: seq<string>)
    requires Splits(s, gaps, fields) && fields != []
    ensures var n := |fields| - 1; var t := Weave(gaps[..n + 1], fields[..n]);
      && Splits(t, gaps[..n + 1], fields[..n]) && s == t + fields[n] + gaps[n + 1]
      && IsField(fields[n]) && AllSpace(gaps[n + 1])
      && (t == "" || IsSpace(t[|t| - 1]))
  {
    var n := |fields| - 1;
    var t := Weave(gaps[..n + 1], fields[..n]);
    hide IsSpace;
    if n > 0 {
      var u := Weave(gaps[..n], fields[..n - 1]);
      assert gaps[..n + 1][..n] == gaps[..n] && fields[..n][..n - 1] == fields[..n - 1];
      assert t == u + fields[n - 1] + gaps[n];
      assert gaps[n] != "" && t[|t| - 1] == gaps[n][|gaps[n]| - 1];
    }
  }

  /** The number of words of s is the number of its fields, however they were found. */
  lemma {:induction false} WordsAreFields(s: string, gaps: seq<string>, fields: seq<string>)
    requires Splits(s, gaps, fields)
    ensures Words(s) == |fields|
    decreases |fields|
  {
    if fields == [] {
      assert "" + gaps[0] == gaps[0];
      TrailingSpace("", gaps[0]);
    } else {
      var n := |fields| - 1;
      var t := Weave(gaps[..n + 1], fields[..n]);
      SplitsInit(s, gaps, fields);
      hide Words, Splits, IsField, AllSpace, IsSpace;
      WordsAreFields(t, gaps[..n + 1], fields[..n]);
      TrailingField(t, fields[n]);
      TrailingSpace(t + fields[n], gaps[n + 1]);
    }
  }

  /** Every string has fields... */
  lemma {:induction false} FieldsExist(s: string) returns (gaps: seq<string>, fields: seq<string>)
    ensures Splits(s, gaps, fields)
  {
    if s == "" {
      gaps, fields := [""], [];
    } else {
      var n := |s| - 1;
      var t, c := s[..n], s[n];
      var g, f := FieldsExist(t);
      var k := |f|;
      assert s == t + [c];
      hide Splits, IsSpace;
      if IsSpace(c) {
        gaps, fields := LongerGap(t, g, f, c);
      } else if k > 0 && LastGap(t, g, f) == "" {
        gaps, fields := LongerField(t, g, f, c);
      } else {
        gaps, fields := NewField(t, g, f, c);
      }
    }
  }

  function LastGap(s: string, g: seq<string>, f: seq<string>): string
    requires Splits(s, g, f)
  {
    g[|f|]
  }

  lemma LongerGap(s: string, g: seq<string>, f: seq<string>, c: char) returns (gaps: seq<string>, fields: seq<string>)
    requires Splits(s, g, f) && IsSpace(c)
    ensures Splits(s + [c], gaps, fields)
  {
    hide IsSpace, IsField;
    var k := |f|;
    gaps, fields := g[..k] + [g[k] + [c]], f;
    if k > 0 {
      assert gaps[..k] == g[..k];
      var t := Weave(g[..k], f[..k - 1]);
      assert t + f[k - 1] + (g[k] + [c]) == t + f[k - 1] + g[k] + [c];
    }
  }

  lemma LongerField(s: string, g: seq<string>, f: seq<string>, c: char) returns (gaps: seq<string>, fields: seq<string>)
    requires Splits(s, g, f) && !IsSpace(c) && f != [] && g[|f|] == ""
    ensures Splits(s + [c], gaps, fields)
  {
    hide AllSpace, IsSpace;
    var k := |f| - 1;
    gaps, fields := g, f[..k] + [f[k] + [c]];
    assert fields[..k] == f[..k];
    var t := Weave(g[..k + 1], f[..k]);
    assert t + (f[k] + [c]) + "" == t + f[k] + "" + [c];
  }

  lemma NewField(s: string, g: seq<string>, f: seq<string>, c: char) returns (gaps: seq<string>, fields: seq<string>)
    requires Splits(s, g, f) && !IsSpace(c) && (f == [] || g[|f|] != "")
    ensures Splits(s + [c], gaps, fields)
  {
    hide IsSpace;
    gaps, fields := g + [""], f + [[c]];
    assert gaps[..|f| + 1] == g && fields[..|f|] == f;
    assert s + [c] + "" == s + [c];
  }

  // Two ways to cut a string in two.
  lemma Overlap(u: string, g: string, v: string, h: string)
    requires u + g == v + h
    ensures |u| > |v| ==> |u| - |v| <= |h| && u[|u| - 1] == h[|u| - 1 - |v|]
    ensures |u| == |v| ==> u == v && g == h
  {
    var s := u + g;
    assert |s| == |v| + |h|;
    assert u == s[..|u|] && v == s[..|v|] && g == s[|u|..] && h == s[|v|..];
  }

  // White space at the end is as long in every reading of a string...
  lemma SameGap(u: string, g: string, v: string, h: string)
    requires u + g == v + h && AllSpace(g) && AllSpace(h)
    requires u == "" || !IsSpace(u[|u| - 1])
    requires v == "" || !IsSpace(v[|v| - 1])
    ensures u == v && g == h
  {
    Overlap(u, g, v, h);
    Overlap(v, h, u, g);
  }

  // ...and so is the last field.
  lemma SameField(t: string, w: string, r: string, x: string)
    requires t + w == r + x && IsField(w) && IsField(x)
    requires t == "" || IsSpace(t[|t| - 1])
    requires r == "" || IsSpace(r[|r| - 1])
    ensures t == r && w == x
  {
    Overlap(t, w, r, x);
    Overlap(r, x, t, w);
  }

  // Two readings of a string end alike.
  lemma SameEnd(s: string, g: seq<string>, f: seq<string>, h: seq<string>, e: seq<string>)
    requires Splits(s, g, f) && Splits(s, h, e) && |f| == |e| > 0
    ensures var n := |f| - 1; var t := Weave(g[..n + 1], f[..n]);
      && Splits(t, g[..n + 1], f[..n]) && Splits(t, h[..n + 1], e[..n])
      && f[n] == e[n] && g[n + 1] == h[n + 1]
  {
    var n := |f| - 1;
    SplitsInit(s, g, f);
    SplitsInit(s, h, e);
    hide Splits, IsField, AllSpace, IsSpace;
    var t, u := Weave(g[..n + 1], f[..n]), Weave(h[..n + 1], e[..n]);
    hide Weave;
    EndsInField(t, f[n]);
    EndsInField(u, e[n]);
    SameGap(t + f[n], g[n + 1], u + e[n], h[n + 1]);
    SameField(t, f[n], u, e[n]);
  }

  /** ...and only these. */
  lemma {:induction false} FieldsAreUnique(s: string, g: seq<string>, f: seq<string>, h: seq<string>, e: seq<string>)
    requires Splits(s, g, f) && Splits(s, h, e)
    ensures f == e && g == h
    decreases |f|
  {
    WordsAreFields(s, g, f);
    WordsAreFields(s, h, e);
    if f == [] {
      assert g == [s] && h == [s];
    } else {
      var n := |f| - 1;
      SameEnd(s, g, f, h, e);
      assert |g| == |h| == n + 2;
      hide *;
      FieldsAreUnique(Weave(g[..n + 1], f[..n]), g[..n + 1], f[..n], h[..n + 1], e[..n]);
      assert f == f[..n] + [f[n]] && e == e[..n] + [e[n]];
      assert g == g[..n + 1] + [g[n + 1]] && h == h[..n + 1] + [h[n + 1]];
    }
  }

  lemma EndsInField(t: string, w: string)
    requires IsField(w)
    ensures t + w != "" && !IsSpace((t + w)[|t + w| - 1])
  {
    assert (t + w)[|t + w| - 1] == w[|w| - 1];
  }

  /** White space separates: words do not run across it. */
  lemma {:induction false} SpaceSeparates(s: string, c: char, t: string)
    requires IsSpace(c)
    ensures Words(s + [c] + t) == Words(s) + Words(t)
  {
    if t == "" {
      assert s + [c] + t == s + [c];
      TrailingSpace(s, [c]);
    } else {
      var n := |t| - 1;
      assert (s + [c] + t)[..|s| + 1 + n] == s + [c] + t[..n];
      SpaceSeparates(s, c, t[..n]);
    }
  }

  /** A field by itself is one word. */
  lemma FieldIsOneWord(w: string)
    requires IsField(w)
    ensures Words(w) == 1
  {
    assert "" + w == w;
    TrailingField("", w);
  }

  // len(strings.Fields(content)), counted as the library does: one per change into a word.
  method CountFields(s: string) returns (n: nat)
    ensures n == Words(s)
  {
    n := 0;
    var wasSpace := true;
    for i := 0 to |s|
      invariant n == Words(s[..i])
      invariant wasSpace <==> i == 0 || IsSpace(s[i - 1])
    {
      assert s[..i + 1][..i] == s[..i];
      var isSpace := IsSpace(s[i]);
      if wasSpace && !isSpace {
        n := n + 1;
      }
      wasSpace := isSpace;
    }
    assert s[..|s|] == s;
  }

  // ---------- tokens ----------

  function Tokens(ms: Messages): nat {
    if ms == [] then 0 else Words(ms[0].content) + Tokens(ms[1..])
  }

  lemma {:induction false} TokensOfConcat(a: Messages, b: Messages)
    ensures Tokens(a + b) == Tokens(a) + Tokens(b)
  {
    if a == [] {
      assert a + b == b;
    } else {
      assert (a + b)[1..] == a[1..] + b;
      TokensOfConcat(a[1..], b);
    }
  }

  /** The tokens of a history are the words of its contents, whatever the roles. */
  lemma TokensOfOne(m: Message)
    ensures Tokens([m]) == Words(m.content)
  {
    assert [m][1..] == [];
  }

  method CountTokens(ms: Messages) returns (total: nat)
    ensures total == Tokens(ms)
  {
    total := 0;
    for i := 0 to |ms|
      invariant total == Tokens(ms[..i])
    {
      assert ms[..i + 1] == ms[..i] + [ms[i]];
      TokensOfConcat(ms[..i], [ms[i]]);
      var t := CountFields(ms[i].content);
      total := total + t;
    }
    assert ms[..|ms|] == ms;
  }

  // ---------- truncation ----------

  /** r is the longest suffix of ms within the target: it fits, and no longer suffix does. */
  ghost predicate IsLongestSuffix(r: Messages, ms: Messages, target: nat) {
    && |r| <= |ms|
    && r == ms[|ms| - |r|..]
    && Tokens(r) <= target
    && forall k :: 0 <= k < |ms| - |r| ==> Tokens(ms[k..]) > target
  }

  lemma SuffixesGrow(ms: Messages, j: nat, k: nat)
    requires j <= k <= |ms|
    ensures Tokens(ms[k..]) <= Tokens(ms[j..])
  {
    assert ms[j..] == ms[j..k] + ms[k..];
    TokensOfConcat(ms[j..k], ms[k..]);
  }

  /** Keeps the longest suffix within the target; one more message would exceed it. */
  method HardTruncate(ms: Messages, target: int) returns (r: Messages)
    ensures 0 <= target ==> IsLongestSuffix(r, ms, target)
    ensures target < 0 ==> r == []
  {
    var total, start := 0, |ms|;
    var i := |ms| - 1;
    while i >= 0
      invariant -1 <= i < |ms|
      invariant start == i + 1
      invariant total == Tokens(ms[start..])
      invariant total <= target || start == |ms|
    {
      var t := CountFields(ms[i].content);
      assert ms[i..] == [ms[i]] + ms[start..];
      assert Tokens(ms[i..]) == t + total;
      if total + t > target {
        forall k | 0 <= k < start
          ensures Tokens(ms[k..]) > target
        {
          SuffixesGrow(ms, k, i);
        }
        break;
      }
      total := total + t;
      start := i;
      i := i - 1;
    }
    r := ms[start..];
  }

  lemma LongestSuffixIsUnique(r: Messages, q: Messages, ms: Messages, target: nat)
    requires IsLongestSuffix(r, ms, target) && IsLongestSuffix(q, ms, target)
    ensures r == q
  {
    assert Tokens(ms[|ms| - |q|..]) <= target;
    assert Tokens(ms[|ms| - |r|..]) <= target;
  }
}
