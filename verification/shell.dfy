/** The page shell fill: every HTML page is a fixed template whose
    `{{placeholder}}` markers are filled by a chain of JavaScript
    `String.prototype.replace` calls with a string pattern. Such a call replaces
    only the FIRST occurrence, and expands `$$`, `$&`, `` $` `` and `$'` in the
    replacement text (the GetSubstitution rules of the ECMAScript language
    specification; with a string pattern there are no capture groups, so `$1`
    or `$<` stay literal). */
module Shell {
  import opened Wrappers
  import Text

  /** The replacement text after `$`-pattern expansion, for a match `matched`
      with the text `before` it and `after` it. */
  function Expand(r: string, matched: string, before: string, after: string): string
    decreases |r|
  {
    if r == [] then []
    else if r[0] == '$' && |r| >= 2 && r[1] == '$' then "$" + Expand(r[2..], matched, before, after)
    else if r[0] == '$' && |r| >= 2 && r[1] == '&' then matched + Expand(r[2..], matched, before, after)
    else if r[0] == '$' && |r| >= 2 && r[1] == '`' then before + Expand(r[2..], matched, before, after)
    else if r[0] == '$' && |r| >= 2 && r[1] == '\'' then after + Expand(r[2..], matched, before, after)
    else [r[0]] + Expand(r[1..], matched, before, after)
  }

  /** A replacement without `$` is inserted literally. */
  lemma {:induction false} ExpandLiteral(r: string, matched: string, before: string, after: string)
    requires Text.NoChar(r, '$')
    ensures Expand(r, matched, before, after) == r
    decreases |r|
  {
    if r != [] {
      ExpandLiteral(r[1..], matched, before, after);
      assert [r[0]] + r[1..] == r;
    }
  }

  /** `s.replace(p, r)` with a string pattern `p`. */
  function ReplaceFirst(s: string, p: string, r: string): (t: string)
  {
    match Text.IndexOf(s, p)
    case None => s
    case Some(i) => s[..i] + Expand(r, p, s[..i], s[i + |p|..]) + s[i + |p|..]
  }

  /** Without an occurrence of the placeholder the text is unchanged. */
  lemma ReplaceFirstAbsent(s: string, p: string, r: string)
    requires forall j: nat :: !Text.OccursAt(s, p, j)
    ensures ReplaceFirst(s, p, r) == s
  {
  }

  lemma SliceOfSuffix(x: string, y: string, a: nat, b: nat)
    requires a <= b <= |y|
    ensures (x + y)[|x| + a..|x| + b] == y[a..b]
  {
  }

  /** Replacing the slice `s[i..i+n]` by `r` keeps an occurrence of `p` that
      starts at or after `i + n`, shifted by the change in length. */
  lemma OccurrenceAfterSplice(s: string, p: string, r: string, i: nat, n: nat, j: nat)
    requires i + n <= j && Text.OccursAt(s, p, j)
    ensures Text.OccursAt(s[..i] + r + s[i + n..], p, j - n + |r|)
  {
    var after := s[i + n..];
    var d := j - i - n;
    assert s == s[..i + n] + after;
    SliceOfSuffix(s[..i + n], after, d, d + |p|);
    SliceOfSuffix(s[..i] + r, after, d, d + |p|);
  }

  lemma ReplaceFirstAt(s: string, p: string, r: string, i: nat)
    requires Text.IndexOf(s, p) == Some(i)
    ensures ReplaceFirst(s, p, r) == s[..i] + Expand(r, p, s[..i], s[i + |p|..]) + s[i + |p|..]
  {
  }

  /** With a `$`-free replacement, the first occurrence of the placeholder is
      replaced by the text and everything around it is kept. */
  lemma ReplaceFirstLiteral(s: string, p: string, r: string, i: nat)
    requires Text.NoChar(r, '$')
    requires Text.IndexOf(s, p) == Some(i)
    ensures ReplaceFirst(s, p, r) == s[..i] + r + s[i + |p|..]
  {
    ReplaceFirstAt(s, p, r, i);
    ExpandLiteral(r, p, s[..i], s[i + |p|..]);
  }

  /** ... and every later occurrence survives, shifted by the change in length. */
  lemma ReplaceFirstOnlyFirst(s: string, p: string, r: string, i: nat, j: nat)
    requires Text.NoChar(r, '$')
    requires Text.IndexOf(s, p) == Some(i)
    requires Text.OccursAt(s, p, j) && j >= i + |p|
    ensures Text.OccursAt(ReplaceFirst(s, p, r), p, j - |p| + |r|)
  {
    ReplaceFirstLiteral(s, p, r, i);
    OccurrenceAfterSplice(s, p, r, i, |p|, j);
  }

  /** `$&` in a replacement text echoes the placeholder itself: a post titled
      "$&" leaves `{{title}}` in the page instead of its title. */
  lemma DollarAmpersandEchoes(p: string)
    ensures ReplaceFirst(p, p, "$&") == p
  {
    assert Text.StartsWith(p, p);
    assert p[..0] == [] && p[|p|..] == [];
    assert Expand("$&", p, [], []) == p + Expand([], p, [], []);
  }

  /** A chain `.replace(k1, v1).replace(k2, v2)...` over the template. */
  function Fill(template: string, fills: seq<(string, string)>): string
    decreases |fills|
  {
    if fills == [] then template
    else Fill(ReplaceFirst(template, fills[0].0, fills[0].1), fills[1..])
  }

  /** A shell that repeats a placeholder keeps its second copy after the first
      step of the chain: `{{title}}` is filled once in `<title>` and stays
      literal in the Open Graph, Twitter and JSON-LD blocks that repeat it. */
  lemma RepeatedPlaceholderSurvivesFirstStep(template: string, key: string, value: string,
                                             rest: seq<(string, string)>, i: nat, j: nat)
    requires Text.NoChar(value, '$')
    requires Text.IndexOf(template, key) == Some(i)
    requires Text.OccursAt(template, key, j) && j >= i + |key|
    ensures Fill(template, [(key, value)] + rest)
            == Fill(template[..i] + value + template[i + |key|..], rest)
    ensures Text.OccursAt(template[..i] + value + template[i + |key|..], key, j - |key| + |value|)
  {
    var filled := template[..i] + value + template[i + |key|..];
    assert ReplaceFirst(template, key, value) == filled by {
      ReplaceFirstLiteral(template, key, value, i);
    }
    assert Text.OccursAt(filled, key, j - |key| + |value|) by {
      OccurrenceAfterSplice(template, key, value, i, |key|, j);
    }
    var fills := [(key, value)] + rest;
    assert fills[0] == (key, value) && fills[1..] == rest;
  }
}
