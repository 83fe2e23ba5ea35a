/** The automatic tags of a generated post: `generate_auto_tags` in the
    dashboard and `_generate_auto_tags` in the scheduler, which have the same
    body. */
module AutoTags {
  import Text
  import Seqs

  function LongerThan(n: nat): string -> bool {
    (w: string) => |w| > n
  }

  /** The title loop: each title word longer than 4 characters is appended
      unless it is already in the list. */
  function TitleTags(tags: seq<string>, words: seq<string>): (r: seq<string>)
    ensures |tags| <= |r| && r[..|tags|] == tags
    ensures forall x :: x in r ==> x in tags || (x in words && |x| > 4)
    ensures forall w :: w in words && |w| > 4 ==> w in r
    decreases |words|
  {
    if words == [] then tags
    else
      var t := TitleTags(tags, words[..|words| - 1]);
      var w := words[|words| - 1];
      assert words == words[..|words| - 1] + [w];
      if |w| > 4 && w !in t then t + [w] else t
  }

  /** The list before `dict.fromkeys`: the lower-cased category, the keyword
      words longer than 3 characters, then the new title words. */
  function RawTags(keyword: string, title: string, category: string): seq<string> {
    TitleTags([Text.Lower(category)] + Seqs.Filter(LongerThan(3), Text.Words(Text.Lower(keyword))),
              Text.Words(Text.Lower(title)))
  }

  /** `list(dict.fromkeys(tags))[:5]`. */
  function AutoTags(keyword: string, title: string, category: string): seq<string> {
    Text.Take(Seqs.Distinct(RawTags(keyword, title, category)), 5)
  }

  lemma KeywordStep(ws: seq<string>, i: nat)
    requires i < |ws|
    ensures Seqs.Filter(LongerThan(3), ws[..i + 1])
            == Seqs.Filter(LongerThan(3), ws[..i]) + (if |ws[i]| > 3 then [ws[i]] else [])
  {
    assert ws[..i + 1][..i] == ws[..i];
  }

  lemma TitleStep(base: seq<string>, ws: seq<string>, i: nat)
    requires i < |ws|
    ensures TitleTags(base, ws[..i + 1])
            == var t := TitleTags(base, ws[..i]);
               if |ws[i]| > 4 && ws[i] !in t then t + [ws[i]] else t
  {
    assert ws[..i + 1][..i] == ws[..i];
  }

  /** Where each entry of the list before de-duplication comes from. */
  lemma RawTagsOrigin(keyword: string, title: string, category: string)
    ensures var raw := RawTags(keyword, title, category);
      && raw != [] && raw[0] == Text.Lower(category)
      && forall t :: t in raw ==>
           || t == Text.Lower(category)
           || (t in Text.Words(Text.Lower(keyword)) && |t| > 3)
           || (t in Text.Words(Text.Lower(title)) && |t| > 4)
  {
    var raw := RawTags(keyword, title, category);
    var kws := Seqs.Filter(LongerThan(3), Text.Words(Text.Lower(keyword)));
    var base := [Text.Lower(category)] + kws;
    assert raw[..|base|] == base;
    assert raw[0] == base[0];
    forall t | t in base && t != Text.Lower(category)
      ensures t in Text.Words(Text.Lower(keyword)) && |t| > 3
    {
      assert t in kws;
    }
  }

  method GenerateAutoTags(keyword: string, title: string, category: string) returns (tags: seq<string>)
    ensures tags == AutoTags(keyword, title, category)
  {
    tags := [];
    tags := tags + [Text.Lower(category)];
    var keywordWords := Text.Words(Text.Lower(keyword));
    for i := 0 to |keywordWords|
      invariant tags == [Text.Lower(category)] + Seqs.Filter(LongerThan(3), keywordWords[..i])
    {
      KeywordStep(keywordWords, i);
      if |keywordWords[i]| > 3 {
        tags := tags + [keywordWords[i]];
      }
    }
    assert keywordWords[..|keywordWords|] == keywordWords;
    ghost var base := tags;
    var titleWords := Text.Words(Text.Lower(title));
    for i := 0 to |titleWords|
      invariant tags == TitleTags(base, titleWords[..i])
    {
      TitleStep(base, titleWords, i);
      var word := titleWords[i];
      if |word| > 4 && word !in tags {
        tags := tags + [word];
      }
    }
    assert titleWords[..|titleWords|] == titleWords;
    tags := Text.Take(Seqs.Distinct(tags), 5);
  }

  /** Between one and five distinct tags, the first being the lower-cased
      category; every other tag is a keyword word longer than 3 characters or
      a title word longer than 4. */
  lemma AutoTagsShape(keyword: string, title: string, category: string)
    ensures var r := AutoTags(keyword, title, category);
      && 1 <= |r| <= 5
      && Seqs.NoDuplicates(r)
      && r[0] == Text.Lower(category)
      && forall t :: t in r ==>
           || t == Text.Lower(category)
           || (t in Text.Words(Text.Lower(keyword)) && |t| > 3)
           || (t in Text.Words(Text.Lower(title)) && |t| > 4)
  {
    var raw := RawTags(keyword, title, category);
    RawTagsOrigin(keyword, title, category);
    Seqs.DistinctHead(raw);
    var d := Seqs.Distinct(raw);
    var r := AutoTags(keyword, title, category);
    assert r == d[..|r|];
    assert forall t :: t in r ==> t in d;
  }

  /** Every tag is lower case: its characters come from the lower-cased
      category, keyword or title. */
  lemma AutoTagsLowerCase(keyword: string, title: string, category: string)
    ensures forall t, i :: t in AutoTags(keyword, title, category) && 0 <= i < |t| ==> Text.IsLowerAscii(t[i])
  {
    AutoTagsShape(keyword, title, category);
    Text.LowerIdempotent(category);
    Text.LowerIdempotent(keyword);
    Text.LowerIdempotent(title);
    forall t, i | t in AutoTags(keyword, title, category) && 0 <= i < |t|
      ensures Text.IsLowerAscii(t[i])
    {
      if t in Text.Words(Text.Lower(keyword)) && |t| > 3 {
        var ws := Text.Words(Text.Lower(keyword));
        var k :| 0 <= k < |ws| && ws[k] == t;
        assert ws[k][i] in Text.Lower(keyword);
      } else if t in Text.Words(Text.Lower(title)) && |t| > 4 {
        var ws := Text.Words(Text.Lower(title));
        var k :| 0 <= k < |ws| && ws[k] == t;
        assert ws[k][i] in Text.Lower(title);
      }
    }
  }

  /** Nothing qualifying is lost unless the cut at five drops it: when the
      de-duplicated list has at most five tags, every keyword word longer than
      3 characters and every title word longer than 4 is a tag. */
  lemma AutoTagsComplete(keyword: string, title: string, category: string)
    requires |Seqs.Distinct(RawTags(keyword, title, category))| <= 5
    ensures forall w :: w in Text.Words(Text.Lower(keyword)) && |w| > 3 ==> w in AutoTags(keyword, title, category)
    ensures forall w :: w in Text.Words(Text.Lower(title)) && |w| > 4 ==> w in AutoTags(keyword, title, category)
  {
    var raw := RawTags(keyword, title, category);
    var base := [Text.Lower(category)] + Seqs.Filter(LongerThan(3), Text.Words(Text.Lower(keyword)));
    assert raw[..|base|] == base;
    assert AutoTags(keyword, title, category) == Seqs.Distinct(raw);
    forall w | w in Text.Words(Text.Lower(keyword)) && |w| > 3
      ensures w in raw
    {
      assert w in Seqs.Filter(LongerThan(3), Text.Words(Text.Lower(keyword)));
      assert w in base;
    }
  }
}
