/** The content helpers of the Streamlit dashboard: the account-name slugger
    used for `workers.dev` subdomains, image insertion into generated
    content, and the filters of the post list. */
module Dashboard {
  import opened Wrappers
  import Text
  import Seqs
  import opened PostStore

  // ---------------------------------------------------------------------------
  // format_account_name

  /** `account_name.split('@')[0]` when the name contains `@`. */
  function BeforeAt(s: string): (r: string)
    ensures Text.NoChar(r, '@')
  {
    if '@' in s then
      Text.SplitJoin(s, '@');
      Text.Split(s, '@')[0]
    else s
  }

  /** The length of a match of `'s?account`, ignoring case, at the start of
      `s`, or 0. The optional `s` is greedy: `'saccount` is tried first. */
  function AccountMatch(s: string): nat {
    if |s| >= 9 && s[0] == '\'' && Text.Lower(s[1..9]) == "saccount" then 9
    else if |s| >= 8 && s[0] == '\'' && Text.Lower(s[1..8]) == "account" then 8
    else 0
  }

  /** `re.sub(r"'s?account", "", s, flags=re.IGNORECASE)`: matches are removed
      left to right without overlapping. */
  function RemoveAccount(s: string): (r: string)
    ensures |r| <= |s|
    decreases |s|
  {
    if s == [] then []
    else if AccountMatch(s) > 0 then RemoveAccount(s[AccountMatch(s)..])
    else [s[0]] + RemoveAccount(s[1..])
  }

  /** A name without an apostrophe has nothing to remove. */
  lemma {:induction false} RemoveAccountWithoutApostrophe(s: string)
    requires Text.NoChar(s, '\'')
    ensures RemoveAccount(s) == s
    decreases |s|
  {
    if s != [] {
      assert s[0] != '\'';
      RemoveAccountWithoutApostrophe(s[1..]);
      assert s == [s[0]] + s[1..];
    }
  }

  /** `[a-zA-Z0-9-]`. */
  predicate IsSlugChar(c: char) {
    ('a' <= c <= 'z') || ('A' <= c <= 'Z') || ('0' <= c <= '9') || c == '-'
  }

  /** A character of a DNS label: `[a-z0-9-]`. */
  predicate IsLabelChar(c: char) {
    ('a' <= c <= 'z') || ('0' <= c <= '9') || c == '-'
  }

  predicate NoDoubleDash(s: string) {
    forall i :: 0 <= i < |s| - 1 ==> !(s[i] == '-' && s[i + 1] == '-')
  }

  /** `re.sub(r'-+', '-', s)`: each run of dashes becomes one dash. */
  function CollapseDashes(s: string): (r: string)
    ensures |r| <= |s|
    ensures forall i :: 0 <= i < |r| ==> r[i] in s
    ensures s != [] ==> r != [] && r[0] == s[0]
    ensures NoDoubleDash(r)
    decreases |s|
  {
    if |s| >= 2 && s[0] == '-' && s[1] == '-' then
      var r := CollapseDashes(s[1..]);
      assert forall c :: c in s[1..] ==> c in s;
      r
    else if s == [] then []
    else
      var r := CollapseDashes(s[1..]);
      assert forall c :: c in s[1..] ==> c in s;
      [s[0]] + r
  }

  /** One step of the collapse, on the first character. */
  lemma CollapseCons(s: string, c: char, t: string)
    requires s == [c] + t
    ensures CollapseDashes(s)
            == if c == '-' && t != [] && t[0] == '-' then CollapseDashes(t) else [c] + CollapseDashes(t)
  {
    assert s[1..] == t;
  }

  /** A string without a double dash is left as it is. */
  lemma {:induction false} CollapseKeepsClean(s: string)
    requires NoDoubleDash(s)
    ensures CollapseDashes(s) == s
    decreases |s|
  {
    if s != [] {
      var t := s[1..];
      assert NoDoubleDash(t) by {
        forall i | 0 <= i < |t| - 1 ensures !(t[i] == '-' && t[i + 1] == '-') {
          assert t[i] == s[i + 1] && t[i + 1] == s[i + 2];
        }
      }
      CollapseKeepsClean(t);
      assert s == [s[0]] + t;
      CollapseCons(s, s[0], t);
    }
  }

  /** Shortening a run of two or more dashes by one changes nothing: so a
      run of any length collapses to the same single dash. */
  lemma {:induction false} CollapseRun(x: string, y: string)
    ensures CollapseDashes(x + "--" + y) == CollapseDashes(x + "-" + y)
    decreases |x|
  {
    var s1 := x + "--" + y;
    var s2 := x + "-" + y;
    if x == [] {
      assert s1 == ['-'] + s2;
      CollapseCons(s1, '-', s2);
    } else {
      var t1 := x[1..] + "--" + y;
      var t2 := x[1..] + "-" + y;
      CollapseRun(x[1..], y);
      assert s1 == [x[0]] + t1;
      assert s2 == [x[0]] + t2;
      assert t1 != [] && t2 != [] && t1[0] == t2[0];
      CollapseCons(s1, x[0], t1);
      CollapseCons(s2, x[0], t2);
    }
  }

  /** `strip('-')` keeps a middle part, so it adds no double dash. */
  lemma {:induction false} StripDashKeepsNoDoubleDash(s: string)
    requires NoDoubleDash(s)
    ensures NoDoubleDash(Text.StripChar(s, '-'))
    decreases |s|
  {
    if s != [] {
      if s[0] == '-' {
        StripDashKeepsNoDoubleDash(s[1..]);
      } else if s[|s| - 1] == '-' {
        StripDashKeepsNoDoubleDash(s[..|s| - 1]);
      }
    }
  }

  predicate NotDash(c: char) { c != '-' }

  /** A letter or digit: `[a-zA-Z0-9]`. */
  predicate IsAlnum(c: char) {
    ('a' <= c <= 'z') || ('A' <= c <= 'Z') || ('0' <= c <= '9')
  }

  /** Collapsing dash runs removes only dashes: every other character stays,
      in order. */
  lemma {:induction false} CollapseKeepsNonDashes(s: string)
    ensures Seqs.Filter(NotDash, CollapseDashes(s)) == Seqs.Filter(NotDash, s)
    decreases |s|
  {
    if s != [] {
      var t := s[1..];
      assert s == [s[0]] + t;
      CollapseKeepsNonDashes(t);
      FilterCons(s, s[0], t);
      CollapseCons(s, s[0], t);
      if !(s[0] == '-' && t != [] && t[0] == '-') {
        FilterCons([s[0]] + CollapseDashes(t), s[0], CollapseDashes(t));
      }
    }
  }

  /** Dropping the dashes from `[c] + t`. */
  lemma FilterCons(s: string, c: char, t: string)
    requires s == [c] + t
    ensures Seqs.Filter(NotDash, s) == (if c == '-' then [] else [c]) + Seqs.Filter(NotDash, t)
  {
    Seqs.FilterConcat(NotDash, [c], t);
    Seqs.FilterSingle(NotDash, c);
  }

  /** `strip('-')` removes only dashes. */
  lemma {:induction false} StripKeepsNonDashes(s: string)
    ensures Seqs.Filter(NotDash, Text.StripChar(s, '-')) == Seqs.Filter(NotDash, s)
    decreases |s|
  {
    if s != [] {
      if s[0] == '-' {
        var t := s[1..];
        assert s == [s[0]] + t;
        StripKeepsNonDashes(t);
        FilterCons(s, '-', t);
      } else if s[|s| - 1] == '-' {
        var q := s[..|s| - 1];
        assert s == q + [s[|s| - 1]];
        StripKeepsNonDashes(q);
        DropTrailingDash(s, q);
      }
    }
  }

  lemma DropTrailingDash(s: string, q: string)
    requires s == q + ['-']
    ensures Seqs.Filter(NotDash, s) == Seqs.Filter(NotDash, q)
  {
    Seqs.FilterConcat(NotDash, q, ['-']);
    Seqs.FilterSingle(NotDash, '-');
  }

  /** Lower-casing maps dashes to dashes and nothing else to a dash, so it
      commutes with dropping the dashes. */
  lemma {:induction false} LowerKeepsNonDashes(s: string)
    ensures Seqs.Filter(NotDash, Text.Lower(s)) == Text.Lower(Seqs.Filter(NotDash, s))
    decreases |s|
  {
    if s != [] {
      var q := s[..|s| - 1];
      var x := s[|s| - 1];
      LowerKeepsNonDashes(q);
      assert s == q + [x];
      Text.LowerConcat(q, [x]);
      LowerSnocFilter(q, x, Text.Lower(q), Seqs.Filter(NotDash, q));
    }
  }

  lemma LowerSnocFilter(q: string, x: char, lq: string, fq: string)
    requires lq == Text.Lower(q) && fq == Seqs.Filter(NotDash, q)
    requires Seqs.Filter(NotDash, lq) == Text.Lower(fq)
    ensures Seqs.Filter(NotDash, lq + Text.Lower([x])) == Text.Lower(Seqs.Filter(NotDash, q + [x]))
  {
    var lx := Text.LowerChar(x);
    assert Text.Lower([x]) == [lx];
    Seqs.FilterConcat(NotDash, lq, [lx]);
    Seqs.FilterSingle(NotDash, lx);
    Seqs.FilterConcat(NotDash, q, [x]);
    Seqs.FilterSingle(NotDash, x);
    Text.LowerConcat(fq, [x]);
  }

  /** The label keeps every letter and digit of the name before `@` (without
      `'s?account`), lower-cased and in order; all else it holds is dashes. */
  lemma LabelLetters(name: string)
    ensures Seqs.Filter(NotDash, Label(name))
            == Text.Lower(Seqs.Filter(IsAlnum, RemoveAccount(BeforeAt(name))))
  {
    var base := RemoveAccount(BeforeAt(name));
    var cleaned := Seqs.Filter(IsSlugChar, base);
    var collapsed := CollapseDashes(cleaned);
    var stripped := Text.StripChar(collapsed, '-');
    LowerKeepsNonDashes(stripped);
    StripKeepsNonDashes(collapsed);
    CollapseKeepsNonDashes(cleaned);
    Seqs.FilterFilter(IsSlugChar, NotDash, IsAlnum, base);
  }

  /** The label before the 63-character cut: the part before `@`, without
      `'s?account`, reduced to `[a-zA-Z0-9-]`, with dash runs collapsed and
      dashes stripped from both ends, lower-cased. */
  function Label(name: string): string {
    var cleaned := Seqs.Filter(IsSlugChar, RemoveAccount(BeforeAt(name)));
    Text.Lower(Text.StripChar(CollapseDashes(cleaned), '-'))
  }

  /** `format_account_name`; None stands for a missing name. */
  function FormatAccountName(name: Option<string>): Option<string> {
    if name.None? || name.value == [] then None
    else
      var slug := Label(name.value);
      if slug == [] then Some("user") else Some(Text.Take(slug, 63))
  }

  /** The label is made of `[a-z0-9-]`, has no double dash and starts and
      ends with a letter or digit. */
  lemma LabelShape(name: string)
    ensures var l := Label(name);
      && (forall i :: 0 <= i < |l| ==> IsLabelChar(l[i]))
      && NoDoubleDash(l)
      && (l == [] || (l[0] != '-' && l[|l| - 1] != '-'))
  {
    var cleaned := Seqs.Filter(IsSlugChar, RemoveAccount(BeforeAt(name)));
    var collapsed := CollapseDashes(cleaned);
    var stripped := Text.StripChar(collapsed, '-');
    StripDashKeepsNoDoubleDash(collapsed);
    SlugCharsKept(cleaned, collapsed, stripped);
    assert Label(name) == Text.Lower(stripped);
    LowerSlug(stripped);
  }

  /** Collapsing and stripping add no character, so only slug characters stay. */
  lemma SlugCharsKept(cleaned: string, collapsed: string, stripped: string)
    requires forall c :: c in cleaned ==> IsSlugChar(c)
    requires collapsed == CollapseDashes(cleaned)
    requires stripped == Text.StripChar(collapsed, '-')
    ensures forall i :: 0 <= i < |stripped| ==> IsSlugChar(stripped[i])
  {
    forall i | 0 <= i < |stripped| ensures IsSlugChar(stripped[i]) {
      assert stripped[i] in collapsed;
      assert stripped[i] in cleaned;
    }
  }

  /** Lower-casing a slug gives label characters and keeps the dashes where
      they were. */
  lemma LowerSlug(s: string)
    requires forall i :: 0 <= i < |s| ==> IsSlugChar(s[i])
    requires NoDoubleDash(s) && (s == [] || (s[0] != '-' && s[|s| - 1] != '-'))
    ensures var l := Text.Lower(s);
      && (forall i :: 0 <= i < |l| ==> IsLabelChar(l[i]))
      && NoDoubleDash(l)
      && (l == [] || (l[0] != '-' && l[|l| - 1] != '-'))
  {
    var l := Text.Lower(s);
    forall i | 0 <= i < |l| ensures IsLabelChar(l[i]) && (l[i] == '-' <==> s[i] == '-') {
      LowerSlugChar(s[i]);
    }
    forall i | 0 <= i < |l| - 1 ensures !(l[i] == '-' && l[i + 1] == '-') {
      LowerSlugChar(s[i]);
      LowerSlugChar(s[i + 1]);
    }
  }

  lemma LowerSlugChar(c: char)
    requires IsSlugChar(c)
    ensures IsLabelChar(Text.LowerChar(c)) && (Text.LowerChar(c) == '-' <==> c == '-')
  {
  }

  /** No name, no subdomain; otherwise a valid label of 1 to 63 characters
      from `[a-z0-9-]`, with no double dash and no leading dash; "user" when
      nothing survives the cleanup. The result ends with a dash only when the
      cut at 63 characters lands just after one. */
  lemma FormatAccountNameShape(name: Option<string>)
    ensures var r := FormatAccountName(name);
      && (r.Some? <==> name.Some? && name.value != [])
      && (r.Some? ==>
            && 1 <= |r.value| <= 63
            && (forall i :: 0 <= i < |r.value| ==> IsLabelChar(r.value[i]))
            && NoDoubleDash(r.value)
            && r.value[0] != '-')
      && (r.Some? && Label(name.value) == [] ==> r.value == "user")
      && (r.Some? && r.value[|r.value| - 1] == '-' ==> |Label(name.value)| > 63)
  {
    if name.Some? && name.value != [] {
      var l := Label(name.value);
      var r := FormatAccountName(name);
      assert r == if l == [] then Some("user") else Some(Text.Take(l, 63));
      LabelShape(name.value);
      AccountLabelShape(l, r.value);
    }
  }

  /** What the subdomain says: "user" exactly when the name has no letter or
      digit before `@` (once `'s?account` is removed); otherwise the first 63
      characters of the label, whose letters and digits are the name's,
      lower-cased and in order. */
  lemma FormatAccountNameContent(name: string)
    requires name != []
    ensures var r := FormatAccountName(Some(name));
      var l := Label(name);
      var letters := Seqs.Filter(IsAlnum, RemoveAccount(BeforeAt(name)));
      && (letters == [] ==> r == Some("user"))
      && (letters != [] ==>
            && l != []
            && |r.value| == (if |l| < 63 then |l| else 63)
            && r.value == l[..|r.value|]
            && Seqs.Filter(NotDash, l) == Text.Lower(letters))
  {
    var l := Label(name);
    var letters := Seqs.Filter(IsAlnum, RemoveAccount(BeforeAt(name)));
    LabelLetters(name);
    LabelShape(name);
    LabelEmptyIff(l, letters);
    var r := FormatAccountName(Some(name));
    assert r == if l == [] then Some("user") else Some(Text.Take(l, 63));
  }

  /** A label that starts with a letter or digit is empty exactly when it
      keeps no letter or digit. */
  lemma LabelEmptyIff(l: string, letters: string)
    requires l == [] || l[0] != '-'
    requires Seqs.Filter(NotDash, l) == Text.Lower(letters)
    ensures l == [] <==> letters == []
  {
    assert l != [] ==> l[0] in Seqs.Filter(NotDash, l);
    assert l == [] ==> Seqs.Filter(NotDash, l) == [];
  }

  /** A name that already is a valid label of at most 63 characters is its
      own subdomain: `john-doe` stays `john-doe`. */
  lemma CleanLabelKept(name: string)
    requires 1 <= |name| <= 63
    requires forall i :: 0 <= i < |name| ==> IsLabelChar(name[i])
    requires NoDoubleDash(name) && name[0] != '-' && name[|name| - 1] != '-'
    ensures FormatAccountName(Some(name)) == Some(name)
  {
    LabelCharsOnly(name);
    var base := RemoveAccount(BeforeAt(name));
    assert base == name by {
      assert BeforeAt(name) == name;
      RemoveAccountWithoutApostrophe(name);
    }
    var cleaned := Seqs.Filter(IsSlugChar, base);
    assert cleaned == name by {
      Seqs.FilterAll(IsSlugChar, name);
    }
    var collapsed := CollapseDashes(cleaned);
    assert collapsed == name by {
      CollapseKeepsClean(name);
    }
    var stripped := Text.StripChar(collapsed, '-');
    assert stripped == name;
    assert Label(name) == Text.Lower(stripped);
    LowerOfLabel(name);
    assert Text.Take(name, 63) == name;
  }

  /** Label characters are neither `@` nor an apostrophe, and are slug
      characters. */
  lemma LabelCharsOnly(s: string)
    requires forall i :: 0 <= i < |s| ==> IsLabelChar(s[i])
    ensures '@' !in s && Text.NoChar(s, '\'') && forall c :: c in s ==> IsSlugChar(c)
  {
    forall c | c in s ensures IsLabelChar(c) {
      var i :| 0 <= i < |s| && s[i] == c;
    }
  }

  /** Lower-casing leaves label characters alone. */
  lemma LowerOfLabel(s: string)
    requires forall i :: 0 <= i < |s| ==> IsLabelChar(s[i])
    ensures Text.Lower(s) == s
  {
    var l := Text.Lower(s);
    forall i | 0 <= i < |s| ensures l[i] == s[i] {
      assert l[i] == Text.LowerChar(s[i]);
    }
  }

  /** The subdomain chosen from a label `l` of the shape `LabelShape` gives. */
  lemma AccountLabelShape(l: string, a: string)
    requires a == if l == [] then "user" else Text.Take(l, 63)
    requires forall i :: 0 <= i < |l| ==> IsLabelChar(l[i])
    requires NoDoubleDash(l) && (l == [] || (l[0] != '-' && l[|l| - 1] != '-'))
    ensures && 1 <= |a| <= 63
            && (forall i :: 0 <= i < |a| ==> IsLabelChar(a[i]))
            && NoDoubleDash(a)
            && a[0] != '-'
            && (l == [] ==> a == "user")
            && (a[|a| - 1] == '-' ==> |l| > 63)
  {
    if l == [] {
      UserLabel();
    } else {
      CutLabel(l);
    }
  }

  /** The fallback "user" is a valid label. */
  lemma UserLabel()
    ensures var u := "user";
      && (forall i :: 0 <= i < |u| ==> IsLabelChar(u[i]))
      && NoDoubleDash(u) && u[0] != '-' && u[|u| - 1] != '-'
  {
  }

  /** Cutting a label at 63 characters keeps its shape except possibly a
      dash at the new end. */
  lemma CutLabel(l: string)
    requires l != []
    requires forall i :: 0 <= i < |l| ==> IsLabelChar(l[i])
    requires NoDoubleDash(l) && l[0] != '-' && l[|l| - 1] != '-'
    ensures var t := Text.Take(l, 63);
      && 1 <= |t| <= 63
      && (forall i :: 0 <= i < |t| ==> IsLabelChar(t[i]))
      && NoDoubleDash(t)
      && t[0] != '-'
      && (t[|t| - 1] == '-' ==> |l| > 63)
  {
    var t := Text.Take(l, 63);
    assert forall i :: 0 <= i < |t| ==> t[i] == l[i];
  }

  /** Only the text before the first `@` counts: `name@domain` gives the
      subdomain of `name`, and "user" when nothing comes before the `@`. */
  lemma OnlyBeforeAtMatters(local: string, domain: string)
    requires Text.NoChar(local, '@')
    ensures FormatAccountName(Some(local + "@" + domain))
            == if local == [] then Some("user") else FormatAccountName(Some(local))
  {
    var s := local + "@" + domain;
    Text.SplitConcat(local, '@', domain);
    assert s == local + ['@'] + domain;
    assert s[|local|] == '@';
    assert BeforeAt(s) == local;
    assert '@' !in local;
  }

  // ---------------------------------------------------------------------------
  // insert_images_to_content

  /** The state of the insertion loop after a number of lines: the output
      lines, which of them were inserted, the paragraph count and the index
      of the next image. */
  datatype Scan = Scan(lines: seq<string>, added: seq<bool>, paragraphs: nat, images: nat)

  const ImageStyle: string := "width: 100%; max-width: 600px; height: auto; border-radius: 8px; margin: 1rem 0;"

  /** The `<img>` line for one image. */
  function ImageTag(url: string, keyword: string): string {
    "<img src=\"" + url + "\" alt=\"" + keyword + "\" style=\"" + ImageStyle + "\">"
  }

  /** `not line.strip()`: the line is whitespace only. */
  predicate Blank(line: string) {
    forall k :: 0 <= k < |line| ==> Text.IsSpace(line[k])
  }

  /** Line `i` ends a paragraph: it is not blank and the next line is. */
  predicate EndsParagraph(lines: seq<string>, i: nat)
    requires i < |lines|
  {
    !Blank(lines[i]) && i < |lines| - 1 && Blank(lines[i + 1])
  }

  /** `EndsParagraph` is the source's test `line.strip() and i < len(lines) - 1
      and not lines[i + 1].strip()`. */
  lemma EndsParagraphByStrip(lines: seq<string>, i: nat)
    requires i < |lines|
    ensures EndsParagraph(lines, i)
        <==> Text.Strip(lines[i]) != [] && i < |lines| - 1 && Text.Strip(lines[i + 1]) == []
  {
    Text.StripEmptyIffBlank(lines[i]);
    if i < |lines| - 1 {
      Text.StripEmptyIffBlank(lines[i + 1]);
    }
  }

  /** An image goes after the first paragraph and after every third. */
  predicate ImageSlot(count: nat) {
    count == 1 || count % 3 == 0
  }

  /** One iteration of the loop, for a line that does or does not end a
      paragraph. */
  function Step(st: Scan, line: string, ends: bool, urls: seq<string>, keyword: string): Scan {
    var out := st.lines + [line];
    var marks := st.added + [false];
    if ends then
      var count := st.paragraphs + 1;
      if ImageSlot(count) && st.images < |urls| then
        Scan(out + [""] + [ImageTag(urls[st.images], keyword)] + [""], marks + [true] + [true] + [true],
             count, st.images + 1)
      else Scan(out, marks, count, st.images)
    else Scan(out, marks, st.paragraphs, st.images)
  }

  /** Which lines end a paragraph. */
  function ParagraphEnds(lines: seq<string>): (e: seq<bool>)
    ensures |e| == |lines|
  {
    seq(|lines|, i requires 0 <= i < |lines| => EndsParagraph(lines, i))
  }

  /** The loop over the first `n` lines, given which lines end a paragraph. */
  function ScanLines(lines: seq<string>, ends: seq<bool>, urls: seq<string>, keyword: string, n: nat): Scan
    requires |ends| == |lines| && n <= |lines|
    decreases n
  {
    if n == 0 then Scan([], [], 0, 0)
    else Step(ScanLines(lines, ends, urls, keyword, n - 1), lines[n - 1], ends[n - 1], urls, keyword)
  }

  function InsertImages(content: string, urls: seq<string>, keyword: string): string {
    if urls == [] then content
    else
      var lines := Text.Split(content, '\n');
      Text.Join(ScanLines(lines, ParagraphEnds(lines), urls, keyword, |lines|).lines, "\n")
  }

  /** `insert_images_to_content`. */
  method InsertImagesToContent(content: string, urls: seq<string>, keyword: string) returns (r: string)
    ensures r == InsertImages(content, urls, keyword)
  {
    if urls == [] {
      return content;
    }
    var lines := Text.Split(content, '\n');
    var newLines: seq<string> := [];
    ghost var added: seq<bool> := [];
    var imageIndex := 0;
    var paragraphCount := 0;
    ghost var pe := ParagraphEnds(lines);
    for i := 0 to |lines|
      invariant ScanLines(lines, pe, urls, keyword, i) == Scan(newLines, added, paragraphCount, imageIndex)
    {
      ghost var prev := Scan(newLines, added, paragraphCount, imageIndex);
      var ends := EndsParagraph(lines, i);
      newLines := newLines + [lines[i]];
      added := added + [false];
      if ends {
        paragraphCount := paragraphCount + 1;
        if ImageSlot(paragraphCount) && imageIndex < |urls| {
          var tag := ImageTag(urls[imageIndex], keyword);
          newLines := newLines + [""];
          newLines := newLines + [tag];
          newLines := newLines + [""];
          added := added + [true] + [true] + [true];
          imageIndex := imageIndex + 1;
          assert Step(prev, lines[i], ends, urls, keyword)
              == Scan(prev.lines + [lines[i]] + [""] + [tag] + [""], prev.added + [false] + [true] + [true] + [true],
                      paragraphCount, imageIndex);
        } else {
          assert Step(prev, lines[i], ends, urls, keyword)
              == Scan(prev.lines + [lines[i]], prev.added + [false], paragraphCount, imageIndex);
        }
      } else {
        assert Step(prev, lines[i], ends, urls, keyword)
            == Scan(prev.lines + [lines[i]], prev.added + [false], paragraphCount, imageIndex);
      }
    }
    r := Text.Join(newLines, "\n");
  }

  /** The entries not marked, in order. */
  function Kept(xs: seq<string>, marks: seq<bool>): seq<string>
    requires |xs| == |marks|
    decreases |xs|
  {
    if xs == [] then []
    else Kept(xs[..|xs| - 1], marks[..|xs| - 1]) + (if marks[|xs| - 1] then [] else [xs[|xs| - 1]])
  }

  /** The entries marked, in order. */
  function Picked(xs: seq<string>, marks: seq<bool>): seq<string>
    requires |xs| == |marks|
    decreases |xs|
  {
    if xs == [] then []
    else Picked(xs[..|xs| - 1], marks[..|xs| - 1]) + (if marks[|xs| - 1] then [xs[|xs| - 1]] else [])
  }

  /** Appending one entry adds it to the kept or the picked entries. */
  lemma AppendOne(xs: seq<string>, marks: seq<bool>, x: string, mark: bool)
    requires |xs| == |marks|
    ensures Kept(xs + [x], marks + [mark]) == Kept(xs, marks) + (if mark then [] else [x])
    ensures Picked(xs + [x], marks + [mark]) == Picked(xs, marks) + (if mark then [x] else [])
  {
    assert (xs + [x])[..|xs|] == xs;
    assert (marks + [mark])[..|xs|] == marks;
  }

  /** Appending three marked entries adds them, in order, to the picked ones. */
  lemma AppendTriple(xs: seq<string>, marks: seq<bool>, a: string, b: string, c: string)
    requires |xs| == |marks|
    ensures Kept(xs + [a] + [b] + [c], marks + [true] + [true] + [true]) == Kept(xs, marks)
    ensures Picked(xs + [a] + [b] + [c], marks + [true] + [true] + [true]) == Picked(xs, marks) + [a] + [b] + [c]
  {
    AppendOne(xs, marks, a, true);
    AppendOne(xs + [a], marks + [true], b, true);
    AppendOne(xs + [a] + [b], marks + [true] + [true], c, true);
  }

  /** The images in insertion order, each between two empty lines. */
  function Triples(urls: seq<string>, keyword: string, m: nat): seq<string>
    requires m <= |urls|
  {
    if m == 0 then [] else Triples(urls, keyword, m - 1) + [""] + [ImageTag(urls[m - 1], keyword)] + [""]
  }

  /** Copying line `i` extends the kept lines by it. */
  lemma CopyStepRecovers(xs: seq<string>, marks: seq<bool>, lines: seq<string>, i: nat)
    requires i < |lines| && |xs| == |marks| && Kept(xs, marks) == lines[..i]
    ensures Kept(xs + [lines[i]], marks + [false]) == lines[..i + 1]
    ensures Picked(xs + [lines[i]], marks + [false]) == Picked(xs, marks)
  {
    AppendOne(xs, marks, lines[i], false);
    assert lines[..i + 1] == lines[..i] + [lines[i]];
  }

  /** Copying line `i` and inserting image `m` extends the kept lines by the
      line and the picked lines by the image's triple. */
  lemma ImageStepRecovers(xs: seq<string>, marks: seq<bool>, lines: seq<string>, i: nat,
                          urls: seq<string>, keyword: string, m: nat)
    requires i < |lines| && |xs| == |marks| && m < |urls|
    requires Kept(xs, marks) == lines[..i] && Picked(xs, marks) == Triples(urls, keyword, m)
    ensures var out, tag := xs + [lines[i]], ImageTag(urls[m], keyword);
      && Kept(out + [""] + [tag] + [""], marks + [false] + [true] + [true] + [true]) == lines[..i + 1]
      && Picked(out + [""] + [tag] + [""], marks + [false] + [true] + [true] + [true]) == Triples(urls, keyword, m + 1)
  {
    CopyStepRecovers(xs, marks, lines, i);
    AppendTriple(xs + [lines[i]], marks + [false], "", ImageTag(urls[m], keyword), "");
  }

  /** The scan state after `n` lines: deleting the inserted lines gives the
      first `n` lines back, and the inserted lines are the triples of the
      first `s.images` images. */
  predicate Recovers(s: Scan, lines: seq<string>, n: nat, urls: seq<string>, keyword: string)
    requires n <= |lines|
  {
    && |s.lines| == |s.added| && s.images <= |urls|
    && Kept(s.lines, s.added) == lines[..n]
    && Picked(s.lines, s.added) == Triples(urls, keyword, s.images)
    && |s.lines| == n + 3 * s.images
  }

  /** One iteration keeps the correspondence between the output, the
      original lines and the images inserted so far. */
  lemma StepRecovers(st: Scan, lines: seq<string>, ends: bool, urls: seq<string>, keyword: string, i: nat)
    requires i < |lines| && Recovers(st, lines, i, urls, keyword)
    ensures Recovers(Step(st, lines[i], ends, urls, keyword), lines, i + 1, urls, keyword)
  {
    var next := Step(st, lines[i], ends, urls, keyword);
    var out := st.lines + [lines[i]];
    var marks := st.added + [false];
    if ends && ImageSlot(st.paragraphs + 1) && st.images < |urls| {
      var tag := ImageTag(urls[st.images], keyword);
      assert next == Scan(out + [""] + [tag] + [""], marks + [true] + [true] + [true],
                          st.paragraphs + 1, st.images + 1);
      ImageStepRecovers(st.lines, st.added, lines, i, urls, keyword, st.images);
    } else {
      assert next.lines == out && next.added == marks && next.images == st.images;
      CopyStepRecovers(st.lines, st.added, lines, i);
    }
  }

  /** Deleting the inserted lines gives back the original lines; the
      inserted lines are, in order, an empty line, the tag of `urls[k]` and an
      empty line for k = 0, 1, ..., with at most one image per URL. */
  lemma {:induction false} ScanRecovers(lines: seq<string>, ends: seq<bool>, urls: seq<string>, keyword: string, n: nat)
    requires |ends| == |lines| && n <= |lines|
    ensures var s := ScanLines(lines, ends, urls, keyword, n);
      && |s.lines| == |s.added| && s.images <= |urls|
      && Kept(s.lines, s.added) == lines[..n]
      && Picked(s.lines, s.added) == Triples(urls, keyword, s.images)
      && |s.lines| == n + 3 * s.images
  {
    ScanInvariant(lines, ends, urls, keyword, n);
  }

  lemma {:induction false} ScanInvariant(lines: seq<string>, ends: seq<bool>, urls: seq<string>, keyword: string, n: nat)
    requires |ends| == |lines| && n <= |lines|
    ensures Recovers(ScanLines(lines, ends, urls, keyword, n), lines, n, urls, keyword)
    decreases n
  {
    if n > 0 {
      var prev := ScanLines(lines, ends, urls, keyword, n - 1);
      assert Recovers(prev, lines, n - 1, urls, keyword) by {
        ScanInvariant(lines, ends, urls, keyword, n - 1);
      }
      assert ScanLines(lines, ends, urls, keyword, n) == Step(prev, lines[n - 1], ends[n - 1], urls, keyword);
      StepRecovers(prev, lines, ends[n - 1], urls, keyword, n - 1);
    } else {
      var empty: seq<string> := [];
      assert ScanLines(lines, ends, urls, keyword, 0) == Scan(empty, [], 0, 0);
      assert Kept(empty, []) == empty == lines[..0] && Picked(empty, []) == empty == Triples(urls, keyword, 0);
    }
  }

  /** Without images the loop copies the lines, so the early return and the
      loop agree: joining them again gives the content back. */
  lemma {:induction false} ScanWithoutImages(lines: seq<string>, ends: seq<bool>, keyword: string, n: nat)
    requires |ends| == |lines| && n <= |lines|
    ensures ScanLines(lines, ends, [], keyword, n).lines == lines[..n]
    decreases n
  {
    if n > 0 {
      ScanWithoutImages(lines, ends, keyword, n - 1);
      assert lines[..n] == lines[..n - 1] + [lines[n - 1]];
    }
  }

  lemma NoImagesNoChange(content: string, keyword: string)
    ensures var lines := Text.Split(content, '\n');
      Text.Join(ScanLines(lines, ParagraphEnds(lines), [], keyword, |lines|).lines, "\n") == content
  {
    var lines := Text.Split(content, '\n');
    ScanWithoutImages(lines, ParagraphEnds(lines), keyword, |lines|);
    assert lines[..|lines|] == lines;
    Text.SplitJoin(content, '\n');
  }

  // ---------------------------------------------------------------------------
  // The post-list filters of manage_posts

  const AllCategories: string := "Semua Kategori"
  const AllTagsChoice: string := "Semua Tags"

  /** `p.get('category') == selected_category`, or no category chosen. */
  function CategoryChoice(category: string): Post -> bool {
    (p: Post) => category == AllCategories || p.category == Some(category)
  }

  /** `p.get('tags') and selected_tag in p['tags']`, or no tag chosen. */
  function TagChoice(tag: string): Post -> bool {
    (p: Post) => tag == AllTagsChoice || (p.tags.Some? && p.tags.value != [] && tag in p.tags.value)
  }

  /** `search_query.lower() in p['title'].lower()`, or no query. */
  function TitleSearch(query: string): Post -> bool {
    (p: Post) => query == [] || Text.IndexOf(Text.Lower(p.title), Text.Lower(query)).Some?
  }

  /** The three list comprehensions, each applied only when its choice is set. */
  function FilterPosts(posts: seq<Post>, category: string, tag: string, query: string): seq<Post> {
    var byCategory := if category != AllCategories then Seqs.Filter(CategoryChoice(category), posts) else posts;
    var byTag := if tag != AllTagsChoice then Seqs.Filter(TagChoice(tag), byCategory) else byCategory;
    if query != [] then Seqs.Filter(TitleSearch(query), byTag) else byTag
  }

  function Selected(category: string, tag: string, query: string): Post -> bool {
    (p: Post) => CategoryChoice(category)(p) && TagChoice(tag)(p) && TitleSearch(query)(p)
  }

  /** The filtered list is the posts list filtered once by all three tests:
      a subsequence in list order, holding exactly the posts that pass the
      exact category test, the tag membership test and the case-insensitive
      title search. */
  lemma FilterPostsSelects(posts: seq<Post>, category: string, tag: string, query: string)
    ensures FilterPosts(posts, category, tag, query) == Seqs.Filter(Selected(category, tag, query), posts)
    ensures forall p :: p in FilterPosts(posts, category, tag, query) <==>
      && p in posts
      && (category == AllCategories || p.category == Some(category))
      && (tag == AllTagsChoice || (p.tags.Some? && tag in p.tags.value))
      && (query == [] || Text.Contains(Text.Lower(p.title), Text.Lower(query)))
  {
    var r := FilterPosts(posts, category, tag, query);
    var sel := Selected(category, tag, query);
    assert r == Seqs.Filter(sel, posts) by {
      FilterPostsOneFilter(posts, category, tag, query);
    }
    forall p: Post | true
      ensures p in r <==>
        && p in posts
        && (category == AllCategories || p.category == Some(category))
        && (tag == AllTagsChoice || (p.tags.Some? && tag in p.tags.value))
        && (query == [] || Text.Contains(Text.Lower(p.title), Text.Lower(query)))
    {
      assert p in r <==> p in posts && sel(p);
      Text.ContainsIffIndexOf(Text.Lower(p.title), Text.Lower(query));
    }
  }

  lemma FilterPostsOneFilter(posts: seq<Post>, category: string, tag: string, query: string)
    ensures FilterPosts(posts, category, tag, query) == Seqs.Filter(Selected(category, tag, query), posts)
  {
    var c := CategoryChoice(category);
    var t := TagChoice(tag);
    var q := TitleSearch(query);
    var ct := (p: Post) => c(p) && t(p);
    var byCategory := if category != AllCategories then Seqs.Filter(c, posts) else posts;
    var byTag := if tag != AllTagsChoice then Seqs.Filter(t, byCategory) else byCategory;
    assert byCategory == Seqs.Filter(c, posts) by {
      if category == AllCategories {
        Seqs.FilterAll(c, posts);
      }
    }
    assert byTag == Seqs.Filter(t, byCategory) by {
      if tag == AllTagsChoice {
        Seqs.FilterAll(t, byCategory);
      }
    }
    assert FilterPosts(posts, category, tag, query) == Seqs.Filter(q, byTag) by {
      if query == [] {
        Seqs.FilterAll(q, byTag);
      }
    }
    assert Seqs.Filter(t, Seqs.Filter(c, posts)) == Seqs.Filter(ct, posts) by {
      Seqs.FilterFilter(c, t, ct, posts);
    }
    Seqs.FilterFilter(ct, q, Selected(category, tag, query), posts);
  }
}
