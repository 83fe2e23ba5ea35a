/** The scheduler settings page: the configuration its forms edit, the
    keyword list and the cron expressions they build, and the list of
    scheduled posts the status tab shows. */
module SchedulerManager {
  import opened Wrappers
  import Text
  import Seqs
  import opened PostStore
  import Scheduler

  // ---------------------------------------------------------------------------
  // Keywords: one per line of the text area

  /** `[k.strip() for k in lines if k.strip()]`. */
  function StrippedLines(lines: seq<string>): (r: seq<string>)
    ensures |r| <= |lines|
    decreases |lines|
  {
    if lines == [] then []
    else
      var n := |lines| - 1;
      var k := Text.Strip(lines[n]);
      if k != [] then StrippedLines(lines[..n]) + [k] else StrippedLines(lines[..n])
  }

  /** The keywords of the text area: `keywords_text.strip().split('\n')`,
      each line stripped, blank lines dropped. */
  function KeywordList(text: string): seq<string> {
    StrippedLines(Text.Split(Text.Strip(text), '\n'))
  }

  /** A keyword as the form stores it: not empty, no whitespace at either
      end, no line break. */
  predicate CleanKeyword(k: string) {
    k != [] && !Text.IsSpace(k[0]) && !Text.IsSpace(k[|k| - 1]) && Text.NoChar(k, '\n')
  }

  lemma StrippedClean(line: string)
    requires Text.NoChar(line, '\n') && Text.Strip(line) != []
    ensures CleanKeyword(Text.Strip(line))
  {
    Text.StripNoChar(line, '\n');
  }

  predicate AllClean(ks: seq<string>) {
    forall i :: 0 <= i < |ks| ==> CleanKeyword(ks[i])
  }

  lemma AllCleanSnoc(ks: seq<string>, k: string)
    requires AllClean(ks) && CleanKeyword(k)
    ensures AllClean(ks + [k])
  {
    assert forall i :: 0 <= i < |ks| ==> (ks + [k])[i] == ks[i];
  }

  lemma {:induction false} StrippedLinesClean(lines: seq<string>)
    requires forall j :: 0 <= j < |lines| ==> Text.NoChar(lines[j], '\n')
    ensures AllClean(StrippedLines(lines))
    decreases |lines|
  {
    if lines != [] {
      var n := |lines| - 1;
      var prev := StrippedLines(lines[..n]);
      assert AllClean(prev) by {
        assert forall j :: 0 <= j < n ==> lines[..n][j] == lines[j];
        StrippedLinesClean(lines[..n]);
      }
      var k := Text.Strip(lines[n]);
      if k != [] {
        assert CleanKeyword(k) by {
          StrippedClean(lines[n]);
        }
        AllCleanSnoc(prev, k);
      }
    }
  }

  /** Every keyword is non-blank, stripped and on one line. */
  lemma KeywordListClean(text: string)
    ensures forall i :: 0 <= i < |KeywordList(text)| ==> CleanKeyword(KeywordList(text)[i])
  {
    Text.SplitJoin(Text.Strip(text), '\n');
    StrippedLinesClean(Text.Split(Text.Strip(text), '\n'));
  }

  lemma {:induction false} StrippedLinesOfClean(ks: seq<string>)
    requires forall i :: 0 <= i < |ks| ==> CleanKeyword(ks[i])
    ensures StrippedLines(ks) == ks
    decreases |ks|
  {
    if ks != [] {
      var n := |ks| - 1;
      assert ks[..n] + [ks[n]] == ks;
      StrippedLinesOfClean(ks[..n]);
      Text.StripStripped(ks[n]);
    }
  }

  /** The text area shows the saved keywords one per line; saving that text
      again gives the same list. */
  lemma KeywordListRoundTrip(ks: seq<string>)
    requires forall i :: 0 <= i < |ks| ==> CleanKeyword(ks[i])
    ensures KeywordList(Text.Join(ks, "\n")) == ks
  {
    var joined := Text.Join(ks, "\n");
    if ks == [] {
      BlankKeywordList();
    } else {
      assert Text.Split(Text.Strip(joined), '\n') == ks by {
        assert Text.Strip(joined) == joined by {
          assert CleanKeyword(ks[0]) && CleanKeyword(ks[|ks| - 1]);
          JoinedClean(ks);
        }
        Text.JoinSplit(ks, '\n');
      }
      StrippedLinesOfClean(ks);
    }
  }

  /** An empty text area gives no keywords. */
  lemma BlankKeywordList()
    ensures KeywordList([]) == []
  {
    assert Text.Strip([]) == [];
    assert Text.Split([], '\n') == [[]];
  }

  /** Clean keywords joined by line breaks have nothing to strip. */
  lemma JoinedClean(ks: seq<string>)
    requires ks != [] && ks[0] != [] && ks[|ks| - 1] != []
    requires !Text.IsSpace(ks[0][0]) && !Text.IsSpace(ks[|ks| - 1][|ks[|ks| - 1]| - 1])
    ensures Text.Strip(Text.Join(ks, "\n")) == Text.Join(ks, "\n")
  {
    var joined := Text.Join(ks, "\n");
    var first, last := ks[0], ks[|ks| - 1];
    assert joined[0] == first[0] && joined[|joined| - 1] == last[|last| - 1] by {
      Text.JoinEnds(ks, "\n");
      assert joined[..|first|][0] == joined[0];
      assert joined[|joined| - |last|..][|last| - 1] == joined[|joined| - 1];
    }
    Text.StripStripped(joined);
  }

  /** Saving the shown keywords without editing them changes nothing. */
  lemma KeywordListResubmitted(text: string)
    ensures KeywordList(Text.Join(KeywordList(text), "\n")) == KeywordList(text)
  {
    KeywordListClean(text);
    KeywordListRoundTrip(KeywordList(text));
  }

  const MaxKeywords: nat := 50

  // ---------------------------------------------------------------------------
  // Schedules

  datatype Day = Senin | Selasa | Rabu | Kamis | Jumat | Sabtu | Minggu

  function DayName(d: Day): string {
    match d
    case Senin => "Senin"
    case Selasa => "Selasa"
    case Rabu => "Rabu"
    case Kamis => "Kamis"
    case Jumat => "Jumat"
    case Sabtu => "Sabtu"
    case Minggu => "Minggu"
  }

  /** `day_values[day_names.index(selected_day)]`: Monday is 1, Sunday 0. */
  function CronDay(d: Day): (n: nat)
    ensures n <= 6
  {
    match d
    case Senin => 1
    case Selasa => 2
    case Rabu => 3
    case Kamis => 4
    case Jumat => 5
    case Sabtu => 6
    case Minggu => 0
  }

  /** Different week days have different cron numbers. */
  lemma CronDayInjective(d: Day, e: Day)
    ensures CronDay(d) == CronDay(e) ==> d == e
  {
  }

  /** What the schedule form was filled with. */
  datatype ScheduleChoice =
    | Harian(hour: nat, minute: nat)
    | Mingguan(day: Day, hour: nat, minute: nat)
    | Bulanan(dayOfMonth: nat, hour: nat, minute: nat)
    | CustomCron(cron: string, description: string)

  /** The ranges of the form's sliders. */
  predicate SliderRanges(c: ScheduleChoice) {
    match c
    case Harian(h, m) => h <= 23 && m <= 59
    case Mingguan(_, h, m) => h <= 23 && m <= 59
    case Bulanan(d, h, m) => 1 <= d <= 28 && h <= 23 && m <= 59
    case CustomCron(_, _) => true
  }

  datatype Schedule = Schedule(cron: string, description: string, kind: Option<string>)

  const DefaultSchedule: Schedule := Schedule("0 9 * * *", "Generate articles daily at 9 AM", None)

  /** `f"{n:02d}"`: the decimal digits of `n`, at least two of them, exactly
      two below 100. */
  function Pad2(n: nat): (s: string)
    ensures |s| >= 2 && forall i :: 0 <= i < |s| ==> Text.IsDigit(s[i])
    ensures Text.ParseNat(s) == n
    ensures n < 100 ==> |s| == 2
  {
    Text.NatToStringRoundTrip(n);
    if n < 10 then
      var s := "0" + Text.NatToString(n);
      assert s[..1] == "0" && s[..|s| - 1] == s[..1];
      s
    else
      assert n < 100 ==> n / 10 < 10;
      Text.NatToString(n)
  }

  function CronOf(c: ScheduleChoice): string {
    match c
    case Harian(h, m) => Text.NatToString(m) + " " + Text.NatToString(h) + " * * *"
    case Mingguan(d, h, m) => Text.NatToString(m) + " " + Text.NatToString(h) + " * * " + Text.NatToString(CronDay(d))
    case Bulanan(dom, h, m) => Text.NatToString(m) + " " + Text.NatToString(h) + " " + Text.NatToString(dom) + " * *"
    case CustomCron(cron, _) => cron
  }

  function DescriptionOf(c: ScheduleChoice): string {
    match c
    case Harian(h, m) => "Generate artikel setiap hari jam " + Pad2(h) + ":" + Pad2(m)
    case Mingguan(d, h, m) => "Generate artikel setiap " + DayName(d) + " jam " + Pad2(h) + ":" + Pad2(m)
    case Bulanan(dom, h, m) =>
      "Generate artikel setiap tanggal " + Text.NatToString(dom) + " jam " + Pad2(h) + ":" + Pad2(m)
    case CustomCron(_, description) => description
  }

  function KindOf(c: ScheduleChoice): string {
    match c
    case Harian(_, _) => "Harian"
    case Mingguan(_, _, _) => "Mingguan"
    case Bulanan(_, _, _) => "Bulanan"
    case CustomCron(_, _) => "Custom Cron"
  }

  /** The `schedule` entry the form saves. */
  function ScheduleOf(c: ScheduleChoice): Schedule {
    Schedule(CronOf(c), DescriptionOf(c), Some(KindOf(c)))
  }

  predicate Digits(s: string) {
    forall i :: 0 <= i < |s| ==> Text.IsDigit(s[i])
  }

  lemma DigitsNoSpace(s: string)
    requires Digits(s)
    ensures Text.NoChar(s, ' ')
  {
  }

  lemma Regroup(x: string, y: string, z: string)
    ensures x + " " + y + " " + z == x + " " + (y + " " + z)
  {
  }

  /** Five space-free fields joined by single spaces split back into them. */
  lemma FiveFields(a: string, b: string, c: string, d: string, e: string)
    requires Text.NoChar(a, ' ') && Text.NoChar(b, ' ') && Text.NoChar(c, ' ')
    requires Text.NoChar(d, ' ') && Text.NoChar(e, ' ')
    ensures Text.Split(a + " " + b + " " + c + " " + d + " " + e, ' ') == [a, b, c, d, e]
  {
    var de := d + " " + e;
    var cde := c + " " + de;
    var bcde := b + " " + cde;
    assert a + " " + b + " " + c + " " + d + " " + e == a + " " + bcde by {
      Regroup(a + " " + b + " " + c, d, e);
      Regroup(a + " " + b, c, de);
      Regroup(a, b, cde);
    }
    assert Text.Split(de, ' ') == [d, e] by {
      Text.SplitNoSep(e, ' ');
      Text.SplitConcat(d, ' ', e);
    }
    assert Text.Split(cde, ' ') == [c, d, e] by {
      Text.SplitConcat(c, ' ', de);
    }
    assert Text.Split(bcde, ' ') == [b, c, d, e] by {
      Text.SplitConcat(b, ' ', cde);
    }
    Text.SplitConcat(a, ' ', bcde);
  }

  /** A built cron expression has five fields: the minute, the hour, the day
      of the month (or `*`), `*` for every month, and the day of the week (or
      `*`); the numbers read back as the chosen ones. */
  lemma CronFields(c: ScheduleChoice)
    requires !c.CustomCron?
    ensures var f := Text.Split(CronOf(c), ' ');
      && |f| == 5
      && Digits(f[0]) && Text.ParseNat(f[0]) == c.minute
      && Digits(f[1]) && Text.ParseNat(f[1]) == c.hour
      && f[3] == "*"
      && (c.Harian? ==> f[2] == "*" && f[4] == "*")
      && (c.Mingguan? ==> f[2] == "*" && Digits(f[4]) && Text.ParseNat(f[4]) == CronDay(c.day))
      && (c.Bulanan? ==> Digits(f[2]) && Text.ParseNat(f[2]) == c.dayOfMonth && f[4] == "*")
  {
    var m, h := Text.NatToString(c.minute), Text.NatToString(c.hour);
    assert Digits(m) && Text.ParseNat(m) == c.minute by {
      Text.NatToStringRoundTrip(c.minute);
    }
    assert Digits(h) && Text.ParseNat(h) == c.hour by {
      Text.NatToStringRoundTrip(c.hour);
    }
    match c
    case Harian(_, _) =>
      HarianCron(c.hour, c.minute);
    case Mingguan(d, _, _) =>
      var w := Text.NatToString(CronDay(d));
      assert Digits(w) && Text.ParseNat(w) == CronDay(d) by {
        Text.NatToStringRoundTrip(CronDay(d));
      }
      MingguanCron(d, c.hour, c.minute);
    case Bulanan(dom, _, _) =>
      var dm := Text.NatToString(dom);
      assert Digits(dm) && Text.ParseNat(dm) == dom by {
        Text.NatToStringRoundTrip(dom);
      }
      BulananCron(dom, c.hour, c.minute);
  }

  lemma HarianCron(h: nat, m: nat)
    ensures Text.Split(CronOf(Harian(h, m)), ' ')
            == [Text.NatToString(m), Text.NatToString(h), "*", "*", "*"]
  {
    var ms, hs := Text.NatToString(m), Text.NatToString(h);
    assert CronOf(Harian(h, m)) == ms + " " + hs + " " + "*" + " " + "*" + " " + "*";
    Text.NatToStringRoundTrip(m);
    Text.NatToStringRoundTrip(h);
    CronSplit(ms, hs, "*", "*");
  }

  lemma MingguanCron(d: Day, h: nat, m: nat)
    ensures Text.Split(CronOf(Mingguan(d, h, m)), ' ')
            == [Text.NatToString(m), Text.NatToString(h), "*", "*", Text.NatToString(CronDay(d))]
  {
    var ms, hs, ws := Text.NatToString(m), Text.NatToString(h), Text.NatToString(CronDay(d));
    assert CronOf(Mingguan(d, h, m)) == ms + " " + hs + " " + "*" + " " + "*" + " " + ws;
    Text.NatToStringRoundTrip(m);
    Text.NatToStringRoundTrip(h);
    Text.NatToStringRoundTrip(CronDay(d));
    CronSplit(ms, hs, "*", ws);
  }

  lemma BulananCron(dom: nat, h: nat, m: nat)
    ensures Text.Split(CronOf(Bulanan(dom, h, m)), ' ')
            == [Text.NatToString(m), Text.NatToString(h), Text.NatToString(dom), "*", "*"]
  {
    var ms, hs, ds := Text.NatToString(m), Text.NatToString(h), Text.NatToString(dom);
    assert CronOf(Bulanan(dom, h, m)) == ms + " " + hs + " " + ds + " " + "*" + " " + "*";
    Text.NatToStringRoundTrip(m);
    Text.NatToStringRoundTrip(h);
    Text.NatToStringRoundTrip(dom);
    CronSplit(ms, hs, ds, "*");
  }

  /** The three built forms are `m h dom * dow` with `*` or digits in each
      numeric place. */
  lemma CronSplit(m: string, h: string, dom: string, dow: string)
    requires Digits(m) && Digits(h)
    requires dom == "*" || Digits(dom)
    requires dow == "*" || Digits(dow)
    ensures Text.Split(m + " " + h + " " + dom + " " + "*" + " " + dow, ' ') == [m, h, dom, "*", dow]
  {
    DigitsNoSpace(m);
    DigitsNoSpace(h);
    assert Text.NoChar(dom, ' ') && Text.NoChar(dow, ' ');
    FiveFields(m, h, dom, "*", dow);
  }

  /** With the sliders' ranges every field is within what cron accepts. */
  lemma CronInRange(c: ScheduleChoice)
    requires !c.CustomCron? && SliderRanges(c)
    ensures var f := Text.Split(CronOf(c), ' ');
      && |f| == 5 && Digits(f[0]) && Digits(f[1])
      && Text.ParseNat(f[0]) <= 59 && Text.ParseNat(f[1]) <= 23
      && (f[2] == "*" || (Digits(f[2]) && 1 <= Text.ParseNat(f[2]) <= 28))
      && (f[4] == "*" || (Digits(f[4]) && Text.ParseNat(f[4]) <= 6))
  {
    CronFields(c);
  }

  // ---------------------------------------------------------------------------
  // The configuration the forms edit

  class Config {
    var keywords: seq<string>
    var language: string
    var category: string
    var writingStyle: string
    var autoDeploy: bool
    var accountId: string
    var apiToken: string
    var workerName: string
    var schedule: Schedule

    /** `_get_default_config`. */
    constructor ()
      ensures keywords == [] && language == "id" && category == "Teknologi"
      ensures writingStyle == "informatif" && autoDeploy
      ensures accountId == "" && apiToken == "" && workerName == ""
      ensures schedule == DefaultSchedule
      ensures !ReadyToDeploy()
    {
      keywords := [];
      language := "id";
      category := "Teknologi";
      writingStyle := "informatif";
      autoDeploy := true;
      accountId := "";
      apiToken := "";
      workerName := "";
      schedule := DefaultSchedule;
    }

    /** The keywords form: rejected with more than 50 keywords, leaving the
        configuration as it was; otherwise the keywords and generation
        settings are replaced and nothing else. */
    method SubmitKeywords(text: string, newLanguage: string, newCategory: string,
                          newStyle: string, newAutoDeploy: bool) returns (accepted: bool)
      modifies this
      ensures accepted <==> |KeywordList(text)| <= MaxKeywords
      ensures accepted ==> keywords == KeywordList(text) && language == newLanguage
                           && category == newCategory && writingStyle == newStyle
                           && autoDeploy == newAutoDeploy
      ensures !accepted ==> keywords == old(keywords) && language == old(language)
                            && category == old(category) && writingStyle == old(writingStyle)
                            && autoDeploy == old(autoDeploy)
      ensures accountId == old(accountId) && apiToken == old(apiToken) && workerName == old(workerName)
      ensures schedule == old(schedule)
    {
      var keywordsList := KeywordList(text);
      if |keywordsList| > MaxKeywords {
        accepted := false;
      } else {
        keywords := keywordsList;
        language := newLanguage;
        category := newCategory;
        writingStyle := newStyle;
        autoDeploy := newAutoDeploy;
        accepted := true;
      }
    }

    /** The schedule form replaces the schedule and nothing else. */
    method SubmitSchedule(choice: ScheduleChoice)
      modifies this
      ensures schedule == ScheduleOf(choice)
      ensures keywords == old(keywords) && language == old(language) && category == old(category)
      ensures writingStyle == old(writingStyle) && autoDeploy == old(autoDeploy)
      ensures accountId == old(accountId) && apiToken == old(apiToken) && workerName == old(workerName)
    {
      var cronExpression := CronOf(choice);
      var description := DescriptionOf(choice);
      schedule := Schedule(cronExpression, description, Some(KindOf(choice)));
    }

    /** The deploy form replaces the three Cloudflare settings and nothing
        else. */
    method SubmitDeployConfig(newAccountId: string, newApiToken: string, newWorkerName: string)
      modifies this
      ensures accountId == newAccountId && apiToken == newApiToken && workerName == newWorkerName
      ensures keywords == old(keywords) && language == old(language) && category == old(category)
      ensures writingStyle == old(writingStyle) && autoDeploy == old(autoDeploy)
      ensures schedule == old(schedule)
    {
      accountId := newAccountId;
      apiToken := newApiToken;
      workerName := newWorkerName;
    }

    /** `all([config.get('keywords'), config.get('schedule', {}).get('cron')])`. */
    predicate ReadyToDeploy()
      reads this
    {
      keywords != [] && schedule.cron != []
    }

    /** The keywords of a test run: the first saved one, or "teknologi AI". */
    function TestKeywords(): (r: seq<string>)
      reads this
      ensures |r| == 1
      ensures keywords != [] ==> r[0] == keywords[0]
      ensures keywords == [] ==> r == ["teknologi AI"]
    {
      if keywords != [] then keywords[..1] else ["teknologi AI"]
    }
  }

  /** The deploy section's check on a fresh configuration: the defaults are
      not ready, because they have no keywords; the default schedule already
      has a cron expression, so an accepted keywords form makes the
      configuration ready exactly when its list is not empty. */
  method DeployReadiness(text: string, language: string, category: string, style: string, autoDeploy: bool)
    returns (readyBefore: bool, readyAfter: bool)
    ensures !readyBefore
    ensures readyAfter <==> 1 <= |KeywordList(text)| <= MaxKeywords
  {
    var config := new Config();
    readyBefore := config.ReadyToDeploy();
    var accepted := config.SubmitKeywords(text, language, category, style, autoDeploy);
    readyAfter := config.ReadyToDeploy();
  }

  // ---------------------------------------------------------------------------
  // The status tab: the five most recent scheduled posts

  function IsScheduled(p: Post): bool {
    p.generatedBy == Some(Scheduler.ScheduledBy)
  }

  /** `x.get('scheduled_at', '')`. */
  function SortKey(p: Post): string {
    if p.scheduledAt.Some? then p.scheduledAt.value else ""
  }

  /** Python's `<` on strings: code point by code point, a proper prefix
      first. */
  predicate Below(a: string, b: string)
    decreases |a|
  {
    if a == [] then b != []
    else if b == [] then false
    else if a[0] != b[0] then a[0] < b[0]
    else Below(a[1..], b[1..])
  }

  lemma {:induction false} BelowIrreflexive(a: string)
    ensures !Below(a, a)
    decreases |a|
  {
    if a != [] {
      BelowIrreflexive(a[1..]);
    }
  }

  lemma {:induction false} BelowTransitive(a: string, b: string, c: string)
    ensures Below(a, b) && Below(b, c) ==> Below(a, c)
    decreases |a|
  {
    if a != [] && b != [] && c != [] && a[0] == b[0] && b[0] == c[0] {
      BelowTransitive(a[1..], b[1..], c[1..]);
    }
  }

  /** Latest first: no post is older than one after it. */
  predicate Newest(s: seq<Post>) {
    forall i, j :: 0 <= i < j < |s| ==> !Below(SortKey(s[i]), SortKey(s[j]))
  }

  /** Inserting into a latest-first list: before the first post that is
      strictly older, so after every post with the same key. */
  function Insert(t: seq<Post>, x: Post): seq<Post>
    decreases |t|
  {
    if t == [] then [x]
    else if Below(SortKey(t[0]), SortKey(x)) then [x] + t
    else [t[0]] + Insert(t[1..], x)
  }

  /** Insertion adds the one post and loses none. */
  lemma {:induction false} InsertPermutes(t: seq<Post>, x: Post)
    ensures multiset(Insert(t, x)) == multiset(t) + multiset{x}
    decreases |t|
  {
    if t != [] && !Below(SortKey(t[0]), SortKey(x)) {
      InsertPermutes(t[1..], x);
      assert t == [t[0]] + t[1..];
    }
  }

  /** `sorted(posts, key=scheduled_at, reverse=True)`, a stable sort. */
  function SortNewest(s: seq<Post>): seq<Post>
    decreases |s|
  {
    if s == [] then []
    else
      var n := |s| - 1;
      Insert(SortNewest(s[..n]), s[n])
  }

  lemma {:induction false} SortPermutes(s: seq<Post>)
    ensures multiset(SortNewest(s)) == multiset(s)
    decreases |s|
  {
    if s != [] {
      var n := |s| - 1;
      SortPermutes(s[..n]);
      InsertPermutes(SortNewest(s[..n]), s[n]);
      assert s == s[..n] + [s[n]];
    }
  }

  lemma {:induction false} InsertNewest(t: seq<Post>, x: Post)
    requires Newest(t)
    ensures Newest(Insert(t, x))
    decreases |t|
  {
    if t != [] {
      var kx := SortKey(x);
      if Below(SortKey(t[0]), kx) {
        forall j | 0 <= j < |t|
          ensures !Below(kx, SortKey(t[j]))
        {
          BelowTransitive(SortKey(t[0]), kx, SortKey(t[j]));
          BelowTransitive(kx, SortKey(t[0]), kx);
          BelowIrreflexive(kx);
        }
      } else {
        InsertNewest(t[1..], x);
        var r := Insert(t[1..], x);
        forall j | 0 <= j < |r|
          ensures !Below(SortKey(t[0]), SortKey(r[j]))
        {
          InsertPermutes(t[1..], x);
          assert r[j] in multiset(t[1..]) + multiset{x};
        }
      }
    }
  }

  function HasKey(k: string): Post -> bool {
    (p: Post) => SortKey(p) == k
  }

  /** Insertion keeps the posts of each key in their order, the new one last. */
  lemma {:induction false} InsertStable(t: seq<Post>, x: Post, k: string)
    requires Newest(t)
    ensures Seqs.Filter(HasKey(k), Insert(t, x))
            == Seqs.Filter(HasKey(k), t) + Seqs.Filter(HasKey(k), [x])
    decreases |t|
  {
    var f := HasKey(k);
    if t == [] {
      assert Insert(t, x) == [x];
      assert Seqs.Filter(f, t) == [];
    } else if Below(SortKey(t[0]), SortKey(x)) {
      InsertFirstStable(t, x, k);
    } else {
      var rest := Insert(t[1..], x);
      assert Insert(t, x) == [t[0]] + rest;
      InsertStable(t[1..], x, k);
      FilterInFront(f, t[0], t[1..], rest, [x]);
      assert [t[0]] + t[1..] == t;
    }
  }

  /** A post inserted in front is newer than every post of the list, so none
      of them has its key. */
  lemma InsertFirstStable(t: seq<Post>, x: Post, k: string)
    requires Newest(t) && t != [] && Below(SortKey(t[0]), SortKey(x))
    ensures Seqs.Filter(HasKey(k), Insert(t, x))
            == Seqs.Filter(HasKey(k), t) + Seqs.Filter(HasKey(k), [x])
  {
    var f := HasKey(k);
    Seqs.FilterSingle(f, x);
    assert Insert(t, x) == [x] + t;
    Seqs.FilterConcat(f, [x], t);
    if SortKey(x) == k {
      forall y | y in t
        ensures !f(y)
      {
        var j :| 0 <= j < |t| && t[j] == y;
        BelowIrreflexive(k);
      }
      Seqs.FilterNone(f, t);
    }
  }

  lemma FilterInFront(f: Post -> bool, y: Post, a: seq<Post>, b: seq<Post>, c: seq<Post>)
    requires Seqs.Filter(f, b) == Seqs.Filter(f, a) + Seqs.Filter(f, c)
    ensures Seqs.Filter(f, [y] + b) == Seqs.Filter(f, [y] + a) + Seqs.Filter(f, c)
  {
    Seqs.FilterConcat(f, [y], b);
    Seqs.FilterConcat(f, [y], a);
    PrependBoth(Seqs.Filter(f, [y]), Seqs.Filter(f, a), Seqs.Filter(f, c), Seqs.Filter(f, b),
                Seqs.Filter(f, [y] + b), Seqs.Filter(f, [y] + a));
  }

  lemma PrependBoth(head: seq<Post>, a: seq<Post>, c: seq<Post>, b: seq<Post>, hb: seq<Post>, ha: seq<Post>)
    requires b == a + c && hb == head + b && ha == head + a
    ensures hb == ha + c
  {
  }

  /** The sort returns the same posts, latest first, and posts with equal
      keys keep their order. */
  lemma {:induction false} SortNewestCorrect(s: seq<Post>)
    ensures multiset(SortNewest(s)) == multiset(s)
    ensures Newest(SortNewest(s))
    ensures forall k :: Seqs.Filter(HasKey(k), SortNewest(s)) == Seqs.Filter(HasKey(k), s)
    decreases |s|
  {
    if s != [] {
      var n := |s| - 1;
      SortNewestCorrect(s[..n]);
      SortPermutes(s);
      InsertNewest(SortNewest(s[..n]), s[n]);
      forall k
        ensures Seqs.Filter(HasKey(k), SortNewest(s)) == Seqs.Filter(HasKey(k), s)
      {
        SortStableStep(s, k);
      }
    }
  }

  lemma SortStableStep(s: seq<Post>, k: string)
    requires s != []
    requires Newest(SortNewest(s[..|s| - 1]))
    requires Seqs.Filter(HasKey(k), SortNewest(s[..|s| - 1])) == Seqs.Filter(HasKey(k), s[..|s| - 1])
    ensures Seqs.Filter(HasKey(k), SortNewest(s)) == Seqs.Filter(HasKey(k), s)
  {
    var n := |s| - 1;
    var f := HasKey(k);
    var t := SortNewest(s[..n]);
    assert Seqs.Filter(f, SortNewest(s)) == Seqs.Filter(f, t) + Seqs.Filter(f, [s[n]]) by {
      InsertStable(t, s[n], k);
    }
    assert Seqs.Filter(f, s) == Seqs.Filter(f, s[..n]) + Seqs.Filter(f, [s[n]]) by {
      Seqs.FilterSingle(f, s[n]);
    }
  }

  /** `sorted(scheduled_posts, ...)[:5]`. */
  function RecentScheduled(posts: seq<Post>): seq<Post> {
    Text.Take(SortNewest(Seqs.Filter(IsScheduled, posts)), 5)
  }

  /** At most five posts, all scheduled ones from the list, latest first;
      every scheduled post left out is no more recent than any shown; with
      five or fewer scheduled posts, all are shown. */
  lemma RecentScheduledShape(posts: seq<Post>)
    ensures var r := RecentScheduled(posts);
      var all := Seqs.Filter(IsScheduled, posts);
      && |r| <= 5
      && (forall p :: p in r ==> IsScheduled(p) && p in posts)
      && Newest(r)
      && multiset(r) <= multiset(all)
      && (forall i, q :: 0 <= i < |r| && q in multiset(all) - multiset(r) ==> !Below(SortKey(r[i]), SortKey(q)))
      && (|all| <= 5 ==> multiset(r) == multiset(all))
  {
    var all := Seqs.Filter(IsScheduled, posts);
    var sorted := SortNewest(all);
    var r := RecentScheduled(posts);
    assert multiset(sorted) == multiset(all) && Newest(sorted) by {
      SortNewestCorrect(all);
    }
    NewestPrefix(sorted, 5);
    forall p | p in r
      ensures IsScheduled(p) && p in posts
    {
      assert p in multiset(all);
      Seqs.FilterMultiplicity(IsScheduled, posts, p);
    }
  }

  /** The first `n` of a latest-first list are latest first, and none of the
      rest is more recent than any of them. */
  lemma NewestPrefix(sorted: seq<Post>, n: nat)
    requires Newest(sorted)
    ensures var r := Text.Take(sorted, n);
      && Newest(r)
      && multiset(r) <= multiset(sorted)
      && (forall i, q :: 0 <= i < |r| && q in multiset(sorted) - multiset(r) ==> !Below(SortKey(r[i]), SortKey(q)))
      && (|sorted| <= n ==> r == sorted)
  {
    var r := Text.Take(sorted, n);
    var rest := sorted[|r|..];
    assert multiset(sorted) == multiset(r) + multiset(rest) by {
      assert sorted == r + rest;
    }
    forall i, q | 0 <= i < |r| && q in multiset(sorted) - multiset(r)
      ensures !Below(SortKey(r[i]), SortKey(q))
    {
      assert q in multiset(rest);
      var j :| 0 <= j < |rest| && rest[j] == q;
      assert sorted[|r| + j] == q;
    }
  }

  /** Posts the scheduler generates show up in the status tab's list. */
  lemma GeneratedPostsListed(existing: seq<Post>, keywords: seq<string>, articles: seq<Option<string>>,
                             category: string, idOf: string -> string, excerptOf: string -> string,
                             date: string, now: string)
    requires |articles| == |keywords|
    ensures var generated := Scheduler.GeneratedPosts(keywords, articles, category, idOf, excerptOf, date, now);
      Seqs.Filter(IsScheduled, existing + generated) == Seqs.Filter(IsScheduled, existing) + generated
  {
    var generated := Scheduler.GeneratedPosts(keywords, articles, category, idOf, excerptOf, date, now);
    Scheduler.GeneratedPostsMarked(keywords, articles, category, idOf, excerptOf, date, now);
    Seqs.FilterConcat(IsScheduled, existing, generated);
    Seqs.FilterAll(IsScheduled, generated);
  }
}
