/** The deterministic parts of services/gemini.ts: the day estimate for the pending work of a
    roadmap, the day budget and starting phase that `generateRoadmap` derives before calling
    the model, and the de-duplication and fallbacks around the news results. The calls to the
    generative model are not modelled here; callers receive their results as parameters. */
module Gemini {

  import opened Options
  import opened Js
  import opened Types

  // ---------------------------------------------------------------------------------------
  // calculateRemainingDays

  /** `parseInt(duration) || 1`: the leading integer, with NaN and 0 replaced by 1. */
  function DurationCount(d: string): (r: int)
    ensures r != 0
    ensures ParseInt(d).Some? && ParseInt(d).value != 0 ==> r == ParseInt(d).value
    ensures ParseInt(d).None? || ParseInt(d) == Some(0) ==> r == 1
  {
    match ParseInt(d)
    case Some(v) => if v != 0 then v else 1
    case None => 1
  }

  /** Days one lower-cased duration string stands for; the units are tried in the order
      month, week, day, and anything else counts as one day. */
  function UnitDays(d: string): (r: int)
    ensures r != 0
    ensures !Includes(d, "month") && !Includes(d, "week") && !Includes(d, "day") ==> r == 1
    ensures DurationCount(d) > 0 ==> r > 0
  {
    if Includes(d, "month") then DurationCount(d) * 30
    else if Includes(d, "week") then DurationCount(d) * 7
    else if Includes(d, "day") then DurationCount(d)
    else 1
  }

  /** What one item adds to the estimate: only pending items count. */
  function ItemDays(item: Item): (r: int)
    ensures item.status != Pending <==> r == 0
  {
    if item.status == Pending then UnitDays(ToLower(item.duration)) else 0
  }

  function ItemsDays(items: seq<Item>): int {
    if items == [] then 0 else ItemsDays(items[..|items| - 1]) + ItemDays(items[|items| - 1])
  }

  /** The running total before the final `|| 1`. */
  function PendingDays(r: Roadmap): int {
    if r == [] then 0 else PendingDays(r[..|r| - 1]) + ItemsDays(r[|r| - 1].items)
  }

  /** The value `calculateRemainingDays` returns: a total of 0 becomes 1. */
  function RemainingDays(r: Roadmap): (d: int)
    ensures d != 0
    ensures PendingDays(r) != 0 ==> d == PendingDays(r)
    ensures PendingDays(r) == 0 ==> d == 1
  {
    var t := PendingDays(r);
    if t == 0 then 1 else t
  }

  /** A pending item whose duration starts with a negative number, such as "-2 weeks",
      subtracts days: the total, and so the estimate, can then fall below the one-day
      minimum the function is meant to keep. */
  lemma NegativeDurationEstimate(r: Roadmap)
    requires r == [Phase("Phase 1", [Item("a", "", "", Skill, "-2 weeks", Pending, None, None, Medium, false)], None)]
    ensures PendingDays(r) == -14 && RemainingDays(r) == -14
  {
    NegativeWeeks();
    var items := r[0].items;
    assert ItemDays(items[0]) == -14;
    assert items[..0] == [];
    assert ItemsDays(items) == -14;
    assert r[..0] == [];
  }

  /** "-2 weeks" is read as the count -2 of the unit week. */
  lemma NegativeWeeks()
    ensures ToLower("-2 weeks") == "-2 weeks"
    ensures UnitDays("-2 weeks") == -14
  {
    ToLowerUnchanged("-2 weeks");
    NegativeTwoParsed();
    WeeksUnit();
  }

  lemma NegativeTwoParsed()
    ensures DurationCount("-2 weeks") == -2
  {
    assert Decimal(2) == "2";
    ParseIntDecimal("", true, 2, " weeks");
    assert "" + "-" + Decimal(2) + " weeks" == "-2 weeks";
  }

  lemma WeeksUnit()
    ensures !Includes("-2 weeks", "month") && Includes("-2 weeks", "week")
  {
    var d := "-2 weeks";
    IncludesAt(d, "week", 3) by { assert d[3..7] == "week"; }
    MissingCharNotIncluded(d, "month", 'm');
  }

  /** A pattern holding a character the string lacks does not occur in it. */
  lemma {:induction false} MissingCharNotIncluded(s: string, p: string, c: char)
    requires c in p && c !in s
    ensures !Includes(s, p)
  {
    if s != [] {
      MissingCharNotIncluded(s[1..], p, c);
    }
  }

  /** A pending item counts forward when its duration does not read as a negative count. */
  predicate CountsForward(item: Item) {
    item.status == Pending ==> DurationCount(ToLower(item.duration)) > 0
  }

  lemma {:induction false} ItemsDaysNonNegative(items: seq<Item>)
    requires forall k :: 0 <= k < |items| ==> CountsForward(items[k])
    ensures ItemsDays(items) >= 0
  {
    if items != [] {
      ItemsDaysNonNegative(items[..|items| - 1]);
      assert CountsForward(items[|items| - 1]);
    }
  }

  /** When no pending duration reads as a negative count, the estimate keeps its one-day
      minimum. */
  lemma {:induction false} RemainingDaysAtLeastOne(r: Roadmap)
    requires forall j, k :: 0 <= j < |r| && 0 <= k < |r[j].items| ==> CountsForward(r[j].items[k])
    ensures PendingDays(r) >= 0 && RemainingDays(r) >= 1
  {
    if r != [] {
      var init := r[..|r| - 1];
      assert forall j, k :: 0 <= j < |init| && 0 <= k < |init[j].items| ==> CountsForward(init[j].items[k]) by {
        forall j, k | 0 <= j < |init| && 0 <= k < |init[j].items|
          ensures CountsForward(init[j].items[k]) {
          assert init[j] == r[j];
        }
      }
      RemainingDaysAtLeastOne(init);
      ItemsDaysNonNegative(r[|r| - 1].items);
    }
  }

  /** The estimate with its one-day minimum kept for every roadmap, negative counts
      included: `Math.max(totalDays, 1)`. It agrees with `RemainingDays` whenever that is
      positive, in particular whenever every pending item counts forward. */
  function EstimatedDays(r: Roadmap): (d: int)
    ensures d >= 1
    ensures RemainingDays(r) >= 1 ==> d == RemainingDays(r)
    ensures PendingDays(r) < 0 ==> d == 1
  {
    var t := PendingDays(r);
    if t < 1 then 1 else t
  }

  /** The nested `forEach` loops of `calculateRemainingDays`. */
  method CalculateRemainingDays(phases: Roadmap) returns (totalDays: int)
    ensures totalDays == RemainingDays(phases)
  {
    totalDays := 0;
    var i := 0;
    while i < |phases|
      invariant 0 <= i <= |phases|
      invariant totalDays == PendingDays(phases[..i])
    {
      var phaseDays := PhaseDays(phases[i].items);
      totalDays := totalDays + phaseDays;
      assert phases[..i + 1][..i] == phases[..i];
      i := i + 1;
    }
    assert phases[..i] == phases;
    if totalDays == 0 {
      totalDays := 1;
    }
  }

  /** The inner `forEach` of `calculateRemainingDays`, over the items of one phase. */
  method PhaseDays(items: seq<Item>) returns (days: int)
    ensures days == ItemsDays(items)
  {
    days := 0;
    var j := 0;
    while j < |items|
      invariant 0 <= j <= |items|
      invariant days == ItemsDays(items[..j])
    {
      var item := items[j];
      if item.status == Pending {
        var duration := ToLower(item.duration);
        var val := DurationCount(duration);
        if Includes(duration, "month") {
          days := days + val * 30;
        } else if Includes(duration, "week") {
          days := days + val * 7;
        } else if Includes(duration, "day") {
          days := days + val;
        } else {
          days := days + 1;
        }
      }
      assert items[..j + 1][..j] == items[..j];
      j := j + 1;
    }
    assert items[..j] == items;
  }

  lemma {:induction false} ItemsDaysNoPending(items: seq<Item>)
    requires forall k :: 0 <= k < |items| ==> items[k].status != Pending
    ensures ItemsDays(items) == 0
  {
    if items != [] {
      ItemsDaysNoPending(items[..|items| - 1]);
    }
  }

  /** Completed and in-progress items add nothing: with no pending item left the estimate
      is the one-day minimum. */
  lemma {:induction false} RemainingDaysNoPending(r: Roadmap)
    requires forall j, k :: 0 <= j < |r| && 0 <= k < |r[j].items| ==> r[j].items[k].status != Pending
    ensures PendingDays(r) == 0 && RemainingDays(r) == 1
  {
    if r != [] {
      var init := r[..|r| - 1];
      assert forall j, k :: 0 <= j < |init| && 0 <= k < |init[j].items| ==>
        init[j].items[k].status != Pending by {
        forall j, k | 0 <= j < |init| && 0 <= k < |init[j].items|
          ensures init[j].items[k].status != Pending {
          assert init[j] == r[j];
        }
      }
      RemainingDaysNoPending(init);
      ItemsDaysNoPending(r[|r| - 1].items);
    }
  }

  /** The estimate of a roadmap is additive over its phases. */
  lemma {:induction false} PendingDaysAppend(a: Roadmap, b: Roadmap)
    ensures PendingDays(a + b) == PendingDays(a) + PendingDays(b)
  {
    if b != [] {
      var ab := a + b;
      assert ab[..|ab| - 1] == a + b[..|b| - 1];
      assert ab[|ab| - 1] == b[|b| - 1];
      PendingDaysAppend(a, b[..|b| - 1]);
      assert PendingDays(ab) == PendingDays(a + b[..|b| - 1]) + ItemsDays(b[|b| - 1].items);
    } else {
      assert a + b == a;
    }
  }

  /** A pattern that starts with a letter occurs in digits followed by `tail` exactly when
      it occurs in `tail`. */
  lemma {:induction false} IncludesAfterDigits(digits: string, tail: string, p: string)
    requires forall i :: 0 <= i < |digits| ==> '0' <= digits[i] <= '9'
    requires p != [] && 'a' <= p[0] <= 'z'
    ensures Includes(digits + tail, p) <==> Includes(tail, p)
  {
    if digits != [] {
      assert (digits + tail)[1..] == digits[1..] + tail;
      IncludesAfterDigits(digits[1..], tail, p);
    } else {
      assert digits + tail == tail;
    }
  }

  /** "<n><rest>" with `n` positive and `rest` starting with a non-digit: the unit is the
      first of month, week, day that `rest` mentions, and the count is `n`. */
  lemma {:induction false} DurationAfterCount(n: nat, rest: string)
    requires n > 0
    requires rest != [] && !IsDigit(rest[0], 10)
    ensures UnitDays(Decimal(n) + rest) ==
      if Includes(rest, "month") then 30 * n
      else if Includes(rest, "week") then 7 * n
      else if Includes(rest, "day") then n
      else 1
  {
    DecimalDigits(n);
    ParseIntNat(n, rest);
    IncludesAfterDigits(Decimal(n), rest, "month");
    IncludesAfterDigits(Decimal(n), rest, "week");
    IncludesAfterDigits(Decimal(n), rest, "day");
  }

  /** A composite string is read by its first matching unit in the fixed order month, week,
      day, whatever comes first in the text: "3-day sprint, 2 months prep" is three months
      (90 days), the number being the leading 3 and not the 2 next to the unit. */
  lemma CompositeDurationReadsMonths(n: nat, rest: string)
    requires n > 0
    requires rest != [] && !IsDigit(rest[0], 10)
    requires Includes(rest, "month")
    ensures UnitDays(Decimal(n) + rest) == 30 * n
  {
    DurationAfterCount(n, rest);
  }

  // ---------------------------------------------------------------------------------------
  // generateRoadmap: the day budget and the starting phase

  /** The adaptation strategies the generator is steered with. */
  datatype Strategy =
    | Initial | CompressSchedule | SimplifySchedule | Redistribute | AppendContent
    | IncreaseDifficultySameTime

  /** The context of an adaptation. The caller writes the number of completed phases into a
      sentence of the prompt; the model keeps that number, `completedPhases`. */
  datatype AdaptationContext =
    AdaptationContext(kind: Strategy, completedPhases: nat, startingPhaseNumber: Option<int>)

  /** The arguments of one `generateRoadmap` call; the generator itself is a parameter of its callers. */
  datatype GenerationRequest = GenerationRequest(
    careerTitle: string,
    currentLevel: string,
    targetDate: Option<int>,
    experienceLevel: Level,
    focusAreas: string,
    context: Option<AdaptationContext>)

  /** `diffDaysRaw >= 0 ? diffDaysRaw + 1 : 0`: both ends of the span count. */
  function InclusiveDays(raw: int): (d: nat)
    ensures raw >= 0 ==> d == raw + 1
    ensures raw < 0 ==> d == 0
  {
    if raw >= 0 then raw + 1 else 0
  }

  /** `diffDays` for a target day: a missing date parses as NaN, which compares false. */
  function DiffDays(targetDate: Option<int>, today: int): (d: nat)
    ensures targetDate.None? ==> d == 0
    ensures targetDate.Some? ==> d == InclusiveDays(targetDate.value - today)
  {
    match targetDate
    case None => 0
    case Some(t) => InclusiveDays(t - today)
  }

  /** The day budget the generator is told about, with the crash-course case. */
  datatype Budget = Budget(diffDays: nat, effectiveDays: int, crashCourse: bool, startPhase: int)

  /** `adaptationContext?.startingPhaseNumber || 1`. */
  function StartPhase(context: Option<AdaptationContext>): (p: int)
    ensures p != 0
    ensures context.Some? && context.value.startingPhaseNumber.Some?
            && context.value.startingPhaseNumber.value != 0
            ==> p == context.value.startingPhaseNumber.value
  {
    match context
    case None => 1
    case Some(c) =>
      match c.startingPhaseNumber
      case None => 1
      case Some(n) => if n != 0 then n else 1
  }

  /** The budget computed at the top of `generateRoadmap`. */
  function BudgetFor(targetDate: Option<int>, today: int, context: Option<AdaptationContext>): (b: Budget)
    ensures b.effectiveDays >= 1
    ensures b.diffDays == DiffDays(targetDate, today)
    ensures b.crashCourse <==> b.diffDays == 0
    ensures b.effectiveDays == if b.diffDays == 0 then 1 else b.diffDays
    ensures b.startPhase == StartPhase(context)
  {
    var diffDays := DiffDays(targetDate, today);
    Budget(diffDays, if diffDays <= 0 then 1 else diffDays, diffDays <= 0, StartPhase(context))
  }

  /** A later target date never gives a smaller budget. */
  lemma EffectiveDaysMonotone(t1: int, t2: int, today: int)
    requires t1 <= t2
    ensures BudgetFor(Some(t1), today, None).effectiveDays <= BudgetFor(Some(t2), today, None).effectiveDays
  {
  }

  /** Among target dates from today on, a later one gives a strictly larger budget. */
  lemma EffectiveDaysStrict(t1: int, t2: int, today: int)
    requires today <= t1 < t2
    ensures BudgetFor(Some(t1), today, None).effectiveDays < BudgetFor(Some(t2), today, None).effectiveDays
  {
  }

  // ---------------------------------------------------------------------------------------
  // fetchTechNews: web results, de-duplication by url, fallbacks

  /** A grounding chunk of the search response. */
  datatype WebChunk = WebChunk(uri: Option<string>, title: Option<string>)

  predicate Usable(c: WebChunk) {
    c.uri.Some? && c.uri.value != [] && c.title.Some? && c.title.value != []
  }

  /** The chunks with both an address and a title, turned into news items; the source label
      derived from the address is given by `source`. */
  function WebItems(chunks: seq<WebChunk>, source: (string, string) -> string): (r: seq<NewsItem>)
    ensures |r| <= |chunks|
    ensures (exists i :: 0 <= i < |chunks| && Usable(chunks[i])) ==> r != []
  {
    if chunks == [] then []
    else
      var c := chunks[0];
      var rest := WebItems(chunks[1..], source);
      if Usable(c) then
        [NewsItem(c.title.value, "Read the full coverage at the source.", c.uri.value,
                  source(c.uri.value, c.title.value), "Recent")] + rest
      else
        assert (exists i :: 0 <= i < |chunks| && Usable(chunks[i])) ==>
               (exists i :: 0 <= i < |chunks[1..]| && Usable(chunks[1..][i])) by {
          if i :| 0 <= i < |chunks| && Usable(chunks[i]) {
            assert i > 0 && Usable(chunks[1..][i - 1]);
          }
        }
        rest
  }

  /** `self.findIndex(t => t.url === url)`: the first index with that url, or -1. */
  function IndexOfUrl(s: seq<NewsItem>, url: string): (k: int)
    ensures -1 <= k < |s|
    ensures k >= 0 ==> s[k].url == url && forall i :: 0 <= i < k ==> s[i].url != url
    ensures k == -1 ==> forall i :: 0 <= i < |s| ==> s[i].url != url
  {
    if s == [] then -1
    else if s[0].url == url then 0
    else
      var j := IndexOfUrl(s[1..], url);
      if j < 0 then -1 else j + 1
  }

  /** The filter `index === self.findIndex(t => t.url === item.url)` on `s[k..]`. */
  function KeepFirstFrom(s: seq<NewsItem>, k: nat): seq<NewsItem>
    requires k <= |s|
    decreases |s| - k
  {
    if k == |s| then []
    else (if IndexOfUrl(s, s[k].url) == k then [s[k]] else []) + KeepFirstFrom(s, k + 1)
  }

  function UniqueByUrl(s: seq<NewsItem>): seq<NewsItem> {
    KeepFirstFrom(s, 0)
  }

  function Urls(s: seq<NewsItem>): set<string> {
    set i | 0 <= i < |s| :: s[i].url
  }

  /** Each item of `r` is the first item of `s` with its url, found at or after `k`. */
  predicate FirstOccurrencesFrom(s: seq<NewsItem>, r: seq<NewsItem>, k: nat) {
    forall m :: 0 <= m < |r| ==> k <= IndexOfUrl(s, r[m].url) && r[m] == s[IndexOfUrl(s, r[m].url)]
  }

  /** The items of `r` follow the order of their first occurrences in `s`. */
  predicate InFirstOccurrenceOrder(s: seq<NewsItem>, r: seq<NewsItem>) {
    forall m1, m2 :: 0 <= m1 < m2 < |r| ==> IndexOfUrl(s, r[m1].url) < IndexOfUrl(s, r[m2].url)
  }

  /** Every item kept from `s[k..]` is the first item of `s` with its url, at or after `k`. */
  lemma {:induction false} KeptAreFirst(s: seq<NewsItem>, k: nat)
    requires k <= |s|
    ensures FirstOccurrencesFrom(s, KeepFirstFrom(s, k), k)
    decreases |s| - k
  {
    if k < |s| {
      KeptAreFirst(s, k + 1);
      var tail := KeepFirstFrom(s, k + 1);
      if IndexOfUrl(s, s[k].url) == k {
        FirstOccurrencesCons(s, tail, k);
      } else {
        FirstOccurrencesWeaken(s, tail, k);
      }
    }
  }

  lemma FirstOccurrencesCons(s: seq<NewsItem>, tail: seq<NewsItem>, k: nat)
    requires k < |s| && IndexOfUrl(s, s[k].url) == k
    requires FirstOccurrencesFrom(s, tail, k + 1)
    ensures FirstOccurrencesFrom(s, [s[k]] + tail, k)
  {
    var r := [s[k]] + tail;
    forall m | 0 <= m < |r|
      ensures k <= IndexOfUrl(s, r[m].url) && r[m] == s[IndexOfUrl(s, r[m].url)]
    {
      if m > 0 {
        assert r[m] == tail[m - 1];
      }
    }
  }

  lemma FirstOccurrencesWeaken(s: seq<NewsItem>, r: seq<NewsItem>, k: nat)
    requires FirstOccurrencesFrom(s, r, k + 1)
    ensures FirstOccurrencesFrom(s, r, k)
  {
  }

  /** Kept items appear in the order of their first occurrences. */
  lemma {:induction false} KeptInOrder(s: seq<NewsItem>, k: nat)
    requires k <= |s|
    ensures InFirstOccurrenceOrder(s, KeepFirstFrom(s, k))
    decreases |s| - k
  {
    if k < |s| {
      KeptInOrder(s, k + 1);
      KeptAreFirst(s, k + 1);
      if IndexOfUrl(s, s[k].url) == k {
        InFirstOccurrenceOrderCons(s, KeepFirstFrom(s, k + 1), k);
      }
    }
  }

  lemma InFirstOccurrenceOrderCons(s: seq<NewsItem>, tail: seq<NewsItem>, k: nat)
    requires k < |s| && IndexOfUrl(s, s[k].url) == k
    requires FirstOccurrencesFrom(s, tail, k + 1) && InFirstOccurrenceOrder(s, tail)
    ensures InFirstOccurrenceOrder(s, [s[k]] + tail)
  {
    var r := [s[k]] + tail;
    assert r[0] == s[k];
    forall m | 0 < m < |r| ensures r[m] == tail[m - 1] && k < IndexOfUrl(s, r[m].url) {
      assert r[m] == tail[m - 1];
    }
    forall m1, m2 | 0 <= m1 < m2 < |r|
      ensures IndexOfUrl(s, r[m1].url) < IndexOfUrl(s, r[m2].url)
    {
      if m1 > 0 {
        assert IndexOfUrl(s, tail[m1 - 1].url) < IndexOfUrl(s, tail[m2 - 1].url);
      }
    }
  }

  /** Every first occurrence at or after `k` is kept. */
  lemma {:induction false} KeptComplete(s: seq<NewsItem>, k: nat)
    requires k <= |s|
    ensures forall i :: k <= i < |s| && IndexOfUrl(s, s[i].url) == i ==> s[i] in KeepFirstFrom(s, k)
    decreases |s| - k
  {
    if k < |s| {
      KeptComplete(s, k + 1);
      var r := KeepFirstFrom(s, k);
      var tail := KeepFirstFrom(s, k + 1);
      assert r == (if IndexOfUrl(s, s[k].url) == k then [s[k]] else []) + tail;
      forall i | k <= i < |s| && IndexOfUrl(s, s[i].url) == i ensures s[i] in r {
        if i > k { assert s[i] in tail; } else { assert r[0] == s[k]; }
      }
    }
  }

  /** The de-duplicated list: urls are distinct, every url of the input is kept, and the
      item kept for a url is the first one with it, in input order. */
  lemma UniqueByUrlSpec(s: seq<NewsItem>)
    ensures var r := UniqueByUrl(s);
      && (forall m :: 0 <= m < |r| ==> 0 <= IndexOfUrl(s, r[m].url) && r[m] == s[IndexOfUrl(s, r[m].url)])
      && (forall m1, m2 :: 0 <= m1 < m2 < |r| ==> IndexOfUrl(s, r[m1].url) < IndexOfUrl(s, r[m2].url))
      && (forall m1, m2 :: 0 <= m1 < m2 < |r| ==> r[m1].url != r[m2].url)
      && Urls(r) == Urls(s)
      && (r == [] <==> s == [])
  {
    KeptAreFirst(s, 0);
    KeptInOrder(s, 0);
    var r := UniqueByUrl(s);
    forall m1, m2 | 0 <= m1 < m2 < |r| ensures r[m1].url != r[m2].url {
      assert IndexOfUrl(s, r[m1].url) < IndexOfUrl(s, r[m2].url);
    }
    UrlsKept(s);
    if s != [] {
      assert s[0].url in Urls(s);
    }
  }

  /** De-duplication keeps the set of urls. */
  lemma UrlsKept(s: seq<NewsItem>)
    ensures Urls(UniqueByUrl(s)) == Urls(s)
  {
    KeptAreFirst(s, 0);
    KeptComplete(s, 0);
    var r := UniqueByUrl(s);
    forall u | u in Urls(s) ensures u in Urls(r) {
      var i :| 0 <= i < |s| && s[i].url == u;
      var j := IndexOfUrl(s, u);
      assert s[j] in r;
      var m :| 0 <= m < |r| && r[m] == s[j];
      assert r[m].url == u;
    }
    forall u | u in Urls(r) ensures u in Urls(s) {
      var m :| 0 <= m < |r| && r[m].url == u;
      assert s[IndexOfUrl(s, r[m].url)].url == u;
    }
  }

  /** `.slice(0, n)`. */
  function Take<T>(s: seq<T>, n: nat): (r: seq<T>)
    ensures |r| <= n && r <= s
    ensures |s| <= n ==> r == s
  {
    if |s| <= n then s else s[..n]
  }

  /** The single item shown when the search found nothing usable. */
  function NoResultsItem(interest: string, encode: string -> string): NewsItem {
    NewsItem("Latest News: " + interest, "Search for the latest updates on Google News.",
             "https://www.google.com/search?q=" + encode(interest + " news") + "&tbm=nws",
             "Google News", "Today")
  }

  /** The single item shown when the call itself failed. */
  function FailureItem(interest: string, encode: string -> string): NewsItem {
    NewsItem(interest + " Updates", "Explore the latest updates.",
             "https://www.google.com/search?q=" + encode(interest + " news"),
             "Google Search", "Now")
  }

  /** `fetchTechNews` after the model call: `response` is `None` when the call threw, and
      otherwise the grounding chunks it returned. `encode` is `encodeURIComponent`. */
  function FetchTechNews(response: Option<seq<WebChunk>>, interest: string,
                         source: (string, string) -> string, encode: string -> string): (r: seq<NewsItem>)
    ensures 1 <= |r| <= 5
    ensures response.None? ==> r == [FailureItem(interest, encode)]
    ensures response.Some? && WebItems(response.value, source) == [] ==> r == [NoResultsItem(interest, encode)]
    ensures response.Some? && WebItems(response.value, source) != [] ==>
            r == Take(UniqueByUrl(WebItems(response.value, source)), 5)
  {
    match response
    case None => [FailureItem(interest, encode)]
    case Some(chunks) =>
      var items := WebItems(chunks, source);
      UniqueByUrlSpec(items);
      var uniqueItems := Take(UniqueByUrl(items), 5);
      if |uniqueItems| > 0 then uniqueItems else [NoResultsItem(interest, encode)]
  }
}
