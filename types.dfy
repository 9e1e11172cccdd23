/** The data model of the application (types.ts): roadmap items grouped into phases, the
    careers a user tracks, the user profile with its gamification counters, and the
    derived facts every component asks of a roadmap (is a phase done, how many items are
    completed or pending). Dates are day numbers; a missing or empty date string is `None`. */
module Types {

  import opened Options

  datatype Status = Pending | InProgress | Completed
  datatype ItemKind = Skill | Project | Internship | Certificate
  datatype Importance = High | Medium | Low

  /** One unit of work. `completedAt` is the moment it was marked completed. */
  datatype Item = Item(
    id: string,
    title: string,
    description: string,
    kind: ItemKind,
    duration: string,
    status: Status,
    completedAt: Option<int>,
    link: Option<string>,
    importance: Importance,
    isAIAdaptation: bool)

  datatype Phase = Phase(phaseName: string, items: seq<Item>, completionSummary: Option<string>)

  type Roadmap = seq<Phase>

  datatype ThemeMode = Dark | Light
  datatype Color = Indigo | Emerald | Violet | Rose | Amber | Blue
  datatype Theme = Theme(mode: ThemeMode, primaryColor: Color)

  /** The theme a new or legacy account gets. */
  const DefaultTheme := Theme(Dark, Indigo)

  datatype Level = Beginner | Intermediate | Advanced
  datatype Plan = Free | Monthly | Yearly

  /** One career a user follows, with its own deadline and daily-challenge date. */
  datatype CareerEntry = CareerEntry(
    careerId: string,
    title: string,
    addedAt: int,
    educationYear: string,
    targetCompletionDate: Option<int>,
    experienceLevel: Level,
    focusAreas: string,
    lastAdaptationCheck: Option<int>,
    lastDailyChallenge: Option<int>)

  /** A stored account: the profile together with the password kept beside it. */
  datatype User = User(
    id: string,
    username: string,
    password: string,
    securityKey: string,
    subscriptionStatus: Plan,
    onboardingComplete: bool,
    theme: Option<Theme>,
    xp: int,
    streak: int,
    lastDailyChallenge: Option<int>,
    activeCareers: seq<CareerEntry>,
    currentCareerId: Option<string>)

  datatype CareerOption = CareerOption(
    id: string, title: string, description: string, fitScore: int, reason: string)

  datatype NewsItem = NewsItem(
    title: string, summary: string, url: string, source: string, date: string)

  /** `phase.items.every(i => i.status === 'completed')`; an empty phase is completed. */
  predicate PhaseCompleted(p: Phase) {
    forall k :: 0 <= k < |p.items| ==> p.items[k].status == Completed
  }

  /** `roadmap.every(p => p.items.every(i => i.status === 'completed'))`. */
  predicate AllCompleted(r: Roadmap) {
    forall j :: 0 <= j < |r| ==> PhaseCompleted(r[j])
  }

  predicate ContainsId(p: Phase, id: string) {
    exists k :: 0 <= k < |p.items| && p.items[k].id == id
  }

  /** `items.filter(i => i.status === s).length`. */
  function CountStatus(items: seq<Item>, s: Status): (n: nat)
    ensures n <= |items|
  {
    if items == [] then 0
    else CountStatus(items[..|items| - 1], s) + (if items[|items| - 1].status == s then 1 else 0)
  }

  /** All items of a phase have status `s` exactly when `s` counts every item. */
  lemma {:induction false} CountStatusAll(items: seq<Item>, s: Status)
    ensures CountStatus(items, s) == |items| <==> forall k :: 0 <= k < |items| ==> items[k].status == s
  {
    if items != [] {
      var init := items[..|items| - 1];
      CountStatusAll(init, s);
      if CountStatus(items, s) == |items| {
        assert CountStatus(init, s) == |init|;
        forall k | 0 <= k < |items| ensures items[k].status == s {
          if k < |init| { assert items[k] == init[k]; }
        }
      }
    }
  }

  /** No item has status `s` exactly when `s` counts nothing. */
  lemma {:induction false} CountStatusNone(items: seq<Item>, s: Status)
    ensures CountStatus(items, s) == 0 <==> forall k :: 0 <= k < |items| ==> items[k].status != s
  {
    if items != [] {
      var init := items[..|items| - 1];
      CountStatusNone(init, s);
      if CountStatus(items, s) == 0 {
        forall k | 0 <= k < |items| ensures items[k].status != s {
          if k < |init| { assert items[k] == init[k]; }
        }
      }
    }
  }

  /** The count over a concatenation is the sum of the counts. */
  lemma {:induction false} CountStatusAppend(a: seq<Item>, b: seq<Item>, s: Status)
    ensures CountStatus(a + b, s) == CountStatus(a, s) + CountStatus(b, s)
  {
    if b != [] {
      var ab := a + b;
      assert ab[..|ab| - 1] == a + b[..|b| - 1];
      CountStatusAppend(a, b[..|b| - 1], s);
    } else {
      assert a + b == a;
    }
  }

  /** Number of items, over all phases. */
  function TotalItems(r: Roadmap): nat {
    if r == [] then 0 else TotalItems(r[..|r| - 1]) + |r[|r| - 1].items|
  }

  /** Number of items with status `s`, over all phases. */
  function TotalStatus(r: Roadmap, s: Status): (n: nat)
    ensures n <= TotalItems(r)
  {
    if r == [] then 0 else TotalStatus(r[..|r| - 1], s) + CountStatus(r[|r| - 1].items, s)
  }

  /** The whole roadmap is completed exactly when `Completed` counts every item. */
  lemma {:induction false} TotalStatusAll(r: Roadmap)
    ensures TotalStatus(r, Completed) == TotalItems(r) <==> AllCompleted(r)
  {
    if r != [] {
      var init := r[..|r| - 1];
      var last := r[|r| - 1];
      TotalStatusAll(init);
      CountStatusAll(last.items, Completed);
      assert AllCompleted(r) <==> AllCompleted(init) && PhaseCompleted(last) by {
        if AllCompleted(init) && PhaseCompleted(last) {
          forall j | 0 <= j < |r| ensures PhaseCompleted(r[j]) {
            if j < |init| { assert r[j] == init[j]; }
          }
        }
        if AllCompleted(r) {
          forall j | 0 <= j < |init| ensures PhaseCompleted(init[j]) {
            assert init[j] == r[j];
          }
        }
      }
    }
  }

  /** No item anywhere has status `s` exactly when `s` counts nothing. */
  lemma {:induction false} TotalStatusNone(r: Roadmap, s: Status)
    ensures TotalStatus(r, s) == 0 <==>
            forall j, k :: 0 <= j < |r| && 0 <= k < |r[j].items| ==> r[j].items[k].status != s
  {
    if r != [] {
      var init := r[..|r| - 1];
      var last := r[|r| - 1];
      TotalStatusNone(init, s);
      CountStatusNone(last.items, s);
      if TotalStatus(r, s) == 0 {
        forall j, k | 0 <= j < |r| && 0 <= k < |r[j].items| ensures r[j].items[k].status != s {
          if j < |init| { assert r[j] == init[j]; }
        }
      }
    }
  }
}
