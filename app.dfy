/** The session rules of App.tsx: restoring the signed-in user on start (the streak check and
    the theme default), which career context to load, appending a career when onboarding
    completes, logging out, the add-career chooser, and the order in which the screens take
    precedence. The store is a user map plus career and roadmap maps keyed by
    (user id, career id); the splash timer is the method that ends the splash. */
module App {

  import opened Options
  import opened Types
  import Gemini
  import Onboarding

  // ---------------------------------------------------------------------------------------
  // Restoring a user

  /** The streak check of the start-up effect, on day numbers: a streak is lost when more
      than one day has passed since the last daily challenge. */
  predicate StreakBroken(u: User, today: int) {
    u.streak > 0 && u.lastDailyChallenge.Some? && today - u.lastDailyChallenge.value > 1
  }

  /** The user after the streak check: a broken streak is reset to 0, nothing else changes. */
  function CheckStreak(u: User, today: int): (v: User)
    ensures v.streak == (if StreakBroken(u, today) then 0 else u.streak)
    ensures v.(streak := u.streak) == u
  {
    if StreakBroken(u, today) then u.(streak := 0) else u
  }

  /** Once checked, a streak is not broken again on the same day, so the check is idempotent. */
  lemma CheckStreakIdempotent(u: User, today: int)
    ensures !StreakBroken(CheckStreak(u, today), today)
    ensures CheckStreak(CheckStreak(u, today), today) == CheckStreak(u, today)
  {
  }

  /** A user who played today or yesterday keeps the streak; a gap of two days loses it. */
  lemma StreakKeptWithinADay(u: User, today: int, last: int)
    requires u.lastDailyChallenge == Some(last)
    ensures today <= last + 1 ==> CheckStreak(u, today) == u
    ensures u.streak > 0 && today >= last + 2 ==> CheckStreak(u, today).streak == 0
  {
  }

  /** A missing theme becomes dark/indigo; a present theme and every other field are kept. */
  function WithDefaultTheme(u: User): (v: User)
    ensures v.theme.Some?
    ensures u.theme.Some? ==> v == u
    ensures u.theme.None? ==> v.theme == Some(DefaultTheme)
    ensures v.(theme := u.theme) == u
  {
    if u.theme.None? then u.(theme := Some(DefaultTheme)) else u
  }

  /** Defaulting the theme twice is defaulting it once, and it commutes with the streak check. */
  lemma WithDefaultThemeIdempotent(u: User, today: int)
    ensures WithDefaultTheme(WithDefaultTheme(u)) == WithDefaultTheme(u)
    ensures CheckStreak(WithDefaultTheme(u), today) == WithDefaultTheme(CheckStreak(u, today))
  {
  }

  /** The user the start-up effect shows: theme defaulted, then the streak checked. */
  function Restore(u: User, today: int): (v: User)
    ensures v.theme.Some? && (u.theme.Some? ==> v.theme == u.theme)
    ensures v.streak == (if StreakBroken(u, today) then 0 else u.streak)
    ensures v.(theme := u.theme, streak := u.streak) == u
  {
    CheckStreak(WithDefaultTheme(u), today)
  }

  /** `currentCareerId || activeCareers[0].careerId`: an empty id counts as missing. */
  function CareerToLoad(u: User): (id: string)
    requires |u.activeCareers| > 0
    ensures u.currentCareerId.Some? && u.currentCareerId.value != "" ==> id == u.currentCareerId.value
    ensures u.currentCareerId.None? || u.currentCareerId.value == "" ==> id == u.activeCareers[0].careerId
  {
    if u.currentCareerId.Some? && u.currentCareerId.value != "" then u.currentCareerId.value
    else u.activeCareers[0].careerId
  }

  /** `loadCareerContext` for one of the two stores: a saved value replaces the shown one, a
      missing one leaves it. */
  function Load<V>(stored: map<(string, string), V>, key: (string, string), shown: Option<V>): (r: Option<V>)
    ensures key in stored ==> r == Some(stored[key])
    ensures key !in stored ==> r == shown
  {
    if key in stored then Some(stored[key]) else shown
  }

  // ---------------------------------------------------------------------------------------
  // Completing onboarding

  /** The career entry `handleOnboardingComplete` appends. */
  function NewEntry(selected: CareerOption, eduYear: string, targetDate: Option<int>,
                    expLevel: Level, focusAreas: string, now: int): (e: CareerEntry)
    ensures e.careerId == selected.id && e.title == selected.title && e.addedAt == now
    ensures e.educationYear == eduYear && e.targetCompletionDate == targetDate
    ensures e.experienceLevel == expLevel && e.focusAreas == focusAreas
    ensures e.lastAdaptationCheck.None? && e.lastDailyChallenge.None?
  {
    CareerEntry(selected.id, selected.title, now, eduYear, targetDate, expLevel, focusAreas, None, None)
  }

  /** The user once onboarding completes: the entry is appended, the new career becomes the
      current one and onboarding counts as done. */
  function Onboard(u: User, e: CareerEntry): (v: User)
    ensures v.activeCareers == u.activeCareers + [e]
    ensures v.onboardingComplete && v.currentCareerId == Some(e.careerId)
    ensures v.(activeCareers := u.activeCareers, onboardingComplete := u.onboardingComplete,
               currentCareerId := u.currentCareerId) == u
  {
    u.(onboardingComplete := true, activeCareers := u.activeCareers + [e], currentCareerId := Some(e.careerId))
  }

  /** Exactly one entry is added, at the end, the earlier ones untouched; the next start-up
      or login loads the new career (unless its id is empty, when the first career loads). */
  lemma OnboardAppendsOne(u: User, e: CareerEntry)
    ensures |Onboard(u, e).activeCareers| == |u.activeCareers| + 1
    ensures Onboard(u, e).activeCareers[..|u.activeCareers|] == u.activeCareers
    ensures Onboard(u, e).activeCareers[|u.activeCareers|] == e
    ensures e.careerId != "" ==> CareerToLoad(Onboard(u, e)) == e.careerId
    ensures e.careerId == "" ==> CareerToLoad(Onboard(u, e)) == Onboard(u, e).activeCareers[0].careerId
  {
    assert Onboard(u, e).activeCareers[..|u.activeCareers|] == u.activeCareers;
  }

  /** The generator request of a first roadmap: no adaptation context. */
  function InitialRequest(selected: CareerOption, e: CareerEntry): (req: Gemini.GenerationRequest)
    ensures req.careerTitle == selected.title && req.currentLevel == e.educationYear
    ensures req.targetDate == e.targetCompletionDate && req.experienceLevel == e.experienceLevel
    ensures req.focusAreas == e.focusAreas && req.context.None?
    ensures Gemini.StartPhase(req.context) == 1
  {
    Gemini.GenerationRequest(selected.title, e.educationYear, e.targetCompletionDate,
                             e.experienceLevel, e.focusAreas, None)
  }

  // ---------------------------------------------------------------------------------------
  // Screens

  /** The add-career modes are the onboarding wizard's. */
  type Mode = Onboarding.Mode

  /** What App renders. */
  datatype Screen =
    | Splash
    | Loader
    | StreakBrokenScreen
    | AuthScreen
    | CareerChooser
    | OnboardingScreen(isNewUser: bool, mode: Mode)
    | CareerLoader
    | DashboardScreen

  /** The render chain of App: the first condition that holds picks the screen. */
  function ScreenFor(showSplash: bool, loading: bool, showStreakBroken: bool, user: Option<User>,
                     isAddingCareer: bool, addCareerMode: Option<Mode>, career: Option<CareerOption>): (s: Screen)
    ensures showSplash ==> s == Splash
    ensures s == DashboardScreen ==> user.Some? && career.Some?
    ensures s == CareerLoader ==> user.Some? && |user.value.activeCareers| > 0 && career.None?
    ensures s.OnboardingScreen? ==> user.Some? && (s.isNewUser <==> !user.value.onboardingComplete)
  {
    if showSplash then Splash
    else if loading then Loader
    else if showStreakBroken then StreakBrokenScreen
    else if user.None? then AuthScreen
    else if isAddingCareer && addCareerMode.None? && user.value.onboardingComplete then CareerChooser
    else if !user.value.onboardingComplete || (isAddingCareer && addCareerMode.Some?) then
      OnboardingScreen(!user.value.onboardingComplete,
                       if addCareerMode.Some? then addCareerMode.value else Onboarding.AnalysisMode)
    else if career.None? && |user.value.activeCareers| > 0 then CareerLoader
    else if career.None? then OnboardingScreen(false, Onboarding.AnalysisMode)
    else DashboardScreen
  }

  /** Past the splash, the loader and the streak notice, the sign-in form shows exactly when
      nobody is signed in, the dashboard exactly when an onboarded user with a career is
      signed in and no career is being added, and an account that has not finished
      onboarding always sees the onboarding flow. */
  lemma ScreenPrecedence(showSplash: bool, loading: bool, showStreakBroken: bool, user: Option<User>,
                         isAddingCareer: bool, addCareerMode: Option<Mode>, career: Option<CareerOption>)
    requires !showSplash && !loading && !showStreakBroken
    ensures ScreenFor(showSplash, loading, showStreakBroken, user, isAddingCareer, addCareerMode, career) == AuthScreen
            <==> user.None?
    ensures ScreenFor(showSplash, loading, showStreakBroken, user, isAddingCareer, addCareerMode, career) == DashboardScreen
            <==> user.Some? && user.value.onboardingComplete && !isAddingCareer && career.Some?
    ensures user.Some? && !user.value.onboardingComplete ==>
              ScreenFor(showSplash, loading, showStreakBroken, user, isAddingCareer, addCareerMode, career).OnboardingScreen?
  {
  }

  // ---------------------------------------------------------------------------------------
  // The component

  class Shell {
    var showSplash: bool
    var loading: bool
    var showStreakBroken: bool
    var user: Option<User>
    var career: Option<CareerOption>
    var roadmap: Option<Roadmap>
    var isAddingCareer: bool
    var addCareerMode: Option<Mode>
    var currentUserId: Option<string>
    var users: map<string, User>
    var careerData: map<(string, string), CareerOption>
    var roadmaps: map<(string, string), Roadmap>

    constructor(currentUserId: Option<string>, users: map<string, User>,
                careerData: map<(string, string), CareerOption>, roadmaps: map<(string, string), Roadmap>)
      ensures this.currentUserId == currentUserId && this.users == users
      ensures this.careerData == careerData && this.roadmaps == roadmaps
      ensures showSplash && loading && !showStreakBroken && user.None? && career.None? && roadmap.None?
      ensures !isAddingCareer && addCareerMode.None?
    {
      this.currentUserId := currentUserId;
      this.users := users;
      this.careerData := careerData;
      this.roadmaps := roadmaps;
      showSplash := true;
      loading := true;
      showStreakBroken := false;
      user := None;
      career := None;
      roadmap := None;
      isAddingCareer := false;
      addCareerMode := None;
    }

    function Current(): Screen
      reads this
    {
      ScreenFor(showSplash, loading, showStreakBroken, user, isAddingCareer, addCareerMode, career)
    }

    /** `loadCareerContext(userId, careerId)`. */
    method LoadCareerContext(userId: string, careerId: string)
      modifies this`career, this`roadmap
      ensures career == Load(careerData, (userId, careerId), old(career))
      ensures roadmap == Load(roadmaps, (userId, careerId), old(roadmap))
    {
      if (userId, careerId) in careerData {
        career := Some(careerData[(userId, careerId)]);
      }
      if (userId, careerId) in roadmaps {
        roadmap := Some(roadmaps[(userId, careerId)]);
      }
    }

    /** The start-up effect: the stored current user, if any, is restored with its theme
        defaulted and its streak checked; only a broken streak is written back (and
        announced); then the user's career context is loaded. */
    method Start(today: int)
      modifies this`loading, this`showStreakBroken, this`user, this`users, this`career, this`roadmap
      ensures !loading
      ensures old(RestorableId()).None? ==>
                user == old(user) && users == old(users) && showStreakBroken == old(showStreakBroken)
                && career == old(career) && roadmap == old(roadmap)
      ensures old(RestorableId()).Some? ==>
                var id := old(RestorableId()).value;
                var u := old(users)[id];
                var restored := Restore(u, today);
                && user == Some(restored)
                && showStreakBroken == (StreakBroken(u, today) || old(showStreakBroken))
                && users == (if StreakBroken(u, today) then old(users)[restored.id := restored] else old(users))
                && (|u.activeCareers| == 0 ==> career == old(career) && roadmap == old(roadmap))
                && (|u.activeCareers| > 0 ==>
                      career == Load(careerData, (id, CareerToLoad(u)), old(career))
                      && roadmap == Load(roadmaps, (id, CareerToLoad(u)), old(roadmap)))
    {
      var id := RestorableId();
      if id.Some? {
        var u := users[id.value];
        var restored := WithDefaultTheme(u);
        if StreakBroken(restored, today) {
          restored := restored.(streak := 0);
          users := users[restored.id := restored];
          showStreakBroken := true;
        }
        user := Some(restored);
        if |u.activeCareers| > 0 {
          LoadCareerContext(id.value, CareerToLoad(u));
        }
      }
      loading := false;
    }

    /** The stored current user id when it is set (non-empty) and names a stored user. */
    function RestorableId(): (id: Option<string>)
      reads this
      ensures id.Some? ==> currentUserId == id && id.value != "" && id.value in users
      ensures id.None? ==> currentUserId.None? || currentUserId.value == "" || currentUserId.value !in users
    {
      if currentUserId.Some? && currentUserId.value != "" && currentUserId.value in users then currentUserId
      else None
    }

    /** The splash timer fires. */
    method EndSplash()
      modifies this`showSplash
      ensures !showSplash
    {
      showSplash := false;
    }

    /** "Start Fresh" on the streak notice. */
    method CloseStreakBroken()
      modifies this`showStreakBroken
      ensures !showStreakBroken
    {
      showStreakBroken := false;
    }

    /** `handleLogin`: the theme is defaulted (not saved) and the user's career context loaded. */
    method HandleLogin(u: User)
      modifies this`user, this`career, this`roadmap
      ensures user == Some(WithDefaultTheme(u))
      ensures |u.activeCareers| == 0 ==> career == old(career) && roadmap == old(roadmap)
      ensures |u.activeCareers| > 0 ==>
                career == Load(careerData, (u.id, CareerToLoad(u)), old(career))
                && roadmap == Load(roadmaps, (u.id, CareerToLoad(u)), old(roadmap))
    {
      user := Some(WithDefaultTheme(u));
      if |u.activeCareers| > 0 {
        LoadCareerContext(u.id, CareerToLoad(u));
      }
    }

    /** `handleOnboardingComplete`: without a signed-in user nothing happens; otherwise the
        entry is appended and saved, the career saved and shown, the chooser closed, and the
        generated roadmap shown and saved under (user id, career id). */
    method HandleOnboardingComplete(selected: CareerOption, eduYear: string, targetDate: Option<int>,
                                    expLevel: Level, focusAreas: string, now: int,
                                    generate: Gemini.GenerationRequest -> Roadmap)
      modifies this`user, this`career, this`roadmap, this`isAddingCareer, this`addCareerMode
      modifies this`users, this`careerData, this`roadmaps
      ensures old(user).None? ==>
                user == old(user) && career == old(career) && roadmap == old(roadmap)
                && isAddingCareer == old(isAddingCareer) && addCareerMode == old(addCareerMode)
                && users == old(users) && careerData == old(careerData) && roadmaps == old(roadmaps)
      ensures old(user).Some? ==>
                var e := NewEntry(selected, eduYear, targetDate, expLevel, focusAreas, now);
                var updated := Onboard(old(user).value, e);
                var generated := generate(InitialRequest(selected, e));
                && user == Some(updated) && users == old(users)[updated.id := updated]
                && career == Some(selected)
                && careerData == old(careerData)[(old(user).value.id, selected.id) := selected]
                && roadmap == Some(generated)
                && roadmaps == old(roadmaps)[(old(user).value.id, selected.id) := generated]
                && !isAddingCareer && addCareerMode.None?
    {
      if user.None? {
        return;
      }
      var uid := user.value.id;
      var e := NewEntry(selected, eduYear, targetDate, expLevel, focusAreas, now);
      var updated := Onboard(user.value, e);
      user := Some(updated);
      career := Some(selected);
      isAddingCareer := false;
      addCareerMode := None;
      users := users[updated.id := updated];
      careerData := careerData[(uid, selected.id) := selected];
      var generated := generate(InitialRequest(selected, e));
      roadmap := Some(generated);
      roadmaps := roadmaps[(uid, selected.id) := generated];
    }

    /** `handleLogout`: the current user id, the user, the career and the roadmap are cleared. */
    method HandleLogout()
      modifies this`currentUserId, this`user, this`career, this`roadmap
      ensures currentUserId.None? && user.None? && career.None? && roadmap.None?
    {
      currentUserId := None;
      user := None;
      career := None;
      roadmap := None;
    }

    /** `handleAddCareerRequest(mode)`: the chooser opens (or the flow in the given mode) and
        the shown career is dropped. */
    method HandleAddCareerRequest(mode: Option<Mode>)
      modifies this`isAddingCareer, this`addCareerMode, this`career
      ensures isAddingCareer && addCareerMode == mode && career.None?
    {
      isAddingCareer := true;
      addCareerMode := mode;
      career := None;
    }

    /** A button of the chooser picks the flow. */
    method ChooseAddCareerMode(mode: Mode)
      modifies this`addCareerMode
      ensures addCareerMode == Some(mode)
    {
      addCareerMode := Some(mode);
    }

    /** `cancelAddCareer`: the chooser closes and the previous career context is reloaded. */
    method CancelAddCareer()
      modifies this`isAddingCareer, this`addCareerMode, this`career, this`roadmap
      ensures !isAddingCareer && addCareerMode.None?
      ensures (user.None? || |user.value.activeCareers| == 0) ==> career == old(career) && roadmap == old(roadmap)
      ensures user.Some? && |user.value.activeCareers| > 0 ==>
                career == Load(careerData, (user.value.id, CareerToLoad(user.value)), old(career))
                && roadmap == Load(roadmaps, (user.value.id, CareerToLoad(user.value)), old(roadmap))
    {
      isAddingCareer := false;
      addCareerMode := None;
      if user.Some? && |user.value.activeCareers| > 0 {
        LoadCareerContext(user.value.id, CareerToLoad(user.value));
      }
    }

    /** Rendering the loader for a user without a shown career loads the FIRST career (not the
        current one); when that career was never saved the loader stays. */
    method Render() returns (s: Screen)
      modifies this`career, this`roadmap
      ensures s == old(Current())
      ensures s != CareerLoader ==> career == old(career) && roadmap == old(roadmap)
      ensures s == CareerLoader ==>
                var key := (user.value.id, user.value.activeCareers[0].careerId);
                && career == Load(careerData, key, old(career))
                && roadmap == Load(roadmaps, key, old(roadmap))
                && (key !in careerData ==> Current() == CareerLoader)
    {
      s := Current();
      if s == CareerLoader {
        LoadCareerContext(user.value.id, user.value.activeCareers[0].careerId);
      }
    }
  }
}
