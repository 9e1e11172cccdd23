/** The onboarding flow of components/Onboarding.tsx: five questions answered one by one, an
    analysis that proposes careers (with a fixed fallback when it fails), a search, a
    "suggest more" that keeps at most six options, the choice of a career, the experience
    step, and the final submission handed to the application. The analysis and the search
    are parameters: `None` stands for a call that throws. */
module Onboarding {

  import opened Options
  import opened Types
  import Js

  const QuestionTexts: seq<string> := [
    "What specific topics or hobbies do you lose track of time doing?",
    "In a group project, do you prefer leading, researching, building, or presenting?",
    "What is a global problem (climate, health, tech, social) you'd love to help solve?",
    "Describe your ideal daily work vibe (e.g., quiet coding, busy hospital, creative studio).",
    "How important is rapid financial growth versus work-life balance for you?"
  ]

  /** The careers shown when the analysis throws. */
  const FallbackCareers: seq<CareerOption> := [
    CareerOption("1", "Software Engineer", "Build scalable systems.", 95, "High logic scores."),
    CareerOption("2", "Data Scientist", "Analyze complex data.", 88, "Love for patterns."),
    CareerOption("3", "Product Manager", "Lead product vision.", 82, "Leadership traits.")
  ]

  /** The most options "suggest more" keeps. */
  const MaxCareers := 6

  datatype Step = Questions | Analysis | Selection | Experience | Details
  datatype Mode = AnalysisMode | SearchMode

  /** The step the flow opens on: searching goes straight to the selection. */
  function InitialStep(mode: Mode): (s: Step)
    ensures s.Selection? <==> mode.SearchMode?
    ensures s.Questions? <==> mode.AnalysisMode?
  {
    if mode == SearchMode then Selection else Questions
  }

  /** The careers after an analysis: its results, or the fallback when it throws. */
  function AnalysisCareers(results: Option<seq<CareerOption>>): (cs: seq<CareerOption>)
    ensures results.Some? ==> cs == results.value
    ensures results.None? ==> |cs| == 3 && cs == FallbackCareers
  {
    if results.Some? then results.value else FallbackCareers
  }

  /** `[...prev, ...results].slice(0, 6)`. */
  function SuggestMore(prev: seq<CareerOption>, results: seq<CareerOption>): (cs: seq<CareerOption>)
    ensures |cs| == if |prev| + |results| <= MaxCareers then |prev| + |results| else MaxCareers
    ensures cs == (prev + results)[..|cs|]
  {
    var all := prev + results;
    if |all| <= MaxCareers then all else all[..MaxCareers]
  }

  /** Suggesting more never drops a shown option among the first six, keeps at most six, and
      adds nothing once six are shown. */
  lemma SuggestMoreKeepsShown(prev: seq<CareerOption>, results: seq<CareerOption>)
    ensures |SuggestMore(prev, results)| <= MaxCareers
    ensures |prev| <= MaxCareers ==> SuggestMore(prev, results)[..|prev|] == prev
    ensures |prev| >= MaxCareers ==> SuggestMore(prev, results) == prev[..MaxCareers]
  {
    var all := prev + results;
    if |prev| <= MaxCareers {
      assert SuggestMore(prev, results)[..|prev|] == all[..|prev|];
      assert all[..|prev|] == prev;
    } else {
      assert all[..MaxCareers] == prev[..MaxCareers];
    }
  }

  /** Two rounds of suggestions, from the six or fewer careers shown, are one round with both
      result lists in order. */
  lemma SuggestMoreCompose(prev: seq<CareerOption>, a: seq<CareerOption>, b: seq<CareerOption>)
    requires |prev| <= MaxCareers
    ensures SuggestMore(SuggestMore(prev, a), b) == SuggestMore(prev, a + b)
  {
    var all := prev + a;
    var cs := SuggestMore(prev, a);
    var all2 := cs + b;
    var both := prev + (a + b);
    assert both == all + b;
    if |all| <= MaxCareers {
      assert all2 == both;
    } else {
      assert all2[..MaxCareers] == both[..MaxCareers];
    }
  }

  /** What the final submission hands to the application. */
  datatype Submission = Submission(
    career: CareerOption, eduYear: string, targetDate: int, expLevel: Level, focusAreas: string)

  class Wizard {
    const mode: Mode
    const isNewUser: bool
    var step: Step
    var currentQIndex: int
    var answers: seq<string>
    var currentInput: string
    var careers: seq<CareerOption>
    var selectedCareer: Option<CareerOption>
    var searchQuery: string
    var isSearching: bool
    var isAnalyzing: bool
    var eduYear: string
    var targetDate: Option<int>
    var expLevel: Level
    var focusAreas: string
    /** The submissions handed to `onComplete`, in order. */
    var submitted: seq<Submission>

    /** The question index stays on a question, and while questions are asked one answer
        has been kept per question already passed. */
    predicate Valid()
      reads this
    {
      && 0 <= currentQIndex < |QuestionTexts|
      && |answers| <= |QuestionTexts|
      && (step == Questions ==> |answers| == currentQIndex)
    }

    constructor(mode: Mode, isNewUser: bool)
      ensures Valid()
      ensures this.mode == mode && this.isNewUser == isNewUser
      ensures step == InitialStep(mode) && currentQIndex == 0 && answers == [] && currentInput == ""
      ensures careers == [] && selectedCareer.None? && searchQuery == ""
      ensures !isSearching && !isAnalyzing
      ensures eduYear == "" && targetDate.None? && expLevel == Beginner && focusAreas == ""
      ensures submitted == []
    {
      this.mode := mode;
      this.isNewUser := isNewUser;
      step := InitialStep(mode);
      currentQIndex := 0;
      answers := [];
      currentInput := "";
      careers := [];
      selectedCareer := None;
      searchQuery := "";
      isSearching := false;
      isAnalyzing := false;
      eduYear := "";
      targetDate := None;
      expLevel := Beginner;
      focusAreas := "";
      submitted := [];
    }

    /** Typing into the answer box. */
    method TypeAnswer(s: string)
      modifies this`currentInput
      ensures currentInput == s
    {
      currentInput := s;
    }

    /** `handleAnswer`: a blank answer changes nothing; otherwise the answer is kept as typed
        and the input cleared, and the next question follows, or after the last one the
        analysis runs on all five answers and the selection opens. */
    method HandleAnswer(analyze: seq<string> -> Option<seq<CareerOption>>)
      requires Valid() && step == Questions
      modifies this`answers, this`currentInput, this`currentQIndex, this`step, this`careers, this`isAnalyzing
      ensures Valid()
      ensures Js.IsBlank(old(currentInput)) ==>
                answers == old(answers) && currentInput == old(currentInput)
                && currentQIndex == old(currentQIndex) && step == old(step)
                && careers == old(careers) && isAnalyzing == old(isAnalyzing)
      ensures !Js.IsBlank(old(currentInput)) ==>
                answers == old(answers) + [old(currentInput)] && currentInput == ""
      ensures !Js.IsBlank(old(currentInput)) && old(currentQIndex) < |QuestionTexts| - 1 ==>
                currentQIndex == old(currentQIndex) + 1 && step == Questions
                && careers == old(careers) && isAnalyzing == old(isAnalyzing)
      ensures !Js.IsBlank(old(currentInput)) && old(currentQIndex) == |QuestionTexts| - 1 ==>
                |answers| == |QuestionTexts| && currentQIndex == old(currentQIndex)
                && step == Selection && careers == AnalysisCareers(analyze(answers)) && !isAnalyzing
    {
      if Js.IsBlank(currentInput) {
        return;
      }
      var newAnswers := answers + [currentInput];
      answers := newAnswers;
      currentInput := "";
      if currentQIndex < |QuestionTexts| - 1 {
        currentQIndex := currentQIndex + 1;
      } else {
        step := Analysis;
        PerformAnalysis(newAnswers, analyze);
      }
    }

    /** `performAnalysis`: the careers become the results (or the fallback) and the
        selection opens. */
    method PerformAnalysis(finalAnswers: seq<string>, analyze: seq<string> -> Option<seq<CareerOption>>)
      requires Valid() && step != Questions
      modifies this`careers, this`step, this`isAnalyzing
      ensures Valid()
      ensures careers == AnalysisCareers(analyze(finalAnswers)) && step == Selection && !isAnalyzing
    {
      isAnalyzing := true;
      careers := AnalysisCareers(analyze(finalAnswers));
      step := Selection;
      isAnalyzing := false;
    }

    /** Typing into the search box. */
    method TypeQuery(q: string)
      modifies this`searchQuery
      ensures searchQuery == q
    {
      searchQuery := q;
    }

    /** `handleSearch`: a blank query does nothing; results replace the careers, a failed
        search keeps them. */
    method HandleSearch(search: string -> Option<seq<CareerOption>>)
      modifies this`careers, this`isSearching
      ensures !isSearching || Js.IsBlank(searchQuery)
      ensures Js.IsBlank(searchQuery) ==> careers == old(careers) && isSearching == old(isSearching)
      ensures !Js.IsBlank(searchQuery) && search(searchQuery).Some? ==> careers == search(searchQuery).value
      ensures !Js.IsBlank(searchQuery) && search(searchQuery).None? ==> careers == old(careers)
    {
      if Js.IsBlank(searchQuery) {
        return;
      }
      isSearching := true;
      var results := search(searchQuery);
      if results.Some? {
        careers := results.value;
      }
      isSearching := false;
    }

    /** `handleSuggestMore`, offered in the analysis mode once some career is shown: a new
        analysis of the same answers is appended and the list cut to six. */
    method HandleSuggestMore(analyze: seq<string> -> Option<seq<CareerOption>>)
      requires mode == AnalysisMode && |careers| > 0
      modifies this`careers, this`isSearching
      ensures !isSearching
      ensures analyze(answers).None? ==> careers == old(careers)
      ensures analyze(answers).Some? ==> careers == SuggestMore(old(careers), analyze(answers).value)
    {
      isSearching := true;
      var results := analyze(answers);
      if results.Some? {
        careers := SuggestMore(careers, results.value);
      }
      isSearching := false;
    }

    /** `handleCareerSelect`: clicking a shown career selects it and opens the experience step. */
    method HandleCareerSelect(c: CareerOption)
      requires Valid() && step == Selection && c in careers
      modifies this`selectedCareer, this`step
      ensures Valid()
      ensures selectedCareer == Some(c) && step == Experience
    {
      selectedCareer := Some(c);
      step := Experience;
    }

    /** The experience level buttons. */
    method ChooseLevel(l: Level)
      modifies this`expLevel
      ensures expLevel == l
    {
      expLevel := l;
    }

    /** The inputs of the experience and details steps. */
    method EditDetails(eduYear: string, targetDate: Option<int>, focusAreas: string)
      modifies this`eduYear, this`targetDate, this`focusAreas
      ensures this.eduYear == eduYear && this.targetDate == targetDate && this.focusAreas == focusAreas
    {
      this.eduYear := eduYear;
      this.targetDate := targetDate;
      this.focusAreas := focusAreas;
    }

    /** The step buttons: back from the experience step to the selection, on to the details,
        and back from the details to the experience step. */
    method GoTo(s: Step)
      requires Valid()
      requires (step == Experience && (s == Selection || s == Details)) || (step == Details && s == Experience)
      modifies this`step
      ensures Valid()
      ensures step == s
    {
      step := s;
    }

    /** `handleFinalSubmit`: hands the choice on only when a career is selected and both the
        education year and the target date are filled in. */
    method HandleFinalSubmit()
      modifies this`submitted
      ensures selectedCareer.Some? && eduYear != "" && targetDate.Some? ==>
                submitted == old(submitted) +
                             [Submission(selectedCareer.value, eduYear, targetDate.value, expLevel, focusAreas)]
      ensures !(selectedCareer.Some? && eduYear != "" && targetDate.Some?) ==> submitted == old(submitted)
    {
      if selectedCareer.Some? && eduYear != "" && targetDate.Some? {
        submitted := submitted + [Submission(selectedCareer.value, eduYear, targetDate.value, expLevel, focusAreas)];
      }
    }
  }
}
