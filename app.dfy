/** The lesson step controller and the progress store as the `App` component
    holds them (App.tsx). `AppState` is the component's state record and the
    functions below are its transitions; `Component` is the component itself,
    whose handlers update its fields and are proved to follow the transitions.
    The awaited lesson generation is split into `StartNewLesson` and
    `StartNewLessonSettled`; today's weekday key is a parameter. */
module App {
  import opened Types
  import opened JsString
  import Progress
  import Constants

  /** The retry prompt shown for a wrong answer. */
  const TryAgain: string := "Not quite! Try again."

  datatype AppState = AppState(
    progress: ProgressState,
    activeLesson: Option<Lesson>,
    currentStepIdx: nat,
    lessonAnswer: string,
    lessonFeedback: Option<string>,
    isLoadingLesson: bool)

  /** While a lesson is open its step index points at one of its steps. */
  predicate StepInRange(s: AppState) {
    s.activeLesson.Some? ==> s.currentStepIdx < |s.activeLesson.value.steps|
  }

  /** `s.trim().toLowerCase()`: no longer than `s`, free of upper-case ASCII
      letters, and empty exactly when `s` is all whitespace. */
  function Normalize(s: string): (r: string)
    ensures |r| <= |s|
    ensures forall k :: 0 <= k < |r| ==> !('A' <= r[k] <= 'Z')
    ensures r == [] <==> AllWhitespace(s)
  {
    TrimStartSpec(s);
    TrimEndSpec(TrimStart(s));
    TrimEmptyIff(s);
    Lower(Trim(s))
  }

  /** The answer check of `handleNextStep`: both sides trimmed and lower-cased
      and then compared exactly; a step without an expected answer compares
      a string with `undefined`, which never matches. */
  function AnswerMatches(answer: string, expected: Option<string>): (r: bool)
    ensures r ==> expected.Some?
  {
    expected.Some? && Normalize(answer) == Normalize(expected.value)
  }

  /** Whether a step checks the answer before letting the learner on. */
  predicate IsChecked(step: LessonStep) {
    step.stepType == Quiz || step.stepType == Practice
  }

  /** `startNewLesson`, before the generation call settles. */
  function LessonRequested(s: AppState): (r: AppState)
    ensures r.isLoadingLesson
    ensures r.(isLoadingLesson := s.isLoadingLesson) == s
  {
    s.(isLoadingLesson := true)
  }

  /** `startNewLesson`, once the generation call settles: a generated lesson
      opens at its first step with a blank answer and no feedback; either way
      the loading flag drops. A failed call changes nothing else. */
  function LessonLoaded(s: AppState, outcome: Settled<Lesson>): (r: AppState)
    requires StepInRange(s)
    requires outcome.Fulfilled? ==> |outcome.value.steps| > 0
    ensures StepInRange(r)
    ensures !r.isLoadingLesson
    ensures r.progress == s.progress
    ensures outcome.Fulfilled? ==>
      r.activeLesson == Some(outcome.value) && r.currentStepIdx == 0 &&
      r.lessonAnswer == "" && r.lessonFeedback.None?
    ensures outcome.Rejected? ==>
      r.activeLesson == s.activeLesson && r.currentStepIdx == s.currentStepIdx &&
      r.lessonAnswer == s.lessonAnswer && r.lessonFeedback == s.lessonFeedback
  {
    match outcome
    case Fulfilled(lesson) =>
      s.(activeLesson := Some(lesson), currentStepIdx := 0, lessonAnswer := "",
         lessonFeedback := None, isLoadingLesson := false)
    case Rejected =>
      s.(isLoadingLesson := false)
  }

  /** Typing into the answer box or picking a quiz option: only the answer changes. */
  function AnswerTyped(s: AppState, text: string): (r: AppState)
    ensures r.lessonAnswer == text
    ensures r.(lessonAnswer := s.lessonAnswer) == s
  {
    s.(lessonAnswer := text)
  }

  /** `handleNextStep`. */
  function NextStep(s: AppState, today: string): (r: AppState)
    requires StepInRange(s)
    ensures StepInRange(r)
    ensures r.progress.experience >= s.progress.experience
    ensures r.isLoadingLesson == s.isLoadingLesson
  {
    match s.activeLesson
    case None => s
    case Some(lesson) =>
      var step := lesson.steps[s.currentStepIdx];
      if IsChecked(step) && !AnswerMatches(s.lessonAnswer, step.correctAnswer) then
        s.(lessonFeedback := Some(TryAgain))
      else if s.currentStepIdx < |lesson.steps| - 1 then
        s.(currentStepIdx := s.currentStepIdx + 1, lessonAnswer := "", lessonFeedback := None)
      else
        s.(progress := Progress.FinishLesson(s.progress, lesson.id, today), activeLesson := None)
  }

  /** The ✕ button. */
  function Cancel(s: AppState): (r: AppState)
    ensures r.activeLesson.None?
    ensures r.progress == s.progress
    ensures r.(activeLesson := s.activeLesson) == s
  {
    s.(activeLesson := None)
  }

  /** With no open lesson the handler returns at once. */
  lemma NextStepWithoutLesson(s: AppState, today: string)
    requires s.activeLesson.None?
    ensures NextStep(s, today) == s
  {
  }

  /** A wrong answer on a quiz or practice step only sets the retry prompt:
      the step, the typed answer and the progress stay as they were. */
  lemma WrongAnswerStays(s: AppState, today: string)
    requires StepInRange(s) && s.activeLesson.Some?
    requires IsChecked(s.activeLesson.value.steps[s.currentStepIdx])
    requires !AnswerMatches(s.lessonAnswer, s.activeLesson.value.steps[s.currentStepIdx].correctAnswer)
    ensures NextStep(s, today) == s.(lessonFeedback := Some(TryAgain))
  {
  }

  /** A quiz or practice step without an expected answer can never be passed,
      whatever the learner types. */
  lemma UnanswerableStepBlocks(s: AppState, today: string, typed: string)
    requires StepInRange(s) && s.activeLesson.Some?
    requires IsChecked(s.activeLesson.value.steps[s.currentStepIdx])
    requires s.activeLesson.value.steps[s.currentStepIdx].correctAnswer.None?
    ensures var r := NextStep(AnswerTyped(s, typed), today);
      r.activeLesson == s.activeLesson && r.currentStepIdx == s.currentStepIdx &&
      r.progress == s.progress && r.lessonFeedback == Some(TryAgain)
  {
  }

  /** On a checked step the controller moves on (to the next step, or out of
      the lesson) exactly when the normalized answers are equal. */
  lemma CheckedStepMovesIffMatch(s: AppState, today: string)
    requires StepInRange(s) && s.activeLesson.Some?
    requires IsChecked(s.activeLesson.value.steps[s.currentStepIdx])
    ensures var r := NextStep(s, today);
      (r.activeLesson != s.activeLesson || r.currentStepIdx != s.currentStepIdx)
      <==> AnswerMatches(s.lessonAnswer, s.activeLesson.value.steps[s.currentStepIdx].correctAnswer)
  {
    var lesson := s.activeLesson.value;
    var ok := AnswerMatches(s.lessonAnswer, lesson.steps[s.currentStepIdx].correctAnswer);
    var r := NextStep(s, today);
    if !ok {
      assert r == s.(lessonFeedback := Some(TryAgain));
    } else if s.currentStepIdx < |lesson.steps| - 1 {
      assert r.currentStepIdx == s.currentStepIdx + 1;
    } else {
      assert r.activeLesson == None;
    }
  }

  /** An accepted step that is not the last moves to the next one with a blank
      answer and no feedback, and leaves the progress alone. */
  lemma AcceptedStepAdvances(s: AppState, today: string)
    requires StepInRange(s) && s.activeLesson.Some?
    requires var step := s.activeLesson.value.steps[s.currentStepIdx];
      !IsChecked(step) || AnswerMatches(s.lessonAnswer, step.correctAnswer)
    requires s.currentStepIdx < |s.activeLesson.value.steps| - 1
    ensures NextStep(s, today) == s.(currentStepIdx := s.currentStepIdx + 1, lessonAnswer := "", lessonFeedback := None)
  {
  }

  /** Accepting the last step closes the lesson, grants exactly 100 XP through
      the experience rule and appends the lesson id once, however many steps
      the lesson had; the step index, answer and feedback are left as they were. */
  lemma LastStepFinishes(s: AppState, today: string)
    requires StepInRange(s) && s.activeLesson.Some?
    requires var step := s.activeLesson.value.steps[s.currentStepIdx];
      !IsChecked(step) || AnswerMatches(s.lessonAnswer, step.correctAnswer)
    requires s.currentStepIdx == |s.activeLesson.value.steps| - 1
    ensures var r := NextStep(s, today);
      r.activeLesson.None? &&
      r.progress == Progress.FinishLesson(s.progress, s.activeLesson.value.id, today) &&
      r.progress.experience == s.progress.experience + 100 &&
      r.progress.completedLessons == s.progress.completedLessons + [s.activeLesson.value.id] &&
      r.currentStepIdx == s.currentStepIdx && r.lessonAnswer == s.lessonAnswer &&
      r.lessonFeedback == s.lessonFeedback
  {
  }

  /** An expected answer always accepts itself, and so does any variant of it
      that differs only in surrounding whitespace. */
  lemma ExpectedAnswerMatches(expected: string, pre: string, post: string)
    requires AllWhitespace(pre) && AllWhitespace(post)
    ensures AnswerMatches(pre + expected + post, Some(expected))
  {
    TrimIgnoresPadding(pre, expected, post);
  }

  /** An answer is accepted exactly when, once both sides are trimmed, it
      agrees with the expected answer character by character up to the case
      of ASCII letters. */
  lemma AnswerMatchesIff(answer: string, expected: string)
    ensures AnswerMatches(answer, Some(expected)) <==> SameUpToCase(Trim(answer), Trim(expected))
  {
    LowerEqualIff(Trim(answer), Trim(expected));
  }

  /** The expected answer typed in any mix of upper and lower case, and
      padded with any whitespace, is accepted. */
  lemma AnyCaseAnswerMatches(expected: string, typed: string, pre: string, post: string)
    requires AllWhitespace(pre) && AllWhitespace(post)
    requires SameUpToCase(typed, expected)
    ensures AnswerMatches(pre + typed + post, Some(expected))
  {
    TrimIgnoresPadding(pre, typed, post);
    TrimSameCase(typed, expected);
    AnswerMatchesIff(pre + typed + post, expected);
  }

  /** The state of a freshly mounted component: the default progress, no
      lesson open and none loading. */
  function InitialState(date: string): (r: AppState)
    ensures r.progress == Constants.InitialProgress(date)
    ensures r.activeLesson.None? && !r.isLoadingLesson && StepInRange(r)
  {
    AppState(Constants.InitialProgress(date), None, 0, "", None, false)
  }

  /** A three-step lesson: an explanation, a quiz expecting "hola" and a
      practice step expecting "adios". */
  const WalkthroughLesson: Lesson := Lesson("lesson-1", "Greetings", "Greetings", [
    LessonStep(Explanation, "Hello is hola.", None, None, None),
    LessonStep(Quiz, "Say hello.", Some("Hello?"), Some("hola"), Some(["hola", "adios", "gracias"])),
    LessonStep(Practice, "Say goodbye.", Some("Goodbye?"), Some("adios"), None)])

  /** Walking `WalkthroughLesson` from a fresh app: "Hola " passes the quiz,
      "goodbye" is turned back with the retry prompt and no XP, "adios"
      finishes the lesson with one id appended and 100 XP. */
  lemma ThreeStepWalkthrough(date: string, today: string)
    ensures var s0 := LessonLoaded(LessonRequested(InitialState(date)), Fulfilled(WalkthroughLesson));
      var s1 := NextStep(s0, today);
      var s2 := NextStep(AnswerTyped(s1, "Hola "), today);
      var s3 := NextStep(AnswerTyped(s2, "goodbye"), today);
      var s4 := NextStep(AnswerTyped(s3, "adios"), today);
      s1.currentStepIdx == 1 && s2.currentStepIdx == 2 &&
      s3.currentStepIdx == 2 && s3.lessonFeedback == Some(TryAgain) && s3.progress == s0.progress &&
      s4.activeLesson.None? && s4.progress.experience == 550 &&
      s4.progress.completedLessons == ["lesson-1"]
  {
    var steps := WalkthroughLesson.steps;
    var p0 := Constants.InitialProgress(date);
    var s0 := LessonLoaded(LessonRequested(InitialState(date)), Fulfilled(WalkthroughLesson));
    assert s0 == AppState(p0, Some(WalkthroughLesson), 0, "", None, false);
    var s1 := NextStep(s0, today);
    assert s1 == AppState(p0, Some(WalkthroughLesson), 1, "", None, false) by {
      AcceptedStepAdvances(s0, today);
    }
    var t1 := AnswerTyped(s1, "Hola ");
    var s2 := NextStep(t1, today);
    assert s2 == AppState(p0, Some(WalkthroughLesson), 2, "", None, false) by {
      WalkthroughAnswers();
      assert AnswerMatches("Hola ", steps[1].correctAnswer);
      AcceptedStepAdvances(t1, today);
    }
    var t2 := AnswerTyped(s2, "goodbye");
    var s3 := NextStep(t2, today);
    assert s3 == AppState(p0, Some(WalkthroughLesson), 2, "goodbye", Some(TryAgain), false) by {
      WalkthroughAnswers();
      assert !AnswerMatches("goodbye", steps[2].correctAnswer);
      WrongAnswerStays(t2, today);
    }
    var t3 := AnswerTyped(s3, "adios");
    var s4 := NextStep(t3, today);
    assert s4.activeLesson.None? && s4.progress.experience == p0.experience + 100 &&
           s4.progress.completedLessons == ["lesson-1"] by {
      WalkthroughAnswers();
      assert AnswerMatches("adios", steps[2].correctAnswer);
      LastStepFinishes(t3, today);
    }
  }

  lemma WalkthroughAnswers()
    ensures Normalize("Hola ") == Normalize("hola") == "hola"
    ensures Normalize("goodbye") != Normalize("adios")
  {
    TrimIgnoresPadding("", "Hola", " ");
    assert "" + "Hola" + " " == "Hola ";
    assert Trim("Hola") == "Hola" by { var _, _ := TrimIsInfix("Hola"); }
    assert Trim("hola") == "hola" by { var _, _ := TrimIsInfix("hola"); }
    assert Trim("goodbye") == "goodbye" by { var _, _ := TrimIsInfix("goodbye"); }
    assert Trim("adios") == "adios" by { var _, _ := TrimIsInfix("adios"); }
    assert Lower("Hola") == "hola";
  }

  /** The `App` component: its state fields and the handlers that update them. */
  class Component {
    var progress: ProgressState
    var activeLesson: Option<Lesson>
    var currentStepIdx: nat
    var lessonAnswer: string
    var lessonFeedback: Option<string>
    var isLoadingLesson: bool

    /** The component state as one record. */
    function State(): AppState
      reads this
    {
      AppState(progress, activeLesson, currentStepIdx, lessonAnswer, lessonFeedback, isLoadingLesson)
    }

    ghost predicate Valid()
      reads this
    {
      StepInRange(State())
    }

    /** Mounting: the default progress and no open lesson. */
    constructor (date: string)
      ensures Valid()
      ensures State() == InitialState(date)
    {
      progress := Constants.InitialProgress(date);
      activeLesson := None;
      currentStepIdx := 0;
      lessonAnswer := "";
      lessonFeedback := None;
      isLoadingLesson := false;
    }

    /** `handleExperienceGain`; only the progress record changes. */
    method HandleExperienceGain(amount: int, today: string)
      modifies this`progress
      ensures progress == Progress.Gain(old(progress), amount, today)
    {
      progress := Progress.Gain(progress, amount, today);
    }

    /** `startNewLesson(topic)` up to the awaited `generateLesson` call, which
        is asked for a lesson in the learner's language and level on `topic`. */
    method StartNewLesson(topic: string) returns (language: AppLanguage, level: UserLevel, lessonTopic: string)
      requires Valid()
      modifies this`isLoadingLesson
      ensures Valid()
      ensures State() == LessonRequested(old(State()))
      ensures language == progress.language && level == progress.level && lessonTopic == topic
    {
      isLoadingLesson := true;
      language, level, lessonTopic := progress.language, progress.level, topic;
    }

    /** `startNewLesson` once `generateLesson` settles. */
    method StartNewLessonSettled(outcome: Settled<Lesson>)
      requires Valid()
      requires outcome.Fulfilled? ==> |outcome.value.steps| > 0
      modifies this
      ensures Valid()
      ensures State() == LessonLoaded(old(State()), outcome)
    {
      match outcome {
        case Fulfilled(lesson) =>
          activeLesson := Some(lesson);
          currentStepIdx := 0;
          lessonAnswer := "";
          lessonFeedback := None;
        case Rejected =>
      }
      isLoadingLesson := false;
    }

    /** The answer box's `onChange`, or a click on a quiz option. */
    method SetLessonAnswer(text: string)
      requires Valid()
      modifies this`lessonAnswer
      ensures Valid()
      ensures State() == AnswerTyped(old(State()), text)
    {
      lessonAnswer := text;
    }

    /** The "Continue" / "Finish Lesson" button. */
    method HandleNextStep(today: string)
      requires Valid()
      modifies this
      ensures Valid()
      ensures State() == NextStep(old(State()), today)
    {
      if activeLesson.None? {
        return;
      }
      var lesson := activeLesson.value;
      var step := lesson.steps[currentStepIdx];
      if step.stepType == Quiz || step.stepType == Practice {
        var isCorrect := AnswerMatches(lessonAnswer, step.correctAnswer);
        if !isCorrect {
          lessonFeedback := Some(TryAgain);
          return;
        }
      }
      if currentStepIdx < |lesson.steps| - 1 {
        currentStepIdx := currentStepIdx + 1;
        lessonAnswer := "";
        lessonFeedback := None;
      } else {
        HandleExperienceGain(Progress.LessonXp, today);
        progress := progress.(completedLessons := progress.completedLessons + [lesson.id]);
        activeLesson := None;
      }
    }

    /** The ✕ button: the lesson is dropped and nothing else changes. */
    method CloseLesson()
      requires Valid()
      modifies this`activeLesson
      ensures Valid()
      ensures State() == Cancel(old(State()))
    {
      activeLesson := None;
    }

    /** The callback the vocabulary browser calls for a mastered word. */
    method OnMasterWord(w: VocabularyWord, today: string)
      modifies this`progress
      ensures progress == Progress.MasterWord(old(progress), w, today)
    {
      HandleExperienceGain(Progress.MasterWordXp, today);
      progress := progress.(masteredVocabulary := progress.masteredVocabulary + [w]);
    }
  }
}
