/** The records and enumerations the client passes around (types.ts). Strings
    are `seq<char>`; a JavaScript optional property is an `Option`. */
module Types {

  datatype Option<+T> = None | Some(value: T)

  /** How an awaited call to the AI gateway settled: with a value, or by throwing. */
  datatype Settled<+T> = Fulfilled(value: T) | Rejected

  datatype AppLanguage = Spanish | French | German | Japanese | Chinese

  datatype UserLevel = Beginner | Intermediate | Advanced

  datatype VocabularyWord = VocabularyWord(id: string, word: string, translation: string, example: string)

  datatype StepType = Explanation | Practice | Quiz

  datatype LessonStep = LessonStep(
    stepType: StepType,
    content: string,
    question: Option<string>,
    correctAnswer: Option<string>,
    options: Option<seq<string>>)

  datatype Lesson = Lesson(id: string, title: string, topic: string, steps: seq<LessonStep>)

  /** One slot of the weekly activity histogram: a weekday key such as "Mon" and the XP earned on it. */
  datatype ActivityDay = ActivityDay(day: string, xp: int)

  datatype Role = User | Model

  datatype ChatMessage = ChatMessage(role: Role, text: string, timestamp: int, grammarCorrection: Option<string>)

  datatype ProgressState = ProgressState(
    language: AppLanguage,
    level: UserLevel,
    experience: int,
    streak: int,
    masteredVocabulary: seq<VocabularyWord>,
    completedLessons: seq<string>,
    activityHistory: seq<ActivityDay>,
    lastStudyDate: string)
}
