/** The initial state of the progress store (constants.tsx): a seeded weekly
    histogram and the default progress record. `lastStudyDate` is the
    locale-formatted current date, which is taken as a parameter. */
module Constants {
  import opened Types
  import Progress

  /** The weekday keys `toLocaleDateString('en-US', { weekday: 'short' })` produces, Monday first. */
  const WeekdayKeys: seq<string> := ["Mon", "Tue", "Wed", "Thu", "Fri", "Sat", "Sun"]

  /** `INITIAL_HISTORY`. */
  const InitialHistory: seq<ActivityDay> := [
    ActivityDay("Mon", 40),
    ActivityDay("Tue", 120),
    ActivityDay("Wed", 90),
    ActivityDay("Thu", 210),
    ActivityDay("Fri", 150),
    ActivityDay("Sat", 0),
    ActivityDay("Sun", 0)
  ]

  /** `INITIAL_PROGRESS`, given the date string it stamps as the last study
      date: the seeded histogram, whose keys are distinct, with nothing yet
      mastered or completed. */
  function InitialProgress(lastStudyDate: string): (r: ProgressState)
    ensures r.lastStudyDate == lastStudyDate
    ensures r.activityHistory == InitialHistory && Progress.DistinctDays(r.activityHistory)
    ensures r.masteredVocabulary == [] && r.completedLessons == []
  {
    ProgressState(
      language := Spanish,
      level := Beginner,
      experience := 450,
      streak := 3,
      masteredVocabulary := [],
      completedLessons := [],
      activityHistory := InitialHistory,
      lastStudyDate := lastStudyDate)
  }

  /** Seven slots keyed Mon to Sun, in that order. */
  lemma InitialHistoryKeys()
    ensures Progress.Days(InitialHistory) == WeekdayKeys
  {
  }

  /** No weekday key labels two slots, and no slot starts with negative XP. */
  lemma InitialHistoryWellFormed()
    ensures Progress.DistinctDays(InitialHistory)
    ensures forall k :: 0 <= k < |InitialHistory| ==> InitialHistory[k].xp >= 0
  {
  }

  /** The default record: Spanish, Beginner, streak 3, 450 XP (level 1, 45%
      of the way to level 2), nothing mastered, nothing completed. */
  lemma InitialProgressValues(date: string)
    ensures var p := InitialProgress(date);
      p.language == Spanish && p.level == Beginner && p.streak == 3 &&
      p.masteredVocabulary == [] && p.completedLessons == [] &&
      p.experience == 450 && Progress.Level(p.experience) == 1 &&
      Progress.LevelProgress(p.experience) == 45.0
  {
  }

  /** From the initial histogram, a grant on any weekday adds exactly
      `amount` to the histogram total: exactly one slot takes it. */
  lemma InitialGainReachesOneSlot(date: string, k: nat, amount: int)
    requires k < |WeekdayKeys|
    ensures var g := Progress.Gain(InitialProgress(date), amount, WeekdayKeys[k]);
      Progress.HistoryTotal(g.activityHistory) == Progress.HistoryTotal(InitialHistory) + amount
  {
    InitialHistoryWellFormed();
    assert InitialHistory[k].day == WeekdayKeys[k];
    Progress.DistinctDayCountIsOne(InitialHistory, k);
    Progress.HistoryTotalAfterGain(InitialHistory, WeekdayKeys[k], amount);
  }
}
