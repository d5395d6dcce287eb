/** The progress store of App.tsx as pure updaters over `ProgressState`: the
    experience grant with its weekday histogram, the derived level and
    level-progress figures, and the two updates that append to the store
    (finishing a lesson, mastering a word). */
module Progress {
  import opened Types

  /** XP granted for finishing a lesson, for mastering a word, and for a tutor exchange. */
  const LessonXp: int := 100
  const MasterWordXp: int := 15
  const ChatXp: int := 10

  /** Adds `amount` to every histogram slot whose key is `today`. */
  function AddToDay(history: seq<ActivityDay>, today: string, amount: int): (r: seq<ActivityDay>)
    ensures |r| == |history|
    ensures forall k :: 0 <= k < |history| ==>
      r[k].day == history[k].day &&
      r[k].xp == history[k].xp + (if history[k].day == today then amount else 0)
  {
    if history == [] then []
    else
      var d := history[0];
      [if d.day == today then d.(xp := d.xp + amount) else d] + AddToDay(history[1..], today, amount)
  }

  /** `handleExperienceGain`: the total grows by `amount` and so does today's slot. */
  function Gain(p: ProgressState, amount: int, today: string): (r: ProgressState)
    ensures r.experience == p.experience + amount
    ensures r.activityHistory == AddToDay(p.activityHistory, today, amount)
    ensures r == p.(experience := r.experience, activityHistory := r.activityHistory)
  {
    p.(experience := p.experience + amount,
       activityHistory := AddToDay(p.activityHistory, today, amount))
  }

  /** When no slot carries today's key the grant reaches only the total. */
  lemma GainWithoutTodaySlot(p: ProgressState, amount: int, today: string)
    requires forall k :: 0 <= k < |p.activityHistory| ==> p.activityHistory[k].day != today
    ensures Gain(p, amount, today).activityHistory == p.activityHistory
    ensures Gain(p, amount, today).experience == p.experience + amount
  {
  }

  /** Two grants on the same day are one grant of their sum. */
  lemma GainAdditive(p: ProgressState, a: int, b: int, today: string)
    ensures Gain(Gain(p, a, today), b, today) == Gain(p, a + b, today)
  {
    var h := p.activityHistory;
    var lhs := AddToDay(AddToDay(h, today, a), today, b);
    var rhs := AddToDay(h, today, a + b);
    assert |lhs| == |rhs|;
    forall k | 0 <= k < |h| ensures lhs[k] == rhs[k] { }
    assert lhs == rhs;
  }

  /** Grants commute, even when they fall on different days. */
  lemma GainCommutes(p: ProgressState, a: int, dayA: string, b: int, dayB: string)
    ensures Gain(Gain(p, a, dayA), b, dayB) == Gain(Gain(p, b, dayB), a, dayA)
  {
    var h := p.activityHistory;
    var lhs := AddToDay(AddToDay(h, dayA, a), dayB, b);
    var rhs := AddToDay(AddToDay(h, dayB, b), dayA, a);
    assert |lhs| == |rhs|;
    forall k | 0 <= k < |h| ensures lhs[k] == rhs[k] { }
    assert lhs == rhs;
  }

  /** The weekday keys of a histogram, in slot order. */
  function Days(history: seq<ActivityDay>): (r: seq<string>)
  {
    if history == [] then [] else [history[0].day] + Days(history[1..])
  }

  /** A grant never changes the number, order or keys of the slots. */
  lemma {:induction false} GainKeepsDays(history: seq<ActivityDay>, today: string, amount: int)
    ensures Days(AddToDay(history, today, amount)) == Days(history)
  {
    if history != [] {
      GainKeepsDays(history[1..], today, amount);
      assert AddToDay(history, today, amount)[1..] == AddToDay(history[1..], today, amount);
    }
  }

  /** Sum of the XP of all slots. */
  function HistoryTotal(history: seq<ActivityDay>): (r: int)
  {
    if history == [] then 0 else history[0].xp + HistoryTotal(history[1..])
  }

  /** Number of slots whose key is `day`. */
  function DayCount(history: seq<ActivityDay>, day: string): (r: nat)
  {
    if history == [] then 0
    else (if history[0].day == day then 1 else 0) + DayCount(history[1..], day)
  }

  /** The histogram total grows by `amount` once per slot keyed `today`. */
  lemma {:induction false} HistoryTotalAfterGain(history: seq<ActivityDay>, today: string, amount: int)
    ensures HistoryTotal(AddToDay(history, today, amount))
         == HistoryTotal(history) + amount * DayCount(history, today)
  {
    if history != [] {
      HistoryTotalAfterGain(history[1..], today, amount);
      assert AddToDay(history, today, amount)[1..] == AddToDay(history[1..], today, amount);
    }
  }

  /** No key occurs in two slots. */
  predicate DistinctDays(history: seq<ActivityDay>) {
    forall i, j :: 0 <= i < j < |history| ==> history[i].day != history[j].day
  }

  /** With distinct keys, a key that is present labels exactly one slot. */
  lemma {:induction false} DistinctDayCountIsOne(history: seq<ActivityDay>, k: nat)
    requires DistinctDays(history) && k < |history|
    ensures DayCount(history, history[k].day) == 1
  {
    if k == 0 {
      DayCountAbsent(history[1..], history[0].day);
    } else {
      DistinctDayCountIsOne(history[1..], k - 1);
    }
  }

  lemma {:induction false} DayCountAbsent(history: seq<ActivityDay>, day: string)
    requires forall i :: 0 <= i < |history| ==> history[i].day != day
    ensures DayCount(history, day) == 0
  {
    if history != [] {
      DayCountAbsent(history[1..], day);
    }
  }

  /** `calculateLevel`: `Math.floor(xp / 1000) + 1`, the unique level whose
      thousand-XP band holds `xp`. */
  function Level(xp: int): (r: int)
    ensures 1000 * (r - 1) <= xp < 1000 * r
  {
    xp / 1000 + 1
  }

  /** `xp % 1000` with JavaScript's `%`: the remainder of division truncated
      toward zero, so it takes the sign of the dividend. */
  function JsRemainder1000(a: int): (r: int)
    ensures (a - r) % 1000 == 0
    ensures a >= 0 ==> 0 <= r < 1000
    ensures a < 0 ==> -1000 < r <= 0
  {
    if a >= 0 then a % 1000 else -((-a) % 1000)
  }

  /** `levelProgress`: `(xp % 1000) / 10`, the percentage of the current level
      done. It stays strictly between -100 and 100, and takes the sign of `xp`
      as JavaScript's `%` does. */
  function LevelProgress(xp: int): (r: real)
    ensures -100.0 < r < 100.0
    ensures xp >= 0 ==> r >= 0.0
    ensures xp <= 0 ==> r <= 0.0
  {
    JsRemainder1000(xp) as real / 10.0
  }

  /** For non-negative XP the percentage lies in [0, 100) and, together with
      the level, recovers the XP: the bar and the "Level n" label never
      disagree about how much XP was earned. */
  lemma LevelProgressBounds(xp: int)
    requires xp >= 0
    ensures 0.0 <= LevelProgress(xp) < 100.0
    ensures xp as real == 1000.0 * (Level(xp) - 1) as real + 10.0 * LevelProgress(xp)
  {
    var rem := JsRemainder1000(xp);
    assert rem == xp % 1000;
    assert xp == 1000 * (xp / 1000) + rem;
  }

  /** More XP never means a lower level. */
  lemma LevelMonotone(x: int, y: int)
    requires x <= y
    ensures Level(x) <= Level(y)
  {
  }

  /** Finishing a lesson (App.tsx, last step): a 100 XP grant, then the lesson
      id appended to the completed list, with no duplicate check. */
  function FinishLesson(p: ProgressState, lessonId: string, today: string): (r: ProgressState)
    ensures r.experience == p.experience + LessonXp
    ensures r.completedLessons == p.completedLessons + [lessonId]
    ensures r.activityHistory == AddToDay(p.activityHistory, today, LessonXp)
    ensures r.masteredVocabulary == p.masteredVocabulary
    ensures r == p.(experience := r.experience, activityHistory := r.activityHistory,
                    completedLessons := r.completedLessons)
  {
    var g := Gain(p, LessonXp, today);
    g.(completedLessons := g.completedLessons + [lessonId])
  }

  /** `onMasterWord`: a 15 XP grant, then the word appended to the mastered
      list, with no duplicate check. */
  function MasterWord(p: ProgressState, w: VocabularyWord, today: string): (r: ProgressState)
    ensures r.experience == p.experience + MasterWordXp
    ensures r.masteredVocabulary == p.masteredVocabulary + [w]
    ensures r.activityHistory == AddToDay(p.activityHistory, today, MasterWordXp)
    ensures r.completedLessons == p.completedLessons
    ensures r == p.(experience := r.experience, activityHistory := r.activityHistory,
                    masteredVocabulary := r.masteredVocabulary)
  {
    var g := Gain(p, MasterWordXp, today);
    g.(masteredVocabulary := g.masteredVocabulary + [w])
  }

  /** A grant of non-negative XP never lowers the total or any slot. */
  lemma GainNeverLowers(p: ProgressState, amount: int, today: string)
    requires amount >= 0
    ensures Gain(p, amount, today).experience >= p.experience
    ensures forall k :: 0 <= k < |p.activityHistory| ==>
      Gain(p, amount, today).activityHistory[k].xp >= p.activityHistory[k].xp
  {
  }
}
