/** The system configuration record and the configuration-driven time-slot
    generator: five weekdays, each walked from the opening hour in steps of
    one lesson plus one break, skipping the lunch window and stopping at the
    closing hour, with slot ids numbered across the whole week. */
module Config {
  import opened Common

  datatype SystemConfig = SystemConfig(
    startHour: int,
    endHour: int,
    lessonDuration: int,
    breakDuration: int,
    lunchBreakStart: Clock,
    lunchBreakEnd: Clock,
    maxDailyLessonsPerTeacher: int,
    maxConsecutiveLessons: int,
    minBreakBetweenLessons: int,
    preferredMorningSubjects: seq<string>,
    preferredAfternoonSubjects: seq<string>,
    schoolName: string,
    academicYear: string,
    semester: string)

  /** The timing fields and the remaining (policy and school) fields. */
  const TimingFields: set<string> := {
    "start_hour", "end_hour", "lesson_duration", "break_duration",
    "lunch_break_start", "lunch_break_end"}

  const PolicyFields: set<string> := {
    "max_daily_lessons_per_teacher", "max_consecutive_lessons", "min_break_between_lessons",
    "preferred_morning_subjects", "preferred_afternoon_subjects",
    "school_name", "academic_year", "semester"}

  const ConfigFields: set<string> := TimingFields + PolicyFields

  /** The field defaults of the configuration record. */
  const DefaultConfig: SystemConfig := SystemConfig(
    9, 16, 50, 10, Clock(12, 0), Clock(13, 0), 6, 3, 10,
    ["数学", "国語", "英語"], ["体育", "音楽", "美術"],
    "サンプル学校", "2025", "1学期")

  function ToDict(c: SystemConfig): (d: Dict)
    ensures d.Keys == ConfigFields
  {
    map["start_hour" := VInt(c.startHour), "end_hour" := VInt(c.endHour),
        "lesson_duration" := VInt(c.lessonDuration),
        "break_duration" := VInt(c.breakDuration),
        "lunch_break_start" := VClock(c.lunchBreakStart),
        "lunch_break_end" := VClock(c.lunchBreakEnd),
        "max_daily_lessons_per_teacher" := VInt(c.maxDailyLessonsPerTeacher),
        "max_consecutive_lessons" := VInt(c.maxConsecutiveLessons),
        "min_break_between_lessons" := VInt(c.minBreakBetweenLessons),
        "preferred_morning_subjects" := VStrs(c.preferredMorningSubjects),
        "preferred_afternoon_subjects" := VStrs(c.preferredAfternoonSubjects),
        "school_name" := VStr(c.schoolName), "academic_year" := VStr(c.academicYear),
        "semester" := VStr(c.semester)]
  }

  /** The dictionary's timing half and its other half. */
  function TimingDict(c: SystemConfig): (d: Dict)
    ensures d.Keys == TimingFields
  {
    map["start_hour" := VInt(c.startHour), "end_hour" := VInt(c.endHour),
        "lesson_duration" := VInt(c.lessonDuration),
        "break_duration" := VInt(c.breakDuration),
        "lunch_break_start" := VClock(c.lunchBreakStart),
        "lunch_break_end" := VClock(c.lunchBreakEnd)]
  }

  function PolicyDict(c: SystemConfig): (d: Dict)
    ensures d.Keys == PolicyFields
  {
    map["max_daily_lessons_per_teacher" := VInt(c.maxDailyLessonsPerTeacher),
        "max_consecutive_lessons" := VInt(c.maxConsecutiveLessons),
        "min_break_between_lessons" := VInt(c.minBreakBetweenLessons),
        "preferred_morning_subjects" := VStrs(c.preferredMorningSubjects),
        "preferred_afternoon_subjects" := VStrs(c.preferredAfternoonSubjects),
        "school_name" := VStr(c.schoolName), "academic_year" := VStr(c.academicYear),
        "semester" := VStr(c.semester)]
  }

  /** No field is both a timing and a policy field. */
  lemma FieldsDisjoint()
    ensures TimingFields !! PolicyFields
  {
  }

  /** `SystemConfig(**d)`: absent keys take their defaults, an unknown key
      makes the call fail. */
  function FromDict(d: Dict): (r: Option<SystemConfig>)
    ensures r.Some? ==> d.Keys <= ConfigFields
    ensures d == map[] ==> r == Some(DefaultConfig)
  {
    if !(d.Keys <= ConfigFields) then None
    else
      var timing :- ReadTiming(d);
      ReadPolicies(d, timing)
  }

  /** The six timing arguments, over the defaults. */
  function ReadTiming(d: Dict): Option<SystemConfig> {
    var startHour :- GetInt(d, "start_hour", 9);
    var endHour :- GetInt(d, "end_hour", 16);
    var lesson :- GetInt(d, "lesson_duration", 50);
    var pause :- GetInt(d, "break_duration", 10);
    var lunchStart :- GetClock(d, "lunch_break_start", Clock(12, 0));
    var lunchEnd :- GetClock(d, "lunch_break_end", Clock(13, 0));
    Some(DefaultConfig.(startHour := startHour, endHour := endHour, lessonDuration := lesson,
                        breakDuration := pause, lunchBreakStart := lunchStart, lunchBreakEnd := lunchEnd))
  }

  /** The remaining eight arguments, over a configuration holding the
      timing ones. */
  function ReadPolicies(d: Dict, c: SystemConfig): Option<SystemConfig> {
    var maxDaily :- GetInt(d, "max_daily_lessons_per_teacher", 6);
    var maxConsecutive :- GetInt(d, "max_consecutive_lessons", 3);
    var minBreak :- GetInt(d, "min_break_between_lessons", 10);
    var morning :- GetStrs(d, "preferred_morning_subjects", DefaultConfig.preferredMorningSubjects);
    var afternoon :- GetStrs(d, "preferred_afternoon_subjects", DefaultConfig.preferredAfternoonSubjects);
    var school :- GetStr(d, "school_name", DefaultConfig.schoolName);
    var year :- GetStr(d, "academic_year", "2025");
    var semester :- GetStr(d, "semester", DefaultConfig.semester);
    Some(c.(maxDailyLessonsPerTeacher := maxDaily, maxConsecutiveLessons := maxConsecutive,
            minBreakBetweenLessons := minBreak, preferredMorningSubjects := morning,
            preferredAfternoonSubjects := afternoon, schoolName := school, academicYear := year,
            semester := semester))
  }

  /** Saving and loading a configuration gives it back unchanged. */
  lemma DictRoundTrip(c: SystemConfig)
    ensures FromDict(ToDict(c)) == Some(c)
  {
    ReadBackHours(c);
    ReadBackLimits(c);
    ReadBackTexts(c);
  }

  lemma ReadBackHours(c: SystemConfig)
    ensures GetInt(ToDict(c), "start_hour", 9) == Some(c.startHour)
    ensures GetInt(ToDict(c), "end_hour", 16) == Some(c.endHour)
    ensures GetInt(ToDict(c), "lesson_duration", 50) == Some(c.lessonDuration)
    ensures GetInt(ToDict(c), "break_duration", 10) == Some(c.breakDuration)
    ensures GetClock(ToDict(c), "lunch_break_start", Clock(12, 0)) == Some(c.lunchBreakStart)
  {
  }

  lemma ReadBackLimits(c: SystemConfig)
    ensures GetClock(ToDict(c), "lunch_break_end", Clock(13, 0)) == Some(c.lunchBreakEnd)
    ensures GetInt(ToDict(c), "max_daily_lessons_per_teacher", 6) == Some(c.maxDailyLessonsPerTeacher)
    ensures GetInt(ToDict(c), "max_consecutive_lessons", 3) == Some(c.maxConsecutiveLessons)
    ensures GetInt(ToDict(c), "min_break_between_lessons", 10) == Some(c.minBreakBetweenLessons)
  {
  }

  lemma ReadBackTexts(c: SystemConfig)
    ensures GetStrs(ToDict(c), "preferred_morning_subjects", DefaultConfig.preferredMorningSubjects)
            == Some(c.preferredMorningSubjects)
    ensures GetStrs(ToDict(c), "preferred_afternoon_subjects", DefaultConfig.preferredAfternoonSubjects)
            == Some(c.preferredAfternoonSubjects)
    ensures GetStr(ToDict(c), "school_name", DefaultConfig.schoolName) == Some(c.schoolName)
    ensures GetStr(ToDict(c), "academic_year", "2025") == Some(c.academicYear)
    ensures GetStr(ToDict(c), "semester", DefaultConfig.semester) == Some(c.semester)
  {
  }

  /** The dictionary is its two halves put together. */
  lemma ToDictSplit(c: SystemConfig)
    ensures ToDict(c) == TimingDict(c) + PolicyDict(c)
  {
  }

  /** The other direction: a full dictionary that constructs a
      configuration is that configuration's dictionary. */
  lemma ToDictOfFromDict(d: Dict)
    requires d.Keys == ConfigFields && FromDict(d).Some?
    ensures ToDict(FromDict(d).value) == d
  {
    var t := ReadTiming(d).value;
    var c := FromDict(d).value;
    assert c == ReadPolicies(d, t).value;
    TimingWrittenBack(d);
    PolicyWrittenBack(d, t);
    PoliciesKeepTiming(d, t);
    HalvesBack(d, t, c);
    ToDictSplit(c);
  }

  /** A dictionary whose timing half is t's and whose other half is c's,
      with c and t agreeing on timing, is c's dictionary put together. */
  lemma HalvesBack(d: Dict, t: SystemConfig, c: SystemConfig)
    requires d.Keys == ConfigFields && TimingDict(c) == TimingDict(t)
    requires forall k :: k in TimingFields ==> TimingDict(t)[k] == d[k]
    requires forall k :: k in PolicyFields ==> PolicyDict(c)[k] == d[k]
    ensures TimingDict(c) + PolicyDict(c) == d
  {
    UnionOnPolicy(d, c);
    UnionOnTiming(d, t, c);
    MapsAgree(TimingDict(c) + PolicyDict(c), d, TimingFields, PolicyFields);
  }

  /** Two maps with the same keys, split into two parts, are equal when they
      agree on each part. */
  lemma MapsAgree<K, V>(e: map<K, V>, d: map<K, V>, a: set<K>, b: set<K>)
    requires e.Keys == a + b && d.Keys == a + b
    requires forall k :: k in a ==> e[k] == d[k]
    requires forall k :: k in b ==> e[k] == d[k]
    ensures e == d
  {
  }

  lemma UnionOnPolicy(d: Dict, c: SystemConfig)
    requires PolicyFields <= d.Keys
    requires forall k :: k in PolicyFields ==> PolicyDict(c)[k] == d[k]
    ensures forall k :: k in PolicyFields ==> (TimingDict(c) + PolicyDict(c))[k] == d[k]
  {
  }

  lemma UnionOnTiming(d: Dict, t: SystemConfig, c: SystemConfig)
    requires TimingFields <= d.Keys && TimingDict(c) == TimingDict(t)
    requires forall k :: k in TimingFields ==> TimingDict(t)[k] == d[k]
    ensures forall k :: k in TimingFields ==> (TimingDict(c) + PolicyDict(c))[k] == d[k]
  {
    FieldsDisjoint();
  }

  lemma PoliciesKeepTiming(d: Dict, t: SystemConfig)
    requires ReadPolicies(d, t).Some?
    ensures TimingDict(ReadPolicies(d, t).value) == TimingDict(t)
  {
    var c := ReadPolicies(d, t).value;
    assert c.startHour == t.startHour && c.endHour == t.endHour;
    assert c.lessonDuration == t.lessonDuration && c.breakDuration == t.breakDuration;
    assert c.lunchBreakStart == t.lunchBreakStart && c.lunchBreakEnd == t.lunchBreakEnd;
  }

  lemma TimingWrittenBack(d: Dict)
    requires TimingFields <= d.Keys && ReadTiming(d).Some?
    ensures forall k :: k in TimingFields ==> TimingDict(ReadTiming(d).value)[k] == d[k]
  {
  }

  lemma PolicyWrittenBack(d: Dict, c: SystemConfig)
    requires PolicyFields <= d.Keys && ReadPolicies(d, c).Some?
    ensures forall k :: k in PolicyFields ==> PolicyDict(ReadPolicies(d, c).value)[k] == d[k]
  {
  }

  // ---------------------------------------------------------------------
  // Time-slot generation

  /** What generation needs to terminate: the walk advances by a positive
      lesson-plus-break step, and the lunch end it jumps to is a valid clock
      time. */
  predicate Generable(c: SystemConfig) {
    c.lessonDuration + c.breakDuration > 0 && Canonical(c.lunchBreakEnd)
  }

  /** The lunch test: the start time lies in [lunch start, lunch end). */
  predicate InLunch(c: SystemConfig, t: Clock) {
    Minutes(c.lunchBreakStart) <= Minutes(t) < Minutes(c.lunchBreakEnd)
  }

  /** The end of a lesson starting at t: the minute field is carried into the
      hour only when it reaches 60. */
  function LessonEnd(t: Clock, duration: int): (e: Clock)
    ensures Minutes(e) == Minutes(t) + duration
    ensures e.minute < 60
    ensures Canonical(t) && duration >= 0 ==> Canonical(e)
  {
    var m := t.minute + duration;
    if m >= 60 then Clock(t.hour + m / 60, m % 60) else Clock(t.hour, m)
  }

  /** The closing test: the lesson would end after endHour:00. */
  predicate Overruns(e: Clock, endHour: int) {
    e.hour > endHour || (e.hour == endHour && e.minute > 0)
  }

  /** The next start: the step is added to the minute field, which is carried
      into the hour when it reaches 60. */
  function NextStart(t: Clock, step: int): (n: Clock)
    ensures Minutes(n) == Minutes(t) + step
    ensures Canonical(t) && step >= 0 ==> Canonical(n)
  {
    var m := t.minute + step;
    if m >= 60 then Clock(t.hour + m / 60, m % 60) else Clock(t.hour, m)
  }

  /** One emitted period of a day. */
  datatype DaySlot = DaySlot(start: Clock, end: Clock, period: nat)

  /** The slots of one day, walked from t with period number `period`. */
  function DayWalk(c: SystemConfig, t: Clock, period: nat): seq<DaySlot>
    requires Generable(c) && Canonical(t)
    decreases c.endHour * 60 - Minutes(t)
  {
    if t.hour >= c.endHour then []
    else if InLunch(c, t) then DayWalk(c, c.lunchBreakEnd, period)
    else
      var e := LessonEnd(t, c.lessonDuration);
      if Overruns(e, c.endHour) then []
      else [DaySlot(t, e, period)] + DayWalk(c, NextStart(t, c.lessonDuration + c.breakDuration), period + 1)
  }

  /** What one pass of the day loop does from the start t: leave the loop,
      jump to the lunch end, or emit a lesson ending at `end` and continue
      from `next`. */
  datatype Turn = Exit | Jump(to: Clock) | Emit(end: Clock, next: Clock)

  /** One pass of the day loop as written, for any configuration: nothing
      here needs the step to be positive, so a loop that never leaves can
      be stated. */
  function LoopTurn(c: SystemConfig, t: Clock): Turn {
    if t.hour >= c.endHour then Exit
    else if InLunch(c, t) then Jump(c.lunchBreakEnd)
    else
      var e := LessonEnd(t, c.lessonDuration);
      if Overruns(e, c.endHour) then Exit
      else Emit(e, NextStart(t, c.lessonDuration + c.breakDuration))
  }

  /** The walk of every day: from startHour:00, period 1. */
  function Daily(c: SystemConfig): seq<DaySlot>
    requires Generable(c)
  {
    DayWalk(c, Clock(c.startHour, 0), 1)
  }

  /** "N限", the display name of period N. */
  function PeriodLabel(n: nat): string {
    NatText(n) + "限"
  }

  /** One generated slot dictionary (its `is_break` is always false). */
  datatype SlotSpec = SlotSpec(id: int, dayOfWeek: string, startTime: Clock, endTime: Clock,
                               periodName: string, durationMinutes: int)
  {
    function ToDict(): (d: Dict)
      ensures d.Keys == {"id", "day_of_week", "start_time", "end_time", "period_name",
                         "is_break", "duration_minutes"}
    {
      map["id" := VInt(id), "day_of_week" := VStr(dayOfWeek),
          "start_time" := VClock(startTime), "end_time" := VClock(endTime),
          "period_name" := VStr(periodName), "is_break" := VBool(false),
          "duration_minutes" := VInt(durationMinutes)]
    }
  }

  /** A day's walk as slot records for `day`, numbered from `firstId`. */
  function Label(w: seq<DaySlot>, day: string, firstId: int, duration: int): (r: seq<SlotSpec>)
    ensures |r| == |w|
  {
    if |w| == 0 then []
    else [SlotSpec(firstId, day, w[0].start, w[0].end, PeriodLabel(w[0].period), duration)]
         + Label(w[1..], day, firstId + 1, duration)
  }

  /** Labelling a walk that starts with `x` emits x's slot first. */
  lemma LabelStep(w: seq<DaySlot>, day: string, firstId: int, duration: int, x: DaySlot, rest: seq<DaySlot>)
    requires w == [x] + rest
    ensures Label(w, day, firstId, duration)
            == [SlotSpec(firstId, day, x.start, x.end, PeriodLabel(x.period), duration)]
               + Label(rest, day, firstId + 1, duration)
  {
    assert w[1..] == rest;
  }

  /** The first `days` weekdays, each holding the labelled day walk, ids
      continuing from one day to the next. */
  function WeekOf(daily: seq<DaySlot>, days: nat, duration: int): (r: seq<SlotSpec>)
    requires days <= |Weekdays|
    ensures |r| == days * |daily|
  {
    if days == 0 then []
    else WeekOf(daily, days - 1, duration) + Label(daily, Weekdays[days - 1], (days - 1) * |daily| + 1, duration)
  }

  /** The generator's result, as a function of the configuration. */
  function Timeslots(c: SystemConfig): seq<SlotSpec>
    requires Generable(c)
  {
    WeekOf(Daily(c), |Weekdays|, c.lessonDuration)
  }

  /** A walk reaching a start inside lunch resumes at the end of lunch. */
  lemma WalkLunch(c: SystemConfig, t: Clock, period: nat)
    requires Generable(c) && Canonical(t) && t.hour < c.endHour && InLunch(c, t)
    ensures DayWalk(c, t, period) == DayWalk(c, c.lunchBreakEnd, period)
  {
  }

  /** A walk whose next lesson would end after closing time stops. */
  lemma WalkClosing(c: SystemConfig, t: Clock, period: nat)
    requires Generable(c) && Canonical(t) && !InLunch(c, t)
    requires Overruns(LessonEnd(t, c.lessonDuration), c.endHour)
    ensures DayWalk(c, t, period) == []
  {
  }

  /** Labelling the walk from a start that emits a lesson. */
  lemma EmitStep(c: SystemConfig, t: Clock, period: nat, day: string, id: int)
    requires Generable(c) && Canonical(t) && t.hour < c.endHour && !InLunch(c, t)
    requires !Overruns(LessonEnd(t, c.lessonDuration), c.endHour)
    ensures Label(DayWalk(c, t, period), day, id, c.lessonDuration)
            == [SlotSpec(id, day, t, LessonEnd(t, c.lessonDuration), PeriodLabel(period), c.lessonDuration)]
               + Label(DayWalk(c, NextStart(t, c.lessonDuration + c.breakDuration), period + 1),
                       day, id + 1, c.lessonDuration)
  {
    LabelStep(DayWalk(c, t, period), day, id, c.lessonDuration,
              DaySlot(t, LessonEnd(t, c.lessonDuration), period),
              DayWalk(c, NextStart(t, c.lessonDuration + c.breakDuration), period + 1));
  }

  /** One day of `generate_timeslots`: the inner loop over the day, emitting
      slots numbered from `firstId`. */
  method DayTimeslots(c: SystemConfig, day: string, firstId: int) returns (slots: seq<SlotSpec>)
    requires Generable(c)
    ensures slots == Label(Daily(c), day, firstId, c.lessonDuration)
  {
    slots := [];
    var t, period, id := Clock(c.startHour, 0), 1, firstId;
    ghost var whole := Label(Daily(c), day, firstId, c.lessonDuration);
    while t.hour < c.endHour
      invariant Canonical(t) && period >= 1 && id == firstId + |slots|
      invariant whole == slots + Label(DayWalk(c, t, period), day, id, c.lessonDuration)
      decreases c.endHour * 60 - Minutes(t)
    {
      if InLunch(c, t) {
        WalkLunch(c, t, period);
        t := c.lunchBreakEnd;
        continue;
      }
      var e := LessonEnd(t, c.lessonDuration);
      if Overruns(e, c.endHour) {
        WalkClosing(c, t, period);
        break;
      }
      var next := NextStart(t, c.lessonDuration + c.breakDuration);
      var slot := SlotSpec(id, day, t, e, PeriodLabel(period), c.lessonDuration);
      EmitStep(c, t, period, day, id);
      ghost var later := Label(DayWalk(c, next, period + 1), day, id + 1, c.lessonDuration);
      assert whole == slots + ([slot] + later);
      assert whole == (slots + [slot]) + later;
      slots, t, period, id := slots + [slot], next, period + 1, id + 1;
    }
  }

  /** `generate_timeslots`: the days in order, ids continuing across days. */
  method GenerateTimeslots(c: SystemConfig) returns (timeslots: seq<SlotSpec>)
    requires Generable(c)
    ensures timeslots == Timeslots(c)
  {
    timeslots := [];
    var d := 0;
    while d < |Weekdays|
      invariant 0 <= d <= |Weekdays|
      invariant timeslots == WeekOf(Daily(c), d, c.lessonDuration)
    {
      var day := DayTimeslots(c, Weekdays[d], |timeslots| + 1);
      timeslots := timeslots + day;
      d := d + 1;
    }
  }
}
