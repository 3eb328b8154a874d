/** The JSON-file repository: its own time-slot generator (lunch fixed at
    the noon hour), create-or-replace and delete by id for subjects and
    teachers, the demo student group, and lesson generation (one lesson per
    weekly hour of every subject that has a teacher, for every group).
    Reading and writing the JSON files is not modelled: the lists are passed
    in and returned. */
module Database {
  import opened Common
  import opened DataModels
  import Config

  // ---------------------------------------------------------------------
  // Time slots

  /** The four settings the repository reads from the saved configuration. */
  datatype Settings = Settings(startHour: int, endHour: int, lessonDuration: int, breakDuration: int)

  /** `config.get(key, default)` for the four settings. A present value of
      another type is refused. */
  function ReadSettings(d: Dict): (r: Option<Settings>)
    ensures d == map[] ==> r == Some(Settings(9, 16, 50, 10))
  {
    var startHour :- GetInt(d, "start_hour", 9);
    var endHour :- GetInt(d, "end_hour", 16);
    var lesson :- GetInt(d, "lesson_duration", 50);
    var pause :- GetInt(d, "break_duration", 10);
    Some(Settings(startHour, endHour, lesson, pause))
  }

  /** The walk advances by a positive step. */
  predicate Steps(s: Settings) {
    s.lessonDuration + s.breakDuration > 0
  }

  /** The repository's lunch test looks at the hour alone: 12 <= hour < 13. */
  predicate InLunchHour(t: Clock) {
    12 <= t.hour < 13
  }

  /** The repository's advance: the minute carry is always applied (floor
      division and modulo by 60). */
  function Advance(t: Clock, step: int): (n: Clock)
    ensures Minutes(n) == Minutes(t) + step
    ensures Canonical(n)
  {
    var m := t.minute + step;
    Clock(t.hour + m / 60, m % 60)
  }

  /** One day of `_load_timeslots`, walked from t. The lesson end and the
      closing test are the same arithmetic as the configuration's generator. */
  function DayWalk(s: Settings, t: Clock, period: nat): seq<Config.DaySlot>
    requires Steps(s) && Canonical(t)
    decreases s.endHour * 60 - Minutes(t)
  {
    if t.hour >= s.endHour then []
    else if InLunchHour(t) then DayWalk(s, Clock(13, 0), period)
    else
      var e := Config.LessonEnd(t, s.lessonDuration);
      if Config.Overruns(e, s.endHour) then []
      else [Config.DaySlot(t, e, period)] + DayWalk(s, Advance(t, s.lessonDuration + s.breakDuration), period + 1)
  }

  /** A generated slot as the record the repository keeps. */
  function Record(spec: Config.SlotSpec, now: string): (t: TimeSlot)
    ensures t.id == spec.id && t.dayOfWeek == spec.dayOfWeek && !t.isBreak
    ensures t.startTime == spec.startTime && t.endTime == spec.endTime
    ensures t.periodName == spec.periodName && t.durationMinutes == spec.durationMinutes
    ensures now != "" ==> t.createdAt == now
  {
    TimeSlot(spec.id, spec.dayOfWeek, spec.startTime, spec.endTime, spec.periodName, false,
             spec.durationMinutes, Stamp("", now))
  }

  function Records(specs: seq<Config.SlotSpec>, now: string): (r: seq<TimeSlot>)
    ensures |r| == |specs|
    ensures forall k :: 0 <= k < |r| ==> r[k] == Record(specs[k], now)
  {
    seq(|specs|, k requires 0 <= k < |specs| => Record(specs[k], now))
  }

  /** `_load_timeslots`: the five weekdays of the walk from startHour:00,
      ids continuing across days. */
  function LoadTimeslots(s: Settings, now: string): seq<TimeSlot>
    requires Steps(s)
  {
    Records(Config.WeekOf(DayWalk(s, Clock(s.startHour, 0), 1), |Weekdays|, s.lessonDuration), now)
  }

  /** The configuration whose generator the repository's one reproduces: the
      default one with the four settings replaced (its lunch is 12:00-13:00). */
  function AsConfig(s: Settings): (c: Config.SystemConfig)
    ensures Steps(s) ==> Config.Generable(c)
  {
    Config.DefaultConfig.(startHour := s.startHour, endHour := s.endHour,
                          lessonDuration := s.lessonDuration, breakDuration := s.breakDuration)
  }

  /** From any valid start, the repository's day walk and the
      configuration's one (with lunch 12:00-13:00) emit the same slots. */
  lemma {:induction false} DayWalkAgrees(s: Settings, t: Clock, period: nat)
    requires Steps(s) && Canonical(t)
    ensures DayWalk(s, t, period) == Config.DayWalk(AsConfig(s), t, period)
    decreases s.endHour * 60 - Minutes(t)
  {
    var c := AsConfig(s);
    assert InLunchHour(t) <==> Config.InLunch(c, t);
    if t.hour >= s.endHour {
    } else if InLunchHour(t) {
      DayWalkAgrees(s, Clock(13, 0), period);
    } else {
      var step := s.lessonDuration + s.breakDuration;
      assert Advance(t, step) == Config.NextStart(t, step);
      DayWalkAgrees(s, Advance(t, step), period + 1);
    }
  }

  /** The repository's time slots are the configuration generator's ones
      for the same hours and durations, turned into records. */
  lemma LoadTimeslotsAgrees(s: Settings, now: string)
    requires Steps(s)
    ensures LoadTimeslots(s, now) == Records(Config.Timeslots(AsConfig(s)), now)
  {
    DayWalkAgrees(s, Clock(s.startHour, 0), 1);
  }

  // ---------------------------------------------------------------------
  // Create-or-replace and delete by id

  /** Position of the first element with the given id. */
  function IndexOf<T>(xs: seq<T>, id: int, idOf: T -> int): (r: Option<nat>)
    ensures r.Some? ==> r.value < |xs| && idOf(xs[r.value]) == id
                        && forall k :: 0 <= k < r.value ==> idOf(xs[k]) != id
    ensures r.None? ==> forall k :: 0 <= k < |xs| ==> idOf(xs[k]) != id
  {
    if |xs| == 0 then None
    else if idOf(xs[0]) == id then Some(0)
    else match IndexOf(xs[1..], id, idOf)
      case None => None
      case Some(k) => Some(k + 1)
  }

  /** The first element with the given id. */
  function FindById<T>(xs: seq<T>, id: int, idOf: T -> int): (r: Option<T>)
    ensures r.Some? ==> r.value in xs && idOf(r.value) == id
    ensures r.None? <==> forall k :: 0 <= k < |xs| ==> idOf(xs[k]) != id
  {
    match IndexOf(xs, id, idOf)
    case None => None
    case Some(k) => Some(xs[k])
  }

  /** `save_subject` / `save_teacher`: the first element with x's id is
      replaced by x; without one, x is appended. */
  function Upsert<T>(xs: seq<T>, x: T, idOf: T -> int): (r: seq<T>)
    ensures IndexOf(xs, idOf(x), idOf).Some? ==> r == xs[IndexOf(xs, idOf(x), idOf).value := x]
    ensures IndexOf(xs, idOf(x), idOf).None? ==> r == xs + [x]
  {
    if |xs| == 0 then [x]
    else if idOf(xs[0]) == idOf(x) then [x] + xs[1..]
    else [xs[0]] + Upsert(xs[1..], x, idOf)
  }

  /** The list comprehension `[y for y in xs if y.id != id]`. */
  function Remove<T>(xs: seq<T>, id: int, idOf: T -> int): (r: seq<T>)
    ensures |r| <= |xs|
    ensures forall k :: 0 <= k < |r| ==> r[k] in xs && idOf(r[k]) != id
    ensures forall k :: 0 <= k < |xs| && idOf(xs[k]) != id ==> xs[k] in r
  {
    if |xs| == 0 then []
    else if idOf(xs[0]) == id then Remove(xs[1..], id, idOf)
    else [xs[0]] + Remove(xs[1..], id, idOf)
  }

  /** `delete_subject` / `delete_teacher`: the filtered list and whether it
      got shorter. */
  function Delete<T>(xs: seq<T>, id: int, idOf: T -> int): (r: (seq<T>, bool))
    ensures r.0 == Remove(xs, id, idOf)
    ensures r.1 <==> exists k :: 0 <= k < |xs| && idOf(xs[k]) == id
  {
    var kept := Remove(xs, id, idOf);
    RemoveShrinksIff(xs, id, idOf);
    (kept, |kept| < |xs|)
  }

  /** The filter drops an element exactly when some element has the id. */
  lemma {:induction false} RemoveShrinksIff<T>(xs: seq<T>, id: int, idOf: T -> int)
    ensures |Remove(xs, id, idOf)| < |xs| <==> exists k :: 0 <= k < |xs| && idOf(xs[k]) == id
  {
    if |xs| > 0 {
      RemoveShrinksIff(xs[1..], id, idOf);
      if exists k :: 0 <= k < |xs[1..]| && idOf(xs[1..][k]) == id {
        var k :| 0 <= k < |xs[1..]| && idOf(xs[1..][k]) == id;
        assert idOf(xs[k + 1]) == id;
      }
      if exists k :: 0 <= k < |xs| && idOf(xs[k]) == id {
        var k :| 0 <= k < |xs| && idOf(xs[k]) == id;
        if k > 0 {
          assert idOf(xs[1..][k - 1]) == id;
        }
      }
    }
  }

  function SubjectId(s: Subject): int { s.id }
  function TeacherId(t: Teacher): int { t.id }

  // ---------------------------------------------------------------------
  // Student groups and lessons

  /** `_load_student_groups`: the one demo class. */
  function DemoStudentGroups(now: string): (r: seq<StudentGroup>)
    ensures |r| == 1 && r[0].id == 1 && r[0].name == "1年A組"
  {
    [StudentGroup(1, "1年A組", 1, "A", 30, ["数学", "国語", "英語"], [], Stamp("", now))]
  }

  /** `_find_teacher_for_subject`: the first teacher whose subject list holds
      the name. */
  function FindTeacherForSubject(teachers: seq<Teacher>, name: string): (r: Option<Teacher>)
    ensures r.Some? ==> exists i :: 0 <= i < |teachers| && teachers[i] == r.value && name in r.value.subjects
                          && forall j :: 0 <= j < i ==> name !in teachers[j].subjects
    ensures r.None? <==> forall i :: 0 <= i < |teachers| ==> name !in teachers[i].subjects
  {
    if |teachers| == 0 then None
    else if name in teachers[0].subjects then Some(teachers[0])
    else
      var r := FindTeacherForSubject(teachers[1..], name);
      assert forall i :: 1 <= i < |teachers| ==> teachers[i] == teachers[1..][i - 1];
      r
  }

  /** `range(n)` has max(n, 0) elements. */
  function Hours(n: int): nat {
    if n < 0 then 0 else n
  }

  /** Lessons a subject contributes per group: its weekly hours when some
      teacher teaches it, none otherwise. */
  function SubjectHours(subject: Subject, teachers: seq<Teacher>): nat {
    if FindTeacherForSubject(teachers, subject.name).Some? then Hours(subject.weeklyHours) else 0
  }

  /** Weekly lessons per group, summed subject by subject from the front. */
  function TaughtHours(subjects: seq<Subject>, teachers: seq<Teacher>): nat {
    if |subjects| == 0 then 0
    else SubjectHours(subjects[0], teachers) + TaughtHours(subjects[1..], teachers)
  }

  /** One (subject, teacher) entry per lesson a group gets, subject by
      subject in list order. */
  function Plan(subjects: seq<Subject>, teachers: seq<Teacher>): seq<(Subject, Teacher)> {
    if |subjects| == 0 then []
    else Plan(subjects[..|subjects| - 1], teachers) + Entries(subjects[|subjects| - 1], teachers)
  }

  /** A subject's entries: its weekly hours' worth of (subject, teacher)
      when some teacher teaches it. */
  function Entries(s: Subject, teachers: seq<Teacher>): seq<(Subject, Teacher)> {
    match FindTeacherForSubject(teachers, s.name)
    case None => []
    case Some(t) => Copies((s, t), Hours(s.weeklyHours))
  }

  /** n copies of one entry. */
  function Copies(e: (Subject, Teacher), n: nat): (r: seq<(Subject, Teacher)>)
    ensures |r| == n && forall k :: 0 <= k < n ==> r[k] == e
  {
    seq(n, _ => e)
  }

  lemma PlanStep(subjects: seq<Subject>, teachers: seq<Teacher>, i: nat)
    requires i < |subjects|
    ensures Plan(subjects[..i + 1], teachers) == Plan(subjects[..i], teachers) + Entries(subjects[i], teachers)
  {
    assert subjects[..i + 1][..i] == subjects[..i];
  }

  /** Assigning one more entry appends one lesson. */
  lemma AssignSnoc(plan: seq<(Subject, Teacher)>, e: (Subject, Teacher), group: StudentGroup, firstId: int, now: string)
    ensures Assign(plan + [e], group, firstId, now)
            == Assign(plan, group, firstId, now)
               + [NewLesson(firstId + |plan|, Some(e.0), Some(e.1), Some(group), "regular", now)]
  {
  }

  /** The lessons of one group for a plan, numbered from firstId. */
  function Assign(plan: seq<(Subject, Teacher)>, group: StudentGroup, firstId: int, now: string): (r: seq<Lesson>)
    ensures |r| == |plan|
  {
    seq(|plan|, j requires 0 <= j < |plan| =>
      NewLesson(firstId + j, Some(plan[j].0), Some(plan[j].1), Some(group), "regular", now))
  }

  /** The lessons of every group, group after group, ids continuing. */
  function Schedule(groups: seq<StudentGroup>, plan: seq<(Subject, Teacher)>, now: string): (r: seq<Lesson>)
    ensures |r| == |groups| * |plan|
  {
    if |groups| == 0 then []
    else
      var n := |groups| - 1;
      Schedule(groups[..n], plan, now) + Assign(plan, groups[n], n * |plan| + 1, now)
  }

  /** Assigning two plans one after the other numbers the second from
      where the first stopped. */
  lemma AssignConcat(p: seq<(Subject, Teacher)>, q: seq<(Subject, Teacher)>, group: StudentGroup, firstId: int, now: string)
    ensures Assign(p + q, group, firstId, now) == Assign(p, group, firstId, now) + Assign(q, group, firstId + |p|, now)
  {
  }

  /** The innermost loop of `generate_lessons`: one lesson per weekly hour
      of the subject, ids from firstId. */
  method SubjectLessons(subject: Subject, teacher: Teacher, group: StudentGroup, firstId: int, now: string)
    returns (lessons: seq<Lesson>)
    ensures lessons == Assign(Copies((subject, teacher), Hours(subject.weeklyHours)), group, firstId, now)
  {
    lessons := [];
    var hour := 0;
    while hour < subject.weeklyHours
      invariant 0 <= hour <= Hours(subject.weeklyHours)
      invariant lessons == Assign(Copies((subject, teacher), hour), group, firstId, now)
    {
      AssignSnoc(Copies((subject, teacher), hour), (subject, teacher), group, firstId, now);
      assert Copies((subject, teacher), hour + 1) == Copies((subject, teacher), hour) + [(subject, teacher)];
      lessons := lessons + [NewLesson(firstId + hour, Some(subject), Some(teacher), Some(group), "regular", now)];
      hour := hour + 1;
    }
  }

  /** The loop over subjects for one group. */
  method GroupLessons(subjects: seq<Subject>, teachers: seq<Teacher>, group: StudentGroup, firstId: int, now: string)
    returns (lessons: seq<Lesson>)
    ensures lessons == Assign(Plan(subjects, teachers), group, firstId, now)
  {
    lessons := [];
    for i := 0 to |subjects|
      invariant lessons == Assign(Plan(subjects[..i], teachers), group, firstId, now)
    {
      var subject := subjects[i];
      var teacher := FindTeacherForSubject(teachers, subject.name);
      var more := [];
      if teacher.Some? {
        more := SubjectLessons(subject, teacher.value, group, firstId + |lessons|, now);
      }
      GroupStep(subjects, teachers, group, firstId, now, i, lessons, more);
      lessons := lessons + more;
    }
    assert subjects[..|subjects|] == subjects;
  }

  /** One more subject appends the lessons of its entries, numbered on. */
  lemma GroupStep(subjects: seq<Subject>, teachers: seq<Teacher>, group: StudentGroup, firstId: int, now: string,
                  i: nat, lessons: seq<Lesson>, more: seq<Lesson>)
    requires i < |subjects|
    requires lessons == Assign(Plan(subjects[..i], teachers), group, firstId, now)
    requires more == Assign(Entries(subjects[i], teachers), group, firstId + |lessons|, now)
    ensures lessons + more == Assign(Plan(subjects[..i + 1], teachers), group, firstId, now)
  {
    var p := Plan(subjects[..i], teachers);
    var e := Entries(subjects[i], teachers);
    assert |lessons| == |p|;
    calc {
      Assign(Plan(subjects[..i + 1], teachers), group, firstId, now);
    == { PlanStep(subjects, teachers, i); }
      Assign(p + e, group, firstId, now);
    == { AssignConcat(p, e, group, firstId, now); }
      lessons + more;
    }
  }

  lemma ScheduleStep(groups: seq<StudentGroup>, plan: seq<(Subject, Teacher)>, now: string, g: nat)
    requires g < |groups|
    ensures Schedule(groups[..g + 1], plan, now)
            == Schedule(groups[..g], plan, now) + Assign(plan, groups[g], |Schedule(groups[..g], plan, now)| + 1, now)
  {
    assert groups[..g + 1][..g] == groups[..g];
  }

  /** `generate_lessons`: for each group, for each subject with a teacher,
      one lesson per weekly hour, ids counting from 1 across groups. */
  method GenerateLessons(subjects: seq<Subject>, teachers: seq<Teacher>, groups: seq<StudentGroup>, now: string)
    returns (lessons: seq<Lesson>)
    ensures lessons == Schedule(groups, Plan(subjects, teachers), now)
  {
    lessons := [];
    for g := 0 to |groups|
      invariant lessons == Schedule(groups[..g], Plan(subjects, teachers), now)
    {
      var more := GroupLessons(subjects, teachers, groups[g], |lessons| + 1, now);
      ScheduleStep(groups, Plan(subjects, teachers), now, g);
      lessons := lessons + more;
    }
    assert groups[..|groups|] == groups;
  }
}
