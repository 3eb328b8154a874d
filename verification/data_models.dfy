/** The repository's record types (subjects, teachers, time slots, student
    groups and lessons), their dictionary form and their keyword-argument
    constructors. Construction from a dictionary fails, as the Python
    constructor call does, on an unknown key or a missing required field. */
module DataModels {
  import opened Common

  datatype Subject = Subject(
    id: int,
    name: string,
    code: string,
    description: string,
    requiredEquipment: seq<string>,
    difficultyLevel: string,
    category: string,
    weeklyHours: int,
    createdAt: string)

  datatype Teacher = Teacher(
    id: int,
    name: string,
    email: string,
    subjects: seq<string>,
    maxDailyLessons: int,
    maxWeeklyHours: int,
    availableDays: seq<string>,
    availableHours: seq<string>,
    preferredTimes: seq<string>,
    unavailableTimes: seq<string>,
    employmentType: string,
    createdAt: string)

  datatype TimeSlot = TimeSlot(
    id: int,
    dayOfWeek: string,
    startTime: Clock,
    endTime: Clock,
    periodName: string,
    isBreak: bool,
    durationMinutes: int,
    createdAt: string)

  datatype StudentGroup = StudentGroup(
    id: int,
    name: string,
    grade: int,
    classLetter: string,
    studentCount: int,
    curriculum: seq<string>,
    specialNeeds: seq<string>,
    createdAt: string)

  datatype Lesson = Lesson(
    id: int,
    subject: Option<Subject>,
    teacher: Option<Teacher>,
    studentGroup: Option<StudentGroup>,
    timeslot: Option<TimeSlot>,
    durationMinutes: int,
    lessonType: string,
    requirements: seq<string>,
    createdAt: string)

  // ---------------------------------------------------------------------
  // Field names and defaults

  const SubjectFields: set<string> :=
    {"id", "name", "code", "description", "required_equipment",
     "difficulty_level", "category", "weekly_hours", "created_at"}

  const TeacherFields: set<string> :=
    {"id", "name", "email", "subjects", "max_daily_lessons", "max_weekly_hours",
     "available_days", "available_hours", "preferred_times", "unavailable_times",
     "employment_type", "created_at"}

  const TimeSlotFields: set<string> :=
    {"id", "day_of_week", "start_time", "end_time", "period_name", "is_break",
     "duration_minutes", "created_at"}

  const StudentGroupFields: set<string> :=
    {"id", "name", "grade", "class_letter", "student_count", "curriculum",
     "special_needs", "created_at"}

  const LessonFields: set<string> :=
    {"id", "subject", "teacher", "student_group", "timeslot", "duration_minutes",
     "lesson_type", "requirements", "created_at"}

  /** A lesson built as `Lesson(id=…, subject=…, teacher=…, student_group=…,
      lesson_type=…)`: no time slot, 50 minutes, no requirements. */
  function NewLesson(id: int, subject: Option<Subject>, teacher: Option<Teacher>,
                     group: Option<StudentGroup>, lessonType: string, now: string): (l: Lesson)
    ensures l.id == id && l.subject == subject && l.teacher == teacher && l.studentGroup == group
    ensures l.timeslot.None? && l.durationMinutes == 50 && l.lessonType == lessonType && l.requirements == []
    ensures l.createdAt == now
  {
    Lesson(id, subject, teacher, group, None, 50, lessonType, [], now)
  }

  // ---------------------------------------------------------------------
  // to_dict

  function SubjectToDict(s: Subject): (d: Dict)
    ensures d.Keys == SubjectFields
  {
    map["id" := VInt(s.id), "name" := VStr(s.name), "code" := VStr(s.code),
        "description" := VStr(s.description),
        "required_equipment" := VStrs(s.requiredEquipment),
        "difficulty_level" := VStr(s.difficultyLevel), "category" := VStr(s.category),
        "weekly_hours" := VInt(s.weeklyHours), "created_at" := VStr(s.createdAt)]
  }

  function TeacherToDict(t: Teacher): (d: Dict)
    ensures d.Keys == TeacherFields
  {
    map["id" := VInt(t.id), "name" := VStr(t.name), "email" := VStr(t.email),
        "subjects" := VStrs(t.subjects), "max_daily_lessons" := VInt(t.maxDailyLessons),
        "max_weekly_hours" := VInt(t.maxWeeklyHours),
        "available_days" := VStrs(t.availableDays),
        "available_hours" := VStrs(t.availableHours),
        "preferred_times" := VStrs(t.preferredTimes),
        "unavailable_times" := VStrs(t.unavailableTimes),
        "employment_type" := VStr(t.employmentType), "created_at" := VStr(t.createdAt)]
  }

  function TimeSlotToDict(t: TimeSlot): (d: Dict)
    ensures d.Keys == TimeSlotFields
  {
    map["id" := VInt(t.id), "day_of_week" := VStr(t.dayOfWeek),
        "start_time" := VClock(t.startTime), "end_time" := VClock(t.endTime),
        "period_name" := VStr(t.periodName), "is_break" := VBool(t.isBreak),
        "duration_minutes" := VInt(t.durationMinutes), "created_at" := VStr(t.createdAt)]
  }

  function StudentGroupToDict(g: StudentGroup): (d: Dict)
    ensures d.Keys == StudentGroupFields
  {
    map["id" := VInt(g.id), "name" := VStr(g.name), "grade" := VInt(g.grade),
        "class_letter" := VStr(g.classLetter), "student_count" := VInt(g.studentCount),
        "curriculum" := VStrs(g.curriculum), "special_needs" := VStrs(g.specialNeeds),
        "created_at" := VStr(g.createdAt)]
  }

  /** A nested record's dictionary, or None when the reference is unset. */
  function Nested<T>(o: Option<T>, toDict: T -> Dict): Value {
    match o
    case None => VNull
    case Some(x) => VDict(toDict(x))
  }

  function LessonToDict(l: Lesson): (d: Dict)
    ensures d.Keys == LessonFields
  {
    map["id" := VInt(l.id),
        "subject" := Nested(l.subject, SubjectToDict),
        "teacher" := Nested(l.teacher, TeacherToDict),
        "student_group" := Nested(l.studentGroup, StudentGroupToDict),
        "timeslot" := Nested(l.timeslot, TimeSlotToDict),
        "duration_minutes" := VInt(l.durationMinutes),
        "lesson_type" := VStr(l.lessonType),
        "requirements" := VStrs(l.requirements),
        "created_at" := VStr(l.createdAt)]
  }

  // ---------------------------------------------------------------------
  // Keyword-argument constructors: `Subject(**d)` and friends, followed by
  // `__post_init__`, which stamps an empty `created_at` with `now`.

  function SubjectFromDict(d: Dict, now: string): (r: Option<Subject>)
    ensures r.Some? ==> d.Keys <= SubjectFields && "id" in d && "name" in d
    ensures r.Some? ==> d["id"] == VInt(r.value.id) && d["name"] == VStr(r.value.name)
    ensures r.Some? ==> r.value.createdAt != "" || now == ""
  {
    if !(d.Keys <= SubjectFields) then None
    else
      var id :- NeedInt(d, "id");
      var name :- NeedStr(d, "name");
      var code :- GetStr(d, "code", "");
      var description :- GetStr(d, "description", "");
      var equipment :- GetStrs(d, "required_equipment", []);
      var difficulty :- GetStr(d, "difficulty_level", "medium");
      var category :- GetStr(d, "category", "general");
      var weeklyHours :- GetInt(d, "weekly_hours", 1);
      var createdAt :- GetCreatedAt(d);
      Some(Subject(id, name, code, description, equipment, difficulty, category,
                   weeklyHours, Stamp(createdAt, now)))
  }

  function TeacherFromDict(d: Dict, now: string): (r: Option<Teacher>)
    ensures r.Some? ==> d.Keys <= TeacherFields && "id" in d && "name" in d
    ensures r.Some? ==> d["id"] == VInt(r.value.id) && d["name"] == VStr(r.value.name)
    ensures r.Some? ==> r.value.createdAt != "" || now == ""
  {
    if !(d.Keys <= TeacherFields) then None
    else
      var id :- NeedInt(d, "id");
      var name :- NeedStr(d, "name");
      var email :- GetStr(d, "email", "");
      var subjects :- GetStrs(d, "subjects", []);
      var maxDaily :- GetInt(d, "max_daily_lessons", 6);
      var maxWeekly :- GetInt(d, "max_weekly_hours", 30);
      var days :- GetStrs(d, "available_days", Weekdays);
      var hours :- GetStrs(d, "available_hours", []);
      var preferred :- GetStrs(d, "preferred_times", []);
      var unavailable :- GetStrs(d, "unavailable_times", []);
      var employment :- GetStr(d, "employment_type", "full_time");
      var createdAt :- GetCreatedAt(d);
      Some(Teacher(id, name, email, subjects, maxDaily, maxWeekly, days, hours,
                   preferred, unavailable, employment, Stamp(createdAt, now)))
  }

  function TimeSlotFromDict(d: Dict, now: string): (r: Option<TimeSlot>)
    ensures r.Some? ==> d.Keys <= TimeSlotFields && "id" in d && "day_of_week" in d && "start_time" in d && "end_time" in d
    ensures r.Some? ==> d["id"] == VInt(r.value.id) && d["day_of_week"] == VStr(r.value.dayOfWeek)
                        && d["start_time"] == VClock(r.value.startTime) && d["end_time"] == VClock(r.value.endTime)
    ensures r.Some? ==> r.value.createdAt != "" || now == ""
  {
    if !(d.Keys <= TimeSlotFields) then None
    else
      var id :- NeedInt(d, "id");
      var day :- NeedStr(d, "day_of_week");
      var start :- NeedClock(d, "start_time");
      var end :- NeedClock(d, "end_time");
      var period :- GetStr(d, "period_name", "");
      var isBreak :- GetBool(d, "is_break", false);
      var duration :- GetInt(d, "duration_minutes", 50);
      var createdAt :- GetCreatedAt(d);
      Some(TimeSlot(id, day, start, end, period, isBreak, duration, Stamp(createdAt, now)))
  }

  function StudentGroupFromDict(d: Dict, now: string): (r: Option<StudentGroup>)
    ensures r.Some? ==> d.Keys <= StudentGroupFields && "id" in d && "name" in d && "grade" in d
    ensures r.Some? ==> d["id"] == VInt(r.value.id) && d["name"] == VStr(r.value.name) && d["grade"] == VInt(r.value.grade)
    ensures r.Some? ==> r.value.createdAt != "" || now == ""
  {
    if !(d.Keys <= StudentGroupFields) then None
    else
      var id :- NeedInt(d, "id");
      var name :- NeedStr(d, "name");
      var grade :- NeedInt(d, "grade");
      var classLetter :- GetStr(d, "class_letter", "A");
      var count :- GetInt(d, "student_count", 30);
      var curriculum :- GetStrs(d, "curriculum", []);
      var needs :- GetStrs(d, "special_needs", []);
      var createdAt :- GetCreatedAt(d);
      Some(StudentGroup(id, name, grade, classLetter, count, curriculum, needs,
                        Stamp(createdAt, now)))
  }

  // ---------------------------------------------------------------------
  // Properties

  /** Saving a subject writes its dictionary and loading rebuilds it with
      `Subject(**item)`: the record comes back unchanged, whatever the
      loading time, once it carries a creation stamp. */
  lemma SubjectRoundTrip(s: Subject, now: string)
    requires s.createdAt != ""
    ensures SubjectFromDict(SubjectToDict(s), now) == Some(s)
  {
  }

  lemma TeacherRoundTrip(t: Teacher, now: string)
    requires t.createdAt != ""
    ensures TeacherFromDict(TeacherToDict(t), now) == Some(t)
  {
    var d := TeacherToDict(t);
    assert d["email"] == VStr(t.email) && d["subjects"] == VStrs(t.subjects);
    assert d["max_daily_lessons"] == VInt(t.maxDailyLessons) && d["max_weekly_hours"] == VInt(t.maxWeeklyHours);
    assert d["available_days"] == VStrs(t.availableDays) && d["available_hours"] == VStrs(t.availableHours);
    assert d["preferred_times"] == VStrs(t.preferredTimes) && d["unavailable_times"] == VStrs(t.unavailableTimes);
    assert d["employment_type"] == VStr(t.employmentType) && d["created_at"] == VStr(t.createdAt);
  }

  lemma TimeSlotRoundTrip(t: TimeSlot, now: string)
    requires t.createdAt != ""
    ensures TimeSlotFromDict(TimeSlotToDict(t), now) == Some(t)
  {
  }

  lemma StudentGroupRoundTrip(g: StudentGroup, now: string)
    requires g.createdAt != ""
    ensures StudentGroupFromDict(StudentGroupToDict(g), now) == Some(g)
  {
  }

  /** Constructing from the required fields alone gives the declared
      defaults and stamps the record with the construction time. */
  lemma SubjectDefaults(id: int, name: string, now: string)
    ensures SubjectFromDict(map["id" := VInt(id), "name" := VStr(name)], now)
            == Some(Subject(id, name, "", "", [], "medium", "general", 1, now))
  {
  }

  lemma TeacherDefaults(id: int, name: string, now: string)
    ensures TeacherFromDict(map["id" := VInt(id), "name" := VStr(name)], now)
            == Some(Teacher(id, name, "", [], 6, 30, Weekdays, [], [], [], "full_time", now))
  {
  }

  lemma StudentGroupDefaults(id: int, name: string, grade: int, now: string)
    ensures StudentGroupFromDict(map["id" := VInt(id), "name" := VStr(name), "grade" := VInt(grade)], now)
            == Some(StudentGroup(id, name, grade, "A", 30, [], [], now))
  {
  }

  /** A non-empty string stamp. */
  predicate HasStamp(d: Dict) {
    "created_at" in d && d["created_at"].VStr? && d["created_at"].s != ""
  }

  /** `__post_init__` only fills an empty stamp: a non-empty `created_at`
      survives construction of every record type, an empty or None one is
      replaced by the current time. */
  lemma SubjectStamp(d: Dict, now: string)
    ensures SubjectFromDict(d, now).Some? && HasStamp(d) ==> SubjectFromDict(d, now).value.createdAt == d["created_at"].s
    ensures SubjectFromDict(d, now).Some? && ("created_at" !in d || d["created_at"] in {VNull, VStr("")})
            ==> SubjectFromDict(d, now).value.createdAt == now
  {
  }

  lemma TeacherStamp(d: Dict, now: string)
    ensures TeacherFromDict(d, now).Some? && HasStamp(d) ==> TeacherFromDict(d, now).value.createdAt == d["created_at"].s
  {
  }

  lemma TimeSlotStamp(d: Dict, now: string)
    ensures TimeSlotFromDict(d, now).Some? && HasStamp(d) ==> TimeSlotFromDict(d, now).value.createdAt == d["created_at"].s
  {
  }

  lemma StudentGroupStamp(d: Dict, now: string)
    ensures StudentGroupFromDict(d, now).Some? && HasStamp(d)
            ==> StudentGroupFromDict(d, now).value.createdAt == d["created_at"].s
  {
  }

  /** Every nested record slot of a lesson's dictionary is None exactly
      when the reference is unset, and otherwise a dictionary that rebuilds
      the referenced record. */
  lemma LessonToDictNested(l: Lesson, now: string)
    requires l.subject.Some? ==> l.subject.value.createdAt != ""
    requires l.teacher.Some? ==> l.teacher.value.createdAt != ""
    requires l.studentGroup.Some? ==> l.studentGroup.value.createdAt != ""
    requires l.timeslot.Some? ==> l.timeslot.value.createdAt != ""
    ensures var d := LessonToDict(l);
      && (d["subject"] == VNull <==> l.subject.None?)
      && (d["teacher"] == VNull <==> l.teacher.None?)
      && (d["student_group"] == VNull <==> l.studentGroup.None?)
      && (d["timeslot"] == VNull <==> l.timeslot.None?)
      && (l.subject.Some? ==> d["subject"].VDict? && SubjectFromDict(d["subject"].fields, now) == l.subject)
      && (l.teacher.Some? ==> d["teacher"].VDict? && TeacherFromDict(d["teacher"].fields, now) == l.teacher)
      && (l.studentGroup.Some? ==>
            d["student_group"].VDict? && StudentGroupFromDict(d["student_group"].fields, now) == l.studentGroup)
      && (l.timeslot.Some? ==> d["timeslot"].VDict? && TimeSlotFromDict(d["timeslot"].fields, now) == l.timeslot)
  {
    LessonDictEntries(l);
    if l.subject.Some? { SubjectRoundTrip(l.subject.value, now); }
    if l.teacher.Some? { TeacherRoundTrip(l.teacher.value, now); }
    if l.studentGroup.Some? { StudentGroupRoundTrip(l.studentGroup.value, now); }
    if l.timeslot.Some? { TimeSlotRoundTrip(l.timeslot.value, now); }
  }

  /** Where each reference of a lesson lands in its dictionary. */
  lemma LessonDictEntries(l: Lesson)
    ensures LessonToDict(l)["subject"] == Nested(l.subject, SubjectToDict)
    ensures LessonToDict(l)["teacher"] == Nested(l.teacher, TeacherToDict)
    ensures LessonToDict(l)["student_group"] == Nested(l.studentGroup, StudentGroupToDict)
    ensures LessonToDict(l)["timeslot"] == Nested(l.timeslot, TimeSlotToDict)
  {
    var d := LessonToDict(l);
    assert d["subject"] == Nested(l.subject, SubjectToDict);
    assert d["teacher"] == Nested(l.teacher, TeacherToDict);
    assert d["student_group"] == Nested(l.studentGroup, StudentGroupToDict);
  }
}
