/** The solver-facing problem model and its scoring rules: lessons whose time
    slot and room may be unassigned, nine pairwise constraints (three hard,
    six soft), and the hard/soft score they add up to over the unordered
    pairs of distinct lessons. */
module TimefoldModels {
  import opened Common

  datatype Timeslot = Timeslot(id: int, dayOfWeek: string, startTime: Clock, endTime: Clock)
  datatype Room = Room(id: int, name: string)
  datatype Subject = Subject(id: int, name: string)
  datatype Teacher = Teacher(id: int, name: string)
  datatype StudentGroup = StudentGroup(id: int, name: string)

  /** The planning entity: subject, teacher and group are fixed; the time slot
      and room are the planning variables. */
  datatype Lesson = Lesson(
    id: int,
    subject: Subject,
    teacher: Teacher,
    studentGroup: StudentGroup,
    timeslot: Option<Timeslot>,
    room: Option<Room>)

  /** A freshly created lesson: both planning variables unset. */
  function NewLesson(id: int, subject: Subject, teacher: Teacher, group: StudentGroup): (l: Lesson)
    ensures l.id == id && l.subject == subject && l.teacher == teacher && l.studentGroup == group
    ensures l.timeslot.None? && l.room.None?
  {
    Lesson(id, subject, teacher, group, None, None)
  }

  /** A hard/soft score; constraint matches add to it, penalties negatively. */
  datatype Score = Score(hard: int, soft: int) {
    function Plus(other: Score): Score {
      Score(hard + other.hard, soft + other.soft)
    }

    function Times(n: nat): Score {
      Score(hard * n, soft * n)
    }
  }

  const Zero: Score := Score(0, 0)

  datatype Level = Hard | Soft

  datatype Constraint =
    | RoomConflict
    | TeacherConflict
    | StudentGroupConflict
    | SubjectDistributionAcrossDays
    | DailyLessonLimit
    | EncourageSubjectSpread
    | AvoidConsecutiveSameSubject
    | TeacherRoomStability
    | TeacherTimeEfficiency
  {
    /** The score one matching pair contributes: a penalty is negative, the
        spread reward positive. */
    function Impact(): Score {
      match this
      case RoomConflict => Score(-1, 0)
      case TeacherConflict => Score(-1, 0)
      case StudentGroupConflict => Score(-1, 0)
      case SubjectDistributionAcrossDays => Score(0, -10)
      case DailyLessonLimit => Score(0, -5)
      case EncourageSubjectSpread => Score(0, 8)
      case AvoidConsecutiveSameSubject => Score(0, -3)
      case TeacherRoomStability => Score(0, -1)
      case TeacherTimeEfficiency => Score(0, -1)
    }

    function Level(): Level {
      if Impact().hard != 0 then Hard else Soft
    }

    function Name(): string {
      match this
      case RoomConflict => "Room conflict"
      case TeacherConflict => "Teacher conflict"
      case StudentGroupConflict => "Student group conflict"
      case SubjectDistributionAcrossDays => "Subject distribution across days"
      case DailyLessonLimit => "Daily lesson limit"
      case EncourageSubjectSpread => "Encourage subject spread"
      case AvoidConsecutiveSameSubject => "Avoid consecutive same subject"
      case TeacherRoomStability => "Teacher room stability"
      case TeacherTimeEfficiency => "Teacher time efficiency"
    }
  }

  /** The constraint provider's list, in its order. */
  const Constraints: seq<Constraint> := [
    RoomConflict, TeacherConflict, StudentGroupConflict,
    SubjectDistributionAcrossDays, DailyLessonLimit, EncourageSubjectSpread,
    AvoidConsecutiveSameSubject, TeacherRoomStability, TeacherTimeEfficiency]

  predicate BothScheduled(a: Lesson, b: Lesson) {
    a.timeslot.Some? && b.timeslot.Some?
  }

  predicate SameDay(a: Lesson, b: Lesson)
    requires BothScheduled(a, b)
  {
    a.timeslot.value.dayOfWeek == b.timeslot.value.dayOfWeek
  }

  /** Distance between the two lessons' slot ids. */
  function SlotGap(a: Lesson, b: Lesson): nat
    requires BothScheduled(a, b)
  {
    var d := a.timeslot.value.id - b.timeslot.value.id;
    if d < 0 then -d else d
  }

  /** Same subject id and same student-group id. */
  predicate SameCourse(a: Lesson, b: Lesson) {
    a.subject.id == b.subject.id && a.studentGroup.id == b.studentGroup.id
  }

  /** Whether the pair (a, b) is matched by constraint c: its joiners (the
      equalities) followed by its filter. */
  predicate Matches(c: Constraint, a: Lesson, b: Lesson) {
    match c
    case RoomConflict =>
      a.timeslot == b.timeslot && a.room == b.room
      && BothScheduled(a, b) && a.room.Some? && b.room.Some?
    case TeacherConflict =>
      a.timeslot == b.timeslot && a.teacher == b.teacher && BothScheduled(a, b)
    case StudentGroupConflict =>
      a.timeslot == b.timeslot && a.studentGroup == b.studentGroup && BothScheduled(a, b)
    case SubjectDistributionAcrossDays =>
      SameCourse(a, b) && BothScheduled(a, b) && SameDay(a, b) && a.id != b.id
    case DailyLessonLimit =>
      BothScheduled(a, b) && a.studentGroup.id == b.studentGroup.id && SameDay(a, b) && a.id != b.id
    case EncourageSubjectSpread =>
      SameCourse(a, b) && BothScheduled(a, b) && !SameDay(a, b) && a.id != b.id
    case AvoidConsecutiveSameSubject =>
      SameCourse(a, b) && BothScheduled(a, b) && SameDay(a, b) && SlotGap(a, b) == 1 && a.id != b.id
    case TeacherRoomStability =>
      a.teacher == b.teacher && a.room.Some? && b.room.Some? && a.room.value.id != b.room.value.id
    case TeacherTimeEfficiency =>
      a.teacher == b.teacher && BothScheduled(a, b) && SameDay(a, b) && SlotGap(a, b) > 1
  }

  /** Number of lessons in `rest` that c matches together with a. */
  function CountWith(c: Constraint, a: Lesson, rest: seq<Lesson>): nat {
    if |rest| == 0 then 0
    else (if Matches(c, a, rest[0]) then 1 else 0) + CountWith(c, a, rest[1..])
  }

  /** Number of unique pairs (positions i < j) of `ls` that c matches: the
      constraint's match count in the per-constraint breakdown. */
  function MatchCount(c: Constraint, ls: seq<Lesson>): nat {
    if |ls| == 0 then 0 else CountWith(c, ls[0], ls[1..]) + MatchCount(c, ls[1..])
  }

  /** Sum over the listed constraints of impact times match count, the
      counts being given per constraint. */
  function WeightedSum(cs: seq<Constraint>, count: Constraint -> nat): Score {
    if |cs| == 0 then Zero
    else cs[0].Impact().Times(count(cs[0])).Plus(WeightedSum(cs[1..], count))
  }

  /** The timetable's score. */
  function ScoreOf(ls: seq<Lesson>): Score {
    WeightedSum(Constraints, c => MatchCount(c, ls))
  }

  /** Number of conflicting pairs summed over the three hard constraints. */
  function HardViolations(ls: seq<Lesson>): nat {
    MatchCount(RoomConflict, ls) + MatchCount(TeacherConflict, ls) + MatchCount(StudentGroupConflict, ls)
  }

  predicate HardMatch(a: Lesson, b: Lesson) {
    Matches(RoomConflict, a, b) || Matches(TeacherConflict, a, b) || Matches(StudentGroupConflict, a, b)
  }

  // ---------------------------------------------------------------------
  // Reference definition: counting over ordered pairs of distinct positions

  /** All elements of `ls` except the one at position i. */
  function Without(ls: seq<Lesson>, i: nat): seq<Lesson>
    requires i < |ls|
  {
    ls[..i] + ls[i + 1..]
  }

  /** Matches of c over ordered pairs (i, j) with i != j and i >= from:
      each lesson checked against every other lesson of the list. */
  function OrderedFrom(c: Constraint, ls: seq<Lesson>, from: nat): nat
    decreases |ls| - from
  {
    if from >= |ls| then 0
    else CountWith(c, ls[from], Without(ls, from)) + OrderedFrom(c, ls, from + 1)
  }

  function OrderedCount(c: Constraint, ls: seq<Lesson>): nat {
    OrderedFrom(c, ls, 0)
  }

  /** Number of lessons in `s` that c matches with x as second argument. */
  function CountAgainst(c: Constraint, s: seq<Lesson>, x: Lesson): nat {
    if |s| == 0 then 0
    else (if Matches(c, s[0], x) then 1 else 0) + CountAgainst(c, s[1..], x)
  }
}
