/** The rule-based placement the optimisation endpoint runs: take at most
    sixteen time slots, walk the subjects in order, give each subject that
    has a teacher one lesson per weekly hour in the next free slot of the
    first student group, alternating the two fixed rooms, and answer with
    the slots, rooms and lessons as JSON; on any failure answer with a fixed
    fallback timetable.

    Rendering a slot's times with `strftime` is separated from the
    placement: the placement's control flow never depends on rendered text,
    so a rendering failure during placement and one while converting the
    slots both end in the fallback answer. */
module Routes {
  import opened Common
  import opened DataModels
  import Database

  datatype Ref = Ref(id: int, name: string)
  datatype SlotJson = SlotJson(id: int, dayOfWeek: string, startTime: Clock, endTime: Clock)
  datatype PlacedJson = PlacedJson(id: int, subject: Ref, teacher: Ref, studentGroup: Ref,
                                   timeslot: SlotJson, room: Ref)
  datatype Response = Response(timeslots: seq<SlotJson>, rooms: seq<Ref>, lessons: seq<PlacedJson>, score: string)

  /** The two fixed rooms. */
  const Rooms: seq<Ref> := [Ref(1, "教室A"), Ref(2, "教室B")]

  /** At most this many time slots are used. */
  const MaxLessons: nat := 16

  /** A placed lesson before rendering: the records it refers to, the slot
      it occupies and its room. */
  datatype Assignment = Assignment(id: int, subject: Subject, teacher: Teacher, group: StudentGroup,
                                   slot: TimeSlot, room: Ref)

  function Min(a: int, b: int): int {
    if a <= b then a else b
  }

  /** `timeslots[:min(16, len(timeslots))]`. */
  function Selected(timeslots: seq<TimeSlot>): (r: seq<TimeSlot>)
    ensures |r| == Min(MaxLessons, |timeslots|)
    ensures r == timeslots[..|r|]
  {
    timeslots[..Min(MaxLessons, |timeslots|)]
  }

  /** The hour loop of one subject: while hours remain and a slot is free,
      the next lesson takes slot number |placed| and room |placed| mod 2;
      the first missing slot ends the loop. */
  function PlaceHours(subject: Subject, teacher: Teacher, group: StudentGroup, slots: seq<TimeSlot>,
                      placed: seq<Assignment>, hours: nat): seq<Assignment>
    decreases hours
  {
    if hours == 0 || |placed| >= |slots| then placed
    else
      var k := |placed|;
      var lesson := Assignment(k + 1, subject, teacher, group, slots[k], Rooms[k % |Rooms|]);
      PlaceHours(subject, teacher, group, slots, placed + [lesson], hours - 1)
  }

  /** The subject loop: a subject is placed with the first teacher whose
      subject list names it, and skipped when there is none. */
  function PlaceSubjects(subjects: seq<Subject>, teachers: seq<Teacher>, group: StudentGroup,
                         slots: seq<TimeSlot>, placed: seq<Assignment>): seq<Assignment>
  {
    if |subjects| == 0 then placed
    else
      var s := subjects[0];
      match Database.FindTeacherForSubject(teachers, s.name)
      case None => PlaceSubjects(subjects[1..], teachers, group, slots, placed)
      case Some(t) =>
        PlaceSubjects(subjects[1..], teachers, group, slots,
                      PlaceHours(s, t, group, slots, placed, Database.Hours(s.weeklyHours)))
  }

  // ---------------------------------------------------------------------
  // Rendering and the answer

  /** A time attribute as Python holds it: the repository's records carry
      "HH:MM" text, a `datetime.time` would be a value. */
  datatype TimeField = TimeText(text: Clock) | TimeValue(value: Clock)

  /** `.strftime("%H:%M")`: defined on a time value; on text it raises
      AttributeError. */
  function Strftime(f: TimeField): (r: Option<Clock>)
    ensures r.Some? <==> f.TimeValue?
  {
    match f
    case TimeValue(c) => Some(c)
    case TimeText(_) => None
  }

  /** The slot JSON as the endpoint writes it: both times through strftime,
      applied to the record's text fields. */
  function SlotJsonAsWritten(t: TimeSlot): Option<SlotJson> {
    match (Strftime(TimeText(t.startTime)), Strftime(TimeText(t.endTime)))
    case (Some(start), Some(end)) => Some(SlotJson(t.id, t.dayOfWeek, start, end))
    case _ => None
  }

  /** The slot JSON with the "HH:MM" text passed through as it is. */
  function SlotJsonOf(t: TimeSlot): (r: SlotJson)
    ensures r.id == t.id && r.dayOfWeek == t.dayOfWeek && r.startTime == t.startTime && r.endTime == t.endTime
  {
    SlotJson(t.id, t.dayOfWeek, t.startTime, t.endTime)
  }

  function RenderSlots(slots: seq<TimeSlot>, render: TimeSlot -> Option<SlotJson>): (r: Option<seq<SlotJson>>)
    ensures r.Some? <==> forall k :: 0 <= k < |slots| ==> render(slots[k]).Some?
    ensures r.Some? ==> |r.value| == |slots| && forall k :: 0 <= k < |slots| ==> r.value[k] == render(slots[k]).value
  {
    if |slots| == 0 then Some([])
    else
      match render(slots[0])
      case None => None
      case Some(j) =>
        match RenderSlots(slots[1..], render)
        case None =>
          assert exists k :: 0 <= k < |slots[1..]| && render(slots[1..][k]).None?;
          None
        case Some(rest) => Some([j] + rest)
  }

  function RenderLesson(a: Assignment, render: TimeSlot -> Option<SlotJson>): Option<PlacedJson> {
    var slot :- render(a.slot);
    Some(PlacedJson(a.id, Ref(a.subject.id, a.subject.name), Ref(a.teacher.id, a.teacher.name),
                    Ref(a.group.id, a.group.name), slot, a.room))
  }

  function RenderLessons(placed: seq<Assignment>, render: TimeSlot -> Option<SlotJson>): (r: Option<seq<PlacedJson>>)
    ensures r.Some? ==> |r.value| == |placed|
                        && forall k :: 0 <= k < |placed| ==> RenderLesson(placed[k], render) == Some(r.value[k])
    ensures (forall k :: 0 <= k < |placed| ==> render(placed[k].slot).Some?) ==> r.Some?
  {
    if |placed| == 0 then Some([])
    else
      var head :- RenderLesson(placed[0], render);
      var rest :- RenderLessons(placed[1..], render);
      Some([head] + rest)
  }

  const FallbackScore: string := "Railway フォールバック (改善版)"

  /** The fixed answer of the exception handler. */
  const FallbackResponse: Response :=
    var mon1 := SlotJson(1, "月曜日", Clock(9, 0), Clock(10, 0));
    var mon2 := SlotJson(2, "月曜日", Clock(10, 15), Clock(11, 15));
    var tue1 := SlotJson(3, "火曜日", Clock(9, 0), Clock(10, 0));
    var tue2 := SlotJson(4, "火曜日", Clock(10, 15), Clock(11, 15));
    var group := Ref(1, "1年A組");
    var roomA := Ref(1, "教室A");
    Response(
      [mon1, mon2, tue1, tue2],
      Rooms,
      [PlacedJson(1, Ref(1, "数学"), Ref(1, "田中先生"), group, mon1, roomA),
       PlacedJson(2, Ref(2, "国語"), Ref(2, "佐藤先生"), group, mon2, roomA),
       PlacedJson(3, Ref(3, "英語"), Ref(3, "鈴木先生"), group, tue1, roomA)],
      FallbackScore)

  /** "Railway最適化完了 (N授業配置)". */
  function DoneScore(n: nat): string {
    "Railway最適化完了 (" + NatText(n) + "授業配置)"
  }

  /** Whether the endpoint has everything it needs: no list is empty. */
  predicate HasData(subjects: seq<Subject>, teachers: seq<Teacher>, timeslots: seq<TimeSlot>,
                    groups: seq<StudentGroup>) {
    |subjects| > 0 && |teachers| > 0 && |timeslots| > 0 && |groups| > 0
  }

  /** The lessons the endpoint places, before rendering. */
  function Placement(subjects: seq<Subject>, teachers: seq<Teacher>, timeslots: seq<TimeSlot>,
                     groups: seq<StudentGroup>): seq<Assignment>
    requires |groups| > 0
  {
    PlaceSubjects(subjects, teachers, groups[0], Selected(timeslots), [])
  }

  /** `railway_optimization`, with the way slot times are rendered as a
      parameter: the missing-data error and any rendering error both give
      the fallback answer. */
  function RailwayWith(subjects: seq<Subject>, teachers: seq<Teacher>, timeslots: seq<TimeSlot>,
                       groups: seq<StudentGroup>, render: TimeSlot -> Option<SlotJson>): Response
  {
    if !HasData(subjects, teachers, timeslots, groups) then FallbackResponse
    else
      var placed := Placement(subjects, teachers, timeslots, groups);
      match (RenderLessons(placed, render), RenderSlots(Selected(timeslots), render))
      case (Some(lessons), Some(slots)) => Response(slots, Rooms, lessons, DoneScore(|lessons|))
      case _ => FallbackResponse
  }

  /** The endpoint as written: strftime applied to the records' text. */
  function RailwayAsWritten(subjects: seq<Subject>, teachers: seq<Teacher>, timeslots: seq<TimeSlot>,
                            groups: seq<StudentGroup>): Response
  {
    RailwayWith(subjects, teachers, timeslots, groups, SlotJsonAsWritten)
  }

  /** The endpoint as evidently intended: the stored "HH:MM" text is used. */
  function Railway(subjects: seq<Subject>, teachers: seq<Teacher>, timeslots: seq<TimeSlot>,
                   groups: seq<StudentGroup>): Response
  {
    RailwayWith(subjects, teachers, timeslots, groups, t => Some(SlotJsonOf(t)))
  }
}
