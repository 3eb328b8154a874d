/** What the placement endpoint promises: the answer as written is always
    the fallback; with the stored text used as it is, the fallback comes
    exactly when data is missing, the k-th lesson takes the k-th of at most
    sixteen slots and room k mod 2, every lesson uses its subject's first
    teacher and the first group, no subject gets more lessons than its
    weekly hours, and distinct slots make the placement free of hard
    conflicts. */
module RoutesProperties {
  import opened Common
  import opened DataModels
  import Database
  import DatabaseProperties
  import TM = TimefoldModels
  import TimefoldProperties
  import opened Routes

  // ---------------------------------------------------------------------
  // The answer as written

  /** Every input gets the fallback: with data present at least one slot is
      selected, and rendering it calls strftime on text. */
  lemma RailwayAsWrittenAlwaysFallback(subjects: seq<Subject>, teachers: seq<Teacher>,
                                       timeslots: seq<TimeSlot>, groups: seq<StudentGroup>)
    ensures RailwayAsWritten(subjects, teachers, timeslots, groups) == FallbackResponse
  {
    if HasData(subjects, teachers, timeslots, groups) {
      var selected := Selected(timeslots);
      assert SlotJsonAsWritten(selected[0]).None?;
      assert RenderSlots(selected, SlotJsonAsWritten).None?;
    }
  }

  // ---------------------------------------------------------------------
  // The placement loop

  /** The placement invariant: lesson k has id k + 1, slot k and room
      k mod 2, the given group, a listed subject and that subject's first
      teacher, and no slot beyond the last one is used. */
  predicate Laid(placed: seq<Assignment>, slots: seq<TimeSlot>, group: StudentGroup,
                 subjects: seq<Subject>, teachers: seq<Teacher>) {
    |placed| <= |slots|
    && forall k :: 0 <= k < |placed| ==>
         placed[k].id == k + 1 && placed[k].slot == slots[k] && placed[k].room == Rooms[k % 2]
         && placed[k].group == group && placed[k].subject in subjects
         && Database.FindTeacherForSubject(teachers, placed[k].subject.name) == Some(placed[k].teacher)
  }

  /** One subject's hour loop keeps the invariant, only appends, and places
      as many lessons as there are hours, unless the slots run out first. */
  lemma {:induction false} PlaceHoursFacts(subject: Subject, teacher: Teacher, group: StudentGroup,
                                           slots: seq<TimeSlot>, placed: seq<Assignment>, hours: nat,
                                           subjects: seq<Subject>, teachers: seq<Teacher>)
    requires Laid(placed, slots, group, subjects, teachers)
    requires subject in subjects && Database.FindTeacherForSubject(teachers, subject.name) == Some(teacher)
    ensures var r := PlaceHours(subject, teacher, group, slots, placed, hours);
      Laid(r, slots, group, subjects, teachers)
      && |r| == Min(|slots|, |placed| + hours)
      && r[..|placed|] == placed
      && forall k :: |placed| <= k < |r| ==> r[k].subject == subject
    decreases hours
  {
    if hours > 0 && |placed| < |slots| {
      var k := |placed|;
      var next := placed + [Assignment(k + 1, subject, teacher, group, slots[k], Rooms[k % |Rooms|])];
      assert Laid(next, slots, group, subjects, teachers);
      PlaceHoursFacts(subject, teacher, group, slots, next, hours - 1, subjects, teachers);
      var r := PlaceHours(subject, teacher, group, slots, next, hours - 1);
      assert r[..|next|][..|placed|] == r[..|placed|];
    }
  }

  /** The subject loop keeps the invariant, only appends, and places the
      taught weekly hours, unless the slots run out first. */
  lemma {:induction false} PlaceSubjectsFacts(rest: seq<Subject>, teachers: seq<Teacher>, group: StudentGroup,
                                              slots: seq<TimeSlot>, placed: seq<Assignment>, subjects: seq<Subject>)
    requires Laid(placed, slots, group, subjects, teachers)
    requires forall i :: 0 <= i < |rest| ==> rest[i] in subjects
    ensures var r := PlaceSubjects(rest, teachers, group, slots, placed);
      Laid(r, slots, group, subjects, teachers)
      && |r| == Min(|slots|, |placed| + Database.TaughtHours(rest, teachers))
      && r[..|placed|] == placed
  {
    if |rest| > 0 {
      var s := rest[0];
      match Database.FindTeacherForSubject(teachers, s.name)
      case None =>
        assert forall i :: 0 <= i < |rest[1..]| ==> rest[1..][i] == rest[i + 1];
        PlaceSubjectsFacts(rest[1..], teachers, group, slots, placed, subjects);
        assert Database.TaughtHours(rest, teachers) == Database.TaughtHours(rest[1..], teachers);
      case Some(t) =>
        assert forall i :: 0 <= i < |rest[1..]| ==> rest[1..][i] == rest[i + 1];
        var mid := PlaceHours(s, t, group, slots, placed, Database.Hours(s.weeklyHours));
        PlaceHoursFacts(s, t, group, slots, placed, Database.Hours(s.weeklyHours), subjects, teachers);
        PlaceSubjectsFacts(rest[1..], teachers, group, slots, mid, subjects);
        var r := PlaceSubjects(rest[1..], teachers, group, slots, mid);
        assert Database.TaughtHours(rest, teachers)
               == Database.Hours(s.weeklyHours) + Database.TaughtHours(rest[1..], teachers);
        MinChain(|slots|, |placed|, Database.Hours(s.weeklyHours), Database.TaughtHours(rest[1..], teachers));
        PrefixChain(r, mid, placed);
    }
  }

  lemma MinChain(n: int, p: int, h: nat, t: nat)
    requires p <= n
    ensures Min(n, Min(n, p + h) + t) == Min(n, p + h + t)
  {
  }

  lemma PrefixChain<T>(r: seq<T>, mid: seq<T>, placed: seq<T>)
    requires |placed| <= |mid| <= |r| && r[..|mid|] == mid && mid[..|placed|] == placed
    ensures r[..|placed|] == placed
  {
    assert r[..|mid|][..|placed|] == r[..|placed|];
  }

  /** How many placed lessons teach the subject. */
  function CountSubject(placed: seq<Assignment>, s: Subject): (n: nat)
    ensures n <= |placed|
  {
    if |placed| == 0 then 0
    else (if placed[|placed| - 1].subject == s then 1 else 0) + CountSubject(placed[..|placed| - 1], s)
  }

  /** The weekly hours the subject list asks for the subject, counting each
      occurrence of it. */
  function Demand(rest: seq<Subject>, s: Subject): nat {
    if |rest| == 0 then 0
    else (if rest[0] == s then Database.Hours(s.weeklyHours) else 0) + Demand(rest[1..], s)
  }

  lemma {:induction false} CountSubjectConcat(xs: seq<Assignment>, ys: seq<Assignment>, s: Subject)
    ensures CountSubject(xs + ys, s) == CountSubject(xs, s) + CountSubject(ys, s)
    decreases |ys|
  {
    if |ys| == 0 {
      assert xs + ys == xs;
    } else {
      var last := |ys| - 1;
      assert (xs + ys)[..|xs + ys| - 1] == xs + ys[..last];
      CountSubjectConcat(xs, ys[..last], s);
    }
  }

  /** One hour loop adds at most its hours, and only for its own subject. */
  lemma {:induction false} PlaceHoursCount(subject: Subject, teacher: Teacher, group: StudentGroup,
                                           slots: seq<TimeSlot>, placed: seq<Assignment>, hours: nat, s: Subject)
    ensures CountSubject(PlaceHours(subject, teacher, group, slots, placed, hours), s)
            <= CountSubject(placed, s) + (if subject == s then hours else 0)
    decreases hours
  {
    if hours > 0 && |placed| < |slots| {
      var k := |placed|;
      var lesson := Assignment(k + 1, subject, teacher, group, slots[k], Rooms[k % |Rooms|]);
      PlaceHoursCount(subject, teacher, group, slots, placed + [lesson], hours - 1, s);
      assert (placed + [lesson])[..|placed|] == placed;
    }
  }

  /** The subject loop gives a subject no more lessons than the list asks
      for it. */
  lemma {:induction false} PlaceSubjectsCount(rest: seq<Subject>, teachers: seq<Teacher>, group: StudentGroup,
                                              slots: seq<TimeSlot>, placed: seq<Assignment>, s: Subject)
    ensures CountSubject(PlaceSubjects(rest, teachers, group, slots, placed), s)
            <= CountSubject(placed, s) + Demand(rest, s)
  {
    if |rest| > 0 {
      var sub := rest[0];
      match Database.FindTeacherForSubject(teachers, sub.name)
      case None =>
        PlaceSubjectsCount(rest[1..], teachers, group, slots, placed, s);
      case Some(t) =>
        var mid := PlaceHours(sub, t, group, slots, placed, Database.Hours(sub.weeklyHours));
        PlaceHoursCount(sub, t, group, slots, placed, Database.Hours(sub.weeklyHours), s);
        PlaceSubjectsCount(rest[1..], teachers, group, slots, mid, s);
    }
  }

  /** A subject listed once is asked for exactly its weekly hours. */
  lemma {:induction false} DemandOnce(rest: seq<Subject>, s: Subject, i: nat)
    requires i < |rest| && rest[i] == s
    requires forall j :: 0 <= j < |rest| && j != i ==> rest[j] != s
    ensures Demand(rest, s) == Database.Hours(s.weeklyHours)
  {
    if i == 0 {
      DemandAbsent(rest[1..], s);
    } else {
      DemandOnce(rest[1..], s, i - 1);
    }
  }

  lemma {:induction false} DemandAbsent(rest: seq<Subject>, s: Subject)
    requires forall j :: 0 <= j < |rest| ==> rest[j] != s
    ensures Demand(rest, s) == 0
  {
    if |rest| > 0 {
      DemandAbsent(rest[1..], s);
    }
  }

  // ---------------------------------------------------------------------
  // The corrected answer

  lemma DoneIsNotFallback(n: nat)
    ensures DoneScore(n) != FallbackScore
  {
    assert DoneScore(n)[7] == '最';
    assert FallbackScore[7] == ' ';
  }

  /** The fallback answer comes exactly when one of the four lists is
      empty. */
  lemma RailwayFallbackIff(subjects: seq<Subject>, teachers: seq<Teacher>,
                           timeslots: seq<TimeSlot>, groups: seq<StudentGroup>)
    ensures Railway(subjects, teachers, timeslots, groups).score == FallbackScore
            <==> !HasData(subjects, teachers, timeslots, groups)
  {
    if HasData(subjects, teachers, timeslots, groups) {
      var r := Railway(subjects, teachers, timeslots, groups);
      PlacedRenders(subjects, teachers, timeslots, groups);
      DoneIsNotFallback(|r.lessons|);
    }
  }

  /** With the text passed through, rendering never fails. */
  lemma PlacedRenders(subjects: seq<Subject>, teachers: seq<Teacher>,
                      timeslots: seq<TimeSlot>, groups: seq<StudentGroup>)
    requires |groups| > 0
    ensures RenderLessons(Placement(subjects, teachers, timeslots, groups), t => Some(SlotJsonOf(t))).Some?
    ensures RenderSlots(Selected(timeslots), t => Some(SlotJsonOf(t))).Some?
  {
  }

  /** The lessons placed from the first group over the selected slots. */
  lemma PlacementFacts(subjects: seq<Subject>, teachers: seq<Teacher>,
                       timeslots: seq<TimeSlot>, groups: seq<StudentGroup>)
    requires |groups| > 0
    ensures var p := Placement(subjects, teachers, timeslots, groups);
      Laid(p, Selected(timeslots), groups[0], subjects, teachers)
      && |p| == Min(Min(MaxLessons, |timeslots|), Database.TaughtHours(subjects, teachers))
  {
    assert Laid([], Selected(timeslots), groups[0], subjects, teachers);
    PlaceSubjectsFacts(subjects, teachers, groups[0], Selected(timeslots), [], subjects);
  }

  /** With data present: the answer lists the first min(16, n) slots and
      the two rooms; lesson k has id k + 1, the k-th listed slot, room
      k mod 2, the first group, a listed subject and that subject's first
      teacher; as many lessons are placed as the taught weekly hours, or
      as there are slots; the score text reports the count. */
  lemma RailwayShape(subjects: seq<Subject>, teachers: seq<Teacher>,
                     timeslots: seq<TimeSlot>, groups: seq<StudentGroup>)
    requires HasData(subjects, teachers, timeslots, groups)
    ensures var r := Railway(subjects, teachers, timeslots, groups);
      r.rooms == Rooms && r.score == DoneScore(|r.lessons|)
      && |r.timeslots| == Min(MaxLessons, |timeslots|)
      && (forall k :: 0 <= k < |r.timeslots| ==> r.timeslots[k] == SlotJsonOf(timeslots[k]))
      && |r.lessons| == Min(Min(MaxLessons, |timeslots|), Database.TaughtHours(subjects, teachers))
  {
    PlacedRenders(subjects, teachers, timeslots, groups);
    PlacementFacts(subjects, teachers, timeslots, groups);
  }

  /** Lesson k of the answer, with data present. */
  lemma RailwayLesson(subjects: seq<Subject>, teachers: seq<Teacher>,
                      timeslots: seq<TimeSlot>, groups: seq<StudentGroup>, k: nat)
    requires HasData(subjects, teachers, timeslots, groups)
    requires k < |Railway(subjects, teachers, timeslots, groups).lessons|
    ensures var r := Railway(subjects, teachers, timeslots, groups);
      k < |r.timeslots|
      && r.lessons[k].id == k + 1 && r.lessons[k].timeslot == r.timeslots[k] && r.lessons[k].room == Rooms[k % 2]
      && r.lessons[k].studentGroup == Ref(groups[0].id, groups[0].name)
      && exists s, t :: s in subjects && Database.FindTeacherForSubject(teachers, s.name) == Some(t)
                        && r.lessons[k].subject == Ref(s.id, s.name) && r.lessons[k].teacher == Ref(t.id, t.name)
  {
    PlacedRenders(subjects, teachers, timeslots, groups);
    PlacementFacts(subjects, teachers, timeslots, groups);
    var p := Placement(subjects, teachers, timeslots, groups);
    var render := (t: TimeSlot) => Some(SlotJsonOf(t));
    var lessons := RenderLessons(p, render).value;
    assert RenderLesson(p[k], render) == Some(lessons[k]);
    var s, t := p[k].subject, p[k].teacher;
    assert s in subjects && Database.FindTeacherForSubject(teachers, s.name) == Some(t);
  }

  /** A subject listed once gets at most its weekly hours. */
  lemma RailwaySubjectHours(subjects: seq<Subject>, teachers: seq<Teacher>,
                            timeslots: seq<TimeSlot>, groups: seq<StudentGroup>, i: nat)
    requires |groups| > 0 && i < |subjects|
    requires forall j :: 0 <= j < |subjects| && j != i ==> subjects[j] != subjects[i]
    ensures CountSubject(Placement(subjects, teachers, timeslots, groups), subjects[i])
            <= Database.Hours(subjects[i].weeklyHours)
  {
    PlaceSubjectsCount(subjects, teachers, groups[0], Selected(timeslots), [], subjects[i]);
    DemandOnce(subjects, subjects[i], i);
  }

  // ---------------------------------------------------------------------
  // No hard conflict

  /** A placed lesson as the solver sees it: slot and room assigned. */
  function ToSolver(a: Assignment): (l: TM.Lesson)
    ensures l.id == a.id && l.timeslot.Some? && l.timeslot.value.id == a.slot.id && l.room.Some?
  {
    TM.Lesson(a.id, TM.Subject(a.subject.id, a.subject.name), TM.Teacher(a.teacher.id, a.teacher.name),
              TM.StudentGroup(a.group.id, a.group.name),
              Some(TM.Timeslot(a.slot.id, a.slot.dayOfWeek, a.slot.startTime, a.slot.endTime)),
              Some(TM.Room(a.room.id, a.room.name)))
  }

  function SolverLessons(placed: seq<Assignment>): (ls: seq<TM.Lesson>)
    ensures |ls| == |placed| && forall k :: 0 <= k < |placed| ==> ls[k] == ToSolver(placed[k])
  {
    seq(|placed|, k requires 0 <= k < |placed| => ToSolver(placed[k]))
  }

  /** When the selected slots carry distinct ids, no two placed lessons
      share a slot, so none of the three hard rules fires. */
  lemma PlacementHardFeasible(subjects: seq<Subject>, teachers: seq<Teacher>,
                              timeslots: seq<TimeSlot>, groups: seq<StudentGroup>)
    requires |groups| > 0
    requires forall i, j :: 0 <= i < j < |timeslots| && j < MaxLessons ==> timeslots[i].id != timeslots[j].id
    ensures TM.ScoreOf(SolverLessons(Placement(subjects, teachers, timeslots, groups))).hard == 0
  {
    var p := Placement(subjects, teachers, timeslots, groups);
    PlacementFacts(subjects, teachers, timeslots, groups);
    var ls := SolverLessons(p);
    forall i, j | 0 <= i < j < |ls| && TM.BothScheduled(ls[i], ls[j])
      ensures ls[i].timeslot != ls[j].timeslot
    {
      assert p[i].slot == timeslots[i] && p[j].slot == timeslots[j];
    }
    TimefoldProperties.DistinctSlotsNoHardConflict(ls);
  }

  /** The repository's own time slots are numbered 1, 2, 3, ..., so placing
      over them is always free of hard conflicts. */
  lemma LoadedPlacementHardFeasible(subjects: seq<Subject>, teachers: seq<Teacher>,
                                    s: Database.Settings, now: string, groups: seq<StudentGroup>)
    requires |groups| > 0 && Database.Steps(s)
    ensures TM.ScoreOf(SolverLessons(Placement(subjects, teachers, Database.LoadTimeslots(s, now), groups))).hard == 0
  {
    DatabaseProperties.LoadedIds(s, now);
    PlacementHardFeasible(subjects, teachers, Database.LoadTimeslots(s, now), groups);
  }

  /** The fallback timetable uses three different slots, so it too is free
      of hard conflicts. */
  lemma FallbackHardFeasible()
    ensures forall i, j :: 0 <= i < j < |FallbackResponse.lessons| ==>
      FallbackResponse.lessons[i].timeslot.id != FallbackResponse.lessons[j].timeslot.id
  {
  }
}
