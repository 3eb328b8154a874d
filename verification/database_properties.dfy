/** What the repository promises: saving by id replaces or appends and can
    be read back, deleting removes exactly the records with the id, the
    repository's time slots are laid out like the configuration's, and the
    generated lessons cover every taught subject's weekly hours for every
    group, unscheduled and numbered from 1. */
module DatabaseProperties {
  import opened Common
  import opened DataModels
  import Config
  import ConfigProperties
  import opened Database

  // ---------------------------------------------------------------------
  // Save and delete by id

  /** IndexOf finds the first position carrying the id, and only it. */
  lemma IndexOfIsFirst<T>(xs: seq<T>, id: int, idOf: T -> int, i: nat)
    requires i < |xs| && idOf(xs[i]) == id
    requires forall k :: 0 <= k < i ==> idOf(xs[k]) != id
    ensures IndexOf(xs, id, idOf) == Some(i)
  {
  }

  /** After saving x, looking up x's id finds x. */
  lemma SaveThenFind<T>(xs: seq<T>, x: T, idOf: T -> int)
    ensures FindById(Upsert(xs, x, idOf), idOf(x), idOf) == Some(x)
  {
    var r := Upsert(xs, x, idOf);
    match IndexOf(xs, idOf(x), idOf)
    case Some(i) =>
      IndexOfIsFirst(r, idOf(x), idOf, i);
    case None =>
      IndexOfIsFirst(r, idOf(x), idOf, |xs|);
  }

  /** Saving x leaves what every other id finds unchanged. */
  lemma SaveKeepsOthers<T>(xs: seq<T>, x: T, idOf: T -> int, id: int)
    requires id != idOf(x)
    ensures FindById(Upsert(xs, x, idOf), id, idOf) == FindById(xs, id, idOf)
  {
    var r := Upsert(xs, x, idOf);
    match IndexOf(xs, id, idOf)
    case Some(i) =>
      IndexOfIsFirst(r, id, idOf, i);
    case None =>
      assert forall k :: 0 <= k < |r| ==> idOf(r[k]) != id;
  }

  /** Saving the same record twice is the same as saving it once. */
  lemma SaveIdempotent<T>(xs: seq<T>, x: T, idOf: T -> int)
    ensures Upsert(Upsert(xs, x, idOf), x, idOf) == Upsert(xs, x, idOf)
  {
    var r := Upsert(xs, x, idOf);
    match IndexOf(xs, idOf(x), idOf)
    case Some(i) =>
      IndexOfIsFirst(r, idOf(x), idOf, i);
    case None =>
      IndexOfIsFirst(r, idOf(x), idOf, |xs|);
  }

  /** The filter keeps the order of the kept records. */
  lemma {:induction false} RemoveOfConcat<T>(xs: seq<T>, ys: seq<T>, id: int, idOf: T -> int)
    ensures Remove(xs + ys, id, idOf) == Remove(xs, id, idOf) + Remove(ys, id, idOf)
  {
    if |xs| == 0 {
      assert xs + ys == ys;
    } else {
      assert (xs + ys)[1..] == xs[1..] + ys;
      RemoveOfConcat(xs[1..], ys, id, idOf);
    }
  }

  /** Deleting an id no record carries changes nothing. */
  lemma {:induction false} RemoveAbsent<T>(xs: seq<T>, id: int, idOf: T -> int)
    requires forall k :: 0 <= k < |xs| ==> idOf(xs[k]) != id
    ensures Remove(xs, id, idOf) == xs
  {
    if |xs| > 0 {
      RemoveAbsent(xs[1..], id, idOf);
      assert [xs[0]] + xs[1..] == xs;
    }
  }

  /** Deleting a record's id right after saving it gives what deleting the
      id gives without the save. */
  lemma DeleteAfterSave<T>(xs: seq<T>, x: T, idOf: T -> int)
    ensures Delete(Upsert(xs, x, idOf), idOf(x), idOf).0 == Delete(xs, idOf(x), idOf).0
  {
    var id := idOf(x);
    match IndexOf(xs, id, idOf)
    case Some(i) =>
      var r := xs[i := x];
      assert xs == xs[..i] + [xs[i]] + xs[i + 1..];
      assert r == xs[..i] + [x] + xs[i + 1..];
      RemoveOfConcat(xs[..i] + [xs[i]], xs[i + 1..], id, idOf);
      RemoveOfConcat(xs[..i], [xs[i]], id, idOf);
      RemoveOfConcat(xs[..i] + [x], xs[i + 1..], id, idOf);
      RemoveOfConcat(xs[..i], [x], id, idOf);
      assert Remove([x], id, idOf) == [] == Remove([xs[i]], id, idOf);
    case None =>
      RemoveOfConcat(xs, [x], id, idOf);
      assert Remove([x], id, idOf) == [];
  }

  /** After a delete nothing carries the id, every other id finds what it
      found before, and a second delete of the same id reports failure. */
  lemma DeleteThenFind<T>(xs: seq<T>, id: int, idOf: T -> int, other: int)
    requires other != id
    ensures FindById(Delete(xs, id, idOf).0, id, idOf).None?
    ensures !Delete(Delete(xs, id, idOf).0, id, idOf).1
    ensures FindById(Delete(xs, id, idOf).0, other, idOf) == FindById(xs, other, idOf)
  {
    RemoveFind(xs, id, idOf, other);
  }

  lemma {:induction false} RemoveFind<T>(xs: seq<T>, id: int, idOf: T -> int, other: int)
    requires other != id
    ensures FindById(Remove(xs, id, idOf), other, idOf) == FindById(xs, other, idOf)
  {
    if |xs| > 0 {
      RemoveFind(xs[1..], id, idOf, other);
      if idOf(xs[0]) != id {
        assert ([xs[0]] + Remove(xs[1..], id, idOf))[1..] == Remove(xs[1..], id, idOf);
      }
    }
  }

  // ---------------------------------------------------------------------
  // Time slots

  /** The repository's week: day e holds positions e * n .. e * n + n - 1,
      ids count from 1, period names count from "1限" each day, lessons
      end by the closing hour and none starts in the noon hour. */
  lemma LoadedLayout(s: Settings, now: string, e: nat, j: nat)
    requires Steps(s) && e < |Weekdays| && j < |Config.Daily(AsConfig(s))|
    ensures |LoadTimeslots(s, now)| == |Weekdays| * |Config.Daily(AsConfig(s))|
    ensures e * |Config.Daily(AsConfig(s))| + j < |LoadTimeslots(s, now)|
    ensures var n := |Config.Daily(AsConfig(s))|;
      var t := LoadTimeslots(s, now)[e * n + j];
      t.id == e * n + j + 1 && t.dayOfWeek == Weekdays[e] && t.periodName == Config.PeriodLabel(j + 1)
      && !t.isBreak && t.durationMinutes == s.lessonDuration
      && Minutes(t.endTime) == Minutes(t.startTime) + s.lessonDuration
      && Minutes(t.endTime) <= s.endHour * 60
      && Canonical(t.startTime) && !InLunchHour(t.startTime)
  {
    LoadTimeslotsAgrees(s, now);
    ConfigProperties.TimeslotLayout(AsConfig(s), e, j);
    MulStep(e, |Weekdays|, |Config.Daily(AsConfig(s))|);
  }

  /** The repository's slot ids are 1, 2, 3, ... in list order. */
  lemma LoadedIds(s: Settings, now: string)
    requires Steps(s)
    ensures forall k :: 0 <= k < |LoadTimeslots(s, now)| ==> LoadTimeslots(s, now)[k].id == k + 1
  {
    LoadTimeslotsAgrees(s, now);
    ConfigProperties.WeekIds(Config.Daily(AsConfig(s)), |Weekdays|, s.lessonDuration);
  }

  // ---------------------------------------------------------------------
  // Lessons

  lemma {:induction false} TaughtHoursSnoc(subjects: seq<Subject>, teachers: seq<Teacher>)
    requires |subjects| > 0
    ensures TaughtHours(subjects, teachers)
            == TaughtHours(subjects[..|subjects| - 1], teachers) + SubjectHours(subjects[|subjects| - 1], teachers)
  {
    if |subjects| > 1 {
      assert subjects[1..][..|subjects| - 2] == subjects[1..|subjects| - 1];
      assert subjects[..|subjects| - 1][1..] == subjects[1..|subjects| - 1];
      TaughtHoursSnoc(subjects[1..], teachers);
    }
  }

  /** Each group gets as many lessons as the taught subjects' weekly hours
      add up to. */
  lemma {:induction false} PlanLength(subjects: seq<Subject>, teachers: seq<Teacher>)
    ensures |Plan(subjects, teachers)| == TaughtHours(subjects, teachers)
  {
    if |subjects| > 0 {
      PlanLength(subjects[..|subjects| - 1], teachers);
      TaughtHoursSnoc(subjects, teachers);
    }
  }

  /** Every planned lesson pairs a listed subject with the first teacher
      whose subject list names it. */
  lemma {:induction false} PlanEntries(subjects: seq<Subject>, teachers: seq<Teacher>)
    ensures forall k :: 0 <= k < |Plan(subjects, teachers)| ==>
      Plan(subjects, teachers)[k].0 in subjects
      && FindTeacherForSubject(teachers, Plan(subjects, teachers)[k].0.name) == Some(Plan(subjects, teachers)[k].1)
      && Plan(subjects, teachers)[k].0.name in Plan(subjects, teachers)[k].1.subjects
  {
    if |subjects| > 0 {
      var init := subjects[..|subjects| - 1];
      PlanEntries(init, teachers);
      var p := Plan(subjects, teachers);
      assert p == Plan(init, teachers) + Entries(subjects[|subjects| - 1], teachers);
      forall k | 0 <= k < |p|
        ensures p[k].0 in subjects && FindTeacherForSubject(teachers, p[k].0.name) == Some(p[k].1)
      {
        if k < |Plan(init, teachers)| {
          assert p[k] == Plan(init, teachers)[k];
          assert p[k].0 in init;
        }
      }
    }
  }

  /** Lesson j of group g sits at position g * n + j (n lessons per group),
      carries id g * n + j + 1 and the plan's j-th subject and teacher. */
  lemma {:induction false} ScheduleAt(groups: seq<StudentGroup>, plan: seq<(Subject, Teacher)>, now: string, g: nat, j: nat)
    requires g < |groups| && j < |plan|
    ensures var n := |plan|;
      g * n + j < |Schedule(groups, plan, now)|
      && Schedule(groups, plan, now)[g * n + j]
         == NewLesson(g * n + j + 1, Some(plan[j].0), Some(plan[j].1), Some(groups[g]), "regular", now)
  {
    var n := |plan|;
    var last := |groups| - 1;
    var before := Schedule(groups[..last], plan, now);
    var mine := Assign(plan, groups[last], last * n + 1, now);
    assert Schedule(groups, plan, now) == before + mine;
    assert |before| == last * n;
    MulStep(g, |groups|, n);
    if g < last {
      ScheduleAt(groups[..last], plan, now, g, j);
      MulStep(g, last, n);
      assert (before + mine)[g * n + j] == before[g * n + j];
    } else {
      assert (before + mine)[g * n + j] == mine[j];
    }
  }

  /** Every generated lesson is unscheduled, regular, 50 minutes long, and
      the ids are 1, 2, 3, ... in list order. */
  lemma {:induction false} ScheduleUnscheduled(groups: seq<StudentGroup>, plan: seq<(Subject, Teacher)>, now: string)
    ensures forall k :: 0 <= k < |Schedule(groups, plan, now)| ==>
      var l := Schedule(groups, plan, now)[k];
      l.id == k + 1 && l.timeslot.None? && l.lessonType == "regular" && l.durationMinutes == 50
  {
    if |groups| > 0 {
      var last := |groups| - 1;
      ScheduleUnscheduled(groups[..last], plan, now);
      var before := Schedule(groups[..last], plan, now);
      var mine := Assign(plan, groups[last], last * |plan| + 1, now);
      assert Schedule(groups, plan, now) == before + mine;
      assert forall k :: |before| <= k < |before + mine| ==> (before + mine)[k] == mine[k - |before|];
    }
  }

  /** With the repository's single demo class, lesson generation yields
      exactly the taught weekly hours. */
  lemma DemoLessonCount(subjects: seq<Subject>, teachers: seq<Teacher>, now: string)
    ensures |Schedule(DemoStudentGroups(now), Plan(subjects, teachers), now)| == TaughtHours(subjects, teachers)
  {
    PlanLength(subjects, teachers);
  }
}
