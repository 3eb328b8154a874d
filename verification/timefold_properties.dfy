/** What the scoring rules promise: every rule is symmetric and ranges over
    unordered pairs of distinct lessons, hard points only ever go down and
    vanish exactly when no conflict exists, unassigned lessons are free, and
    the soft rules relate to each other as designed. */
module TimefoldProperties {
  import opened Common
  import opened TimefoldModels

  /** Every rule's filter is symmetric in its two lessons. */
  lemma MatchesSymmetric(c: Constraint, a: Lesson, b: Lesson)
    ensures Matches(c, a, b) <==> Matches(c, b, a)
  {
  }

  lemma CountAgainstIsCountWith(c: Constraint, s: seq<Lesson>, x: Lesson)
    ensures CountAgainst(c, s, x) == CountWith(c, x, s)
  {
    if |s| > 0 {
      MatchesSymmetric(c, s[0], x);
      CountAgainstIsCountWith(c, s[1..], x);
    }
  }

  lemma CountWithConcat(c: Constraint, a: Lesson, s: seq<Lesson>, t: seq<Lesson>)
    ensures CountWith(c, a, s + t) == CountWith(c, a, s) + CountWith(c, a, t)
  {
    if |s| > 0 {
      assert (s + t)[0] == s[0];
      assert (s + t)[1..] == s[1..] + t;
      CountWithConcat(c, a, s[1..], t);
    } else {
      assert s + t == t;
    }
  }

  /** Rows of the ordered count for the list x :: rest, from row k + 1 on,
      are the rows of rest from k on plus one match against x per row. */
  lemma {:induction false} OrderedFromShift(c: Constraint, x: Lesson, rest: seq<Lesson>, k: nat)
    requires k <= |rest|
    ensures OrderedFrom(c, [x] + rest, k + 1) == CountAgainst(c, rest[k..], x) + OrderedFrom(c, rest, k)
    decreases |rest| - k
  {
    var ls := [x] + rest;
    if k < |rest| {
      assert ls[k + 1] == rest[k];
      assert Without(ls, k + 1) == [x] + Without(rest, k);
      CountWithConcat(c, rest[k], [x], Without(rest, k));
      assert rest[k..][1..] == rest[k + 1..];
      OrderedFromShift(c, x, rest, k + 1);
    }
  }

  /** Counting over ordered pairs of distinct positions counts every
      unordered pair exactly twice: the score's pair enumeration pairs no
      lesson with itself and visits each pair once. */
  lemma {:induction false} OrderedIsTwiceUnique(c: Constraint, ls: seq<Lesson>)
    ensures OrderedCount(c, ls) == 2 * MatchCount(c, ls)
  {
    if |ls| > 0 {
      var x, rest := ls[0], ls[1..];
      assert ls == [x] + rest;
      assert Without(ls, 0) == rest;
      OrderedFromShift(c, x, rest, 0);
      assert rest[0..] == rest;
      CountAgainstIsCountWith(c, rest, x);
      OrderedIsTwiceUnique(c, rest);
    }
  }

  /** A one-lesson timetable scores nothing, even though a scheduled lesson
      would conflict with itself: self-pairs are never formed. */
  lemma SingleLessonScoresZero(l: Lesson)
    ensures l.timeslot.Some? ==> Matches(TeacherConflict, l, l) && Matches(StudentGroupConflict, l, l)
    ensures ScoreOf([l]) == Zero
  {
    SingletonScore(l);
    if l.timeslot.Some? {
      SelfConflict(l);
    }
  }

  lemma SingletonScore(l: Lesson)
    ensures ScoreOf([l]) == Zero
  {
    var ls := [l];
    forall c: Constraint ensures MatchCount(c, ls) == 0 {
      MatchCountZeroIff(c, ls);
    }
    NoMatchesScoreZero(c => MatchCount(c, ls));
  }

  lemma SelfConflict(l: Lesson)
    requires l.timeslot.Some?
    ensures Matches(TeacherConflict, l, l) && Matches(StudentGroupConflict, l, l)
  {
    assert BothScheduled(l, l);
  }

  lemma CountWithZeroIff(c: Constraint, a: Lesson, rest: seq<Lesson>)
    ensures CountWith(c, a, rest) == 0 <==> forall j :: 0 <= j < |rest| ==> !Matches(c, a, rest[j])
  {
    if |rest| > 0 {
      CountWithZeroIff(c, a, rest[1..]);
      assert forall j :: 1 <= j < |rest| ==> rest[j] == rest[1..][j - 1];
    }
  }

  /** A constraint has no match exactly when none of the unordered pairs of
      distinct positions satisfies it. */
  lemma {:induction false} MatchCountZeroIff(c: Constraint, ls: seq<Lesson>)
    ensures MatchCount(c, ls) == 0 <==> forall i, j :: 0 <= i < j < |ls| ==> !Matches(c, ls[i], ls[j])
  {
    if |ls| > 0 {
      CountWithZeroIff(c, ls[0], ls[1..]);
      MatchCountZeroIff(c, ls[1..]);
      assert forall j :: 1 <= j < |ls| ==> ls[j] == ls[1..][j - 1];
    }
  }

  /** The score is the per-constraint breakdown weighted as the rules say:
      one hard point per conflicting pair, and 10, 5, 8 (a reward), 3, 1, 1
      soft points per matching pair. */
  lemma ScoreBreakdown(ls: seq<Lesson>)
    ensures ScoreOf(ls).hard == -(HardViolations(ls) as int)
    ensures ScoreOf(ls).soft ==
      - 10 * MatchCount(SubjectDistributionAcrossDays, ls)
      - 5 * MatchCount(DailyLessonLimit, ls)
      + 8 * MatchCount(EncourageSubjectSpread, ls)
      - 3 * MatchCount(AvoidConsecutiveSameSubject, ls)
      - MatchCount(TeacherRoomStability, ls)
      - MatchCount(TeacherTimeEfficiency, ls)
  {
    WeightedBreakdown(c => MatchCount(c, ls));
  }

  lemma WeightedBreakdown(count: Constraint -> nat)
    ensures WeightedSum(Constraints, count) == Score(
      -((count(RoomConflict) + count(TeacherConflict) + count(StudentGroupConflict)) as int),
      - 10 * count(SubjectDistributionAcrossDays) - 5 * count(DailyLessonLimit)
      + 8 * count(EncourageSubjectSpread) - 3 * count(AvoidConsecutiveSameSubject)
      - count(TeacherRoomStability) - count(TeacherTimeEfficiency))
  {
    ListBreakdown(Constraints, count);
  }

  lemma ListBreakdown(cs: seq<Constraint>, count: Constraint -> nat)
    requires |cs| == 9 && cs[0] == RoomConflict && cs[1] == TeacherConflict && cs[2] == StudentGroupConflict
    requires cs[3] == SubjectDistributionAcrossDays && cs[4] == DailyLessonLimit
    requires cs[5] == EncourageSubjectSpread && cs[6] == AvoidConsecutiveSameSubject
    requires cs[7] == TeacherRoomStability && cs[8] == TeacherTimeEfficiency
    ensures WeightedSum(cs, count) == Score(
      -((count(RoomConflict) + count(TeacherConflict) + count(StudentGroupConflict)) as int),
      - 10 * count(SubjectDistributionAcrossDays) - 5 * count(DailyLessonLimit)
      + 8 * count(EncourageSubjectSpread) - 3 * count(AvoidConsecutiveSameSubject)
      - count(TeacherRoomStability) - count(TeacherTimeEfficiency))
  {
    var n0: int, n1: int, n2: int := count(RoomConflict), count(TeacherConflict), count(StudentGroupConflict);
    var soft := SoftTail(cs, count);
    assert WeightedSum(cs[2..], count) == Score(-n2, soft) by { WeightedSumAt(cs, 2, count); }
    assert WeightedSum(cs[1..], count) == Score(-n1 - n2, soft) by { WeightedSumAt(cs, 1, count); }
    assert WeightedSum(cs[0..], count) == Score(-n0 - n1 - n2, soft) by { WeightedSumAt(cs, 0, count); }
    assert cs[0..] == cs;
  }

  /** The six soft rules, the last six of the list, contribute no hard
      points and their weighted counts as soft points. */
  lemma SoftTail(cs: seq<Constraint>, count: Constraint -> nat) returns (soft: int)
    requires |cs| == 9 && cs[3] == SubjectDistributionAcrossDays && cs[4] == DailyLessonLimit
    requires cs[5] == EncourageSubjectSpread && cs[6] == AvoidConsecutiveSameSubject
    requires cs[7] == TeacherRoomStability && cs[8] == TeacherTimeEfficiency
    ensures soft == - 10 * count(SubjectDistributionAcrossDays) - 5 * count(DailyLessonLimit)
      + 8 * count(EncourageSubjectSpread) - 3 * count(AvoidConsecutiveSameSubject)
      - count(TeacherRoomStability) - count(TeacherTimeEfficiency)
    ensures WeightedSum(cs[3..], count) == Score(0, soft)
  {
    var n3: int, n4: int, n5: int := count(SubjectDistributionAcrossDays), count(DailyLessonLimit), count(EncourageSubjectSpread);
    var last := LastThree(cs, count);
    assert WeightedSum(cs[5..], count) == Score(0, 8 * n5 + last) by { WeightedSumAt(cs, 5, count); }
    assert WeightedSum(cs[4..], count) == Score(0, -5 * n4 + 8 * n5 + last) by { WeightedSumAt(cs, 4, count); }
    assert WeightedSum(cs[3..], count) == Score(0, -10 * n3 - 5 * n4 + 8 * n5 + last) by {
      WeightedSumAt(cs, 3, count);
    }
    soft := -10 * n3 - 5 * n4 + 8 * n5 + last;
  }

  lemma LastThree(cs: seq<Constraint>, count: Constraint -> nat) returns (soft: int)
    requires |cs| == 9 && cs[6] == AvoidConsecutiveSameSubject
    requires cs[7] == TeacherRoomStability && cs[8] == TeacherTimeEfficiency
    ensures soft == - 3 * count(AvoidConsecutiveSameSubject) - count(TeacherRoomStability) - count(TeacherTimeEfficiency)
    ensures WeightedSum(cs[6..], count) == Score(0, soft)
  {
    var n6: int, n7: int, n8: int := count(AvoidConsecutiveSameSubject), count(TeacherRoomStability), count(TeacherTimeEfficiency);
    assert WeightedSum(cs[9..], count) == Zero by { assert cs[9..] == []; }
    assert WeightedSum(cs[8..], count) == Score(0, -n8) by { WeightedSumAt(cs, 8, count); }
    assert WeightedSum(cs[7..], count) == Score(0, -n7 - n8) by { WeightedSumAt(cs, 7, count); }
    assert WeightedSum(cs[6..], count) == Score(0, -3 * n6 - n7 - n8) by { WeightedSumAt(cs, 6, count); }
    soft := -3 * n6 - n7 - n8;
  }

  /** Peeling one constraint off a suffix of the list. */
  lemma WeightedSumAt(cs: seq<Constraint>, k: nat, count: Constraint -> nat)
    requires k < |cs|
    ensures WeightedSum(cs[k..], count) == cs[k].Impact().Times(count(cs[k])).Plus(WeightedSum(cs[k + 1..], count))
  {
    assert cs[k..][1..] == cs[k + 1..];
  }

  lemma NoMatchesScoreZero(count: Constraint -> nat)
    requires count(RoomConflict) == 0 && count(TeacherConflict) == 0 && count(StudentGroupConflict) == 0
    requires count(SubjectDistributionAcrossDays) == 0 && count(DailyLessonLimit) == 0
    requires count(EncourageSubjectSpread) == 0 && count(AvoidConsecutiveSameSubject) == 0
    requires count(TeacherRoomStability) == 0 && count(TeacherTimeEfficiency) == 0
    ensures WeightedSum(Constraints, count) == Zero
  {
    WeightedBreakdown(count);
  }

  /** Hard score is never positive, and it is zero exactly when no pair of
      distinct lessons shares a time slot together with a room, teacher or
      student group. */
  lemma HardScoreZeroIffNoConflict(ls: seq<Lesson>)
    ensures ScoreOf(ls).hard <= 0
    ensures ScoreOf(ls).hard == 0 <==> forall i, j :: 0 <= i < j < |ls| ==> !HardMatch(ls[i], ls[j])
  {
    ScoreBreakdown(ls);
    MatchCountZeroIff(RoomConflict, ls);
    MatchCountZeroIff(TeacherConflict, ls);
    MatchCountZeroIff(StudentGroupConflict, ls);
  }

  /** If no two scheduled lessons share a time slot, no hard rule fires. */
  lemma DistinctSlotsNoHardConflict(ls: seq<Lesson>)
    requires forall i, j :: 0 <= i < j < |ls| && BothScheduled(ls[i], ls[j]) ==> ls[i].timeslot != ls[j].timeslot
    ensures ScoreOf(ls).hard == 0
  {
    HardScoreZeroIffNoConflict(ls);
  }

  /** A timetable in which no lesson has a time slot or a room, such as the
      freshly generated one, scores (0, 0). */
  lemma {:induction false} UnassignedScoresZero(ls: seq<Lesson>)
    requires forall i :: 0 <= i < |ls| ==> ls[i].timeslot.None? && ls[i].room.None?
    ensures ScoreOf(ls) == Zero
  {
    UnassignedMatchNothing(RoomConflict, ls);
    UnassignedMatchNothing(TeacherConflict, ls);
    UnassignedMatchNothing(StudentGroupConflict, ls);
    UnassignedMatchNothing(SubjectDistributionAcrossDays, ls);
    UnassignedMatchNothing(DailyLessonLimit, ls);
    UnassignedMatchNothing(EncourageSubjectSpread, ls);
    UnassignedMatchNothing(AvoidConsecutiveSameSubject, ls);
    UnassignedMatchNothing(TeacherRoomStability, ls);
    UnassignedMatchNothing(TeacherTimeEfficiency, ls);
    NoMatchesScoreZero(c => MatchCount(c, ls));
  }

  lemma UnassignedNeverMatch(c: Constraint, a: Lesson, b: Lesson)
    requires a.timeslot.None? && a.room.None?
    ensures !Matches(c, a, b)
  {
  }

  lemma CountWithUnassigned(c: Constraint, a: Lesson, rest: seq<Lesson>)
    requires a.timeslot.None? && a.room.None?
    ensures CountWith(c, a, rest) == 0
  {
    if |rest| > 0 {
      UnassignedNeverMatch(c, a, rest[0]);
      CountWithUnassigned(c, a, rest[1..]);
    }
  }

  lemma {:induction false} UnassignedMatchNothing(c: Constraint, ls: seq<Lesson>)
    requires forall i :: 0 <= i < |ls| ==> ls[i].timeslot.None? && ls[i].room.None?
    ensures MatchCount(c, ls) == 0
  {
    if |ls| > 0 {
      CountWithUnassigned(c, ls[0], ls[1..]);
      UnassignedMatchNothing(c, ls[1..]);
    }
  }

  /** For two distinct scheduled lessons of the same subject and group,
      exactly one of "distribution" (same day, -10) and "spread" (different
      days, +8) fires; for a lesson id paired with itself, neither does. */
  lemma DistributionXorSpread(a: Lesson, b: Lesson)
    requires SameCourse(a, b) && BothScheduled(a, b)
    ensures a.id != b.id ==> (Matches(SubjectDistributionAcrossDays, a, b) <==> !Matches(EncourageSubjectSpread, a, b))
    ensures a.id == b.id ==> !Matches(SubjectDistributionAcrossDays, a, b) && !Matches(EncourageSubjectSpread, a, b)
    ensures Matches(SubjectDistributionAcrossDays, a, b) <==> a.id != b.id && SameDay(a, b)
  {
  }

  /** Every pair penalised as consecutive same-subject lessons is also
      penalised by distribution and by the daily lesson limit, and is never
      rewarded as spread. */
  lemma ConsecutiveImpliesSameDayPenalties(a: Lesson, b: Lesson)
    requires Matches(AvoidConsecutiveSameSubject, a, b)
    ensures Matches(SubjectDistributionAcrossDays, a, b)
    ensures Matches(DailyLessonLimit, a, b)
    ensures !Matches(EncourageSubjectSpread, a, b)
    ensures a.timeslot.value.id == b.timeslot.value.id + 1 || b.timeslot.value.id == a.timeslot.value.id + 1
  {
  }

  /** Two lessons of one teacher in the same slot are a hard conflict but
      never a "gap" for time efficiency; adjacent slots are neither. */
  lemma TimeEfficiencyNeedsGap(a: Lesson, b: Lesson)
    requires a.teacher == b.teacher && BothScheduled(a, b) && SameDay(a, b)
    ensures Matches(TeacherTimeEfficiency, a, b) ==> !Matches(TeacherConflict, a, b)
    ensures a.timeslot.value.id == b.timeslot.value.id + 1 ==> !Matches(TeacherTimeEfficiency, a, b)
    ensures Matches(TeacherTimeEfficiency, a, b) ==> a.timeslot.value.id != b.timeslot.value.id
  {
  }

  /** Room stability looks only at rooms: moving either lesson to another
      time slot (or unscheduling it) never changes whether it fires. Time
      efficiency, symmetrically, ignores rooms. */
  lemma RoomStabilityIgnoresTimeslots(a: Lesson, b: Lesson, ta: Option<Timeslot>, tb: Option<Timeslot>,
                                       ra: Option<Room>, rb: Option<Room>)
    ensures Matches(TeacherRoomStability, a.(timeslot := ta), b.(timeslot := tb))
            == Matches(TeacherRoomStability, a, b)
    ensures Matches(TeacherTimeEfficiency, a.(room := ra), b.(room := rb))
            == Matches(TeacherTimeEfficiency, a, b)
    ensures a.teacher == b.teacher && a.room.Some? && b.room.Some? && a.room.value.id != b.room.value.id
            ==> Matches(TeacherRoomStability, a.(timeslot := None), b.(timeslot := None))
  {
  }

  /** The provider lists nine constraints, each once: three hard ones first,
      then six soft ones. */
  lemma ConstraintListShape()
    ensures |Constraints| == 9
    ensures forall i :: 0 <= i < |Constraints| ==> (Constraints[i].Level() == Hard <==> i < 3)
    ensures forall c: Constraint :: c in Constraints
    ensures forall i, j :: 0 <= i < j < |Constraints| ==> Constraints[i] != Constraints[j]
  {
    forall c: Constraint ensures c in Constraints {
      match c
      case RoomConflict => assert Constraints[0] == c;
      case TeacherConflict => assert Constraints[1] == c;
      case StudentGroupConflict => assert Constraints[2] == c;
      case SubjectDistributionAcrossDays => assert Constraints[3] == c;
      case DailyLessonLimit => assert Constraints[4] == c;
      case EncourageSubjectSpread => assert Constraints[5] == c;
      case AvoidConsecutiveSameSubject => assert Constraints[6] == c;
      case TeacherRoomStability => assert Constraints[7] == c;
      case TeacherTimeEfficiency => assert Constraints[8] == c;
    }
  }
}
