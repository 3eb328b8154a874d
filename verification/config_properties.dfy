/** What the configuration-driven generator promises about the slots it
    emits: each lesson fits before closing time and outside lunch, starts
    follow each other by one lesson plus one break (or resume at the end of
    lunch), and the week is laid out day after day with ids 1, 2, 3, ... */
module ConfigProperties {
  import opened Common
  import opened Config

  /** A slot as the day walk emits it: it starts at a valid time before the
      closing hour and outside lunch, lasts one lesson, and ends no later
      than the closing hour. */
  predicate SlotShape(c: SystemConfig, s: DaySlot) {
    Canonical(s.start) && s.start.hour < c.endHour && !InLunch(c, s.start)
    && s.end == LessonEnd(s.start, c.lessonDuration)
    && Minutes(s.end) == Minutes(s.start) + c.lessonDuration
    && Minutes(s.end) <= c.endHour * 60
  }

  /** Every slot of a day's walk has the slot shape, the periods count up
      from the first one, and no slot starts before the walk does. */
  lemma {:induction false} WalkFacts(c: SystemConfig, t: Clock, p: nat)
    requires Generable(c) && Canonical(t)
    ensures forall k :: 0 <= k < |DayWalk(c, t, p)| ==>
      SlotShape(c, DayWalk(c, t, p)[k]) && DayWalk(c, t, p)[k].period == p + k
      && Minutes(DayWalk(c, t, p)[k].start) >= Minutes(t)
    decreases c.endHour * 60 - Minutes(t)
  {
    var w := DayWalk(c, t, p);
    if t.hour >= c.endHour {
    } else if InLunch(c, t) {
      WalkFacts(c, c.lunchBreakEnd, p);
    } else {
      var e := LessonEnd(t, c.lessonDuration);
      if !Overruns(e, c.endHour) {
        var n := NextStart(t, c.lessonDuration + c.breakDuration);
        var rest := DayWalk(c, n, p + 1);
        WalkFacts(c, n, p + 1);
        assert w == [DaySlot(t, e, p)] + rest;
        forall k | 0 <= k < |w|
          ensures SlotShape(c, w[k]) && w[k].period == p + k && Minutes(w[k].start) >= Minutes(t)
        {
          if k > 0 {
            assert w[k] == rest[k - 1];
          }
        }
      }
    }
  }

  /** Where the walk continues from a candidate start: a start inside the
      lunch window moves to the end of lunch. */
  function Resume(c: SystemConfig, t: Clock): (r: Clock)
    ensures Minutes(r) >= Minutes(t)
    ensures !InLunch(c, r)
  {
    if InLunch(c, t) then c.lunchBreakEnd else t
  }

  /** A non-empty walk's first slot starts at the resumed start. */
  lemma WalkHead(c: SystemConfig, t: Clock, p: nat)
    requires Generable(c) && Canonical(t) && |DayWalk(c, t, p)| > 0
    ensures DayWalk(c, t, p)[0].start == Resume(c, t)
  {
    if InLunch(c, t) {
      assert DayWalk(c, t, p) == DayWalk(c, c.lunchBreakEnd, p);
    }
  }

  /** Each slot after the first starts one lesson plus one break after the
      previous one's start, moved to the end of lunch when that falls inside
      the lunch window. */
  lemma {:induction false} WalkSuccession(c: SystemConfig, t: Clock, p: nat)
    requires Generable(c) && Canonical(t)
    ensures forall k :: 0 <= k < |DayWalk(c, t, p)| - 1 ==>
      DayWalk(c, t, p)[k + 1].start
      == Resume(c, NextStart(DayWalk(c, t, p)[k].start, c.lessonDuration + c.breakDuration))
    decreases c.endHour * 60 - Minutes(t)
  {
    var w := DayWalk(c, t, p);
    WalkFacts(c, t, p);
    if t.hour >= c.endHour {
    } else if InLunch(c, t) {
      WalkSuccession(c, c.lunchBreakEnd, p);
    } else {
      var e := LessonEnd(t, c.lessonDuration);
      if !Overruns(e, c.endHour) {
        var n := NextStart(t, c.lessonDuration + c.breakDuration);
        var rest := DayWalk(c, n, p + 1);
        WalkSuccession(c, n, p + 1);
        assert w == [DaySlot(t, e, p)] + rest;
        if |rest| > 0 {
          WalkHead(c, n, p + 1);
        }
        forall k | 0 <= k < |w| - 1
          ensures w[k + 1].start == Resume(c, NextStart(w[k].start, c.lessonDuration + c.breakDuration))
        {
          if k > 0 {
            assert w[k] == rest[k - 1] && w[k + 1] == rest[k];
          }
        }
      }
    }
  }

  /** Within a day, starts strictly increase and, when breaks are not
      negative, each lesson ends no later than the next one starts. */
  lemma DayOrdered(c: SystemConfig, j: nat, k: nat)
    requires Generable(c) && j < k < |Daily(c)|
    ensures Minutes(Daily(c)[j].start) < Minutes(Daily(c)[k].start)
    ensures c.breakDuration >= 0 ==> Minutes(Daily(c)[j].end) <= Minutes(Daily(c)[k].start)
    decreases k - j
  {
    var w := Daily(c);
    WalkFacts(c, Clock(c.startHour, 0), 1);
    WalkSuccession(c, Clock(c.startHour, 0), 1);
    assert w[j + 1].start == Resume(c, NextStart(w[j].start, c.lessonDuration + c.breakDuration));
    if j + 1 < k {
      DayOrdered(c, j + 1, k);
    }
  }

  /** The day's walk labelled: slot k of the labelled day carries id
      firstId + k and the k-th walked times. */
  lemma {:induction false} LabelAt(w: seq<DaySlot>, day: string, firstId: int, duration: int, k: nat)
    requires k < |w|
    ensures Label(w, day, firstId, duration)[k]
            == SlotSpec(firstId + k, day, w[k].start, w[k].end, PeriodLabel(w[k].period), duration)
  {
    if k > 0 {
      LabelAt(w[1..], day, firstId + 1, duration, k - 1);
    }
  }

  /** Slot j of day e (n being the slots per day) sits at position
      e * n + j of the week and carries id e * n + j + 1. */
  predicate PlacedAt(week: seq<SlotSpec>, w: seq<DaySlot>, duration: int, e: nat, j: nat)
    requires e < |Weekdays| && j < |w|
  {
    var k := e * |w| + j;
    k < |week| && week[k] == SlotSpec(k + 1, Weekdays[e], w[j].start, w[j].end, PeriodLabel(w[j].period), duration)
  }

  /** In the first d days, every slot j of every day e < d is placed so. */
  lemma {:induction false} WeekAt(w: seq<DaySlot>, d: nat, duration: int, e: nat, j: nat)
    requires e < d <= |Weekdays| && j < |w|
    ensures PlacedAt(WeekOf(w, d, duration), w, duration, e, j)
  {
    if e < d - 1 {
      WeekAt(w, d - 1, duration, e, j);
      WeekAtEarlier(w, d, duration, e, j);
    } else {
      WeekAtLast(w, d, duration, j);
    }
  }

  /** A slot of an earlier day keeps its position when a day is added. */
  lemma WeekAtEarlier(w: seq<DaySlot>, d: nat, duration: int, e: nat, j: nat)
    requires 0 < d <= |Weekdays| && e < d - 1 && j < |w|
    requires PlacedAt(WeekOf(w, d - 1, duration), w, duration, e, j)
    ensures PlacedAt(WeekOf(w, d, duration), w, duration, e, j)
  {
    var n := |w|;
    var before := WeekOf(w, d - 1, duration);
    var day := Label(w, Weekdays[d - 1], (d - 1) * n + 1, duration);
    assert WeekOf(w, d, duration) == before + day;
    ConcatLeft(before, day, e * n + j);
  }

  /** Slot j of the last day added sits right after the earlier days. */
  lemma WeekAtLast(w: seq<DaySlot>, d: nat, duration: int, j: nat)
    requires 0 < d <= |Weekdays| && j < |w|
    ensures PlacedAt(WeekOf(w, d, duration), w, duration, d - 1, j)
  {
    var n := |w|;
    var before := WeekOf(w, d - 1, duration);
    var day := Label(w, Weekdays[d - 1], (d - 1) * n + 1, duration);
    assert WeekOf(w, d, duration) == before + day;
    LabelAt(w, Weekdays[d - 1], (d - 1) * n + 1, duration, j);
    ConcatRight(before, day, (d - 1) * n, j);
  }

  lemma ConcatLeft<T>(a: seq<T>, b: seq<T>, i: nat)
    requires i < |a|
    ensures (a + b)[i] == a[i]
  {
  }

  lemma ConcatRight<T>(a: seq<T>, b: seq<T>, offset: nat, j: nat)
    requires offset == |a| && j < |b|
    ensures (a + b)[offset + j] == b[j]
  {
  }

  /** The generated week: five copies of the same day walk, day e holding
      positions e * n .. e * n + n - 1 with ids counting from 1 across the
      week, period names "1限", "2限", ... within each day, and every slot
      fitting the opening hours and avoiding lunch. */
  lemma TimeslotLayout(c: SystemConfig, e: nat, j: nat)
    requires Generable(c) && e < |Weekdays| && j < |Daily(c)|
    ensures |Timeslots(c)| == |Weekdays| * |Daily(c)|
    ensures e * |Daily(c)| + j < |Timeslots(c)|
    ensures var n := |Daily(c)|;
      var s := Timeslots(c)[e * n + j];
      s.id == e * n + j + 1
      && s.dayOfWeek == Weekdays[e]
      && s.periodName == PeriodLabel(j + 1)
      && s.durationMinutes == c.lessonDuration
      && s.startTime == Daily(c)[j].start && s.endTime == Daily(c)[j].end
      && SlotShape(c, Daily(c)[j])
  {
    WeekAt(Daily(c), |Weekdays|, c.lessonDuration, e, j);
    WalkFacts(c, Clock(c.startHour, 0), 1);
  }

  /** The week's ids are 1, 2, 3, ... in list order. */
  lemma {:induction false} WeekIds(w: seq<DaySlot>, d: nat, duration: int)
    requires d <= |Weekdays|
    ensures forall k :: 0 <= k < |WeekOf(w, d, duration)| ==> WeekOf(w, d, duration)[k].id == k + 1
  {
    if d > 0 {
      var before: seq<SlotSpec> := WeekOf(w, d - 1, duration);
      var day: seq<SlotSpec> := Label(w, Weekdays[d - 1], (d - 1) * |w| + 1, duration);
      WeekIds(w, d - 1, duration);
      assert WeekOf(w, d, duration) == before + day;
      forall k | 0 <= k < |before + day|
        ensures (before + day)[k].id == k + 1
      {
        if k >= |before| {
          LabelAt(w, Weekdays[d - 1], (d - 1) * |w| + 1, duration, k - |before|);
        }
      }
    }
  }

  // ---------------------------------------------------------------------
  // The day loop as written, and a step that does not advance

  /** With a positive step the day walk takes exactly the loop's turns. */
  lemma WalkFollowsLoop(c: SystemConfig, t: Clock, p: nat)
    requires Generable(c) && Canonical(t)
    ensures LoopTurn(c, t).Exit? ==> DayWalk(c, t, p) == []
    ensures LoopTurn(c, t).Jump? ==> DayWalk(c, t, p) == DayWalk(c, LoopTurn(c, t).to, p)
    ensures LoopTurn(c, t).Emit? ==>
      var n := LoopTurn(c, t).next;
      Canonical(n) && DayWalk(c, t, p) == [DaySlot(t, LoopTurn(c, t).end, p)] + DayWalk(c, n, p + 1)
  {
  }

  /** With lesson plus break at most zero, a lesson emitted from t leaves
      the loop at t or earlier; at exactly zero the loop is back at t and
      takes the same turn again, for ever. */
  lemma StalledLoop(c: SystemConfig, t: Clock)
    requires c.lessonDuration + c.breakDuration <= 0 && LoopTurn(c, t).Emit?
    ensures Minutes(LoopTurn(c, t).next) <= Minutes(t)
    ensures c.lessonDuration + c.breakDuration == 0 && Canonical(t) ==>
      LoopTurn(c, t).next == t && LoopTurn(c, LoopTurn(c, t).next) == LoopTurn(c, t)
  {
  }

  /** The default configuration with lesson and break set to zero: the
      first pass of every day emits a 09:00 lesson and comes back to 09:00,
      so generation never ends; such a configuration is not generable. */
  lemma ZeroStepHangs()
    ensures var c := DefaultConfig.(lessonDuration := 0, breakDuration := 0);
      !Generable(c)
      && LoopTurn(c, Clock(c.startHour, 0)) == Emit(Clock(9, 0), Clock(9, 0))
  {
  }
}
