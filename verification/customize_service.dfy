/** The customisation service: adding subjects and teachers under a fresh
    id, deleting them with a status answer, updating the configuration and
    regenerating the repository's time slots from it, previewing the slots
    of a tentative configuration, and the statistics page's counters. */
module CustomizeService {
  import opened Common
  import opened DataModels
  import Config
  import Database
  import DatabaseProperties

  /** The service's `{"status": …, "message": …}` answer; a successful
      addition also carries the saved record's dictionary. */
  datatype Reply = Success(message: string, record: Option<Dict>) | Failure(message: string)

  // ---------------------------------------------------------------------
  // Id allocation and additions

  /** `max(ids)` of a non-empty list. */
  function MaxId<T>(xs: seq<T>, idOf: T -> int): (m: int)
    requires |xs| > 0
    ensures forall k :: 0 <= k < |xs| ==> idOf(xs[k]) <= m
    ensures exists k :: 0 <= k < |xs| && idOf(xs[k]) == m
  {
    if |xs| == 1 then idOf(xs[0])
    else
      var rest := MaxId(xs[1..], idOf);
      assert forall k :: 1 <= k < |xs| ==> xs[k] == xs[1..][k - 1];
      if idOf(xs[0]) >= rest then idOf(xs[0])
      else
        var k :| 0 <= k < |xs[1..]| && idOf(xs[1..][k]) == rest;
        assert idOf(xs[k + 1]) == rest;
        rest
  }

  /** `max([x.id for x in xs], default=0) + 1`: larger than every id in the
      list, one more than the largest, 1 for an empty list. */
  function NextId<T>(xs: seq<T>, idOf: T -> int): (r: int)
    ensures forall k :: 0 <= k < |xs| ==> idOf(xs[k]) < r
    ensures |xs| == 0 ==> r == 1
    ensures |xs| > 0 ==> exists k :: 0 <= k < |xs| && idOf(xs[k]) == r - 1
  {
    if |xs| == 0 then 1 else MaxId(xs, idOf) + 1
  }

  /** The outcome of an addition: the new list and the record added, if
      any. */
  datatype Added<T> = Added(records: seq<T>, added: Option<T>)

  /** Sets the fresh id in the submitted data, builds the record from it
      and saves it; when the record cannot be built nothing changes. */
  function AddCustom<T>(xs: seq<T>, data: Dict, now: string, build: (Dict, string) -> Option<T>,
                        idOf: T -> int): (r: Added<T>)
    requires forall d, n :: build(d, n).Some? ==> "id" in d && d["id"] == VInt(idOf(build(d, n).value))
    ensures r.added == build(data["id" := VInt(NextId(xs, idOf))], now)
    ensures r.added.None? ==> r.records == xs
    ensures r.added.Some? ==> idOf(r.added.value) == NextId(xs, idOf) && r.records == xs + [r.added.value]
  {
    var id := NextId(xs, idOf);
    match build(data["id" := VInt(id)], now)
    case None => Added(xs, None)
    case Some(x) =>
      assert idOf(x) == id;
      Added(Database.Upsert(xs, x, idOf), Some(x))
  }

  /** `add_custom_subject`. */
  function AddCustomSubject(subjects: seq<Subject>, data: Dict, now: string): (r: (seq<Subject>, Reply))
    ensures r.1.Success? <==> SubjectFromDict(data["id" := VInt(NextId(subjects, Database.SubjectId))], now).Some?
    ensures r.1.Failure? ==> r.0 == subjects
    ensures r.1.Success? ==> |r.0| == |subjects| + 1 && r.0[..|subjects|] == subjects
                             && r.0[|subjects|].id == NextId(subjects, Database.SubjectId)
                             && r.1.record == Some(SubjectToDict(r.0[|subjects|]))
  {
    var o := AddCustom(subjects, data, now, SubjectFromDict, Database.SubjectId);
    match o.added
    case None => (subjects, Failure("科目追加エラー"))
    case Some(s) =>
      assert o.records[..|subjects|] == subjects;
      (o.records, Success("科目 '" + s.name + "' が追加されました", Some(SubjectToDict(s))))
  }

  /** `add_custom_teacher`. */
  function AddCustomTeacher(teachers: seq<Teacher>, data: Dict, now: string): (r: (seq<Teacher>, Reply))
    ensures r.1.Success? <==> TeacherFromDict(data["id" := VInt(NextId(teachers, Database.TeacherId))], now).Some?
    ensures r.1.Failure? ==> r.0 == teachers
    ensures r.1.Success? ==> |r.0| == |teachers| + 1 && r.0[..|teachers|] == teachers
                             && r.0[|teachers|].id == NextId(teachers, Database.TeacherId)
                             && r.1.record == Some(TeacherToDict(r.0[|teachers|]))
  {
    var o := AddCustom(teachers, data, now, TeacherFromDict, Database.TeacherId);
    match o.added
    case None => (teachers, Failure("教師追加エラー"))
    case Some(t) =>
      assert o.records[..|teachers|] == teachers;
      (o.records, Success("教師 '" + t.name + "' が追加されました", Some(TeacherToDict(t))))
  }

  /** A record appended under an id larger than every other is found under
      it, leaves every other id's lookup alone, and deleting it restores
      the list. */
  lemma AppendedFresh<T>(xs: seq<T>, x: T, idOf: T -> int, other: int)
    requires forall k :: 0 <= k < |xs| ==> idOf(xs[k]) < idOf(x)
    requires other != idOf(x)
    ensures Database.FindById(xs + [x], idOf(x), idOf) == Some(x)
    ensures Database.FindById(xs + [x], other, idOf) == Database.FindById(xs, other, idOf)
    ensures Database.Delete(xs + [x], idOf(x), idOf) == (xs, true)
  {
    DatabaseProperties.IndexOfIsFirst(xs + [x], idOf(x), idOf, |xs|);
    assert Database.Upsert(xs, x, idOf) == xs + [x];
    DatabaseProperties.SaveKeepsOthers(xs, x, idOf, other);
    AppendedDeleted(xs, x, idOf);
  }

  lemma AppendedDeleted<T>(xs: seq<T>, x: T, idOf: T -> int)
    requires forall k :: 0 <= k < |xs| ==> idOf(xs[k]) < idOf(x)
    ensures Database.Delete(xs + [x], idOf(x), idOf) == (xs, true)
  {
    var id := idOf(x);
    DatabaseProperties.RemoveOfConcat(xs, [x], id, idOf);
    DatabaseProperties.RemoveAbsent(xs, id, idOf);
    assert Database.Remove([x], id, idOf) == [];
    assert Database.Remove(xs + [x], id, idOf) == xs;
    assert (xs + [x])[|xs|] == x;
    assert Database.Delete(xs + [x], id, idOf).1;
  }

  /** Adding a subject and then deleting its new id gives back the list,
      with the success answer; in between the new subject is found under
      its id and every other id finds what it found before. */
  lemma AddSubjectThenDelete(subjects: seq<Subject>, data: Dict, now: string, other: int)
    requires AddCustomSubject(subjects, data, now).1.Success?
    requires other != NextId(subjects, Database.SubjectId)
    ensures var r := AddCustomSubject(subjects, data, now);
      var s := r.0[|subjects|];
      Database.FindById(r.0, s.id, Database.SubjectId) == Some(s)
      && Database.FindById(r.0, other, Database.SubjectId) == Database.FindById(subjects, other, Database.SubjectId)
      && DeleteSubject(r.0, s.id) == (subjects, Success("科目が削除されました", None))
  {
    var r := AddCustomSubject(subjects, data, now);
    var s := r.0[|subjects|];
    assert r.0 == subjects + [s];
    AppendedFresh(subjects, s, Database.SubjectId, other);
  }

  /** The same for a teacher. */
  lemma AddTeacherThenDelete(teachers: seq<Teacher>, data: Dict, now: string, other: int)
    requires AddCustomTeacher(teachers, data, now).1.Success?
    requires other != NextId(teachers, Database.TeacherId)
    ensures var r := AddCustomTeacher(teachers, data, now);
      var t := r.0[|teachers|];
      Database.FindById(r.0, t.id, Database.TeacherId) == Some(t)
      && Database.FindById(r.0, other, Database.TeacherId) == Database.FindById(teachers, other, Database.TeacherId)
      && DeleteTeacher(r.0, t.id) == (teachers, Success("教師が削除されました", None))
  {
    var r := AddCustomTeacher(teachers, data, now);
    var t := r.0[|teachers|];
    assert r.0 == teachers + [t];
    AppendedFresh(teachers, t, Database.TeacherId, other);
  }

  // ---------------------------------------------------------------------
  // Deletions

  /** A repository deletion turned into the service's answer. */
  function DeleteReply<T>(xs: seq<T>, id: int, idOf: T -> int, done: string, missing: string): (r: (seq<T>, Reply))
    ensures r.0 == Database.Remove(xs, id, idOf)
    ensures r.1.Success? <==> exists k :: 0 <= k < |xs| && idOf(xs[k]) == id
    ensures r.1 == Success(done, None) || r.1 == Failure(missing)
  {
    var (kept, deleted) := Database.Delete(xs, id, idOf);
    (kept, if deleted then Success(done, None) else Failure(missing))
  }

  /** `delete_subject`: "success" exactly when a subject had the id. */
  function DeleteSubject(subjects: seq<Subject>, id: int): (r: (seq<Subject>, Reply))
    ensures r.0 == Database.Remove(subjects, id, Database.SubjectId)
    ensures r.1.Success? <==> exists k :: 0 <= k < |subjects| && subjects[k].id == id
    ensures r.1.Failure? ==> r.1.message == "指定された科目が見つかりません"
  {
    DeleteReply(subjects, id, Database.SubjectId, "科目が削除されました", "指定された科目が見つかりません")
  }

  /** `delete_teacher`: "success" exactly when a teacher had the id. */
  function DeleteTeacher(teachers: seq<Teacher>, id: int): (r: (seq<Teacher>, Reply))
    ensures r.0 == Database.Remove(teachers, id, Database.TeacherId)
    ensures r.1.Success? <==> exists k :: 0 <= k < |teachers| && teachers[k].id == id
    ensures r.1.Failure? ==> r.1.message == "指定された教師が見つかりません"
  {
    DeleteReply(teachers, id, Database.TeacherId, "教師が削除されました", "指定された教師が見つかりません")
  }

  // ---------------------------------------------------------------------
  // Configuration update and time-slot regeneration

  /** The submitted entries whose key is a configuration field; the others
      are dropped. */
  function Known(data: Dict): (k: Dict)
    ensures k.Keys <= Config.ConfigFields
    ensures forall key :: key in data && key in Config.ConfigFields ==> key in k && k[key] == data[key]
  {
    map key | key in data && key in Config.ConfigFields :: data[key]
  }

  /** The configuration with the known submitted entries written over it. */
  function Merged(cfg: Config.SystemConfig, data: Dict): Option<Config.SystemConfig> {
    Config.FromDict(Config.ToDict(cfg) + Known(data))
  }

  /** `_regenerate_timeslots`: every generated slot dictionary is turned
      into a record with `TimeSlot(**ts_data)`; if one of them failed, the
      repository's slots would be kept. */
  function Regenerate(cfg: Config.SystemConfig, current: seq<TimeSlot>, now: string): seq<TimeSlot>
    requires Config.Generable(cfg)
  {
    match ToRecords(Config.Timeslots(cfg), now)
    case None => current
    case Some(ts) => ts
  }

  /** Builds a record from each slot dictionary, failing if any fails. */
  function ToRecords(specs: seq<Config.SlotSpec>, now: string): (r: Option<seq<TimeSlot>>)
    ensures r.Some? <==> forall k :: 0 <= k < |specs| ==> TimeSlotFromDict(specs[k].ToDict(), now).Some?
    ensures r.Some? ==> |r.value| == |specs|
                        && forall k :: 0 <= k < |specs| ==> TimeSlotFromDict(specs[k].ToDict(), now) == Some(r.value[k])
  {
    if |specs| == 0 then Some([])
    else
      match TimeSlotFromDict(specs[0].ToDict(), now)
      case None => None
      case Some(t) =>
        match ToRecords(specs[1..], now)
        case None =>
          assert exists k :: 0 <= k < |specs[1..]| && TimeSlotFromDict(specs[1..][k].ToDict(), now).None?;
          None
        case Some(rest) => Some([t] + rest)
  }

  /** `update_config`: unknown keys are ignored, known ones overwrite the
      configuration, and the repository's slots are regenerated from the
      result. A value of the wrong type is refused and nothing changes; so
      is a configuration whose slots cannot be generated, where the source
      would loop for ever. */
  function UpdateConfig(cfg: Config.SystemConfig, timeslots: seq<TimeSlot>, data: Dict, now: string)
    : (r: (Config.SystemConfig, seq<TimeSlot>, Reply))
    ensures r.2.Success? <==> Merged(cfg, data).Some? && Config.Generable(Merged(cfg, data).value)
    ensures r.2.Failure? ==> r.0 == cfg && r.1 == timeslots
    ensures r.2.Success? ==> Config.ToDict(r.0) == Config.ToDict(cfg) + Known(data)
    ensures r.2.Success? ==> Config.Generable(r.0) && r.1 == Database.Records(Config.Timeslots(r.0), now)
  {
    var m := Config.ToDict(cfg) + Known(data);
    match Config.FromDict(m)
    case None => (cfg, timeslots, Failure("設定更新エラー"))
    case Some(c) =>
      if !Config.Generable(c) then (cfg, timeslots, Failure("設定更新エラー"))
      else
        Config.ToDictOfFromDict(m);
        RegenerateMatchesRepository(c, timeslots, now);
        (c, Regenerate(c, timeslots, now), Success("設定が更新されました", None))
  }

  /** A generated slot dictionary builds exactly the record the repository
      stores for it. */
  lemma SpecToRecord(spec: Config.SlotSpec, now: string)
    ensures TimeSlotFromDict(spec.ToDict(), now) == Some(Database.Record(spec, now))
  {
  }

  /** Regeneration never falls back: the repository ends up with the
      records of the configuration's slots. */
  lemma RegenerateMatchesRepository(cfg: Config.SystemConfig, current: seq<TimeSlot>, now: string)
    requires Config.Generable(cfg)
    ensures Regenerate(cfg, current, now) == Database.Records(Config.Timeslots(cfg), now)
  {
    var specs := Config.Timeslots(cfg);
    forall k | 0 <= k < |specs|
      ensures TimeSlotFromDict(specs[k].ToDict(), now) == Some(Database.Record(specs[k], now))
    {
      SpecToRecord(specs[k], now);
    }
  }

  /** Entries under unknown keys change nothing: with only such entries the
      configuration and the slots are regenerated unchanged. */
  lemma UpdateIgnoresUnknown(cfg: Config.SystemConfig, timeslots: seq<TimeSlot>, data: Dict, now: string)
    requires Config.Generable(cfg)
    requires forall key :: key in data ==> key !in Config.ConfigFields
    ensures Merged(cfg, data) == Some(cfg)
    ensures UpdateConfig(cfg, timeslots, data, now).2.Success?
    ensures UpdateConfig(cfg, timeslots, data, now).0 == cfg
  {
    assert Known(data) == map[];
    assert Config.ToDict(cfg) + Known(data) == Config.ToDict(cfg);
    Config.DictRoundTrip(cfg);
  }

  /** Adding an entry under an unknown key to the submitted data does not
      change the update. */
  lemma UpdateUnknownKeyIrrelevant(cfg: Config.SystemConfig, timeslots: seq<TimeSlot>, data: Dict,
                                   key: string, v: Value, now: string)
    requires key !in Config.ConfigFields
    ensures Known(data[key := v]) == Known(data)
    ensures UpdateConfig(cfg, timeslots, data[key := v], now) == UpdateConfig(cfg, timeslots, data, now)
  {
    assert Known(data[key := v]) == Known(data);
  }

  /** Submitting the same update again changes nothing: the configuration
      already holds the submitted values and the slots are regenerated as
      they are. */
  lemma UpdateIdempotent(cfg: Config.SystemConfig, timeslots: seq<TimeSlot>, data: Dict, now: string)
    requires UpdateConfig(cfg, timeslots, data, now).2.Success?
    ensures var r := UpdateConfig(cfg, timeslots, data, now);
      Merged(r.0, data) == Some(r.0) && UpdateConfig(r.0, r.1, data, now) == r
  {
    var r := UpdateConfig(cfg, timeslots, data, now);
    var c := r.0;
    var k := Known(data);
    assert Config.ToDict(c) + k == Config.ToDict(c) by {
      assert Config.ToDict(c) == Config.ToDict(cfg) + k;
      DoubleOverlay(Config.ToDict(cfg), k);
    }
    Config.DictRoundTrip(c);
    RegenerateMatchesRepository(c, r.1, now);
  }

  /** The submitted entries setting lesson and break to zero. */
  const ZeroStep: Dict := map["lesson_duration" := VInt(0), "break_duration" := VInt(0)]

  /** Both entries are fields, and whatever the overlay builds has a zero
      step, so it is not generable. */
  lemma ZeroStepMerged(cfg: Config.SystemConfig)
    ensures Merged(cfg, ZeroStep).Some? ==> !Config.Generable(Merged(cfg, ZeroStep).value)
  {
    KnownZeroStep();
    var m := Config.ToDict(cfg) + ZeroStep;
    assert m["lesson_duration"] == VInt(0) && m["break_duration"] == VInt(0);
    if Config.FromDict(m).Some? {
      var c := Config.FromDict(m).value;
      Config.ToDictOfFromDict(m);
      ZeroStepFields(c, m);
    }
  }

  lemma KnownZeroStep()
    ensures Known(ZeroStep) == ZeroStep
  {
  }

  /** A configuration whose dictionary sets lesson and break to zero. */
  lemma ZeroStepFields(c: Config.SystemConfig, m: Dict)
    requires Config.ToDict(c) == m
    requires "lesson_duration" in m && m["lesson_duration"] == VInt(0)
    requires "break_duration" in m && m["break_duration"] == VInt(0)
    ensures c.lessonDuration == 0 && c.breakDuration == 0
  {
    assert Config.ToDict(c)["lesson_duration"] == VInt(c.lessonDuration);
    assert Config.ToDict(c)["break_duration"] == VInt(c.breakDuration);
  }

  /** Setting lesson and break to zero is refused: the update answers the
      error and changes nothing, and the preview shows no slots, where the
      source's generator would never return. */
  lemma ZeroStepRefused(cfg: Config.SystemConfig, timeslots: seq<TimeSlot>, now: string)
    ensures var r := UpdateConfig(cfg, timeslots, ZeroStep, now);
      r.2 == Failure("設定更新エラー") && r.0 == cfg && r.1 == timeslots
    ensures PreviewTimeslots(cfg, ZeroStep) == []
  {
    KnownZeroStep();
    ZeroStepMerged(cfg);
  }

  lemma DoubleOverlay(a: Dict, k: Dict)
    ensures (a + k) + k == a + k
  {
  }

  // ---------------------------------------------------------------------
  // Preview

  /** `preview_timeslots`: the slots of the stored configuration overlaid
      with the temporary entries, or none when that configuration cannot
      be built or its slots cannot be generated. The stored configuration
      is a parameter and is not changed. */
  function PreviewTimeslots(cfg: Config.SystemConfig, temp: Dict): (r: seq<Config.SlotSpec>)
    ensures Config.FromDict(Config.ToDict(cfg) + temp).None? ==> r == []
    ensures (Config.FromDict(Config.ToDict(cfg) + temp).Some?
             && !Config.Generable(Config.FromDict(Config.ToDict(cfg) + temp).value)) ==> r == []
  {
    match Config.FromDict(Config.ToDict(cfg) + temp)
    case None => []
    case Some(c) => if Config.Generable(c) then Config.Timeslots(c) else []
  }

  /** The temporary entries win: the previewed slots are those of a
      configuration whose dictionary is the stored one overwritten by
      them. */
  lemma PreviewOverlay(cfg: Config.SystemConfig, temp: Dict)
    requires Config.FromDict(Config.ToDict(cfg) + temp).Some?
    requires Config.Generable(Config.FromDict(Config.ToDict(cfg) + temp).value)
    ensures var c := Config.FromDict(Config.ToDict(cfg) + temp).value;
      Config.ToDict(c) == Config.ToDict(cfg) + temp && PreviewTimeslots(cfg, temp) == Config.Timeslots(c)
  {
    Config.ToDictOfFromDict(Config.ToDict(cfg) + temp);
  }

  /** Without temporary entries the preview is the stored configuration's
      slots. */
  lemma PreviewUnchanged(cfg: Config.SystemConfig)
    requires Config.Generable(cfg)
    ensures Config.FromDict(Config.ToDict(cfg) + map[]) == Some(cfg)
    ensures PreviewTimeslots(cfg, map[]) == Config.Timeslots(cfg)
  {
    assert Config.ToDict(cfg) + map[] == Config.ToDict(cfg);
    Config.DictRoundTrip(cfg);
  }

  /** Unlike an update, a preview with an unknown key fails and shows no
      slots. */
  lemma PreviewRejectsUnknown(cfg: Config.SystemConfig, temp: Dict, key: string)
    requires key in temp && key !in Config.ConfigFields
    ensures PreviewTimeslots(cfg, temp) == []
  {
  }

  // ---------------------------------------------------------------------
  // Statistics

  /** `len(timeslots) // 5 if len(timeslots) > 0 else 0`: the whole number
      of five-day weeks. */
  function DailyTimeslots(n: nat): (d: nat)
    ensures 5 * d <= n < 5 * d + 5
  {
    if n > 0 then n / 5 else 0
  }

  /** Every weekday gets the same slots, so the statistic is the number of
      slots per day, for generated and for regenerated slots alike. */
  lemma DailyTimeslotsPerDay(cfg: Config.SystemConfig, now: string)
    requires Config.Generable(cfg)
    ensures DailyTimeslots(|Config.Timeslots(cfg)|) == |Config.Daily(cfg)|
    ensures DailyTimeslots(|Database.Records(Config.Timeslots(cfg), now)|) == |Config.Daily(cfg)|
  {
    var n := |Config.Daily(cfg)|;
    assert |Config.Timeslots(cfg)| == 5 * n;
    assert 5 * DailyTimeslots(5 * n) <= 5 * n < 5 * DailyTimeslots(5 * n) + 5;
  }

  /** A counter dictionary in insertion order: (key, count) entries. */
  type Counts = seq<(string, nat)>

  function KeyIndex(es: Counts, key: string): (r: Option<nat>)
    ensures r.Some? ==> r.value < |es| && es[r.value].0 == key
    ensures r.None? ==> forall i :: 0 <= i < |es| ==> es[i].0 != key
  {
    if |es| == 0 then None
    else if es[0].0 == key then Some(0)
    else match KeyIndex(es[1..], key)
      case None => None
      case Some(i) => Some(i + 1)
  }

  /** `counts[key] = counts.get(key, 0) + 1`. */
  function Bump(es: Counts, key: string): Counts {
    match KeyIndex(es, key)
    case Some(i) => es[i := (key, es[i].1 + 1)]
    case None => es + [(key, 1)]
  }

  /** The counter after counting every key in order. */
  function Tally(keys: seq<string>): Counts {
    if |keys| == 0 then [] else Bump(Tally(keys[..|keys| - 1]), keys[|keys| - 1])
  }

  /** The sum of the counts. */
  function Total(es: Counts): nat {
    if |es| == 0 then 0 else Total(es[..|es| - 1]) + es[|es| - 1].1
  }

  /** No key has two entries. */
  predicate DistinctKeys(es: Counts) {
    forall i, j :: 0 <= i < j < |es| ==> es[i].0 != es[j].0
  }

  /** Every entry holds its key's number of occurrences, which is at least
      1 (so the key occurs). */
  predicate Exact(es: Counts, keys: seq<string>) {
    forall i :: 0 <= i < |es| ==> es[i].1 == multiset(keys)[es[i].0] && es[i].1 >= 1
  }

  /** Every key has an entry. */
  predicate Covers(es: Counts, keys: seq<string>) {
    forall j :: 0 <= j < |keys| ==> KeyIndex(es, keys[j]).Some?
  }

  /** What a counter of `keys` is: one entry per distinct key, each holding
      that key's number of occurrences, the counts adding up to the number
      of keys. */
  predicate CountsOf(es: Counts, keys: seq<string>) {
    DistinctKeys(es) && Exact(es, keys) && Covers(es, keys) && Total(es) == |keys|
  }

  lemma {:induction false} TotalSnoc(es: Counts, e: (string, nat))
    ensures Total(es + [e]) == Total(es) + e.1
  {
    assert (es + [e])[..|es|] == es;
  }

  lemma {:induction false} TotalUpdate(es: Counts, i: nat, e: (string, nat))
    requires i < |es|
    ensures Total(es[i := e]) + es[i].1 == Total(es) + e.1
    decreases |es|
  {
    var last := |es| - 1;
    if i < last {
      assert es[i := e][..last] == es[..last][i := e];
      TotalUpdate(es[..last], i, e);
    } else {
      assert es[i := e][..last] == es[..last];
    }
  }

  /** Counting one more key keeps the counter exact. */
  lemma BumpKeeps(es: Counts, keys: seq<string>, key: string)
    requires CountsOf(es, keys)
    ensures CountsOf(Bump(es, key), keys + [key])
  {
    match KeyIndex(es, key)
    case Some(i) =>
      var b := es[i := (key, es[i].1 + 1)];
      assert Bump(es, key) == b;
      HitDistinct(es, i, key);
      HitExact(es, keys, i, key);
      HitCovers(es, keys, i, key);
      TotalUpdate(es, i, (key, es[i].1 + 1));
      assert Total(b) == |keys| + 1;
    case None =>
      assert Bump(es, key) == es + [(key, 1)];
      MissDistinct(es, key);
      MissExact(es, keys, key);
      MissCovers(es, keys, key);
      TotalSnoc(es, (key, 1));
      assert Total(es + [(key, 1)]) == |keys| + 1;
  }

  lemma HitDistinct(es: Counts, i: nat, key: string)
    requires DistinctKeys(es) && i < |es| && es[i].0 == key
    ensures DistinctKeys(es[i := (key, es[i].1 + 1)])
  {
    var b := es[i := (key, es[i].1 + 1)];
    assert forall a :: 0 <= a < |b| ==> b[a].0 == es[a].0;
  }

  lemma HitExact(es: Counts, keys: seq<string>, i: nat, key: string)
    requires DistinctKeys(es) && Exact(es, keys) && i < |es| && es[i].0 == key
    ensures Exact(es[i := (key, es[i].1 + 1)], keys + [key])
  {
    var b := es[i := (key, es[i].1 + 1)];
    var m := multiset(keys + [key]);
    assert m == multiset(keys) + multiset{key};
    forall a | 0 <= a < |b|
      ensures b[a].1 == m[b[a].0] && b[a].1 >= 1
    {
      if a != i {
        assert b[a] == es[a];
        assert es[a].0 != key;
      }
    }
  }

  lemma HitCovers(es: Counts, keys: seq<string>, i: nat, key: string)
    requires Covers(es, keys) && i < |es| && es[i].0 == key
    ensures Covers(es[i := (key, es[i].1 + 1)], keys + [key])
  {
    var b := es[i := (key, es[i].1 + 1)];
    var ks := keys + [key];
    forall j | 0 <= j < |ks|
      ensures KeyIndex(b, ks[j]).Some?
    {
      if j < |keys| {
        assert ks[j] == keys[j];
        var p := KeyIndex(es, keys[j]).value;
        assert b[p].0 == keys[j];
      } else {
        assert b[i].0 == key;
      }
    }
  }

  lemma MissDistinct(es: Counts, key: string)
    requires DistinctKeys(es) && KeyIndex(es, key).None?
    ensures DistinctKeys(es + [(key, 1)])
  {
  }

  lemma MissExact(es: Counts, keys: seq<string>, key: string)
    requires Exact(es, keys) && Covers(es, keys) && KeyIndex(es, key).None?
    ensures Exact(es + [(key, 1)], keys + [key])
  {
    var b := es + [(key, 1)];
    var m := multiset(keys + [key]);
    assert m == multiset(keys) + multiset{key};
    forall j | 0 <= j < |keys|
      ensures keys[j] != key
    {
      assert KeyIndex(es, keys[j]).Some?;
    }
    assert key !in multiset(keys);
    forall a | 0 <= a < |b|
      ensures b[a].1 == m[b[a].0] && b[a].1 >= 1
    {
      if a < |es| {
        assert b[a] == es[a];
        assert es[a].0 != key;
      }
    }
  }

  lemma MissCovers(es: Counts, keys: seq<string>, key: string)
    requires Covers(es, keys)
    ensures Covers(es + [(key, 1)], keys + [key])
  {
    var b := es + [(key, 1)];
    var ks := keys + [key];
    forall j | 0 <= j < |ks|
      ensures KeyIndex(b, ks[j]).Some?
    {
      if j < |keys| {
        assert ks[j] == keys[j];
        var p := KeyIndex(es, keys[j]).value;
        assert b[p].0 == keys[j];
      } else {
        assert b[|es|].0 == key;
      }
    }
  }

  /** The counter of a key list counts it exactly. */
  lemma {:induction false} TallyCounts(keys: seq<string>)
    ensures CountsOf(Tally(keys), keys)
  {
    if |keys| > 0 {
      var init := keys[..|keys| - 1];
      TallyCounts(init);
      BumpKeeps(Tally(init), init, keys[|keys| - 1]);
      assert init + [keys[|keys| - 1]] == keys;
    }
  }

  /** The grouping loop of `_group_subjects_by_category` and
      `_group_teachers_by_type`. */
  method GroupCounts(keys: seq<string>) returns (counts: Counts)
    ensures counts == Tally(keys)
    ensures CountsOf(counts, keys)
  {
    counts := [];
    for i := 0 to |keys|
      invariant counts == Tally(keys[..i])
    {
      assert keys[..i + 1][..i] == keys[..i];
      var key := keys[i];
      match KeyIndex(counts, key) {
        case Some(j) => counts := counts[j := (key, counts[j].1 + 1)];
        case None => counts := counts + [(key, 1)];
      }
    }
    assert keys[..|keys|] == keys;
    TallyCounts(keys);
  }

  function Categories(subjects: seq<Subject>): (r: seq<string>)
    ensures |r| == |subjects| && forall k :: 0 <= k < |r| ==> r[k] == subjects[k].category
  {
    seq(|subjects|, k requires 0 <= k < |subjects| => subjects[k].category)
  }

  function EmploymentTypes(teachers: seq<Teacher>): (r: seq<string>)
    ensures |r| == |teachers| && forall k :: 0 <= k < |r| ==> r[k] == teachers[k].employmentType
  {
    seq(|teachers|, k requires 0 <= k < |teachers| => teachers[k].employmentType)
  }

  /** `get_customization_stats`. */
  datatype Stats = Stats(totalSubjects: nat, totalTeachers: nat, totalTimeslots: nat, dailyTimeslots: nat,
                         config: Dict, subjectsByCategory: Counts, teachersByType: Counts)

  method CustomizationStats(subjects: seq<Subject>, teachers: seq<Teacher>, timeslots: seq<TimeSlot>,
                            cfg: Config.SystemConfig) returns (s: Stats)
    ensures s.totalSubjects == |subjects| && s.totalTeachers == |teachers| && s.totalTimeslots == |timeslots|
    ensures s.dailyTimeslots == DailyTimeslots(|timeslots|) && s.config == Config.ToDict(cfg)
    ensures CountsOf(s.subjectsByCategory, Categories(subjects))
    ensures CountsOf(s.teachersByType, EmploymentTypes(teachers))
    ensures Total(s.subjectsByCategory) == |subjects| && Total(s.teachersByType) == |teachers|
  {
    var byCategory := GroupCounts(Categories(subjects));
    var byType := GroupCounts(EmploymentTypes(teachers));
    s := Stats(|subjects|, |teachers|, |timeslots|, DailyTimeslots(|timeslots|), Config.ToDict(cfg),
               byCategory, byType);
  }
}
