# Timetable back end: a Dafny model

This project models the logic core of a school timetabling back end.

- **Records.** Subjects, teachers, time slots, student groups and lessons, as dictionaries and as records.
- **Configuration.** The school-day configuration, and the two generators that turn a configuration into the week's time slots.
- **The in-memory repository.** Save by id, delete by id, the demo student group and lesson generation.
- **Scoring rules.** The nine pairwise rules that score a timetable for the constraint solver.
- **Rule-based placement.** The placement behind the optimisation endpoint, with its fixed fallback answer.
- **The customisation service.** Fresh-id allocation, delete replies, configuration update and preview, and the statistics with their grouping counters.

Modules follow the source files:

| Module | Source file |
|---|---|
| `Common` | shared option type, clock and value helpers |
| `DataModels` | `backend/models/data_models.py` |
| `Config` | `backend/models/config.py` |
| `ConfigProperties` | lemmas about the generator in `config.py` |
| `TimefoldModels` | `backend/models/timefold_models.py` |
| `TimefoldProperties` | lemmas about the scoring rules |
| `Database` | `backend/models/database.py` |
| `DatabaseProperties` | lemmas about the repository |
| `Routes` | the placement in `railway_optimization`, `backend/api/routes.py` |
| `RoutesProperties` | lemmas about the placement |
| `CustomizeService` | `backend/services/customize_service.py` |

Modelling conventions:

- **Clock times.** A "HH:MM" time is a `Clock(hour, minute)`. `Canonical` says that the hour and minute are in range.
- **Dictionaries.** A Python keyword dictionary is a `map<string, Value>`. Building a record from a dictionary returns `None` in every case where the dataclass constructor raises: an unknown key or a missing required field.
- **Current time.** The time read by `datetime.now()` is a `now` parameter.
- **Score.** A score is a `(hard, soft)` integer pair. Each rule adds its weight once per unordered pair of distinct list positions that its filter accepts. Timefold's `for_each_unique_pair` orders a pair by the lessons' planning id instead. The two counts agree when the lesson ids are distinct.
- **Repository methods.** Repository methods become functions from the old list to the new list. Where the source also answers with a status, they return a boolean or a reply.

## Model

| member | source | states |
|---|---|---|
| DataModels.SubjectFromDict | backend/models/data_models.py:7-22 | a subject is built only from its own field names with `id` and `name` present, and it carries the dictionary's id and name |
| DataModels.TeacherFromDict | backend/models/data_models.py:37-55 | a teacher is built only from its own field names with `id` and `name` present, and it carries the dictionary's id and name |
| DataModels.TimeSlotFromDict | backend/models/data_models.py:73-87 | a time slot needs its id, day and both times, and carries them; it accepts no unknown key |
| DataModels.StudentGroupFromDict | backend/models/data_models.py:101-115 | a group needs its id, name and grade, and carries them; it accepts no unknown key |
| DataModels.SubjectToDict | backend/models/data_models.py:24-35 | the dictionary has exactly the nine subject field names |
| DataModels.TeacherToDict | backend/models/data_models.py:57-71 | the dictionary has exactly the twelve teacher field names |
| DataModels.TimeSlotToDict | backend/models/data_models.py:89-99 | the dictionary has exactly the eight time-slot field names |
| DataModels.StudentGroupToDict | backend/models/data_models.py:117-127 | the dictionary has exactly the eight group field names |
| DataModels.LessonToDict | backend/models/data_models.py:146-157 | the dictionary has exactly the nine lesson field names |
| DataModels.SubjectRoundTrip | backend/models/data_models.py:24-35 | rebuilding a stamped subject from its dictionary gives the same subject, whatever the current time |
| DataModels.TeacherRoundTrip | backend/models/data_models.py:57-71 | rebuilding a stamped teacher from its dictionary gives the same teacher |
| DataModels.TimeSlotRoundTrip | backend/models/data_models.py:89-99 | rebuilding a stamped time slot from its dictionary gives the same slot |
| DataModels.StudentGroupRoundTrip | backend/models/data_models.py:117-127 | rebuilding a stamped group from its dictionary gives the same group |
| DataModels.SubjectDefaults | backend/models/data_models.py:7-22 | a subject built from id and name alone has weekly hours 1, category "general", difficulty "medium" and the current time as stamp |
| DataModels.TeacherDefaults | backend/models/data_models.py:37-55 | a teacher built from id and name alone has 6 daily lessons, 30 weekly hours, Monday to Friday available, "full_time" and the current time as stamp |
| DataModels.StudentGroupDefaults | backend/models/data_models.py:101-115 | a group built from id, name and grade alone has class "A", 30 students and empty curricula |
| DataModels.NewLesson | backend/models/data_models.py:129-144 | a new lesson has no time slot, lasts 50 minutes, has no requirements and is stamped with the current time |
| DataModels.SubjectStamp | backend/models/data_models.py:20-22 | a non-empty `created_at` survives construction; an empty or missing one becomes the current time |
| DataModels.TeacherStamp | backend/models/data_models.py:53-55 | a non-empty `created_at` survives construction of a teacher |
| DataModels.TimeSlotStamp | backend/models/data_models.py:85-87 | a non-empty `created_at` survives construction of a time slot |
| DataModels.StudentGroupStamp | backend/models/data_models.py:113-115 | a non-empty `created_at` survives construction of a group |
| DataModels.LessonToDictNested | backend/models/data_models.py:146-157 | each nested entry is None exactly when the reference is unset; otherwise it is a dictionary that rebuilds the referenced record |
| DataModels.LessonDictEntries | backend/models/data_models.py:149-152 | the four nested entries are the nested records' own dictionaries, or None |
| Config.ToDict | backend/models/config.py:32-48 | the dictionary has exactly the fourteen configuration field names |
| Config.FromDict | backend/models/config.py:11-52 | construction fails on any key that is not a field; the empty dictionary gives the declared defaults |
| Config.DictRoundTrip | backend/models/config.py:32-52 | rebuilding a configuration from its dictionary gives it back |
| Config.ReadBackHours | backend/models/config.py:32-48 | each timing field is read back from the dictionary as written |
| Config.ReadBackLimits | backend/models/config.py:32-48 | the lunch end and the three lesson limits are read back as written |
| Config.ReadBackTexts | backend/models/config.py:32-48 | the subject lists, school name, year and semester are read back as written |
| Config.ToDictOfFromDict | backend/models/config.py:32-52 | a complete dictionary that builds a configuration is that configuration's dictionary |
| Config.LessonEnd | backend/models/config.py:96-101 | a lesson ends exactly `lesson_duration` minutes after its start, with the minute field below 60 |
| Config.NextStart | backend/models/config.py:119-122 | the next start lies lesson plus break minutes after the current start, with a valid time of day |
| Config.WalkLunch | backend/models/config.py:87-93 | a start inside the lunch window continues the day from the lunch end |
| Config.WalkClosing | backend/models/config.py:96-105 | a lesson that would end after the closing hour ends the day |
| Config.EmitStep | backend/models/config.py:107-125 | an emitted slot carries the current id, day, times, period label and duration, and the walk goes on with the next id and period |
| Config.DayTimeslots | backend/models/config.py:80-125 | one day's loop yields the labelled day walk |
| Config.GenerateTimeslots | backend/models/config.py:73-127 | the five-day loop yields the week of labelled day walks |
| ConfigProperties.WalkFacts | backend/models/config.py:83-114 | every emitted slot starts at a valid time outside lunch, lasts `lesson_duration`, ends by the closing hour, and the periods count up from the first |
| ConfigProperties.WalkHead | backend/models/config.py:87-93 | the first slot of a day starts at the opening time, or at lunch end when the opening time falls in lunch |
| ConfigProperties.WalkSuccession | backend/models/config.py:87-122 | each next slot starts lesson plus break minutes after the previous one, moved to lunch end when that start falls in lunch |
| ConfigProperties.DayOrdered | backend/models/config.py:119-122 | within a day starts strictly increase, and with a non-negative break no two slots overlap |
| ConfigProperties.TimeslotLayout | backend/models/config.py:76-125 | the week holds five copies of the same day; slot j of day e is at position e·n + j with id e·n + j + 1, that weekday, and period label j + 1 |
| ConfigProperties.WeekAt | backend/models/config.py:76-125 | in a week of d days, slot j of day e is at position e·n + j with that day and id |
| ConfigProperties.WeekIds | backend/models/config.py:78-124 | the week's slot ids are 1, 2, 3, … in list order |
| ConfigProperties.WalkFollowsLoop | backend/models/config.py:85-122 | with a positive step, the day walk takes the loop's turns: it stops where the loop breaks, jumps to the lunch end where the loop does, and emits the loop's slot and continues from the loop's next start |
| ConfigProperties.StalledLoop | backend/models/config.py:96-122 | with lesson plus break at most zero, the loop's next start after an emitted lesson is no later than the current one; at zero it is the same time and the loop repeats the same turn |
| ConfigProperties.ZeroStepHangs | backend/models/config.py:85-122 | the default configuration with zero lesson and break is not generable, and its first turn emits 09:00-09:00 and comes back to 09:00 |
| ConfigProperties.LabelAt | backend/models/config.py:107-125 | labelled slot k has id first + k, the day, the k-th walked start and end, and the walked period's label |
| Database.ReadSettings | backend/models/database.py:92-95 | with no stored configuration the settings are 9, 16, 50 and 10 |
| Database.Advance | backend/models/database.py:153-156 | the next start lies lesson plus break minutes later, as a valid time of day |
| Database.Record | backend/models/database.py:141-148 | the stored slot carries the generated id, day, times, period and duration, is not a break, and has the current time as stamp |
| Database.Records | backend/models/database.py:141-149 | the converted list has one record per generated slot, in order |
| Database.DayWalkAgrees | backend/models/database.py:113-159 | the repository's day loop emits the same slots as the configuration generator with lunch at 12:00–13:00 |
| Database.LoadTimeslotsAgrees | backend/models/database.py:86-162 | loading time slots gives the records of the configuration generator's week |
| Database.IndexOf | backend/models/database.py:250-254 | the position found carries the id; no id at all means no position |
| Database.FindById | backend/models/database.py:250-254 | a found record is in the list with the id; nothing is found exactly when no record carries the id |
| Database.Upsert | backend/models/database.py:247-279 | saving replaces the first record with the same id in place, or else appends |
| Database.Remove | backend/models/database.py:281-301 | the filtered list keeps exactly the records with another id |
| Database.Delete | backend/models/database.py:281-301 | the answer is true exactly when some record carried the id |
| Database.RemoveShrinksIff | backend/models/database.py:283-289 | the list shrinks exactly when some record carried the id |
| Database.DemoStudentGroups | backend/models/database.py:193-204 | there is one demo group, with id 1 and name 1年A組 |
| Database.FindTeacherForSubject | backend/models/database.py:331-336 | the result is the first teacher whose subjects name the subject; nothing is returned exactly when no teacher does |
| Database.SubjectLessons | backend/models/database.py:316-327 | one subject gets one lesson per weekly hour, with consecutive ids |
| Database.GroupLessons | backend/models/database.py:313-327 | one group's lessons follow the subject plan in order, with consecutive ids |
| Database.GenerateLessons | backend/models/database.py:303-329 | lesson generation yields the plan for every group in turn |
| Database.AssignConcat | backend/models/database.py:312-327 | numbering two runs of lessons in a row is numbering the first run, then the second from where the first stopped |
| DatabaseProperties.IndexOfIsFirst | backend/models/database.py:250-254 | the search finds the first position carrying the id |
| DatabaseProperties.SaveThenFind | backend/models/database.py:247-262 | after a save, looking up the saved id finds the saved record |
| DatabaseProperties.SaveKeepsOthers | backend/models/database.py:247-262 | a save does not change what any other id finds |
| DatabaseProperties.SaveIdempotent | backend/models/database.py:247-262 | saving the same record twice is saving it once |
| DatabaseProperties.RemoveOfConcat | backend/models/database.py:284-284 | the filter keeps the kept records in their order |
| DatabaseProperties.RemoveAbsent | backend/models/database.py:281-290 | deleting an id that no record carries changes nothing |
| DatabaseProperties.DeleteAfterSave | backend/models/database.py:247-290 | deleting right after saving leaves what deleting alone leaves |
| DatabaseProperties.DeleteThenFind | backend/models/database.py:281-290 | after a delete the id is gone, a second delete answers false, and other ids are unaffected |
| DatabaseProperties.RemoveFind | backend/models/database.py:284-284 | the filter does not change what any other id finds |
| DatabaseProperties.LoadedLayout | backend/models/database.py:108-159 | the loaded week has five days of equal length, with slot j of day e at position e·n + j |
| DatabaseProperties.LoadedIds | backend/models/database.py:111-158 | loaded slot ids are 1, 2, 3, … in list order |
| DatabaseProperties.PlanLength | backend/models/database.py:313-318 | a group gets as many lessons as the taught subjects' weekly hours |
| DatabaseProperties.PlanEntries | backend/models/database.py:313-315 | every planned lesson pairs a listed subject with the first teacher who teaches it |
| DatabaseProperties.ScheduleAt | backend/models/database.py:303-329 | lesson j of group g is at position g·n + j with id g·n + j + 1 and the plan's j-th subject and teacher |
| DatabaseProperties.ScheduleUnscheduled | backend/models/database.py:319-327 | every generated lesson is unscheduled, "regular" and 50 minutes long, and the ids run 1, 2, 3, … |
| DatabaseProperties.DemoLessonCount | backend/models/database.py:303-329 | with the single demo group, generation yields exactly the taught weekly hours |
| TimefoldModels.NewLesson | backend/models/timefold_models.py:57-71 | a new planning lesson has no time slot and no room |
| TimefoldProperties.MatchesSymmetric | backend/models/timefold_models.py:91-196 | every rule's filter is symmetric in its two lessons |
| TimefoldProperties.OrderedIsTwiceUnique | backend/models/timefold_models.py:91-196 | counting over ordered pairs of distinct positions counts every unordered pair exactly twice |
| TimefoldProperties.SingleLessonScoresZero | backend/models/timefold_models.py:91-121 | a scheduled lesson would conflict with itself, yet a one-lesson timetable scores nothing, because no lesson is paired with itself |
| TimefoldProperties.CountWithZeroIff | backend/models/timefold_models.py:91-196 | a lesson matches none of the later lessons exactly when its count is zero |
| TimefoldProperties.MatchCountZeroIff | backend/models/timefold_models.py:91-196 | a rule has no match exactly when no unordered pair of distinct lessons passes its filter |
| TimefoldProperties.ScoreBreakdown | backend/models/timefold_models.py:74-196 | the hard score is minus the hard matches, and the soft score is the weighted sum of the six soft rules' matches |
| TimefoldProperties.WeightedBreakdown | backend/models/timefold_models.py:74-89 | the nine weights are −1 hard ×3, −10, −5, +8, −3, −1 and −1 soft |
| TimefoldProperties.NoMatchesScoreZero | backend/models/timefold_models.py:74-89 | with no matches the score is (0, 0) |
| TimefoldProperties.HardScoreZeroIffNoConflict | backend/models/timefold_models.py:91-121 | the hard score is never positive, and it is zero exactly when no pair has a hard conflict |
| TimefoldProperties.DistinctSlotsNoHardConflict | backend/models/timefold_models.py:91-121 | when no two scheduled lessons share a time slot, the hard score is zero |
| TimefoldProperties.UnassignedScoresZero | backend/models/timefold_models.py:67-196 | a timetable with no slot or room assigned scores (0, 0) |
| TimefoldProperties.UnassignedNeverMatch | backend/models/timefold_models.py:91-196 | an unassigned lesson matches no rule |
| TimefoldProperties.DistributionXorSpread | backend/models/timefold_models.py:123-159 | for two distinct scheduled lessons of one course, exactly one of distribution (same day) and spread (different day) fires |
| TimefoldProperties.ConsecutiveImpliesSameDayPenalties | backend/models/timefold_models.py:123-173 | a consecutive same-subject pair is adjacent by slot id and also triggers distribution and the daily limit, but not spread |
| TimefoldProperties.TimeEfficiencyNeedsGap | backend/models/timefold_models.py:186-196 | time efficiency never fires on adjacent slots or on the same slot, so it never coincides with a teacher conflict |
| TimefoldProperties.RoomStabilityIgnoresTimeslots | backend/models/timefold_models.py:175-196 | room stability depends only on teacher and rooms, and time efficiency does not depend on rooms |
| TimefoldProperties.ConstraintListShape | backend/models/timefold_models.py:74-89 | the list has nine distinct rules, hard exactly at the first three positions |
| Routes.Selected | backend/api/routes.py:114-116 | the usable slots are the first min(16, n) slots |
| Routes.Strftime | backend/api/routes.py:178-179 | `strftime` yields a time only on a time value; on the stored text it raises |
| Routes.RenderSlots | backend/api/routes.py:203-211 | slot rendering succeeds exactly when every slot renders, and then keeps the order |
| Routes.RenderLessons | backend/api/routes.py:170-182 | the lesson list renders when every lesson's slot renders, one entry per placed lesson in order |
| RoutesProperties.RailwayAsWrittenAlwaysFallback | backend/api/routes.py:108-278 | as written, the endpoint answers the fixed fallback for every input |
| RoutesProperties.PlaceHoursFacts | backend/api/routes.py:164-191 | the hour loop places min(hours, free slots) lessons, each taking the next slot and room, with the next id |
| RoutesProperties.PlaceSubjectsFacts | backend/api/routes.py:137-195 | the subject loop places min(slots, taught hours) lessons, lesson k taking slot k, room k mod 2 and id k + 1 |
| RoutesProperties.PlaceSubjectsCount | backend/api/routes.py:137-195 | the subject loop gives a subject no more lessons than the list asks for it |
| RoutesProperties.DoneIsNotFallback | backend/api/routes.py:213-278 | the success score text is never the fallback score text |
| RoutesProperties.RailwayFallbackIff | backend/api/routes.py:108-278 | the corrected endpoint answers the fallback exactly when one of the four lists is empty |
| RoutesProperties.PlacementFacts | backend/api/routes.py:114-195 | placement uses the first group and the first min(16, n) slots, and places min(usable slots, taught hours) lessons |
| RoutesProperties.RailwayShape | backend/api/routes.py:114-218 | with data, the answer lists the usable slots and both rooms, places min(usable slots, taught hours) lessons, and the score text reports the count |
| RoutesProperties.RailwayLesson | backend/api/routes.py:158-188 | lesson k has id k + 1, the k-th listed slot, room k mod 2, the first group, a listed subject and that subject's first teacher |
| RoutesProperties.RailwaySubjectHours | backend/api/routes.py:164-191 | a subject listed once gets at most its weekly hours |
| RoutesProperties.PlacementHardFeasible | backend/api/routes.py:166-188 | when the usable slots have distinct ids, the placement triggers none of the three hard rules |
| RoutesProperties.LoadedPlacementHardFeasible | backend/api/routes.py:102-188 | with the repository's own time slots, the placement triggers no hard rule |
| RoutesProperties.FallbackHardFeasible | backend/api/routes.py:239-271 | the fallback timetable's lessons sit in pairwise different slots, so no hard rule can fire on them |
| CustomizeService.NextId | backend/services/customize_service.py:63-63 | the new id exceeds every existing id; it is 1 for an empty list, and otherwise one more than an existing id |
| CustomizeService.AddCustom | backend/services/customize_service.py:55-78 | a record is built from the data with the new id; on success it is appended with that id, and on failure the list is unchanged |
| CustomizeService.AddCustomSubject | backend/services/customize_service.py:55-78 | adding succeeds exactly when the data builds a subject; success appends it with a fresh id and answers with its dictionary; failure changes nothing |
| CustomizeService.AddCustomTeacher | backend/services/customize_service.py:80-103 | adding succeeds exactly when the data builds a teacher; success appends it with a fresh id and answers with its dictionary; failure changes nothing |
| CustomizeService.AddSubjectThenDelete | backend/services/customize_service.py:55-116 | the added subject is found under its new id, other ids are unaffected, and deleting it restores the list with a success reply |
| CustomizeService.AddTeacherThenDelete | backend/services/customize_service.py:80-129 | the added teacher is found under its new id, other ids are unaffected, and deleting it restores the list with a success reply |
| CustomizeService.DeleteSubject | backend/services/customize_service.py:105-116 | the reply is success exactly when a subject had the id; otherwise it is the "not found" error |
| CustomizeService.DeleteTeacher | backend/services/customize_service.py:118-129 | the reply is success exactly when a teacher had the id; otherwise it is the "not found" error |
| CustomizeService.Known | backend/services/customize_service.py:23-25 | only keys that are configuration fields are kept, with their values |
| CustomizeService.ToRecords | backend/services/customize_service.py:44-47 | conversion succeeds exactly when every generated slot builds a record, and then converts each slot in order |
| CustomizeService.UpdateConfig | backend/services/customize_service.py:19-36 | the update succeeds exactly when the overlaid configuration builds and its slots can be generated; the new configuration's dictionary is the old one overlaid with the known keys; the slots are regenerated from it; failure changes nothing |
| CustomizeService.SpecToRecord | backend/services/customize_service.py:45-47 | every generated slot dictionary builds the repository's record for that slot |
| CustomizeService.RegenerateMatchesRepository | backend/services/customize_service.py:38-53 | regeneration stores the records the repository would load for the same timing settings |
| CustomizeService.UpdateIgnoresUnknown | backend/services/customize_service.py:23-25 | an update naming only unknown keys succeeds and leaves the configuration unchanged |
| CustomizeService.UpdateUnknownKeyIrrelevant | backend/services/customize_service.py:23-25 | adding an unknown key to an update does not change its result |
| CustomizeService.UpdateIdempotent | backend/services/customize_service.py:19-36 | applying the same update twice gives the same configuration as applying it once |
| CustomizeService.PreviewTimeslots | backend/services/customize_service.py:131-144 | the preview is the generator's output for the overlaid configuration, or empty when that configuration does not build or its slots cannot be generated |
| CustomizeService.ZeroStepMerged | backend/services/customize_service.py:19-36 | an update setting lesson and break to zero gives a configuration whose slots cannot be generated, whatever the stored configuration |
| CustomizeService.ZeroStepRefused | backend/services/customize_service.py:19-53 | the update setting lesson and break to zero is refused with the error reply and changes nothing, and its preview is empty |
| CustomizeService.PreviewOverlay | backend/services/customize_service.py:135-140 | the temporary keys win over the stored configuration |
| CustomizeService.PreviewUnchanged | backend/services/customize_service.py:131-140 | an empty overlay previews the stored configuration's own slots |
| CustomizeService.PreviewRejectsUnknown | backend/services/customize_service.py:135-144 | an overlay with a key that is not a field gives the empty preview |
| CustomizeService.DailyTimeslots | backend/services/customize_service.py:159-159 | the statistic d satisfies 5·d ≤ n < 5·d + 5, and it is 0 for no slots |
| CustomizeService.DailyTimeslotsPerDay | backend/services/customize_service.py:159-159 | for generated or loaded slots, the statistic is exactly the number of slots per day |
| CustomizeService.TallyCounts | backend/services/customize_service.py:165-179 | the tally has distinct keys, each count is the key's number of occurrences and at least 1, every key occurs, and the counts sum to the number of records |
| CustomizeService.GroupCounts | backend/services/customize_service.py:165-171 | the counting loop computes the tally of the keys |
| CustomizeService.CustomizationStats | backend/services/customize_service.py:146-163 | the totals are the list lengths, the daily statistic is as above, the configuration is its dictionary, and both groupings are exact tallies |

## Left out

- **Outside the model.** The constraint solver is not part of this model: the Timefold decorators, the solution class and the `HardSoftScore` ordering. `OptimizationService` is not part of it either. Scores are only additive integer pairs.
- **Web and files.** The Flask routes, the customisation routes, `app.py`, `run.py` and the module-level singletons are left out. So are JSON loading and saving, `SystemConfig.save`/`load`, `_load_system_config`, `load_all_data`, `ensure_data_dir`, every `print`, and the frontend. The stored configuration dictionary is a parameter of `Database.ReadSettings`.
- **Clock and formatting.** `datetime.now()` is the `now` parameter. "HH:MM" formatting is represented by `Clock` values.
- **Error messages.** Error replies carry only the message prefix. The `str(e)` text appended to it is not modelled.
- **Mutated argument.** `add_custom_subject` and `add_custom_teacher` also write the new id into the caller's dictionary. That side effect on the argument is not modelled.
- **Logged only.** The weekly-hours total in `railway_optimization` is only printed, so it is not modelled.
- **Placement defaults.** The `.get('weekly_hours', 2)` default in the placement loop never applies, because a subject's dictionary always has that key. `range` of a negative count is empty, which `Database.Hours` models as max(n, 0).
- **Inner fallback error.** The nested error handler of the fallback is not modelled: building the fixed answer cannot fail.
- Config.Generable: generation requires `lesson_duration + break_duration > 0`, because with a non-positive step the source's loop never ends once a slot has been emitted. The requirement also excludes inputs for which the source returns no slots, such as a start hour at or after the end hour. It also requires a valid lunch end time.
- Database.LoadTimeslots: requires `Steps(s)`, a positive lesson plus break, for the same reason. The requirement carries over to Database.DayWalk, Database.DayWalkAgrees, Database.LoadTimeslotsAgrees, DatabaseProperties.LoadedLayout and DatabaseProperties.LoadedIds.
- Config.InLunch: lunch membership is decided on numeric clock values, while the source compares zero-padded "HH:MM" strings. The two agree for two-digit hours.
- DataModels.SubjectFromDict: a value of the wrong type is refused, where the dataclass constructor stores it unchecked. The same holds for TeacherFromDict, TimeSlotFromDict, StudentGroupFromDict and Config.FromDict.
- CustomizeService.UpdateConfig: a value of the wrong type gives the error reply. In the source, `setattr` stores it, the regeneration error is caught and printed, and the reply is still success.
- CustomizeService.Known: only data fields count as known keys. The source's `hasattr` also accepts method names such as `save` or `to_dict`, which would overwrite a method.
- CustomizeService.PreviewTimeslots: a configuration whose slots cannot be generated previews as empty. Where no slot fits, this is what the source returns. With a zero step the source never answers. With a lunch end that is not a valid time, such as "12:75", the source can still generate slots.
- CustomizeService.UpdateConfig: a configuration whose slots cannot be generated is refused with the error reply. With a zero step the source never answers. Where no slot fits, such as a start hour at or after the end hour, the source stores the configuration and succeeds with no slots. With a lunch end that is not a valid time, such as "12:75", the source can still succeed.

## Findings

| source | as written | input that shows it | evidently intended | confidence | as-written member | corrected member |
|---|---|---|---|---|---|---|
| backend/api/routes.py:178-179 | the slot times are rendered with `.strftime("%H:%M")`, but the repository's `TimeSlot.start_time` and `end_time` are "HH:MM" strings, so the call raises AttributeError and the outer handler returns the fixed fallback (also lines 186 and 209-210) | one subject "数学" taught by one teacher, the demo group, and the repository's generated time slots: the endpoint answers "Railway フォールバック (改善版)" instead of the placed lesson | use the stored "HH:MM" text as it is and answer with the placement | not executed | Routes.RailwayAsWritten (with RoutesProperties.RailwayAsWrittenAlwaysFallback) | Routes.Railway (with RoutesProperties.RailwayFallbackIff, RoutesProperties.RailwayShape, RoutesProperties.RailwayLesson) |
| backend/services/customize_service.py:19-53 | `update_config` stores any `lesson_duration` and `break_duration` without a check, then regenerates the slots. When lesson plus break is 0, `generate_timeslots` (backend/models/config.py:118-122) emits a slot and returns to the same start time, so the loop never ends and the request never answers; the `except` cannot catch it. `preview_timeslots` (lines 131-144) hangs the same way | the default configuration and an update of `{"lesson_duration": 0, "break_duration": 0}`: the first turn of Monday emits 09:00-09:00 and comes back to 09:00 | refuse the configuration with the error reply and preview no slots | not executed | ConfigProperties.ZeroStepHangs (with Config.LoopTurn, ConfigProperties.StalledLoop) | CustomizeService.UpdateConfig (with CustomizeService.ZeroStepRefused, CustomizeService.ZeroStepMerged, CustomizeService.PreviewTimeslots) |
