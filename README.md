# Security-team rotation and advisory notifications, in Dafny

This project models the two scripts in `email-rotation/` that run the LLVM
security team's on-call duty.

**The rotation extender (`extend_rotation.py`).** It works in three steps:

1. It finds when each person last served.
2. It queues everyone least recently served first. Ties keep the order in which
   the service-time dictionary was filled, so the pool's own order wins.
3. It generates new rotations endlessly. Each one takes `people_per_rotation`
   names off the front of the queue, starts one rotation length after the
   previous one, and puts the names back at the end.

A separate calculation says how many more rotations are needed to reach a date.

**The notifier (`email_about_issues.py`).** It does five things:

- It loads and saves its state as JSON.
- It follows the `Link` header of GitHub's paged answers (RFC 8288, section 3).
- It picks the current rotation.
- It emails once about each new draft advisory that has nobody on call among
  its collaborators. An advisory whose email failed is kept out of the state,
  so it is retried.
- It nags at most once a day when the last scheduled rotation starts within
  two weeks.

Modules:

| file | module | contents |
|---|---|---|
| `wrappers.dfy` | `Wrappers` | `Option` and `Result` |
| `strings.dfy` | `Strings` | Python's string order, `sorted` of a set, `in`, `split`, `split(sep, 1)` and `strip` |
| `rotations.dfy` | `Rotations` | the `Rotation` record, times as whole UTC seconds, the "most recent Sunday" anchor, exact ceiling division |
| `extend_rotation.dfy` | `ExtendRotation` | service times, the stable sort, the generator as a class, the part of `main` that runs it, rotations to cover |
| `email_about_issues.dfy` | `EmailAboutIssues` | the state and its JSON form, the `Link` parser, the current rotation, the nag gate, `run_script` |

How the model is built:

- **Time.** Times are `int` seconds since the Unix epoch, in UTC.
  `datetime.min` is the constant `MinTime`.
- **The service-time dictionary.** Its insertion order matters to the sort.
  The model keeps it as a value: an ordered key sequence plus a `map`.
- **The sort.** `sorted(..., key=time)` is a functional insertion sort. It is
  proved to be a permutation that is ordered by (service time, insertion
  position).
- **The generator.** It is a class whose fields (`queue`, `nextStart`) change
  in place. Its ghost fields relate the current state to the spec functions
  `QueueAfter` and `Generated`. A generator that has raised once then raises
  `StopIteration`.
- **Sending email.** The outcome is an input: a `bool` for the nag, and for
  `run_script` a function from the advisory's position to `bool`. That gives
  one outcome per send attempt, even when two advisories share an id. A dry
  run is `emailInfo == None`.

## Model

| member | source | states |
|---|---|---|
| ExtendRotation.DedupMeaning | email-rotation/extend_rotation.py:25-31 | the dictionary's key order holds every name exactly once, and nothing else |
| ExtendRotation.IndexOf | email-rotation/extend_rotation.py:51-57 | the position found is the name's first occurrence |
| ExtendRotation.LastServedIffListed | email-rotation/extend_rotation.py:26-31 | a name has a recorded rotation iff some prior rotation lists it, with that rotation as witness |
| ExtendRotation.LastServedIsNewest | email-rotation/extend_rotation.py:26-31 | the recorded time is the start of the newest rotation listing the name, because rotations run oldest to newest and later ones overwrite |
| ExtendRotation.AssignMeaning | email-rotation/extend_rotation.py:28-31 | assigning one time to a list of names adds exactly those keys; they get the new time and the other keys keep theirs |
| ExtendRotation.ReplayMeaning | email-rotation/extend_rotation.py:25-33 | after both loops the keys are the pool plus everyone on a prior rotation; each value is the newest start listing the name, or `MinTime` |
| ExtendRotation.ReplayKeys | email-rotation/extend_rotation.py:25-31 | a name is a key iff it occurs in the pool or on a rotation |
| ExtendRotation.Record | email-rotation/extend_rotation.py:28-31 | one pass over a list of names appends the new keys to the insertion order and overwrites the values |
| ExtendRotation.FindMostRecentServiceTimes | email-rotation/extend_rotation.py:18-33 | keys are exactly the pool plus everyone ever scheduled, in insertion order; never-scheduled people map to `MinTime`, the others to their newest rotation's start |
| ExtendRotation.InsertByTime | email-rotation/extend_rotation.py:51-57 | inserting keeps every name, adding only the new one |
| ExtendRotation.SortByServiceTime | email-rotation/extend_rotation.py:51-57 | the sorted names are a permutation of the keys |
| ExtendRotation.InsertKeepsOrder | email-rotation/extend_rotation.py:51-57 | inserting into a list in (time, insertion position) order keeps it in that order |
| ExtendRotation.SortByServiceTimeIsStable | email-rotation/extend_rotation.py:51-57 | the sort is a permutation, ordered by service time, with ties in dictionary insertion order |
| ExtendRotation.SortKeepsOrderOnTies | email-rotation/extend_rotation.py:51-57 | when all times are equal the sort returns its input unchanged |
| ExtendRotation.InitialQueue | email-rotation/extend_rotation.py:50-57 | the initial queue is a permutation of the dictionary's keys: the pool plus everyone on a prior rotation, each once |
| ExtendRotation.InitialQueueWithoutPriors | email-rotation/extend_rotation.py:50-57 | with no prior rotations the queue is the pool in list order, repeats dropped |
| ExtendRotation.InitialQueueIsFair | email-rotation/extend_rotation.py:44-57 | the initial queue holds each candidate once, and service times never decrease along it |
| ExtendRotation.Step | email-rotation/extend_rotation.py:70-79 | one turn of the queue keeps its length |
| ExtendRotation.StepPerm | email-rotation/extend_rotation.py:70-79 | one turn (pop `k` names, push them back) is a permutation of the deque |
| ExtendRotation.QueueAfter | email-rotation/extend_rotation.py:69-79 | the deque after any number of rotations keeps its length |
| ExtendRotation.QueueAfterPerm | email-rotation/extend_rotation.py:70-79 | after any number of turns the deque is a permutation of the initial queue, so only candidates are ever yielded |
| ExtendRotation.QueueAfterDistinct | email-rotation/extend_rotation.py:70-79 | popping names and pushing them back never creates a repeat |
| ExtendRotation.QueueAfterAdd | email-rotation/extend_rotation.py:69-79 | `a` turns and then `b` turns are `a + b` turns |
| ExtendRotation.QueueAfterNoWrap | email-rotation/extend_rotation.py:70-79 | until the queue wraps round, `d` turns move exactly the first `d * k` names to the back |
| ExtendRotation.Generated | email-rotation/extend_rotation.py:69-79 | asking for `n` rotations gives exactly `n` |
| ExtendRotation.GeneratedAt | email-rotation/extend_rotation.py:69-79 | rotation `i` starts `i` lengths after the first and holds the first `k` names of the queue after `i` turns |
| ExtendRotation.WindowDisjoint | email-rotation/extend_rotation.py:70-79 | two rotations `d` apart share nobody while `d + 1` rotations fit in the queue |
| ExtendRotation.GeneratedIsFair | email-rotation/extend_rotation.py:44-79 | when `w` rotations' worth of people fit in the queue, nobody serves twice within `w` consecutive rotations |
| Rotations.MostRecentSundayExample | email-rotation/extend_rotation_test.py:15-18 | the test's Friday 2025-05-30 10:00 UTC anchors to Sunday 2025-05-25 00:00 UTC |
| ExtendRotation.GeneratedExample | email-rotation/extend_rotation_test.py:129-146 | three people, two per weekly rotation: alice and bob, then charlie and alice |
| ExtendRotation.GeneratedShape | email-rotation/extend_rotation.py:70-78 | every rotation has exactly `k` distinct people, all drawn from the queue, and starts on schedule |
| ExtendRotation.FirstStart | email-rotation/extend_rotation.py:59-67 | the first new rotation starts one rotation length after the last prior start; without priors it starts at a midnight one to eight days before `now` |
| ExtendRotation.RangeLength | email-rotation/extend_rotation.py:71 | `range(n)` runs `n` times, and never for negative `n` |
| ExtendRotation.Generator.constructor | email-rotation/extend_rotation.py:50-67 | the queue is the least-recent-first order; the first start is one length after the last prior start, or the most recent Sunday |
| ExtendRotation.Generator.Next | email-rotation/extend_rotation.py:69-79 | yields the front `k` names at the current start, moves them to the back and advances the start by one length; fails when the deque runs dry, and stays failed |
| ExtendRotation.Take | email-rotation/extend_rotation.py:217 | a negative `count` is refused (`ValueError`) and leaves the generator untouched. Otherwise taking `count` rotations from a fresh generator gives the first `count` generated ones, or fails iff a rotation needs more people than the queue holds. The generator stays consistent, and on success it has yielded exactly the returned rotations |
| ExtendRotation.Plan | email-rotation/extend_rotation.py:217-218 | the new schedule fails for a negative count, and fails on the deque iff some rotation is asked for and needs more people than the queue holds; otherwise it keeps the prior rotations and adds exactly `count` |
| ExtendRotation.ExtendSchedule | email-rotation/extend_rotation.py:209-218 | with the arguments in declared order, the new schedule is the old one followed by the generated rotations |
| ExtendRotation.ExtendScheduleAsWritten | email-rotation/extend_rotation.py:209-215 | with the arguments in the order `main` passes them, the team size and the rotation length trade places |
| ExtendRotation.PlanShape | email-rotation/extend_rotation.py:217-218 | the prior rotations are kept; each new rotation has exactly `people_per_rotation` distinct people, all of them candidates, one length after the last |
| ExtendRotation.MainSwapsSettings | email-rotation/extend_rotation.py:209-215 | as written, new rotations have `rotation_length_weeks` people and start `people_per_rotation` weeks after the last prior one |
| ExtendRotation.CalculateRotationsToCover | email-rotation/extend_rotation.py:82-103 | the error for an empty rotation list happens exactly when the list is empty |
| ExtendRotation.RotationsToCoverIsLeast | email-rotation/extend_rotation.py:95-103 | for a positive length the answer is the least number of rotations whose end reaches `when`; zero iff the last rotation already reaches it |
| ExtendRotation.RotationsToCoverExamples | email-rotation/extend_rotation_test.py:68-125 | the test dates give 0, 1 and 2 rotations, and an error without rotations |
| Rotations.Weekday | email-rotation/extend_rotation.py:66 | `weekday()` lies in 0..6 |
| Rotations.Midnight | email-rotation/extend_rotation.py:64 | midnight is on the same day, at most a day before `now` |
| Rotations.MostRecentSunday | email-rotation/extend_rotation.py:62-67 | the anchor is a midnight, between one and eight days before `now` |
| Rotations.MostRecentSundayIsSunday | email-rotation/extend_rotation.py:62-67 | the anchor without priors is a Sunday midnight, one to seven days before today |
| Rotations.CeilDiv | email-rotation/extend_rotation.py:100-102 | the exact ceiling of a quotient, for either sign of divisor |
| Strings.BelowTransitive | email-rotation/email_about_issues.py:360 | Python's string order is transitive |
| Strings.BelowTotal | email-rotation/email_about_issues.py:360 | any two different strings are ordered |
| Strings.SortedNames | email-rotation/email_about_issues.py:360 | `sorted(set)` lists each name once, ascending |
| Strings.Contains | email-rotation/email_about_issues.py:107 | `sub in s` needs `sub` no longer than `s`, and the empty string is in every string |
| Strings.ContainsIsSubstring | email-rotation/email_about_issues.py:107 | `sub in s` iff `sub` occurs at some index of `s` |
| Strings.Split | email-rotation/email_about_issues.py:101 | `split` gives at least one piece and no piece holds the separator |
| Strings.JoinSplit | email-rotation/email_about_issues.py:101 | joining the pieces of `split` gives back the string |
| Strings.SplitOnce | email-rotation/email_about_issues.py:102 | `split(sep, 1)` has two parts iff `sep` occurs; the first part is the text before its first occurrence |
| Strings.Strip | email-rotation/email_about_issues.py:108 | `strip(chars)` never lengthens the string and leaves no character of `chars` at either end |
| Strings.StripMeaning | email-rotation/email_about_issues.py:108 | `strip(chars)` removes a prefix and a suffix made of `chars` and leaves no such character at either end |
| EmailAboutIssues.StringsToJson | email-rotation/email_about_issues.py:56 | `asdict` writes one JSON element per id |
| EmailAboutIssues.StringsFromJson | email-rotation/email_about_issues.py:51 | a list of strings read back has as many ids as elements |
| EmailAboutIssues.ToJson | email-rotation/email_about_issues.py:55-56 | `asdict` writes exactly the two fields |
| EmailAboutIssues.FromJson | email-rotation/email_about_issues.py:48-53 | missing `seen_advisories` means `[]` and missing `last_alert_about_rotation` means `None` |
| EmailAboutIssues.StringsRoundTrip | email-rotation/email_about_issues.py:51-56 | the id list survives being written and read |
| EmailAboutIssues.StringsBackRoundTrip | email-rotation/email_about_issues.py:51-56 | a well-typed id list is written back unchanged |
| EmailAboutIssues.JsonRoundTrip | email-rotation/email_about_issues.py:48-56 | `from_json(to_json(s)) == s` |
| EmailAboutIssues.JsonBackRoundTrip | email-rotation/email_about_issues.py:48-56 | a well-typed object with exactly the two fields is written back unchanged |
| EmailAboutIssues.LinkTarget | email-rotation/email_about_issues.py:106-108 | a link target has no `;` |
| EmailAboutIssues.ExtractNextPageFromHeader | email-rotation/email_about_issues.py:95-109 | `None` for a missing or empty header; otherwise the target of the first `,`-entry whose parameters after the first `;` contain `rel="next"`, and `None` iff there is no such entry |
| EmailAboutIssues.LinkTargetShape | email-rotation/email_about_issues.py:101-108 | a next-page URL has no `,` or `;`, and no `<`, `>` or space at either end |
| EmailAboutIssues.CurrentIsUnique | email-rotation/email_about_issues.py:203-208 | at most one rotation is the current one |
| EmailAboutIssues.SelectCurrentRotation | email-rotation/email_about_issues.py:203-211 | no current rotation iff there are none or the first has not started; otherwise it is the last rotation reached before the first one that starts after `now` |
| EmailAboutIssues.LoadRotationState | email-rotation/email_about_issues.py:195-217 | the pool as a set, the current rotation's people as a set, and the last listed rotation's start |
| EmailAboutIssues.NagDue | email-rotation/email_about_issues.py:282-302 | the two early returns of the gate: the last rotation starts more than 14 days after `now`, or a truthy alert time lies less than a day back |
| EmailAboutIssues.MaybeEmailAboutRotationEnd | email-rotation/email_about_issues.py:277-346 | a nag is due iff the last rotation starts within 14 days of `now` (or there is no current rotation) and no truthy alert time lies within the last day. If not due, nothing changes. If due, a dry run records `now`, and a real send records `now` on success and keeps the old state on failure. The email names the last rotation's start, or says none is scheduled |
| EmailAboutIssues.GateKeepsAdvisories | email-rotation/email_about_issues.py:304-307 | the gate never changes the advisory list, and either keeps the state or records `now` |
| EmailAboutIssues.AtMostOneNagPerInterval | email-rotation/email_about_issues.py:293-302 | once the state records a nag, no further nag goes out for a day |
| EmailAboutIssues.FailedNagRetries | email-rotation/email_about_issues.py:343-344 | after a failed send the next run is due again |
| EmailAboutIssues.GateExamples | email-rotation/email_about_issues_test.py:53-127 | the three gate scenarios of the unit tests |
| EmailAboutIssues.Ids | email-rotation/email_about_issues.py:403-411 | the id list follows the advisory list |
| EmailAboutIssues.Mail | email-rotation/email_about_issues.py:390-396 | one email per advisory, to the same recipient, naming the same on-call list |
| EmailAboutIssues.ToEmail | email-rotation/email_about_issues.py:361-388 | a run emails about at most as many advisories as it fetched |
| EmailAboutIssues.Failures | email-rotation/email_about_issues.py:390-399 | no more ids fail than advisories were fetched |
| EmailAboutIssues.KeptIds | email-rotation/email_about_issues.py:401-411 | the new seen list is no longer than the fetched list |
| EmailAboutIssues.ToEmailMeaning | email-rotation/email_about_issues.py:361-388 | an advisory is emailed about iff it is unseen and has no on-call collaborator |
| EmailAboutIssues.FailuresMeaning | email-rotation/email_about_issues.py:390-399 | an id failed iff some advisory with that id needed an email and the send for it failed |
| EmailAboutIssues.KeptIdsMeaning | email-rotation/email_about_issues.py:401-412 | the new seen list is every fetched id that did not fail, still ascending, so the final `sorted` changes nothing |
| EmailAboutIssues.ToEmailStep | email-rotation/email_about_issues.py:361-399 | handling one more advisory appends at most one email and at most one failed id |
| EmailAboutIssues.RunScript | email-rotation/email_about_issues.py:349-412 | a dry run sends nothing. Otherwise exactly the unseen advisories without an on-call collaborator are emailed, in order, to the fixed recipient, with the on-call names sorted. The seen list becomes the fetched ids minus the failures, and the nag time is untouched |
| EmailAboutIssues.SecondRunRetriesOnlyFailures | email-rotation/email_about_issues.py:401-412 | on the same advisories, the next run emails exactly the failed ids without an on-call collaborator; when ids are unique, a successful email is never repeated |
| EmailAboutIssues.FailedWereNeeded | email-rotation/email_about_issues.py:359-399 | a failed id came from a real run and from an advisory that needed an email and whose send failed |

## Left out

- Network access is not modelled: `requests_get_with_retry`, `fetch_all_security_advisories_of_type` and `list_unpublished_security_advisories` (`email_about_issues.py:112-185`). The advisories are an input to `RunScript`, required to be ascending by id, as the sort at line 182 leaves them.
- SMTP and message texts are not modelled: `try_email_llvm_security_team`, `email_about_advisory`, the subjects and bodies, and `strftime`/`textwrap`. The send outcome is an input. An email is modelled as its recipient, the advisory or schedule issue, and the on-call list.
- File access is not modelled: `load_from_file` (a missing file gives `ScriptState([])`), `save_to_file`, the YAML parsing in the `rotations` module (not part of this model), and the writing of the rotation file. The parsed pool and rotations are inputs.
- `parse_args`, logging, the dry-run printing of both scripts, and the rest of both `main`s are CLI plumbing. The model keeps only the part of the extender's `main` that runs the generator. The notifier's `main` runs `run_script` and the gate only when a current rotation exists, and writes the state only when it changed. That composition is not modelled, so the gate's "no rotation is currently scheduled" branch is modelled but unreachable from `main`.
- Fractional seconds are not modelled: times are whole seconds. That covers `time.time()`, a `float` `last_alert_about_rotation`, and the float divisions in `calculate_rotations_to_cover`; integer ceiling division gives the exact quotient. Time zones other than UTC, and the local-time formatting in the nag body, are not modelled.
- EmailAboutIssues.FromJson: `from_json` stores whatever the file holds without checking types. Later uses of a wrongly typed value may raise or may silently misbehave: a string `seen_advisories` turns the membership test into a substring test, for example. The model rejects such a value with an error instead.
- ExtendRotation.Generator.constructor: Python runs the generator body up to the first `yield` lazily, on the first `next`. The model runs it when the generator is created. Within the date range below that code cannot fail and changes nothing outside the generator, so nothing observable differs. At the edges of that range Python would raise `OverflowError` on the first `next`, or not at all when no rotation is taken.
- The datetime range is not modelled: times are unbounded integers. Python's `datetime` only covers the years 1 to 9999, and `timedelta` is bounded too. So `timedelta(weeks=w)` raises `OverflowError` for more than 999999999 days, as does a start time pushed past year 9999 (`extend_rotation.py:59-61` and `:78`, and `:93` in `calculate_rotations_to_cover`). The model produces those far-off times instead of failing.
- The comment at `extend_rotation.py:44-45` says ties are broken at random. The code uses a stable sort, so ties keep dictionary insertion order; the model follows the code.
- `load_rotation_state` treats a parsed rotation as true, so only the absence of a current rotation yields `None`.
- The consistency check at `email_about_issues.py:168-171` (the state is `draft` or `triage`) belongs to the fetching code, which is not modelled.
- `verify_yaml_files_test.py` only checks that the data files parse. It has no logic to model.

## Findings

| source | as written | input that shows it | evidently intended | confidence | as-written member | corrected member |
|---|---|---|---|---|---|---|
| email-rotation/extend_rotation.py:209-215 | `main` passes `people_per_rotation` third and `rotation_length_weeks` fourth. The signature at lines 36-42 declares them the other way round | `--people-per-rotation 3 --rotation-length-weeks 2` with prior rotations: new rotations have 2 people and start 3 weeks apart (with the default 2 and 2 nothing shows) | rotations of 3 people, 2 weeks apart | high; not executed | ExtendRotation.MainSwapsSettings | ExtendRotation.ExtendSchedule |
