/** The notification side: which new draft security advisories get an email,
    what the persisted script state becomes, and when the team is nagged that
    the rotation schedule is running out. Sending an email is an outcome the
    caller supplies; fetching advisories and reading files happen elsewhere. */
module EmailAboutIssues {
  import opened Wrappers
  import opened Strings
  import opened Rotations

  /** How close to the start of the last scheduled rotation the nag begins. */
  const NagWindow: int := 14 * 24 * 60 * 60
  /** The least time between two nags about the schedule. */
  const RefreshInterval: int := 24 * 60 * 60

  // ---------------------------------------------------------------------
  // The persisted state and its JSON form.

  /** What one run leaves for the next: the advisories already handled, and
      when the schedule nag last went out. */
  datatype ScriptState = ScriptState(seenAdvisories: seq<string>, lastAlertAboutRotation: Option<int>)

  /** The JSON values the state file holds. */
  datatype Json = JNull | JNumber(n: int) | JString(str: string) | JArray(items: seq<Json>)

  const SeenAdvisoriesKey: string := "seen_advisories"
  const LastAlertKey: string := "last_alert_about_rotation"

  /** A field present with a value of the wrong JSON type. */
  datatype JsonError = SeenAdvisoriesNotStrings | LastAlertNotNumber

  /** The id list as a JSON array of strings. */
  function StringsToJson(ids: seq<string>): (items: seq<Json>)
    ensures |items| == |ids|
  {
    if |ids| == 0 then [] else StringsToJson(ids[..|ids| - 1]) + [JString(ids[|ids| - 1])]
  }

  /** The list of ids, or `None` if some element is not a string. */
  function StringsFromJson(items: seq<Json>): (r: Option<seq<string>>)
    ensures r.Some? ==> |r.value| == |items|
  {
    if |items| == 0 then Some([])
    else
      var n := |items| - 1;
      match StringsFromJson(items[..n])
      case None => None
      case Some(init) =>
        if items[n].JString? then Some(init + [items[n].str]) else None
  }

  /** `dataclasses.asdict`: both fields, `None` written as `null`. */
  function ToJson(s: ScriptState): (j: map<string, Json>)
    ensures j.Keys == {SeenAdvisoriesKey, LastAlertKey}
  {
    map[SeenAdvisoriesKey := JArray(StringsToJson(s.seenAdvisories)),
        LastAlertKey := match s.lastAlertAboutRotation
                        case None => JNull
                        case Some(t) => JNumber(t)]
  }

  /** `ScriptState.from_json`: a missing `seen_advisories` is an empty list and
      a missing `last_alert_about_rotation` is `None`; keys it does not know are
      ignored. */
  function FromJson(j: map<string, Json>): (r: Result<ScriptState, JsonError>)
    ensures SeenAdvisoriesKey !in j && LastAlertKey !in j ==> r == Ok(ScriptState([], None))
    ensures r.Ok? && SeenAdvisoriesKey !in j ==> r.value.seenAdvisories == []
    ensures r.Ok? && LastAlertKey !in j ==> r.value.lastAlertAboutRotation == None
  {
    var seen := if SeenAdvisoriesKey in j then j[SeenAdvisoriesKey] else JArray([]);
    var last := if LastAlertKey in j then j[LastAlertKey] else JNull;
    if !seen.JArray? then Err(SeenAdvisoriesNotStrings)
    else match StringsFromJson(seen.items)
      case None => Err(SeenAdvisoriesNotStrings)
      case Some(ids) =>
        match last
        case JNull => Ok(ScriptState(ids, None))
        case JNumber(t) => Ok(ScriptState(ids, Some(t)))
        case _ => Err(LastAlertNotNumber)
  }

  lemma {:induction false} StringsRoundTrip(ids: seq<string>)
    ensures StringsFromJson(StringsToJson(ids)) == Some(ids)
  {
    if |ids| > 0 {
      var n := |ids| - 1;
      StringsRoundTrip(ids[..n]);
      var init := StringsToJson(ids[..n]);
      var items := init + [JString(ids[n])];
      assert StringsToJson(ids) == items;
      assert items[..n] == init;
      assert StringsFromJson(items) == Some(ids[..n] + [ids[n]]);
      assert ids == ids[..n] + [ids[n]];
    }
  }

  lemma {:induction false} StringsBackRoundTrip(items: seq<Json>)
    requires StringsFromJson(items).Some?
    ensures StringsToJson(StringsFromJson(items).value) == items
  {
    if |items| > 0 {
      var n := |items| - 1;
      StringsBackRoundTrip(items[..n]);
      var ids := StringsFromJson(items).value;
      assert ids[..n] == StringsFromJson(items[..n]).value;
      assert items == items[..n] + [items[n]];
    }
  }

  /** Saving a state and loading it back gives the same state. */
  lemma JsonRoundTrip(s: ScriptState)
    ensures FromJson(ToJson(s)) == Ok(s)
  {
    StringsRoundTrip(s.seenAdvisories);
  }

  /** And the other way: a file holding exactly the two fields, both well
      typed, is written back unchanged. */
  lemma JsonBackRoundTrip(j: map<string, Json>)
    requires j.Keys == {SeenAdvisoriesKey, LastAlertKey}
    requires FromJson(j).Ok?
    ensures ToJson(FromJson(j).value) == j
  {
    StringsBackRoundTrip(j[SeenAdvisoriesKey].items);
  }

  // ---------------------------------------------------------------------
  // The `Link` header of a paged GitHub response (RFC 8288, section 3).

  const LinkJunk: set<char> := {'<', '>', ' '}
  const RelNext: string := "rel=\"next\""

  /** A `Link` entry `<url>; params` whose parameters mention `rel="next"`. */
  predicate IsNextLink(link: string)
  {
    match SplitOnce(link, ';')
    case None => false
    case Some((_, meta)) => Contains(meta, RelNext)
  }

  /** The target of a `Link` entry: the text before its first `;`, without
      surrounding angle brackets and spaces. */
  function LinkTarget(link: string): (url: string)
    requires ';' in link
    ensures ';' !in url
  {
    var parts := SplitOnce(link, ';').value;
    StripMeaning(parts.0, LinkJunk);
    Strip(parts.0, LinkJunk)
  }

  /** `extract_next_page_from_header`: the target of the first entry marked
      `rel="next"`, or `None` when the header is missing, empty, or has no
      such entry. Entries without a `;` are skipped. */
  method ExtractNextPageFromHeader(linkHeader: Option<string>) returns (url: Option<string>)
    ensures linkHeader.None? || linkHeader.value == [] ==> url.None?
    ensures linkHeader.Some? && linkHeader.value != [] ==>
      var links := Split(linkHeader.value, ',');
      && (url.None? <==> forall i | 0 <= i < |links| :: !IsNextLink(links[i]))
      && (url.Some? ==> exists i | 0 <= i < |links| ::
            && IsNextLink(links[i])
            && url.value == LinkTarget(links[i])
            && forall j | 0 <= j < i :: !IsNextLink(links[j]))
  {
    if linkHeader.None? || |linkHeader.value| == 0 {
      return None;
    }
    var links := Split(linkHeader.value, ',');
    for i := 0 to |links|
      invariant forall j | 0 <= j < i :: !IsNextLink(links[j])
    {
      var parts := SplitOnce(links[i], ';');
      if parts.None? {
        continue;
      }
      var target, meta := parts.value.0, parts.value.1;
      if Contains(meta, RelNext) {
        url := Some(Strip(target, LinkJunk));
        assert IsNextLink(links[i]) && url.value == LinkTarget(links[i]);
        assert links == Split(linkHeader.value, ',');
        return;
      }
    }
    assert links == Split(linkHeader.value, ',');
    return None;
  }

  /** What a next-page URL looks like: a piece of one entry, with neither
      separator in it and no bracket or space at either end. */
  lemma LinkTargetShape(link: string)
    requires ';' in link && ',' !in link
    ensures var url := LinkTarget(link);
      && ',' !in url && ';' !in url
      && (url == [] || (url[0] !in LinkJunk && url[|url| - 1] !in LinkJunk))
  {
    var parts := SplitOnce(link, ';').value;
    StripMeaning(parts.0, LinkJunk);
    var lo, hi :| 0 <= lo <= hi <= |parts.0| && LinkTarget(link) == parts.0[lo..hi];
    assert forall k | 0 <= k < |parts.0| :: parts.0[k] == link[k];
  }

  // ---------------------------------------------------------------------
  // The current rotation.

  /** What the notification run needs to know about the schedule. */
  datatype RotationState = RotationState(allMembers: set<string>, currentMembers: set<string>, finalRotationStart: int)

  /** Rotation `k` is the current one: it and every rotation before it have
      started, and the one after it, if any, has not. */
  predicate IsCurrent(rotations: seq<Rotation>, now: int, k: int)
  {
    && 0 <= k < |rotations|
    && (forall j | 0 <= j <= k :: rotations[j].start <= now)
    && (k + 1 == |rotations| || rotations[k + 1].start > now)
  }

  /** At most one rotation is current. */
  lemma CurrentIsUnique(rotations: seq<Rotation>, now: int, k1: int, k2: int)
    requires IsCurrent(rotations, now, k1) && IsCurrent(rotations, now, k2)
    ensures k1 == k2
  {
  }

  /** The selection loop of `load_rotation_state`: walk the rotations in
      file order, stop at the first that starts after `now`, and keep the last
      one passed. */
  method SelectCurrentRotation(rotations: seq<Rotation>, now: int) returns (current: Option<Rotation>)
    ensures current.None? <==> |rotations| == 0 || rotations[0].start > now
    ensures current.Some? ==> exists k :: IsCurrent(rotations, now, k) && current.value == rotations[k]
  {
    current := None;
    var i := 0;
    while i < |rotations|
      invariant 0 <= i <= |rotations|
      invariant forall j | 0 <= j < i :: rotations[j].start <= now
      invariant current.None? <==> i == 0
      invariant i > 0 ==> current == Some(rotations[i - 1])
    {
      if rotations[i].start > now {
        break;
      }
      current := Some(rotations[i]);
      i := i + 1;
    }
    if current.Some? {
      assert IsCurrent(rotations, now, i - 1);
    }
  }

  /** `load_rotation_state` once the two files are parsed: `None` when no
      rotation has started yet, otherwise the whole pool, the people on the
      current rotation, and the start of the last rotation listed. */
  method LoadRotationState(members: seq<string>, rotations: seq<Rotation>, now: int)
    returns (state: Option<RotationState>)
    ensures state.None? <==> |rotations| == 0 || rotations[0].start > now
    ensures state.Some? ==>
      && state.value.allMembers == (set m | m in members)
      && state.value.finalRotationStart == rotations[|rotations| - 1].start
      && exists k :: IsCurrent(rotations, now, k) &&
           state.value.currentMembers == (set m | m in rotations[k].members)
  {
    var current := SelectCurrentRotation(rotations, now);
    if current.None? {
      return None;
    }
    state := Some(RotationState(
      (set m | m in members),
      (set m | m in current.value.members),
      rotations[|rotations| - 1].start));
  }

  // ---------------------------------------------------------------------
  // The nag about the end of the schedule.

  /** Where the reply goes; the login used to send is not modelled. */
  datatype EmailInfo = EmailInfo(recipient: string)

  /** What the nag says is wrong with the schedule. */
  datatype ScheduleIssue = LastRotationStartsAt(start: int) | NoRotationScheduled

  datatype NagEmail = NagEmail(recipient: string, issue: ScheduleIssue)

  /** The state after the gate, and the nag it tried to send, if any. */
  datatype GateOutcome = GateOutcome(state: ScriptState, email: Option<NagEmail>)

  /** A nag was recorded; Python's truthiness makes a recorded time of 0 count
      as none. */
  predicate Alerted(state: ScriptState)
  {
    state.lastAlertAboutRotation.Some? && state.lastAlertAboutRotation.value != 0
  }

  /** The last rotation starts within the nag window (or there is none), and no nag
      went out in the last day. */
  predicate NagDue(now: int, state: ScriptState, rotationState: Option<RotationState>)
  {
    && (rotationState.None? || rotationState.value.finalRotationStart - now <= NagWindow)
    && (!Alerted(state) || now - state.lastAlertAboutRotation.value >= RefreshInterval)
  }

  /** `maybe_email_about_rotation_end`, with `sendOk` the outcome of the send
      and `emailInfo == None` a dry run. When a nag is due, the new state
      records `now`, unless a real send failed, in which case the old state is
      kept so that the next run tries again. */
  function MaybeEmailAboutRotationEnd(now: int, state: ScriptState, rotationState: Option<RotationState>,
                                      emailInfo: Option<EmailInfo>, sendOk: bool): (r: GateOutcome)
    ensures !NagDue(now, state, rotationState) ==> r == GateOutcome(state, None)
    ensures NagDue(now, state, rotationState) && emailInfo.None? ==>
      r == GateOutcome(state.(lastAlertAboutRotation := Some(now)), None)
    ensures NagDue(now, state, rotationState) && emailInfo.Some? ==>
      && r.email.Some? && r.email.value.recipient == emailInfo.value.recipient
      && r.state == (if sendOk then state.(lastAlertAboutRotation := Some(now)) else state)
    ensures r.email.Some? ==> (r.email.value.issue == NoRotationScheduled <==> rotationState.None?)
  {
    if rotationState.Some? && rotationState.value.finalRotationStart - now > NagWindow then
      GateOutcome(state, None)
    else if Alerted(state) && now - state.lastAlertAboutRotation.value < RefreshInterval then
      GateOutcome(state, None)
    else
      var newState := state.(lastAlertAboutRotation := Some(now));
      match emailInfo
      case None => GateOutcome(newState, None)
      case Some(info) =>
        var issue := match rotationState
                     case Some(rs) => LastRotationStartsAt(rs.finalRotationStart)
                     case None => NoRotationScheduled;
        GateOutcome(if sendOk then newState else state, Some(NagEmail(info.recipient, issue)))
  }

  /** The gate never touches the advisory list, and either keeps the state
      or records `now`. */
  lemma GateKeepsAdvisories(now: int, state: ScriptState, rotationState: Option<RotationState>,
                            emailInfo: Option<EmailInfo>, sendOk: bool)
    ensures var r := MaybeEmailAboutRotationEnd(now, state, rotationState, emailInfo, sendOk);
      && r.state.seenAdvisories == state.seenAdvisories
      && (r.state == state || r.state.lastAlertAboutRotation == Some(now))
  {
  }

  /** Once a nag has been sent (or would have been, in a dry run), no other
      goes out for a day, whatever the schedule and the send outcomes. */
  lemma AtMostOneNagPerInterval(now1: int, now2: int, state: ScriptState,
                                rs1: Option<RotationState>, rs2: Option<RotationState>,
                                info1: Option<EmailInfo>, info2: Option<EmailInfo>, ok1: bool, ok2: bool)
    requires now1 != 0 && now1 <= now2 < now1 + RefreshInterval
    requires var r1 := MaybeEmailAboutRotationEnd(now1, state, rs1, info1, ok1);
      r1.state != state
    ensures var r1 := MaybeEmailAboutRotationEnd(now1, state, rs1, info1, ok1);
      MaybeEmailAboutRotationEnd(now2, r1.state, rs2, info2, ok2) == GateOutcome(r1.state, None)
  {
  }

  /** A failed send changes nothing, so the very next run is due again. */
  lemma FailedNagRetries(now1: int, now2: int, state: ScriptState, rs: Option<RotationState>,
                         info: EmailInfo, ok2: bool)
    requires NagDue(now1, state, rs)
    requires rs.None? || rs.value.finalRotationStart - now2 <= NagWindow
    requires now1 <= now2
    ensures var r1 := MaybeEmailAboutRotationEnd(now1, state, rs, Some(info), false);
      && r1.state == state
      && MaybeEmailAboutRotationEnd(now2, r1.state, rs, Some(info), ok2).email.Some?
  {
  }

  /** The three gate scenarios of the unit tests, at `now` = 2000 with a
      working mail server. */
  lemma GateExamples()
    ensures var s := ScriptState([], None);
      var rs := RotationState({"a", "b"}, {"a"}, 2000 - NagWindow + 1);
      MaybeEmailAboutRotationEnd(2000, s, Some(rs), Some(EmailInfo("foo@bar.com")), true)
        == GateOutcome(ScriptState([], Some(2000)), Some(NagEmail("foo@bar.com", LastRotationStartsAt(2000 - NagWindow + 1))))
    ensures var s := ScriptState([], None);
      var rs := RotationState({"a", "b"}, {"a"}, 2000 + NagWindow + 1);
      MaybeEmailAboutRotationEnd(2000, s, Some(rs), Some(EmailInfo("foo@bar.com")), true) == GateOutcome(s, None)
    ensures var s := ScriptState([], Some(2000));
      var rs := RotationState({"a", "b"}, {"a"}, 2000 - NagWindow);
      MaybeEmailAboutRotationEnd(2000, s, Some(rs), Some(EmailInfo("foo@bar.com")), true) == GateOutcome(s, None)
  {
  }

  // ---------------------------------------------------------------------
  // One run over the fetched advisories.

  datatype SecurityAdvisory = SecurityAdvisory(id: string, title: string, collaborators: seq<string>)

  /** An advisory email: who receives it, which advisory, and the people on
      call named in it. */
  datatype AdvisoryEmail = AdvisoryEmail(recipient: string, advisory: SecurityAdvisory, oncall: seq<string>)

  function Ids(advisories: seq<SecurityAdvisory>): (ids: seq<string>)
    ensures |ids| == |advisories|
    ensures forall i | 0 <= i < |ids| :: ids[i] == advisories[i].id
  {
    seq(|advisories|, i requires 0 <= i < |advisories| => advisories[i].id)
  }

  /** Ascending in Python's string order, equal neighbours allowed. */
  predicate Ascending(ids: seq<string>)
  {
    forall i, j | 0 <= i < j < |ids| :: !Below(ids[j], ids[i])
  }

  /** Someone on the current rotation already collaborates on the advisory. */
  predicate HasRotationMember(advisory: SecurityAdvisory, current: set<string>)
  {
    exists i | 0 <= i < |advisory.collaborators| :: advisory.collaborators[i] in current
  }

  /** The advisory is new to this state and nobody on call is on it yet. */
  predicate NeedsEmail(advisory: SecurityAdvisory, state: ScriptState, current: set<string>)
  {
    advisory.id !in state.seenAdvisories && !HasRotationMember(advisory, current)
  }

  /** The advisories a real (not dry) run emails about, in order. */
  function ToEmail(advisories: seq<SecurityAdvisory>, state: ScriptState, current: set<string>): (r: seq<SecurityAdvisory>)
    ensures |r| <= |advisories|
  {
    if |advisories| == 0 then []
    else
      var n := |advisories| - 1;
      var init := ToEmail(advisories[..n], state, current);
      if NeedsEmail(advisories[n], state, current) then init + [advisories[n]] else init
  }

  /** The ids whose email failed in a real run; `sendOk(i)` is the outcome
      of the send for the advisory at position `i`. */
  function Failures(advisories: seq<SecurityAdvisory>, state: ScriptState, current: set<string>,
                    sendOk: nat -> bool): (r: set<string>)
    ensures |r| <= |advisories|
  {
    if |advisories| == 0 then {}
    else
      var n := |advisories| - 1;
      var a := advisories[n];
      var init := Failures(advisories[..n], state, current, sendOk);
      if NeedsEmail(a, state, current) && !sendOk(n) then init + {a.id} else init
  }

  /** The ids whose email failed; none in a dry run. */
  function FailedIds(advisories: seq<SecurityAdvisory>, state: ScriptState, current: set<string>,
                     dryRun: bool, sendOk: nat -> bool): set<string>
  {
    if dryRun then {} else Failures(advisories, state, current, sendOk)
  }

  /** One email per advisory, all to the same recipient naming the same
      people. */
  function Mail(advisories: seq<SecurityAdvisory>, recipient: string, oncall: seq<string>): (emails: seq<AdvisoryEmail>)
    ensures |emails| == |advisories|
    ensures forall i | 0 <= i < |emails| :: emails[i] == AdvisoryEmail(recipient, advisories[i], oncall)
  {
    if |advisories| == 0 then []
    else
      var n := |advisories| - 1;
      Mail(advisories[..n], recipient, oncall) + [AdvisoryEmail(recipient, advisories[n], oncall)]
  }

  /** The fetched ids, in order, except the failed ones. */
  function KeptIds(advisories: seq<SecurityAdvisory>, failed: set<string>): (r: seq<string>)
    ensures |r| <= |advisories|
  {
    if |advisories| == 0 then []
    else
      var n := |advisories| - 1;
      KeptIds(advisories[..n], failed) + (if advisories[n].id in failed then [] else [advisories[n].id])
  }

  lemma {:induction false} ToEmailMeaning(advisories: seq<SecurityAdvisory>, state: ScriptState, current: set<string>)
    ensures forall a :: a in ToEmail(advisories, state, current) <==> a in advisories && NeedsEmail(a, state, current)
  {
    if |advisories| > 0 {
      var n := |advisories| - 1;
      ToEmailMeaning(advisories[..n], state, current);
      assert advisories == advisories[..n] + [advisories[n]];
    }
  }

  lemma {:induction false} FailuresMeaning(advisories: seq<SecurityAdvisory>, state: ScriptState, current: set<string>,
                                           sendOk: nat -> bool)
    ensures forall x :: x in Failures(advisories, state, current, sendOk) <==>
      exists i | 0 <= i < |advisories| ::
        advisories[i].id == x && NeedsEmail(advisories[i], state, current) && !sendOk(i)
  {
    if |advisories| > 0 {
      var n := |advisories| - 1;
      FailuresMeaning(advisories[..n], state, current, sendOk);
      assert advisories == advisories[..n] + [advisories[n]];
    }
  }

  lemma MailAppend(advisories: seq<SecurityAdvisory>, a: SecurityAdvisory, recipient: string, oncall: seq<string>)
    ensures Mail(advisories + [a], recipient, oncall) == Mail(advisories, recipient, oncall) + [AdvisoryEmail(recipient, a, oncall)]
  {
    assert (advisories + [a])[..|advisories|] == advisories;
  }

  /** The kept ids are a subsequence of the fetched ones: still ascending,
      so sorting them changes nothing. */
  lemma {:induction false} KeptIdsMeaning(advisories: seq<SecurityAdvisory>, failed: set<string>)
    requires Ascending(Ids(advisories))
    ensures forall x :: x in KeptIds(advisories, failed) <==> x in Ids(advisories) && x !in failed
    ensures Ascending(KeptIds(advisories, failed))
  {
    if |advisories| > 0 {
      var n := |advisories| - 1;
      var init := advisories[..n];
      assert Ids(init) == Ids(advisories)[..n];
      KeptIdsMeaning(init, failed);
      assert Ids(advisories) == Ids(init) + [advisories[n].id];
      var kept := KeptIds(advisories, failed);
      if advisories[n].id !in failed {
        forall i | 0 <= i < |kept| - 1
          ensures !Below(advisories[n].id, kept[i])
        {
          assert kept[i] in Ids(init);
          var j :| 0 <= j < n && Ids(init)[j] == kept[i];
          assert Ids(advisories)[j] == kept[i];
        }
      }
    }
  }

  lemma ToEmailStep(advisories: seq<SecurityAdvisory>, state: ScriptState, current: set<string>,
                    sendOk: nat -> bool, i: nat)
    requires i < |advisories|
    ensures var a := advisories[i];
      && ToEmail(advisories[..i + 1], state, current) ==
           (if NeedsEmail(a, state, current) then ToEmail(advisories[..i], state, current) + [a]
            else ToEmail(advisories[..i], state, current))
      && Failures(advisories[..i + 1], state, current, sendOk) ==
           (if NeedsEmail(a, state, current) && !sendOk(i) then Failures(advisories[..i], state, current, sendOk) + {a.id}
            else Failures(advisories[..i], state, current, sendOk))
  {
    assert advisories[..i + 1][..i] == advisories[..i];
  }

  /** `run_script` once the advisories are fetched (sorted by id, as the
      fetch leaves them). `sendOk(i)` says whether the email about the
      advisory at position `i` gets through, one outcome per attempt;
      `emailInfo == None` is a dry run. Returns the new state and the emails
      attempted. */
  method RunScript(state: ScriptState, rotationState: RotationState, advisories: seq<SecurityAdvisory>,
                   emailInfo: Option<EmailInfo>, sendOk: nat -> bool)
    returns (newState: ScriptState, sent: seq<AdvisoryEmail>)
    requires Ascending(Ids(advisories))
    ensures emailInfo.None? ==> sent == []
    ensures emailInfo.Some? ==>
      && |sent| == |ToEmail(advisories, state, rotationState.currentMembers)|
      && forall i | 0 <= i < |sent| ::
           sent[i].advisory == ToEmail(advisories, state, rotationState.currentMembers)[i]
           && sent[i].recipient == emailInfo.value.recipient
    ensures forall e | e in sent ::
      && StrictlyAscending(e.oncall)
      && forall m :: m in e.oncall <==> m in rotationState.currentMembers
    ensures newState.lastAlertAboutRotation == state.lastAlertAboutRotation
    ensures newState.seenAdvisories ==
      KeptIds(advisories, FailedIds(advisories, state, rotationState.currentMembers, emailInfo.None?, sendOk))
  {
    var current := rotationState.currentMembers;
    var failed: set<string> := {};
    var oncall := SortedNames(current);
    sent := [];
    for i := 0 to |advisories|
      invariant emailInfo.None? ==> sent == [] && failed == {}
      invariant emailInfo.Some? ==> sent == Mail(ToEmail(advisories[..i], state, current), emailInfo.value.recipient, oncall)
      invariant emailInfo.Some? ==> failed == Failures(advisories[..i], state, current, sendOk)
    {
      var advisory := advisories[i];
      ToEmailStep(advisories, state, current, sendOk, i);
      var hasRotationMember := HasRotationMember(advisory, current);
      if advisory.id in state.seenAdvisories {
        continue;
      }
      if hasRotationMember {
        continue;
      }
      if emailInfo.None? {
        continue;
      }
      var emailSuccess := sendOk(i);
      MailAppend(ToEmail(advisories[..i], state, current), advisory, emailInfo.value.recipient, oncall);
      sent := sent + [AdvisoryEmail(emailInfo.value.recipient, advisory, oncall)];
      if !emailSuccess {
        failed := failed + {advisory.id};
      }
    }
    assert advisories[..|advisories|] == advisories;
    assert forall e | e in sent :: e.oncall == oncall;
    newState := state.(seenAdvisories := KeptIds(advisories, failed));
  }

  /** What the next run sees: every fetched id that did not fail. Without an
      on-call collaborator, an advisory is emailed again exactly when its id
      failed in the previous run; with unique ids this means an advisory is
      emailed successfully at most once across runs. */
  lemma {:induction false} SecondRunRetriesOnlyFailures(state: ScriptState, current: set<string>,
                                                        advisories: seq<SecurityAdvisory>, dryRun: bool,
                                                        sendOk: nat -> bool)
    requires Ascending(Ids(advisories))
    ensures var failed := FailedIds(advisories, state, current, dryRun, sendOk);
      var next := ScriptState(KeptIds(advisories, failed), state.lastAlertAboutRotation);
      forall a | a in advisories ::
        (a in ToEmail(advisories, next, current) <==> a.id in failed && !HasRotationMember(a, current))
  {
    var failed := FailedIds(advisories, state, current, dryRun, sendOk);
    var next := ScriptState(KeptIds(advisories, failed), state.lastAlertAboutRotation);
    KeptIdsMeaning(advisories, failed);
    ToEmailMeaning(advisories, next, current);
    forall a | a in advisories
      ensures a.id in Ids(advisories)
    {
      var i :| 0 <= i < |advisories| && advisories[i] == a;
      assert Ids(advisories)[i] == a.id;
    }
  }

  /** A failed id was one the run tried: new to the state and with nobody on
      call collaborating. */
  lemma FailedWereNeeded(state: ScriptState, current: set<string>, advisories: seq<SecurityAdvisory>,
                         dryRun: bool, sendOk: nat -> bool, x: string)
    requires x in FailedIds(advisories, state, current, dryRun, sendOk)
    ensures !dryRun
    ensures exists i | 0 <= i < |advisories| ::
      advisories[i].id == x && NeedsEmail(advisories[i], state, current) && !sendOk(i)
  {
    FailuresMeaning(advisories, state, current, sendOk);
  }
}
