/** The Save Event wizard and the MC / Presenter / Impact assignment flows
    of `commands/event_management.py`: two per-user session tables
    (`wizard_data`, `assignment_data`) driven by callback and message
    handlers, a multi-select toggle list for impact speakers, and commits
    that write to the sheet and only then forget the session. */
module EventManagement {
  import opened Base
  import opened Text
  import opened Layout
  import opened Dates
  import opened Fsm
  import opened Sheets

  /** Which role an assignment flow fills (`assignment_data[u]["type"]`). */
  datatype RoleKind = McRole | PresenterRole | ImpactRole

  /** One entry of `wizard_data`: the type is set when the entry is created,
      the other keys as the wizard reaches them. */
  datatype EventSession = EventSession(
    eventType: string,
    date: Option<string>,
    time: Option<string>,
    zoomLink: Option<string>,
    mc: Option<string>,
    presenter: Option<string>,
    selectedImpacts: Option<seq<string>>)

  /** One entry of `assignment_data`. */
  datatype AssignmentSession = AssignmentSession(
    kind: RoleKind,
    eventRow: Option<int>,
    selectedImpacts: Option<seq<string>>)

  /** What a handler tells the user. */
  datatype Notice =
    | StepType | StepDate | StepTime | StepZoom | StepMc | StepPresenter | StepImpacts
    | InvalidDate | InvalidTime | InvalidLink
    | NoEventTypes | NoMcs | NoPresenters | NoImpacts | NoUpcoming
    | PickEvent(kind: RoleKind) | PickMc | PickPresenter | PickImpacts
    | Failed | Expired | EventCancelled | AssignmentCancelled

  /** A handler's answer: a message, a message with a keyboard, a keyboard
      edited in place, a callback pop-up, a confirmation, or an exception
      that escapes the handler (the update is then dropped). */
  datatype Reply =
    | Say(notice: Notice)
    | Ask(notice: Notice, keyboard: Keyboard)
    | Redraw(keyboard: Keyboard)
    | Toast(notice: Notice)
    | EventSaved(eventType: string, date: string, time: string, mc: string, presenter: string, impacts: string)
    | RoleAssigned(kind: RoleKind, shown: string)
    | Unhandled

  const CancelText := "\U{274C} Cancel"
  const CancelEvent := Button(CancelText, "cancel_save_event")
  const CancelAssign := Button(CancelText, "cancel_assignment")
  const SaveEventButton := Button("\U{1F4BE} Save Event", "save_event_final")
  const SaveAssignmentButton := Button("\U{1F4BE} Save Assignment", "save_impact_assignment")
  const Checked: char := '\U{2611}'
  const Unchecked: char := '\U{2610}'

  /** The callback prefix of the event buttons of each assignment flow. */
  function EventPrefix(kind: RoleKind): string
  {
    match kind
    case McRole => "assign_mc_event_"
    case PresenterRole => "assign_presenter_event_"
    case ImpactRole => "assign_impact_event_"
  }

  // ---------------------------------------------------------------------
  // The multi-select list

  /** The first position of `x` in `s`. */
  function IndexOf(s: seq<string>, x: string): (i: nat)
    requires x in s
    ensures i < |s| && s[i] == x && x !in s[..i]
  {
    if s[0] == x then 0
    else
      var i := 1 + IndexOf(s[1..], x);
      assert s[..i] == [s[0]] + s[1..][..i - 1];
      i
  }

  /** `if x in sel: sel.remove(x) else: sel.append(x)`: `remove` drops the
      first occurrence. */
  function Toggle(s: seq<string>, x: string): seq<string>
  {
    if x in s then s[..IndexOf(s, x)] + s[IndexOf(s, x) + 1..] else s + [x]
  }

  /** On a list without repeats, toggling flips the membership of `x`,
      keeps everything else, and never creates a repeat. */
  lemma ToggleMembers(s: seq<string>, x: string)
    requires NoDup(s)
    ensures NoDup(Toggle(s, x))
    ensures forall y :: y in Toggle(s, x) <==> (y == x) != (y in s)
  {
    var t := Toggle(s, x);
    if x in s {
      var i := IndexOf(s, x);
      assert forall k :: 0 <= k < |t| ==> t[k] == if k < i then s[k] else s[k + 1];
      forall y
        ensures y in t <==> (y == x) != (y in s)
      {
        if y in s {
          var k :| 0 <= k < |s| && s[k] == y;
          if k < i {
            assert t[k] == y;
          } else if k > i {
            assert t[k - 1] == y;
          }
        }
      }
    }
  }

  /** Toggling twice gives back the same selection as a set: the speaker
      is removed and added again, or added and removed again. */
  lemma ToggleTwiceMultiset(s: seq<string>, x: string)
    requires NoDup(s)
    ensures multiset(Toggle(Toggle(s, x), x)) == multiset(s)
  {
    if x in s {
      var i := IndexOf(s, x);
      var t := s[..i] + s[i + 1..];
      assert Toggle(s, x) == t;
      assert x !in t by {
        ToggleMembers(s, x);
      }
      assert Toggle(t, x) == t + [x];
      assert s == s[..i] + [x] + s[i + 1..];
      assert multiset(s) == multiset(s[..i]) + multiset([x]) + multiset(s[i + 1..]);
    } else {
      var t := s + [x];
      assert Toggle(s, x) == t;
      assert IndexOf(t, x) == |s| by {
        assert t[..|s|] == s;
      }
      assert t[..|s|] == s && t[|s| + 1..] == [];
    }
  }

  /** Toggling twice gives back the same list only when the speaker was not
      selected or was selected last; otherwise it moves to the end. */
  lemma ToggleTwiceList(s: seq<string>, x: string)
    requires NoDup(s)
    ensures Toggle(Toggle(s, x), x) == s <==> x !in s || s[|s| - 1] == x
  {
    ToggleMembers(s, x);
    var t := Toggle(s, x);
    if x in s {
      var i := IndexOf(s, x);
      assert x !in t;
      assert Toggle(t, x) == t + [x];
      if i == |s| - 1 {
        assert t + [x] == s;
      } else {
        assert (t + [x])[i] == s[i + 1];
        assert s[i + 1] != s[i];
      }
    } else {
      assert t[..|s|] == s;
      assert IndexOf(t, x) == |s|;
    }
  }

  /** For instance, selecting A, then B, then deselecting and reselecting A
      leaves the speakers in the order B, A. */
  lemma ToggleReorders()
    ensures Toggle(Toggle(["A", "B"], "A"), "A") == ["B", "A"]
  {
    assert IndexOf(["A", "B"], "A") == 0;
    assert Toggle(["A", "B"], "A") == ["B"];
  }

  // ---------------------------------------------------------------------
  // Keyboards

  /** One button per label, each on its own row, then the cancel row. */
  ghost predicate IsColumnMenu(kb: Keyboard, labels: seq<string>, prefix: string, cancel: Button)
  {
    |kb| == |labels| + 1
    && (forall i :: 0 <= i < |labels| ==> kb[i] == [Button(labels[i], prefix + labels[i])])
    && kb[|labels|] == [cancel]
  }

  /** The `for item in items: buttons.append([...])` loops, then the
      cancel row. */
  method ColumnMenu(labels: seq<string>, prefix: string, cancel: Button) returns (kb: Keyboard)
    ensures IsColumnMenu(kb, labels, prefix, cancel)
  {
    kb := [];
    var i := 0;
    while i < |labels|
      invariant 0 <= i <= |labels| && |kb| == i
      invariant forall k :: 0 <= k < i ==> kb[k] == [Button(labels[k], prefix + labels[k])]
    {
      kb := kb + [[Button(labels[i], prefix + labels[i])]];
      i := i + 1;
    }
    kb := kb + [[cancel]];
  }

  /** "☑ name" for a selected speaker, "☐ name" otherwise. */
  function MarkedLabel(name: string, selected: seq<string>): (text: string)
    ensures |text| == |name| + 2 && text[2..] == name
    ensures text[0] == Checked <==> name in selected
    ensures text[0] == Unchecked <==> name !in selected
  {
    [if name in selected then Checked else Unchecked, ' '] + name
  }

  /** One toggle button per speaker, marked by the selection, then the save
      row and the cancel row. */
  ghost predicate IsImpactKeyboard(kb: Keyboard, impacts: seq<string>, selected: seq<string>,
                                   prefix: string, save: Button, cancel: Button)
  {
    |kb| == |impacts| + 2
    && (forall i :: 0 <= i < |impacts| ==>
          kb[i] == [Button(MarkedLabel(impacts[i], selected), prefix + impacts[i])])
    && kb[|impacts|] == [save] && kb[|impacts| + 1] == [cancel]
  }

  /** The speaker keyboard loop: `prefix = "☑" if imp in selected else "☐"`. */
  method ImpactKeyboard(impacts: seq<string>, selected: seq<string>, prefix: string,
                        save: Button, cancel: Button) returns (kb: Keyboard)
    ensures IsImpactKeyboard(kb, impacts, selected, prefix, save, cancel)
  {
    kb := [];
    var i := 0;
    while i < |impacts|
      invariant 0 <= i <= |impacts| && |kb| == i
      invariant forall k :: 0 <= k < i ==>
        kb[k] == [Button(MarkedLabel(impacts[k], selected), prefix + impacts[k])]
    {
      var mark := if impacts[i] in selected then Checked else Unchecked;
      kb := kb + [[Button([mark, ' '] + impacts[i], prefix + impacts[i])]];
      i := i + 1;
    }
    kb := kb + [[save]] + [[cancel]];
  }

  /** Every speaker of the redrawn keyboard shows "☑" exactly when it is
      selected and "☐" otherwise, followed by its name. */
  lemma ImpactMarks(kb: Keyboard, impacts: seq<string>, selected: seq<string>,
                    prefix: string, save: Button, cancel: Button, i: int)
    requires IsImpactKeyboard(kb, impacts, selected, prefix, save, cancel)
    requires 0 <= i < |impacts|
    ensures |kb[i]| == 1 && kb[i][0].text[2..] == impacts[i]
    ensures kb[i][0].text[0] == Checked <==> impacts[i] in selected
    ensures kb[i][0].text[0] == Unchecked <==> impacts[i] !in selected
    ensures kb[i][0].data == prefix + impacts[i]
  {
  }

  /** The cells an upcoming event is listed by. */
  predicate Listed(e: Record)
  {
    "date" in e && "time" in e && "type" in e
  }

  /** `f"{event['date']} {event['time']} — {event['type']}"`. */
  function EventLabel(e: Record): string
    requires Listed(e)
  {
    e["date"] + " " + e["time"] + " \U{2014} " + e["type"]
  }

  ghost predicate IsEventMenu(kb: Keyboard, events: seq<(int, Record)>, prefix: string)
  {
    |kb| == |events| + 1
    && (forall i :: 0 <= i < |events| ==>
          Listed(events[i].1) && kb[i] == [Button(EventLabel(events[i].1), prefix + Decimal(events[i].0))])
    && kb[|events|] == [CancelAssign]
  }

  /** The `for row_idx, event in events` loop of the assignment starts;
      None where `event[...]` raises `KeyError` for a missing cell. */
  method EventMenu(events: seq<(int, Record)>, prefix: string) returns (kb: Option<Keyboard>)
    ensures kb.None? <==> exists i :: 0 <= i < |events| && !Listed(events[i].1)
    ensures kb.Some? ==> IsEventMenu(kb.value, events, prefix)
  {
    var rows: Keyboard := [];
    var i := 0;
    while i < |events|
      invariant 0 <= i <= |events| && |rows| == i
      invariant forall k :: 0 <= k < i ==>
        Listed(events[k].1) && rows[k] == [Button(EventLabel(events[k].1), prefix + Decimal(events[k].0))]
    {
      var (row, e) := events[i];
      if !Listed(e) {
        return None;
      }
      rows := rows + [[Button(EventLabel(e), prefix + Decimal(row))]];
      i := i + 1;
    }
    return Some(rows + [[CancelAssign]]);
  }

  /** The row index put on an event button is the one the selection
      handler reads back with `int(data.replace(prefix, ""))`. */
  lemma EventButtonRoundTrip(kind: RoleKind, row: int)
    ensures ParseInt(RemoveAll(EventPrefix(kind) + Decimal(row), EventPrefix(kind))) == Some(row)
  {
    DecimalAvoids(row, EventPrefix(kind));
    RemovePrefix(EventPrefix(kind), Decimal(row));
    ParseDecimal(row);
  }

  // ---------------------------------------------------------------------
  // Sessions

  /** What the wizard guarantees about what it stored: the date and time
      are stripped and parse, the link starts with "http", and the
      selection has no repeats. */
  predicate EventSessionOk(s: EventSession)
  {
    (s.date.Some? ==> Strip(s.date.value) == s.date.value && ParseDate(s.date.value).Some?)
    && (s.time.Some? ==> Strip(s.time.value) == s.time.value && ParseTime(s.time.value).Some?)
    && (s.zoomLink.Some? ==> StartsWith(s.zoomLink.value, "http"))
    && (s.selectedImpacts.Some? ==> NoDup(s.selectedImpacts.value))
  }

  /** `data.get("selected_impacts", [])`. */
  function SelectedOf(s: Option<seq<string>>): seq<string>
  {
    if s.Some? then s.value else []
  }

  /** All the keys `save_event_final` reads with `data[...]`. */
  predicate Complete(s: EventSession)
  {
    s.date.Some? && s.time.Some? && s.zoomLink.Some? && s.mc.Some? && s.presenter.Some?
  }

  /** The nine cells `save_event_final` appends. */
  function EventRow(s: EventSession): (row: Row)
    requires Complete(s)
    ensures |row| == 9
  {
    [s.eventType, s.date.value, s.time.value, s.zoomLink.value, s.mc.value, s.presenter.value,
     Join(", ", SelectedOf(s.selectedImpacts)), "Scheduled", ""]
  }

  /** An event the wizard saves can be read back: `_parse_dt` accepts its
      date and time cells, and its link cell starts with "http". */
  lemma SavedRowParses(s: EventSession)
    requires EventSessionOk(s) && Complete(s)
    ensures ParseDt(EventRow(s)[1], EventRow(s)[2]).Some?
    ensures StartsWith(EventRow(s)[3], "http")
    ensures EventRow(s)[7] == "Scheduled"
  {
    var row := EventRow(s);
    assert row[1] == s.date.value && row[2] == s.time.value && row[3] == s.zoomLink.value;
    ParseDtResult(row[1], row[2]);
  }

  /** `", ".join(selected) if selected else "None"`. */
  function ShownImpacts(selected: seq<string>): (shown: string)
    ensures |selected| == 0 ==> shown == "None"
    ensures |selected| > 0 ==> shown == Join(", ", selected)
  {
    if |selected| == 0 then "None" else Join(", ", selected)
  }

  /** The people menu that ends `select_event_for_*`: single choice for
      the MC and the presenter, multi-select (nobody ticked yet) for the
      speakers, and the state that waits for the answer. */
  method PeopleMenu(conv: Conversation, u: UserId, kind: RoleKind, people: seq<string>) returns (reply: Reply)
    modifies conv
    ensures match kind
      case McRole =>
        reply.Ask? && reply.notice == PickMc
        && IsColumnMenu(reply.keyboard, people, "assign_mc_", CancelAssign)
        && conv.states == old(conv.states)[u := AssignMc]
      case PresenterRole =>
        reply.Ask? && reply.notice == PickPresenter
        && IsColumnMenu(reply.keyboard, people, "assign_presenter_", CancelAssign)
        && conv.states == old(conv.states)[u := AssignPresenter]
      case ImpactRole =>
        reply.Ask? && reply.notice == PickImpacts
        && IsImpactKeyboard(reply.keyboard, people, [], "toggle_assign_impact_", SaveAssignmentButton, CancelAssign)
        && conv.states == old(conv.states)[u := AssignImpact]
    ensures conv.data == old(conv.data)
  {
    var kb;
    match kind
    case McRole =>
      kb := ColumnMenu(people, "assign_mc_", CancelAssign);
      conv.SetState(u, AssignMc);
      reply := Ask(PickMc, kb);
    case PresenterRole =>
      kb := ColumnMenu(people, "assign_presenter_", CancelAssign);
      conv.SetState(u, AssignPresenter);
      reply := Ask(PickPresenter, kb);
    case ImpactRole =>
      kb := ImpactKeyboard(people, [], "toggle_assign_impact_", SaveAssignmentButton, CancelAssign);
      conv.SetState(u, AssignImpact);
      reply := Ask(PickImpacts, kb);
  }

  class Wizards {
    var wizardData: map<UserId, EventSession>
    var assignmentData: map<UserId, AssignmentSession>

    ghost predicate Valid()
      reads this
    {
      (forall u :: u in wizardData ==> EventSessionOk(wizardData[u]))
      && (forall u :: u in assignmentData ==>
            assignmentData[u].selectedImpacts.Some? ==> NoDup(assignmentData[u].selectedImpacts.value))
    }

    constructor ()
      ensures Valid() && wizardData == map[] && assignmentData == map[]
    {
      wizardData := map[];
      assignmentData := map[];
    }

    /** `start_save_event`: the event-type menu, or an error when the types
        cannot be read or there are none. No session is created yet. */
    method StartSaveEvent(conv: Conversation, u: UserId, eventTypes: Fetch<seq<string>>) returns (reply: Reply)
      modifies conv
      ensures eventTypes.FetchFailed? ==> reply == Say(Failed) && conv.states == old(conv.states)
      ensures eventTypes == Fetched([]) ==> reply == Say(NoEventTypes) && conv.states == old(conv.states)
      ensures eventTypes.Fetched? && |eventTypes.value| > 0 ==>
        reply.Ask? && reply.notice == StepType
        && IsColumnMenu(reply.keyboard, eventTypes.value, "event_type_", CancelEvent)
        && conv.states == old(conv.states)[u := SaveType]
      ensures conv.data == old(conv.data)
    {
      if eventTypes.FetchFailed? {
        return Say(Failed);
      }
      if |eventTypes.value| == 0 {
        return Say(NoEventTypes);
      }
      var kb := ColumnMenu(eventTypes.value, "event_type_", CancelEvent);
      conv.SetState(u, SaveType);
      return Ask(StepType, kb);
    }

    /** `select_event_type`: the session becomes exactly `{"type": t}`,
        whatever was there before. */
    method SelectEventType(conv: Conversation, u: UserId, data: string) returns (reply: Reply)
      requires Valid()
      modifies this, conv
      ensures Valid()
      ensures wizardData == old(wizardData)[u := EventSession(RemoveAll(data, "event_type_"), None, None, None, None, None, None)]
      ensures assignmentData == old(assignmentData)
      ensures conv.states == old(conv.states)[u := SaveDate] && conv.data == old(conv.data)
      ensures reply == Say(StepDate)
    {
      wizardData := wizardData[u := EventSession(RemoveAll(data, "event_type_"), None, None, None, None, None, None)];
      conv.SetState(u, SaveDate);
      return Say(StepDate);
    }

    /** `process_date`: the stripped text is stored and the wizard moves on
        only if it parses as `%Y-%m-%d`; otherwise nothing changes. */
    method ProcessDate(conv: Conversation, u: UserId, text: string) returns (reply: Reply)
      requires Valid() && conv.StateOf(u) == Some(SaveDate)
      modifies this, conv
      ensures Valid()
      ensures ParseDate(Strip(text)).None? ==>
        reply == Say(InvalidDate) && wizardData == old(wizardData) && conv.states == old(conv.states)
      ensures ParseDate(Strip(text)).Some? && u !in old(wizardData) ==>
        reply == Unhandled && wizardData == old(wizardData) && conv.states == old(conv.states)
      ensures ParseDate(Strip(text)).Some? && u in old(wizardData) ==>
        reply == Say(StepTime)
        && wizardData == old(wizardData)[u := old(wizardData)[u].(date := Some(Strip(text)))]
        && conv.states == old(conv.states)[u := SaveTime]
      ensures assignmentData == old(assignmentData) && conv.data == old(conv.data)
    {
      var d := Strip(text);
      if ParseDate(d).None? {
        return Say(InvalidDate);
      }
      if u !in wizardData {
        return Unhandled;
      }
      StripIdempotent(text);
      wizardData := wizardData[u := wizardData[u].(date := Some(d))];
      conv.SetState(u, SaveTime);
      return Say(StepTime);
    }

    /** `process_time`: the same with `%H:%M`. */
    method ProcessTime(conv: Conversation, u: UserId, text: string) returns (reply: Reply)
      requires Valid() && conv.StateOf(u) == Some(SaveTime)
      modifies this, conv
      ensures Valid()
      ensures ParseTime(Strip(text)).None? ==>
        reply == Say(InvalidTime) && wizardData == old(wizardData) && conv.states == old(conv.states)
      ensures ParseTime(Strip(text)).Some? && u !in old(wizardData) ==>
        reply == Unhandled && wizardData == old(wizardData) && conv.states == old(conv.states)
      ensures ParseTime(Strip(text)).Some? && u in old(wizardData) ==>
        reply == Say(StepZoom)
        && wizardData == old(wizardData)[u := old(wizardData)[u].(time := Some(Strip(text)))]
        && conv.states == old(conv.states)[u := SaveZoom]
      ensures assignmentData == old(assignmentData) && conv.data == old(conv.data)
    {
      var t := Strip(text);
      if ParseTime(t).None? {
        return Say(InvalidTime);
      }
      if u !in wizardData {
        return Unhandled;
      }
      StripIdempotent(text);
      wizardData := wizardData[u := wizardData[u].(time := Some(t))];
      conv.SetState(u, SaveZoom);
      return Say(StepZoom);
    }

    /** `process_zoom_link`: a stripped link not starting with "http" is
        rejected without being stored; a good one is stored, then the MC
        menu is shown if the MCs can be read and there are some. */
    method ProcessZoomLink(conv: Conversation, u: UserId, text: string, mcs: Fetch<seq<string>>) returns (reply: Reply)
      requires Valid() && conv.StateOf(u) == Some(SaveZoom)
      modifies this, conv
      ensures Valid()
      ensures !StartsWith(Strip(text), "http") ==>
        reply == Say(InvalidLink) && wizardData == old(wizardData) && conv.states == old(conv.states)
      ensures StartsWith(Strip(text), "http") && u !in old(wizardData) ==>
        reply == Unhandled && wizardData == old(wizardData) && conv.states == old(conv.states)
      ensures StartsWith(Strip(text), "http") && u in old(wizardData) ==>
        wizardData == old(wizardData)[u := old(wizardData)[u].(zoomLink := Some(Strip(text)))]
        && (mcs.FetchFailed? ==> reply == Say(Failed) && conv.states == old(conv.states))
        && (mcs == Fetched([]) ==> reply == Say(NoMcs) && conv.states == old(conv.states))
        && (mcs.Fetched? && |mcs.value| > 0 ==>
              reply.Ask? && reply.notice == StepMc && IsColumnMenu(reply.keyboard, mcs.value, "mc_", CancelEvent)
              && conv.states == old(conv.states)[u := SaveMc])
      ensures assignmentData == old(assignmentData) && conv.data == old(conv.data)
    {
      var link := Strip(text);
      if !StartsWith(link, "http") {
        return Say(InvalidLink);
      }
      if u !in wizardData {
        return Unhandled;
      }
      wizardData := wizardData[u := wizardData[u].(zoomLink := Some(link))];
      if mcs.FetchFailed? {
        return Say(Failed);
      }
      if |mcs.value| == 0 {
        return Say(NoMcs);
      }
      var kb := ColumnMenu(mcs.value, "mc_", CancelEvent);
      conv.SetState(u, SaveMc);
      return Ask(StepMc, kb);
    }

    /** `select_mc`: the MC is stored (before the presenters are read, so
        it stays stored if that fails), then the presenter menu. */
    method SelectMc(conv: Conversation, u: UserId, data: string, presenters: Fetch<seq<string>>) returns (reply: Reply)
      requires Valid()
      modifies this, conv
      ensures Valid()
      ensures u !in old(wizardData) ==>
        reply == Unhandled && wizardData == old(wizardData) && conv.states == old(conv.states)
      ensures u in old(wizardData) ==>
        wizardData == old(wizardData)[u := old(wizardData)[u].(mc := Some(RemoveAll(data, "mc_")))]
        && (presenters.FetchFailed? ==> reply == Say(Failed) && conv.states == old(conv.states))
        && (presenters == Fetched([]) ==> reply == Say(NoPresenters) && conv.states == old(conv.states))
        && (presenters.Fetched? && |presenters.value| > 0 ==>
              reply.Ask? && reply.notice == StepPresenter
              && IsColumnMenu(reply.keyboard, presenters.value, "presenter_", CancelEvent)
              && conv.states == old(conv.states)[u := SavePresenter])
      ensures assignmentData == old(assignmentData) && conv.data == old(conv.data)
    {
      if u !in wizardData {
        return Unhandled;
      }
      wizardData := wizardData[u := wizardData[u].(mc := Some(RemoveAll(data, "mc_")))];
      if presenters.FetchFailed? {
        return Say(Failed);
      }
      if |presenters.value| == 0 {
        return Say(NoPresenters);
      }
      var kb := ColumnMenu(presenters.value, "presenter_", CancelEvent);
      conv.SetState(u, SavePresenter);
      return Ask(StepPresenter, kb);
    }

    /** `select_presenter`: the presenter is stored; when there are
        speakers the selection starts empty and every speaker is shown
        unmarked. */
    method SelectPresenter(conv: Conversation, u: UserId, data: string, impacts: Fetch<seq<string>>) returns (reply: Reply)
      requires Valid()
      modifies this, conv
      ensures Valid()
      ensures u !in old(wizardData) ==>
        reply == Unhandled && wizardData == old(wizardData) && conv.states == old(conv.states)
      ensures u in old(wizardData) ==>
        var s := old(wizardData)[u].(presenter := Some(RemoveAll(data, "presenter_")));
        (impacts.FetchFailed? ==>
           reply == Say(Failed) && wizardData == old(wizardData)[u := s] && conv.states == old(conv.states))
        && (impacts == Fetched([]) ==>
              reply == Say(NoImpacts) && wizardData == old(wizardData)[u := s] && conv.states == old(conv.states))
        && (impacts.Fetched? && |impacts.value| > 0 ==>
              wizardData == old(wizardData)[u := s.(selectedImpacts := Some([]))]
              && reply.Ask? && reply.notice == StepImpacts
              && IsImpactKeyboard(reply.keyboard, impacts.value, [], "toggle_impact_", SaveEventButton, CancelEvent)
              && conv.states == old(conv.states)[u := SaveImpacts])
      ensures assignmentData == old(assignmentData) && conv.data == old(conv.data)
    {
      if u !in wizardData {
        return Unhandled;
      }
      var s := wizardData[u].(presenter := Some(RemoveAll(data, "presenter_")));
      wizardData := wizardData[u := s];
      if impacts.FetchFailed? {
        return Say(Failed);
      }
      if |impacts.value| == 0 {
        return Say(NoImpacts);
      }
      wizardData := wizardData[u := s.(selectedImpacts := Some([]))];
      var kb := ImpactKeyboard(impacts.value, [], "toggle_impact_", SaveEventButton, CancelEvent);
      conv.SetState(u, SaveImpacts);
      return Ask(StepImpacts, kb);
    }

    /** `toggle_impact`: without a session, "Session expired" and nothing
        changes; otherwise the speaker is toggled in the selection (created
        empty if missing) and the keyboard redrawn from it. */
    method ToggleImpact(u: UserId, data: string, impacts: Fetch<seq<string>>) returns (reply: Reply)
      requires Valid()
      modifies this
      ensures Valid()
      ensures u !in old(wizardData) ==> reply == Toast(Expired) && wizardData == old(wizardData)
      ensures u in old(wizardData) ==>
        var sel := Toggle(SelectedOf(old(wizardData)[u].selectedImpacts), RemoveAll(data, "toggle_impact_"));
        wizardData == old(wizardData)[u := old(wizardData)[u].(selectedImpacts := Some(sel))]
        && (impacts.FetchFailed? ==> reply == Toast(Failed))
        && (impacts.Fetched? ==>
              reply.Redraw?
              && IsImpactKeyboard(reply.keyboard, impacts.value, sel, "toggle_impact_", SaveEventButton, CancelEvent))
      ensures assignmentData == old(assignmentData)
    {
      if u !in wizardData {
        return Toast(Expired);
      }
      var s := wizardData[u];
      var sel := Toggle(SelectedOf(s.selectedImpacts), RemoveAll(data, "toggle_impact_"));
      ToggleMembers(SelectedOf(s.selectedImpacts), RemoveAll(data, "toggle_impact_"));
      wizardData := wizardData[u := s.(selectedImpacts := Some(sel))];
      if impacts.FetchFailed? {
        return Toast(Failed);
      }
      var kb := ImpactKeyboard(impacts.value, sel, "toggle_impact_", SaveEventButton, CancelEvent);
      return Redraw(kb);
    }

    /** `save_event_final`: appends exactly the nine-cell row and only then
        deletes the session and clears the dialogue. A missing field or a
        failed write keeps the session as it was. */
    method SaveEventFinal(conv: Conversation, store: Store, u: UserId, reachable: bool) returns (reply: Reply)
      requires Valid()
      modifies this, conv, store
      ensures Valid()
      ensures u !in old(wizardData) ==>
        reply == Toast(Expired) && wizardData == old(wizardData) && store.events == old(store.events)
        && conv.states == old(conv.states) && conv.data == old(conv.data)
      ensures u in old(wizardData) && (!Complete(old(wizardData)[u]) || !reachable) ==>
        reply == Say(Failed) && wizardData == old(wizardData) && store.events == old(store.events)
        && conv.states == old(conv.states) && conv.data == old(conv.data)
      ensures u in old(wizardData) && Complete(old(wizardData)[u]) && reachable ==>
        var s := old(wizardData)[u];
        store.events == old(store.events) + [EventRow(s)]
        && wizardData == old(wizardData) - {u}
        && conv.states == old(conv.states) - {u} && conv.data == old(conv.data) - {u}
        && reply == EventSaved(s.eventType, s.date.value, s.time.value, s.mc.value, s.presenter.value,
                               Join(", ", SelectedOf(s.selectedImpacts)))
      ensures assignmentData == old(assignmentData)
      ensures store.recognitions == old(store.recognitions) && store.roleUpdates == old(store.roleUpdates)
    {
      if u !in wizardData {
        return Toast(Expired);
      }
      var s := wizardData[u];
      if !Complete(s) {
        return Say(Failed);
      }
      var ok := store.AppendEvent(EventRow(s), reachable);
      if !ok {
        return Say(Failed);
      }
      wizardData := wizardData - {u};
      conv.Clear(u);
      return EventSaved(s.eventType, s.date.value, s.time.value, s.mc.value, s.presenter.value,
                        Join(", ", SelectedOf(s.selectedImpacts)));
    }

    /** `cancel_save_event`: the session is deleted if there is one and the
        dialogue cleared; a second cancel finds nothing left to change. */
    method CancelSaveEvent(conv: Conversation, u: UserId) returns (reply: Reply)
      requires Valid()
      modifies this, conv
      ensures Valid()
      ensures wizardData == old(wizardData) - {u} && assignmentData == old(assignmentData)
      ensures conv.states == old(conv.states) - {u} && conv.data == old(conv.data) - {u}
      ensures reply == Say(EventCancelled)
    {
      if u in wizardData {
        wizardData := wizardData - {u};
      }
      conv.Clear(u);
      return Say(EventCancelled);
    }

    /** `start_assign_mc`, `start_assign_presenter`, `start_assign_impact`:
        the menu of upcoming events, then a fresh session naming the role.
        Nothing changes when the events cannot be read, there are none, or
        one lacks a listed cell. */
    method StartAssign(conv: Conversation, u: UserId, kind: RoleKind, events: Fetch<seq<(int, Record)>>) returns (reply: Reply)
      requires Valid()
      modifies this, conv
      ensures Valid()
      ensures events.FetchFailed? || events == Fetched([])
              || (events.Fetched? && exists i :: 0 <= i < |events.value| && !Listed(events.value[i].1)) ==>
        reply == (if events == Fetched([]) then Say(NoUpcoming) else Say(Failed))
        && assignmentData == old(assignmentData) && conv.states == old(conv.states)
      ensures events.Fetched? && |events.value| > 0 && (forall i :: 0 <= i < |events.value| ==> Listed(events.value[i].1)) ==>
        reply.Ask? && reply.notice == PickEvent(kind)
        && IsEventMenu(reply.keyboard, events.value, EventPrefix(kind))
        && assignmentData == old(assignmentData)[u := AssignmentSession(kind, None, None)]
        && conv.states == old(conv.states)[u := AssignEvent]
      ensures wizardData == old(wizardData) && conv.data == old(conv.data)
    {
      if events.FetchFailed? {
        return Say(Failed);
      }
      if |events.value| == 0 {
        return Say(NoUpcoming);
      }
      var kb := EventMenu(events.value, EventPrefix(kind));
      if kb.None? {
        return Say(Failed);
      }
      conv.SetState(u, AssignEvent);
      assignmentData := assignmentData[u := AssignmentSession(kind, None, None)];
      return Ask(PickEvent(kind), kb.value);
    }

    /** `select_event_for_mc_assignment` and its presenter and impact
        twins: the row index read from the callback is stored in whatever
        session the user has (the role in it is not checked); the impact
        flow also starts an empty selection. Then the menu of people. */
    method SelectEventFor(conv: Conversation, u: UserId, kind: RoleKind, data: string, people: Fetch<seq<string>>)
      returns (reply: Reply)
      requires Valid()
      modifies this, conv
      ensures Valid()
      ensures ParseInt(RemoveAll(data, EventPrefix(kind))).None? || u !in old(assignmentData) ==>
        reply == Unhandled && assignmentData == old(assignmentData) && conv.states == old(conv.states)
      ensures ParseInt(RemoveAll(data, EventPrefix(kind))).Some? && u in old(assignmentData) ==>
        var row := ParseInt(RemoveAll(data, EventPrefix(kind))).value;
        var s := old(assignmentData)[u].(eventRow := Some(row));
        var s' := if kind == ImpactRole then s.(selectedImpacts := Some([])) else s;
        assignmentData == old(assignmentData)[u := s']
        && (people.FetchFailed? ==> reply == Say(Failed) && conv.states == old(conv.states))
        && (people == Fetched([]) ==>
              conv.states == old(conv.states)
              && reply == Say(match kind case McRole => NoMcs case PresenterRole => NoPresenters case ImpactRole => NoImpacts))
        && (people.Fetched? && |people.value| > 0 ==>
              match kind
              case McRole =>
                reply.Ask? && reply.notice == PickMc
                && IsColumnMenu(reply.keyboard, people.value, "assign_mc_", CancelAssign)
                && conv.states == old(conv.states)[u := AssignMc]
              case PresenterRole =>
                reply.Ask? && reply.notice == PickPresenter
                && IsColumnMenu(reply.keyboard, people.value, "assign_presenter_", CancelAssign)
                && conv.states == old(conv.states)[u := AssignPresenter]
              case ImpactRole =>
                reply.Ask? && reply.notice == PickImpacts
                && IsImpactKeyboard(reply.keyboard, people.value, [], "toggle_assign_impact_", SaveAssignmentButton, CancelAssign)
                && conv.states == old(conv.states)[u := AssignImpact])
      ensures wizardData == old(wizardData) && conv.data == old(conv.data)
    {
      var row := ParseInt(RemoveAll(data, EventPrefix(kind)));
      if row.None? || u !in assignmentData {
        return Unhandled;
      }
      var s := assignmentData[u].(eventRow := Some(row.value));
      if kind == ImpactRole {
        s := s.(selectedImpacts := Some([]));
      }
      assignmentData := assignmentData[u := s];
      if people.FetchFailed? {
        return Say(Failed);
      }
      if |people.value| == 0 {
        return Say(match kind case McRole => NoMcs case PresenterRole => NoPresenters case ImpactRole => NoImpacts);
      }
      reply := PeopleMenu(conv, u, kind, people.value);
    }

    /** The commit shared by the three assignment finals: the role update
        is sent for the stored row; only when it succeeds is the session
        deleted and the dialogue cleared. */
    method CommitAssignment(conv: Conversation, store: Store, u: UserId, update: RoleUpdate, reachable: bool,
                            kind: RoleKind, shown: string) returns (reply: Reply)
      requires Valid() && u in assignmentData
      modifies this, conv, store
      ensures Valid()
      ensures !reachable ==>
        reply == Say(Failed) && assignmentData == old(assignmentData) && store.roleUpdates == old(store.roleUpdates)
        && conv.states == old(conv.states) && conv.data == old(conv.data)
      ensures reachable ==>
        reply == RoleAssigned(kind, shown) && assignmentData == old(assignmentData) - {u}
        && store.roleUpdates == old(store.roleUpdates) + [update]
        && conv.states == old(conv.states) - {u} && conv.data == old(conv.data) - {u}
      ensures wizardData == old(wizardData)
      ensures store.events == old(store.events) && store.recognitions == old(store.recognitions)
    {
      var ok := store.UpdateEventRoles(update, reachable);
      if !ok {
        return Say(Failed);
      }
      assignmentData := assignmentData - {u};
      conv.Clear(u);
      return RoleAssigned(kind, shown);
    }

    /** `assign_mc_final`: no session is "expired"; a session without an
        event row fails (the `KeyError` is caught); otherwise only the MC is
        passed to `update_event_roles`, and the session goes after success. */
    method AssignMcFinal(conv: Conversation, store: Store, u: UserId, data: string, reachable: bool) returns (reply: Reply)
      requires Valid()
      modifies this, conv, store
      ensures Valid()
      ensures u !in old(assignmentData) ==>
        reply == Toast(Expired) && assignmentData == old(assignmentData) && store.roleUpdates == old(store.roleUpdates)
        && conv.states == old(conv.states) && conv.data == old(conv.data)
      ensures u in old(assignmentData) && (old(assignmentData)[u].eventRow.None? || !reachable) ==>
        reply == Say(Failed) && assignmentData == old(assignmentData) && store.roleUpdates == old(store.roleUpdates)
        && conv.states == old(conv.states) && conv.data == old(conv.data)
      ensures u in old(assignmentData) && old(assignmentData)[u].eventRow.Some? && reachable ==>
        var mc := RemoveAll(data, "assign_mc_");
        store.roleUpdates == old(store.roleUpdates) + [RoleUpdate(old(assignmentData)[u].eventRow.value, Some(mc), None, None)]
        && assignmentData == old(assignmentData) - {u} && conv.states == old(conv.states) - {u} && conv.data == old(conv.data) - {u}
        && reply == RoleAssigned(McRole, mc)
      ensures wizardData == old(wizardData)
      ensures store.events == old(store.events) && store.recognitions == old(store.recognitions)
    {
      var mc := RemoveAll(data, "assign_mc_");
      if u !in assignmentData {
        return Toast(Expired);
      }
      var row := assignmentData[u].eventRow;
      if row.None? {
        return Say(Failed);
      }
      reply := CommitAssignment(conv, store, u, RoleUpdate(row.value, Some(mc), None, None), reachable, McRole, mc);
    }

    /** `assign_presenter_final`: as for the MC, with only the presenter. */
    method AssignPresenterFinal(conv: Conversation, store: Store, u: UserId, data: string, reachable: bool) returns (reply: Reply)
      requires Valid()
      modifies this, conv, store
      ensures Valid()
      ensures u !in old(assignmentData) ==>
        reply == Toast(Expired) && assignmentData == old(assignmentData) && store.roleUpdates == old(store.roleUpdates)
        && conv.states == old(conv.states) && conv.data == old(conv.data)
      ensures u in old(assignmentData) && (old(assignmentData)[u].eventRow.None? || !reachable) ==>
        reply == Say(Failed) && assignmentData == old(assignmentData) && store.roleUpdates == old(store.roleUpdates)
        && conv.states == old(conv.states) && conv.data == old(conv.data)
      ensures u in old(assignmentData) && old(assignmentData)[u].eventRow.Some? && reachable ==>
        var p := RemoveAll(data, "assign_presenter_");
        store.roleUpdates == old(store.roleUpdates) + [RoleUpdate(old(assignmentData)[u].eventRow.value, None, Some(p), None)]
        && assignmentData == old(assignmentData) - {u} && conv.states == old(conv.states) - {u} && conv.data == old(conv.data) - {u}
        && reply == RoleAssigned(PresenterRole, p)
      ensures wizardData == old(wizardData)
      ensures store.events == old(store.events) && store.recognitions == old(store.recognitions)
    {
      var p := RemoveAll(data, "assign_presenter_");
      if u !in assignmentData {
        return Toast(Expired);
      }
      var row := assignmentData[u].eventRow;
      if row.None? {
        return Say(Failed);
      }
      reply := CommitAssignment(conv, store, u, RoleUpdate(row.value, None, Some(p), None), reachable, PresenterRole, p);
    }

    /** `toggle_assign_impact`: `toggle_impact` on the assignment session. */
    method ToggleAssignImpact(u: UserId, data: string, impacts: Fetch<seq<string>>) returns (reply: Reply)
      requires Valid()
      modifies this
      ensures Valid()
      ensures u !in old(assignmentData) ==> reply == Toast(Expired) && assignmentData == old(assignmentData)
      ensures u in old(assignmentData) ==>
        var sel := Toggle(SelectedOf(old(assignmentData)[u].selectedImpacts), RemoveAll(data, "toggle_assign_impact_"));
        assignmentData == old(assignmentData)[u := old(assignmentData)[u].(selectedImpacts := Some(sel))]
        && (impacts.FetchFailed? ==> reply == Toast(Failed))
        && (impacts.Fetched? ==>
              reply.Redraw?
              && IsImpactKeyboard(reply.keyboard, impacts.value, sel, "toggle_assign_impact_", SaveAssignmentButton, CancelAssign))
      ensures wizardData == old(wizardData)
    {
      if u !in assignmentData {
        return Toast(Expired);
      }
      var s := assignmentData[u];
      var sel := Toggle(SelectedOf(s.selectedImpacts), RemoveAll(data, "toggle_assign_impact_"));
      ToggleMembers(SelectedOf(s.selectedImpacts), RemoveAll(data, "toggle_assign_impact_"));
      assignmentData := assignmentData[u := s.(selectedImpacts := Some(sel))];
      if impacts.FetchFailed? {
        return Toast(Failed);
      }
      var kb := ImpactKeyboard(impacts.value, sel, "toggle_assign_impact_", SaveAssignmentButton, CancelAssign);
      return Redraw(kb);
    }

    /** `save_impact_assignment_final`: the whole selection (empty if none
        was made) is passed to `update_event_roles`; the confirmation shows
        "None" for an empty one. */
    method SaveImpactAssignmentFinal(conv: Conversation, store: Store, u: UserId, reachable: bool) returns (reply: Reply)
      requires Valid()
      modifies this, conv, store
      ensures Valid()
      ensures u !in old(assignmentData) ==>
        reply == Toast(Expired) && assignmentData == old(assignmentData) && store.roleUpdates == old(store.roleUpdates)
        && conv.states == old(conv.states) && conv.data == old(conv.data)
      ensures u in old(assignmentData) && (old(assignmentData)[u].eventRow.None? || !reachable) ==>
        reply == Say(Failed) && assignmentData == old(assignmentData) && store.roleUpdates == old(store.roleUpdates)
        && conv.states == old(conv.states) && conv.data == old(conv.data)
      ensures u in old(assignmentData) && old(assignmentData)[u].eventRow.Some? && reachable ==>
        var s := old(assignmentData)[u];
        store.roleUpdates == old(store.roleUpdates) + [RoleUpdate(s.eventRow.value, None, None, Some(SelectedOf(s.selectedImpacts)))]
        && assignmentData == old(assignmentData) - {u} && conv.states == old(conv.states) - {u} && conv.data == old(conv.data) - {u}
        && reply == RoleAssigned(ImpactRole, ShownImpacts(SelectedOf(s.selectedImpacts)))
      ensures wizardData == old(wizardData)
      ensures store.events == old(store.events) && store.recognitions == old(store.recognitions)
    {
      if u !in assignmentData {
        return Toast(Expired);
      }
      var s := assignmentData[u];
      if s.eventRow.None? {
        return Say(Failed);
      }
      var sel := SelectedOf(s.selectedImpacts);
      reply := CommitAssignment(conv, store, u, RoleUpdate(s.eventRow.value, None, None, Some(sel)), reachable,
                                ImpactRole, ShownImpacts(sel));
    }

    /** `cancel_assignment`: the session is deleted if there is one. */
    method CancelAssignment(conv: Conversation, u: UserId) returns (reply: Reply)
      requires Valid()
      modifies this, conv
      ensures Valid()
      ensures assignmentData == old(assignmentData) - {u} && wizardData == old(wizardData)
      ensures conv.states == old(conv.states) - {u} && conv.data == old(conv.data) - {u}
      ensures reply == Say(AssignmentCancelled)
    {
      if u in assignmentData {
        assignmentData := assignmentData - {u};
      }
      conv.Clear(u);
      return Say(AssignmentCancelled);
    }
  }
}
