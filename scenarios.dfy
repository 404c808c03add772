/** Whole dialogues run through the handler models, from the first command
    to the sheet write they end in. */
module Scenarios {
  import opened Base
  import opened Text
  import opened Dates
  import opened Fsm
  import opened Sheets
  import EM = EventManagement
  import R = Recognition

  // ---------------------------------------------------------------------
  // Save Event

  /** The event type, then the date and the time as typed. */
  method EnterSchedule(w: EM.Wizards, conv: Conversation, u: UserId, eventType: string, dateText: string,
                       timeText: string)
    requires w.Valid() && !Contains(eventType, "event_type_")
    requires ParseDate(Strip(dateText)).Some? && ParseTime(Strip(timeText)).Some?
    modifies w, conv
    ensures w.Valid() && conv.StateOf(u) == Some(SaveZoom) && u in w.wizardData
    ensures w.wizardData[u] == EM.EventSession(eventType, Some(Strip(dateText)), Some(Strip(timeText)),
                                               None, None, None, None)
  {
    var r := w.StartSaveEvent(conv, u, Fetched([eventType]));
    RemovePrefix("event_type_", eventType);
    r := w.SelectEventType(conv, u, "event_type_" + eventType);
    r := w.ProcessDate(conv, u, dateText);
    r := w.ProcessTime(conv, u, timeText);
  }

  /** The link as typed, then the MC and the presenter from their menus;
      the speaker selection starts empty. */
  method EnterHosts(w: EM.Wizards, conv: Conversation, u: UserId, linkText: string, mc: string,
                    presenter: string, speakers: seq<string>)
    requires w.Valid() && conv.StateOf(u) == Some(SaveZoom) && u in w.wizardData
    requires StartsWith(Strip(linkText), "http") && |speakers| > 0
    requires !Contains(mc, "mc_") && !Contains(presenter, "presenter_")
    modifies w, conv
    ensures w.Valid() && u in w.wizardData
    ensures w.wizardData[u] == old(w.wizardData[u]).(zoomLink := Some(Strip(linkText)), mc := Some(mc),
                                                     presenter := Some(presenter), selectedImpacts := Some([]))
  {
    var r := w.ProcessZoomLink(conv, u, linkText, Fetched([mc]));
    RemovePrefix("mc_", mc);
    r := w.SelectMc(conv, u, "mc_" + mc, Fetched([presenter]));
    RemovePrefix("presenter_", presenter);
    r := w.SelectPresenter(conv, u, "presenter_" + presenter, Fetched(speakers));
  }

  /** Two different speakers ticked one after the other. */
  method TickSpeakers(w: EM.Wizards, u: UserId, a: string, b: string, speakers: seq<string>)
    requires w.Valid() && u in w.wizardData && w.wizardData[u].selectedImpacts == Some([])
    requires !Contains(a, "toggle_impact_") && !Contains(b, "toggle_impact_") && a != b
    modifies w
    ensures w.Valid() && u in w.wizardData
    ensures w.wizardData[u] == old(w.wizardData[u]).(selectedImpacts := Some([a, b]))
  {
    RemovePrefix("toggle_impact_", a);
    var r := w.ToggleImpact(u, "toggle_impact_" + a, Fetched(speakers));
    assert EM.Toggle([], a) == [a];
    assert b !in [a];
    RemovePrefix("toggle_impact_", b);
    r := w.ToggleImpact(u, "toggle_impact_" + b, Fetched(speakers));
    assert EM.Toggle([a], b) == [a, b];
  }

  /** An admin saves an event with two speakers. The first write fails,
      which keeps the whole session, so pressing Save again writes exactly
      one row holding the stripped answers, the speakers joined by ", ",
      the status "Scheduled" and an empty last cell. */
  method SaveEventDialogue(eventType: string, dateText: string, timeText: string, linkText: string,
                           mc: string, presenter: string, a: string, b: string)
    returns (afterFailure: seq<Row>, sessionKept: bool, afterRetry: seq<Row>)
    requires !Contains(eventType, "event_type_")
    requires ParseDate(Strip(dateText)).Some? && ParseTime(Strip(timeText)).Some?
    requires StartsWith(Strip(linkText), "http")
    requires !Contains(mc, "mc_") && !Contains(presenter, "presenter_")
    requires !Contains(a, "toggle_impact_") && !Contains(b, "toggle_impact_") && a != b
    ensures afterFailure == [] && sessionKept
    ensures afterRetry == [[eventType, Strip(dateText), Strip(timeText), Strip(linkText), mc, presenter,
                            a + ", " + b, "Scheduled", ""]]
  {
    var w := new EM.Wizards();
    var conv := new Conversation();
    var store := new Store([], []);
    var u: UserId := 7;
    EnterSchedule(w, conv, u, eventType, dateText, timeText);
    EnterHosts(w, conv, u, linkText, mc, presenter, [a, b]);
    TickSpeakers(w, u, a, b, [a, b]);
    var r := w.SaveEventFinal(conv, store, u, false);
    afterFailure := store.events;
    sessionKept := u in w.wizardData;
    assert Join(", ", [a, b]) == a + ", " + b;
    r := w.SaveEventFinal(conv, store, u, true);
    afterRetry := store.events;
  }

  // ---------------------------------------------------------------------
  // Recognition

  /** The two names as typed. */
  method EnterNames(conv: Conversation, u: UserId, uplineText: string, downlineText: string,
                    categories: seq<string>)
    requires conv.StateOf(u) == Some(RecUpline) && |categories| > 0
    modifies conv
    ensures conv.StateOf(u) == Some(RecCategory) && R.Progress(conv, u)
    ensures conv.DataOf(u)["upline"] == Strip(uplineText) && conv.DataOf(u)["downline"] == Strip(downlineText)
  {
    var r := R.ProcessUpline(conv, u, uplineText);
    r := R.ProcessDownline(conv, u, downlineText, Fetched(categories));
  }

  /** The category and the month, picked from their keyboards. */
  method PickCategoryAndMonth(conv: Conversation, u: UserId, category: string, month: string)
    requires conv.StateOf(u) == Some(RecCategory) && R.Progress(conv, u)
    requires !Contains(category, "cat_") && !Contains(month, "month_")
    modifies conv
    ensures conv.StateOf(u) == Some(RecRemarks) && R.Progress(conv, u)
    ensures conv.DataOf(u)["upline"] == old(conv.DataOf(u))["upline"]
    ensures conv.DataOf(u)["downline"] == old(conv.DataOf(u))["downline"]
    ensures conv.DataOf(u)["category"] == category && conv.DataOf(u)["month"] == month
  {
    RemovePrefix("cat_", category);
    var r := R.ProcessCategory(conv, u, "cat_" + category);
    RemovePrefix("month_", month);
    r := R.ProcessMonth(conv, u, "month_" + month);
  }

  /** A recognition entered step by step is written as one row holding the
      stripped names, the category and month picked, and the stripped
      remarks, in that order; the dialogue then ends. */
  method RecognitionDialogue(uplineText: string, downlineText: string, categories: seq<string>,
                             category: string, month: string, remarksText: string)
    returns (rows: seq<Row>, ended: bool)
    requires |categories| > 0
    requires !Contains(category, "cat_") && !Contains(month, "month_")
    ensures rows == [[Strip(uplineText), Strip(downlineText), category, month, Strip(remarksText)]]
    ensures ended
  {
    var conv := new Conversation();
    var store := new Store([], []);
    var u: UserId := 7;
    var r := R.Recog(conv, u);
    EnterNames(conv, u, uplineText, downlineText, categories);
    PickCategoryAndMonth(conv, u, category, month);
    r := R.ProcessRemarks(conv, store, u, remarksText, true);
    rows := store.recognitions;
    ended := conv.StateOf(u) == None;
  }
}
