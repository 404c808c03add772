/** The recognition dialogue of `commands/recognition.py`: five steps
    (upline, downline, category, month, remarks) kept in the user's dialogue
    data, a category keyboard grouped by kind of category, a month grid, and
    a commit of the five fields in a fixed order. */
module Recognition {
  import opened Base
  import opened Text
  import opened Layout
  import opened Fsm
  import opened Sheets

  /** What a recognition handler tells the user. */
  datatype Notice =
    | AskUpline | AskDownline | NoCategories | AskCategory | AskMonth | AskRemarks
    | AddFailed | Cancelled

  datatype Reply =
    | Say(notice: Notice)
    | Ask(notice: Notice, keyboard: Keyboard)
    | Added(upline: string, downline: string, category: string, month: string, remarks: string)
    | Unhandled

  const Cancel := Button("\U{274C} Cancel", "cancel_recognition")

  const Months: seq<string> := ["Jan", "Feb", "Mar", "Apr", "May", "Jun",
                                "Jul", "Aug", "Sep", "Oct", "Nov", "Dec"]

  // ---------------------------------------------------------------------
  // Category buckets

  /** `[x for x in s if p(x)]`. */
  function Filter<T>(p: T -> bool, s: seq<T>): seq<T>
    decreases |s|
  {
    if |s| == 0 then [] else (if p(s[0]) then [s[0]] else []) + Filter(p, s[1..])
  }

  /** The comprehension keeps exactly the elements that pass the test. */
  lemma {:induction false} FilterMembers<T>(p: T -> bool, s: seq<T>)
    ensures forall x :: x in Filter(p, s) <==> x in s && p(x)
    decreases |s|
  {
    if |s| > 0 {
      FilterMembers(p, s[1..]);
      assert forall x :: x in s <==> x == s[0] || x in s[1..];
    }
  }

  /** The comprehension keeps source order: filtering a concatenation is
      concatenating the filtered parts. */
  lemma {:induction false} FilterConcat<T>(p: T -> bool, s: seq<T>, t: seq<T>)
    ensures Filter(p, s + t) == Filter(p, s) + Filter(p, t)
    decreases |s|
  {
    if |s| > 0 {
      assert (s + t)[1..] == s[1..] + t;
      FilterConcat(p, s[1..], t);
    } else {
      assert s + t == t;
    }
  }

  predicate IsPercentage(c: string)
  {
    EndsWith(c, "%")
  }

  predicate IsLevel(c: string)
  {
    c in ["Gold", "Platinum", "Executive Platinum", "Founder Platinum", "Core"]
  }

  predicate IsLc(c: string)
  {
    Contains(c, "LC") || c == "ELC"
  }

  predicate IsPace(c: string)
  {
    Contains(c, "PaceSetter")
  }

  function Percentage(cats: seq<string>): seq<string> { Filter(IsPercentage, cats) }
  function Levels(cats: seq<string>): seq<string> { Filter(IsLevel, cats) }
  function Lcs(cats: seq<string>): seq<string> { Filter(IsLc, cats) }
  function Paces(cats: seq<string>): seq<string> { Filter(IsPace, cats) }

  /** `[cat for cat in categories if cat not in percentage + level + lc + pace]`. */
  function Others(cats: seq<string>): seq<string>
  {
    var grouped := Percentage(cats) + Levels(cats) + Lcs(cats) + Paces(cats);
    Filter(c => c !in grouped, cats)
  }

  /** A category is in the other group exactly when it is in none of the
      four named groups, and every category lands in at least one group. */
  lemma Buckets(cats: seq<string>)
    ensures forall c :: c in Others(cats) <==> c in cats && !IsPercentage(c) && !IsLevel(c) && !IsLc(c) && !IsPace(c)
    ensures forall c :: c in cats ==>
      c in Percentage(cats) || c in Levels(cats) || c in Lcs(cats) || c in Paces(cats) || c in Others(cats)
  {
    FilterMembers(IsPercentage, cats);
    FilterMembers(IsLevel, cats);
    FilterMembers(IsLc, cats);
    FilterMembers(IsPace, cats);
    var grouped := Percentage(cats) + Levels(cats) + Lcs(cats) + Paces(cats);
    FilterMembers(c => c !in grouped, cats);
  }

  /** The `cat == 'ELC'` test adds nothing: "ELC" contains "LC". */
  lemma LcIsContainment(c: string)
    ensures IsLc(c) <==> Contains(c, "LC")
  {
    if c == "ELC" {
      assert Contains("LC", "LC");
      assert "ELC"[1..] == "LC";
    }
  }

  /** The groups can overlap: a category such as "LC 10%" is both a
      percentage and an LC category, and so gets two buttons. */
  lemma GroupsOverlap()
    ensures IsPercentage("LC 10%") && IsLc("LC 10%")
  {
    assert "LC 10%"[5..] == "%";
    assert "LC 10%"[..2] == "LC";
  }

  // ---------------------------------------------------------------------
  // Keyboards

  /** The category keyboard: the percentage, level and LC groups two per
      row, the PaceSetter group one per row, the other group two per row,
      then Cancel. */
  function CategoryLayout(cats: seq<string>): Keyboard
  {
    ButtonGrid(Chunks(Percentage(cats), 2), "cat_")
    + ButtonGrid(Chunks(Levels(cats), 2), "cat_")
    + ButtonGrid(Chunks(Lcs(cats), 2), "cat_")
    + ButtonGrid(Chunks(Paces(cats), 1), "cat_")
    + ButtonGrid(Chunks(Others(cats), 2), "cat_")
    + [[Cancel]]
  }

  /** `for category in pace_cats: keyboard.append([button])`. */
  method OnePerRow(items: seq<string>, prefix: string) returns (rows: Keyboard)
    ensures rows == ButtonGrid(Chunks(items, 1), prefix)
  {
    rows := [];
    var i := 0;
    while i < |items|
      invariant 0 <= i <= |items| && |rows| == i
      invariant forall k :: 0 <= k < i ==> rows[k] == [Button(items[k], prefix + items[k])]
    {
      rows := rows + [[Button(items[i], prefix + items[i])]];
      i := i + 1;
    }
    ChunksCeil(items, 1);
    forall k | 0 <= k < |items|
      ensures ButtonGrid(Chunks(items, 1), prefix)[k] == rows[k]
    {
      ChunkAt(items, 1, k);
      assert Chunks(items, 1)[k] == [items[k]];
      assert ButtonRow([items[k]], prefix) == [Button(items[k], prefix + items[k])];
    }
  }

  /** The keyboard-building part of `process_downline`. */
  method CategoryKeyboard(cats: seq<string>) returns (kb: Keyboard)
    ensures kb == CategoryLayout(cats)
  {
    var percent := GridRows(Percentage(cats), 2, "cat_");
    var levels := GridRows(Levels(cats), 2, "cat_");
    var lcs := GridRows(Lcs(cats), 2, "cat_");
    var paces := OnePerRow(Paces(cats), "cat_");
    var others := GridRows(Others(cats), 2, "cat_");
    kb := percent + levels + lcs + paces + others + [[Cancel]];
  }

  /** The labels of the category keyboard are the five groups in order,
      then Cancel; so every category offered is on it, and Cancel is the
      single button of the last row. */
  lemma CategoryLabels(cats: seq<string>)
    ensures Texts(CategoryLayout(cats)) ==
      Percentage(cats) + Levels(cats) + Lcs(cats) + Paces(cats) + Others(cats) + [Cancel.text]
    ensures forall c :: c in cats ==> c in Texts(CategoryLayout(cats))
    ensures CategoryLayout(cats)[|CategoryLayout(cats)| - 1] == [Cancel]
  {
    var p := ButtonGrid(Chunks(Percentage(cats), 2), "cat_");
    var l := ButtonGrid(Chunks(Levels(cats), 2), "cat_");
    var c := ButtonGrid(Chunks(Lcs(cats), 2), "cat_");
    var s := ButtonGrid(Chunks(Paces(cats), 1), "cat_");
    var o := ButtonGrid(Chunks(Others(cats), 2), "cat_");
    GridTexts(Percentage(cats), 2, "cat_");
    GridTexts(Levels(cats), 2, "cat_");
    GridTexts(Lcs(cats), 2, "cat_");
    GridTexts(Paces(cats), 1, "cat_");
    GridTexts(Others(cats), 2, "cat_");
    TextsConcat(p, l);
    TextsConcat(p + l, c);
    TextsConcat(p + l + c, s);
    TextsConcat(p + l + c + s, o);
    TextsConcat(p + l + c + s + o, [[Cancel]]);
    assert Texts([[Cancel]]) == [Cancel.text];
    Buckets(cats);
  }

  /** Rows of a two-per-row group hold one or two buttons, and only the
      group's last row may hold one; PaceSetter rows hold exactly one. */
  lemma CategoryRowSizes(cats: seq<string>, i: nat)
    ensures var g := ButtonGrid(Chunks(Percentage(cats), 2), "cat_");
      i < |g| ==> 0 < |g[i]| <= 2 && (i < |g| - 1 ==> |g[i]| == 2)
    ensures var g := ButtonGrid(Chunks(Levels(cats), 2), "cat_");
      i < |g| ==> 0 < |g[i]| <= 2 && (i < |g| - 1 ==> |g[i]| == 2)
    ensures var g := ButtonGrid(Chunks(Lcs(cats), 2), "cat_");
      i < |g| ==> 0 < |g[i]| <= 2 && (i < |g| - 1 ==> |g[i]| == 2)
    ensures var g := ButtonGrid(Chunks(Others(cats), 2), "cat_");
      i < |g| ==> 0 < |g[i]| <= 2 && (i < |g| - 1 ==> |g[i]| == 2)
    ensures var g := ButtonGrid(Chunks(Paces(cats), 1), "cat_");
      i < |g| ==> |g[i]| == 1
  {
    if i < |ButtonGrid(Chunks(Percentage(cats), 2), "cat_")| {
      GridRowSizes(Percentage(cats), 2, "cat_", i);
    }
    if i < |ButtonGrid(Chunks(Levels(cats), 2), "cat_")| {
      GridRowSizes(Levels(cats), 2, "cat_", i);
    }
    if i < |ButtonGrid(Chunks(Lcs(cats), 2), "cat_")| {
      GridRowSizes(Lcs(cats), 2, "cat_", i);
    }
    if i < |ButtonGrid(Chunks(Others(cats), 2), "cat_")| {
      GridRowSizes(Others(cats), 2, "cat_", i);
    }
    if i < |ButtonGrid(Chunks(Paces(cats), 1), "cat_")| {
      GridRowSizes(Paces(cats), 1, "cat_", i);
    }
  }

  /** The twelve months in order, three per row in four rows, then Cancel. */
  ghost predicate IsMonthGrid(kb: Keyboard)
  {
    |kb| == 5 && kb[4] == [Cancel]
    && forall i, j :: 0 <= i < 4 && 0 <= j < 3 ==>
      |kb[i]| == 3 && kb[i][j] == Button(Months[3 * i + j], "month_" + Months[3 * i + j])
  }

  /** The month keyboard loops of `process_category`. */
  method MonthKeyboard() returns (kb: Keyboard)
    ensures IsMonthGrid(kb)
  {
    var rows := GridRows(Months, 3, "month_");
    ChunksCeil(Months, 3);
    forall i, j | 0 <= i < 4 && 0 <= j < 3
      ensures |rows[i]| == 3 && rows[i][j] == Button(Months[3 * i + j], "month_" + Months[3 * i + j])
    {
      ChunkCovers(Months, 3, i, j);
      ChunkSize(Months, 3, i);
    }
    kb := rows + [[Cancel]];
  }

  // ---------------------------------------------------------------------
  // The dialogue

  /** What the earlier steps leave in the dialogue data for each state. */
  ghost predicate Progress(conv: Conversation, u: UserId)
    reads conv
  {
    var d := conv.DataOf(u);
    match conv.StateOf(u)
    case Some(RecDownline) => "upline" in d
    case Some(RecCategory) => "upline" in d && "downline" in d
    case Some(RecMonth) => "upline" in d && "downline" in d && "category" in d
    case Some(RecRemarks) => "upline" in d && "downline" in d && "category" in d && "month" in d
    case _ => true
  }

  /** `recog`: the dialogue is cleared and asks for the upline. */
  method Recog(conv: Conversation, u: UserId) returns (reply: Reply)
    modifies conv
    ensures conv.states == (old(conv.states) - {u})[u := RecUpline] && conv.data == old(conv.data) - {u}
    ensures Progress(conv, u)
    ensures reply == Say(AskUpline)
  {
    conv.Clear(u);
    conv.SetState(u, RecUpline);
    return Say(AskUpline);
  }

  /** `process_upline`: the stripped name is stored. */
  method ProcessUpline(conv: Conversation, u: UserId, text: string) returns (reply: Reply)
    requires conv.StateOf(u) == Some(RecUpline)
    modifies conv
    ensures conv.data == old(conv.data)[u := old(conv.DataOf(u))["upline" := Strip(text)]]
    ensures conv.states == old(conv.states)[u := RecDownline]
    ensures Progress(conv, u)
    ensures reply == Say(AskDownline)
  {
    conv.UpdateData(u, "upline", Strip(text));
    conv.SetState(u, RecDownline);
    return Say(AskDownline);
  }

  /** `process_downline`: the stripped name is stored; then the category
      keyboard, or, with no categories, the dialogue is cleared. Reading the
      categories is outside the handler's `try`, so a failure escapes. */
  method ProcessDownline(conv: Conversation, u: UserId, text: string, categories: Fetch<seq<string>>)
    returns (reply: Reply)
    requires conv.StateOf(u) == Some(RecDownline) && Progress(conv, u)
    modifies conv
    ensures Progress(conv, u)
    ensures categories.FetchFailed? ==>
      reply == Unhandled && conv.states == old(conv.states)
      && conv.data == old(conv.data)[u := old(conv.DataOf(u))["downline" := Strip(text)]]
    ensures categories == Fetched([]) ==>
      reply == Say(NoCategories) && conv.states == old(conv.states) - {u} && conv.data == old(conv.data) - {u}
    ensures categories.Fetched? && |categories.value| > 0 ==>
      reply == Ask(AskCategory, CategoryLayout(categories.value))
      && conv.states == old(conv.states)[u := RecCategory]
      && conv.data == old(conv.data)[u := old(conv.DataOf(u))["downline" := Strip(text)]]
  {
    conv.UpdateData(u, "downline", Strip(text));
    if categories.FetchFailed? {
      return Unhandled;
    }
    if |categories.value| == 0 {
      conv.Clear(u);
      return Say(NoCategories);
    }
    var kb := CategoryKeyboard(categories.value);
    conv.SetState(u, RecCategory);
    return Ask(AskCategory, kb);
  }

  /** `process_category`: the category from the callback is stored and the
      month grid shown. */
  method ProcessCategory(conv: Conversation, u: UserId, data: string) returns (reply: Reply)
    requires conv.StateOf(u) == Some(RecCategory) && Progress(conv, u)
    modifies conv
    ensures conv.data == old(conv.data)[u := old(conv.DataOf(u))["category" := RemoveAll(data, "cat_")]]
    ensures conv.states == old(conv.states)[u := RecMonth]
    ensures Progress(conv, u)
    ensures reply.Ask? && reply.notice == AskMonth && IsMonthGrid(reply.keyboard)
  {
    conv.UpdateData(u, "category", RemoveAll(data, "cat_"));
    var kb := MonthKeyboard();
    conv.SetState(u, RecMonth);
    return Ask(AskMonth, kb);
  }

  /** `process_month`: the month from the callback is stored. */
  method ProcessMonth(conv: Conversation, u: UserId, data: string) returns (reply: Reply)
    requires conv.StateOf(u) == Some(RecMonth) && Progress(conv, u)
    modifies conv
    ensures conv.data == old(conv.data)[u := old(conv.DataOf(u))["month" := RemoveAll(data, "month_")]]
    ensures conv.states == old(conv.states)[u := RecRemarks]
    ensures Progress(conv, u)
    ensures reply == Say(AskRemarks)
  {
    conv.UpdateData(u, "month", RemoveAll(data, "month_"));
    conv.SetState(u, RecRemarks);
    return Say(AskRemarks);
  }

  /** `process_remarks`: the stripped remarks are stored, the five fields
      are passed to `add_recognition` in the order upline, downline,
      category, month, remarks, and the dialogue is cleared whether or not
      that succeeds. A missing field raises inside the `try` and is
      reported like a failed write. */
  method ProcessRemarks(conv: Conversation, store: Store, u: UserId, text: string, reachable: bool)
    returns (reply: Reply)
    requires conv.StateOf(u) == Some(RecRemarks)
    modifies conv, store
    ensures conv.states == old(conv.states) - {u} && conv.data == old(conv.data) - {u}
    ensures var d := old(conv.DataOf(u));
      var has := "upline" in d && "downline" in d && "category" in d && "month" in d;
      (has && reachable ==>
         store.recognitions == old(store.recognitions)
           + [[d["upline"], d["downline"], d["category"], d["month"], Strip(text)]]
         && reply == Added(d["upline"], d["downline"], d["category"], d["month"], Strip(text)))
      && (!(has && reachable) ==> store.recognitions == old(store.recognitions) && reply == Say(AddFailed))
    ensures old(Progress(conv, u)) && reachable ==> reply.Added?
    ensures store.events == old(store.events) && store.roleUpdates == old(store.roleUpdates)
  {
    conv.UpdateData(u, "remarks", Strip(text));
    var d := conv.DataOf(u);
    if "upline" in d && "downline" in d && "category" in d && "month" in d {
      var ok := store.AddRecognition(d["upline"], d["downline"], d["category"], d["month"], d["remarks"], reachable);
      if ok {
        reply := Added(d["upline"], d["downline"], d["category"], d["month"], d["remarks"]);
      } else {
        reply := Say(AddFailed);
      }
    } else {
      reply := Say(AddFailed);
    }
    conv.Clear(u);
  }

  /** `cancel_recognition`: the dialogue is cleared. */
  method CancelRecognition(conv: Conversation, u: UserId) returns (reply: Reply)
    modifies conv
    ensures conv.states == old(conv.states) - {u} && conv.data == old(conv.data) - {u}
    ensures reply == Say(Cancelled)
  {
    conv.Clear(u);
    return Say(Cancelled);
  }
}
