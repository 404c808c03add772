/** The sheet-side logic of `sheets.py`: the Events and Recognitions tables
    as append-only row sequences, `_parse_dt`, `get_next_event`,
    `get_template` and `add_recognition`. Connecting to Google Sheets is not
    modelled: whether a remote call goes through is a parameter. */
module Sheets {
  import opened Base
  import opened Text
  import opened Dates

  /** A row as written with `append_row`. */
  type Row = seq<string>

  /** A row as read with `get_all_records()`: column header to cell text. */
  type Record = map<string, string>

  /** One call of `update_event_roles(row_idx, mc=..., presenter=..., impacts=...)`;
      the helper's body is not shown, so calls are recorded, not interpreted. */
  datatype RoleUpdate = RoleUpdate(row: int, mc: Option<string>, presenter: Option<string>, impacts: Option<seq<string>>)

  /** The spreadsheet as far as the bot writes it: rows appended to the
      Events and Recognitions tables and the role updates requested. */
  class Store {
    var events: seq<Row>
    var recognitions: seq<Row>
    var roleUpdates: seq<RoleUpdate>

    constructor (events0: seq<Row>, recognitions0: seq<Row>)
      ensures events == events0 && recognitions == recognitions0 && roleUpdates == []
    {
      events := events0;
      recognitions := recognitions0;
      roleUpdates := [];
    }

    /** `get_ws("Events").append_row(row)`; `reachable` says whether the
        remote calls succeed. On failure nothing is written. */
    method AppendEvent(row: Row, reachable: bool) returns (ok: bool)
      modifies this
      ensures ok == reachable
      ensures events == if ok then old(events) + [row] else old(events)
      ensures recognitions == old(recognitions) && roleUpdates == old(roleUpdates)
    {
      ok := reachable;
      if ok {
        events := events + [row];
      }
    }

    /** `add_recognition(upline, downline, category, month, remarks)`: appends
        exactly these five cells in this order, or raises (ok false) and
        writes nothing. */
    method AddRecognition(upline: string, downline: string, category: string, month: string,
                          remarks: string, reachable: bool) returns (ok: bool)
      modifies this
      ensures ok == reachable
      ensures recognitions == if ok then old(recognitions) + [[upline, downline, category, month, remarks]]
                              else old(recognitions)
      ensures events == old(events) && roleUpdates == old(roleUpdates)
    {
      ok := reachable;
      if ok {
        recognitions := recognitions + [[upline, downline, category, month, remarks]];
      }
    }

    /** `update_event_roles(...)`: recorded when it succeeds. */
    method UpdateEventRoles(u: RoleUpdate, reachable: bool) returns (ok: bool)
      modifies this
      ensures ok == reachable
      ensures roleUpdates == if ok then old(roleUpdates) + [u] else old(roleUpdates)
      ensures events == old(events) && recognitions == old(recognitions)
    {
      ok := reachable;
      if ok {
        roleUpdates := roleUpdates + [u];
      }
    }
  }

  /** `str(r.get(key, ""))`. */
  function Field(r: Record, key: string): string
  {
    if key in r then r[key] else ""
  }

  /** `_parse_dt(date_str, time_str)`: both parts stripped and parsed; the
      instant, or None if either part fails to parse. */
  function ParseDt(dateStr: string, timeStr: string): (r: Option<int>)
  {
    match (ParseDate(Strip(dateStr)), ParseTime(Strip(timeStr)))
    case (Some(d), Some(t)) => Some(Instant(d, t))
    case _ => None
  }

  /** `_parse_dt` yields None exactly when the stripped date or the stripped
      time does not parse, and otherwise the instant they name. */
  lemma ParseDtResult(dateStr: string, timeStr: string)
    ensures ParseDt(dateStr, timeStr).None?
        <==> ParseDate(Strip(dateStr)).None? || ParseTime(Strip(timeStr)).None?
    ensures ParseDt(dateStr, timeStr).Some? ==>
      var d, t := ParseDate(Strip(dateStr)).value, ParseTime(Strip(timeStr)).value;
      ValidDate(d) && ValidTime(t) && ParseDt(dateStr, timeStr).value == Instant(d, t)
  {
  }

  /** A date and time written in the documented zero-padded form, with any
      surrounding whitespace, give the instant they name. */
  lemma ParseDtFormatted(d: Date, t: Time, pad1: string, pad2: string)
    requires ValidDate(d) && ValidTime(t) && AllSpace(pad1) && AllSpace(pad2)
    ensures ParseDt(pad1 + FormatDate(d) + pad2, pad2 + FormatTime(t) + pad1) == Some(Instant(d, t))
  {
    StripPadded(pad1, FormatDate(d), pad2);
    StripPadded(pad2, FormatTime(t), pad1);
    ParseFormatDate(d);
    ParseFormatTime(t);
  }

  /** Stripping removes whitespace added around a word that has none at
      its ends. */
  lemma StripPadded(pre: string, s: string, post: string)
    requires AllSpace(pre) && AllSpace(post)
    requires |s| > 0 && !IsSpace(s[0]) && !IsSpace(s[|s| - 1])
    ensures Strip(pre + s + post) == s
  {
    TrimLeftPadded(pre, s + post);
    assert pre + s + post == pre + (s + post);
    TrimRightPadded(s, post);
  }

  lemma {:induction false} TrimLeftPadded(pre: string, s: string)
    requires AllSpace(pre) && |s| > 0 && !IsSpace(s[0])
    ensures TrimLeft(pre + s) == s
    decreases |pre|
  {
    if |pre| > 0 {
      assert (pre + s)[1..] == pre[1..] + s;
      TrimLeftPadded(pre[1..], s);
    } else {
      assert pre + s == s;
    }
  }

  lemma {:induction false} TrimRightPadded(s: string, post: string)
    requires AllSpace(post) && |s| > 0 && !IsSpace(s[|s| - 1])
    ensures TrimRight(s + post) == s
    decreases |post|
  {
    if |post| > 0 {
      assert (s + post)[..|s + post| - 1] == s + post[..|post| - 1];
      TrimRightPadded(s, post[..|post| - 1]);
    } else {
      assert s + post == s;
    }
  }

  /** The instant of an Events row, as `get_next_event` computes it: the
      `date` and `time` cells, stripped, then given to `_parse_dt`. */
  function EventInstant(r: Record): Option<int>
  {
    ParseDt(Strip(Field(r, "date")), Strip(Field(r, "time")))
  }

  /** Stripping before `_parse_dt` changes nothing, since it strips again. */
  lemma EventInstantStrip(r: Record)
    ensures EventInstant(r) == ParseDt(Field(r, "date"), Field(r, "time"))
  {
    StripIdempotent(Field(r, "date"));
    StripIdempotent(Field(r, "time"));
  }

  /** A row whose instant, under `instantOf`, exists and is at or after `now`. */
  predicate UpcomingBy<R>(instantOf: R -> Option<int>, r: R, now: int)
  {
    instantOf(r).Some? && instantOf(r).value >= now
  }

  /** Row `i` is the first of the rows with the smallest instant at or after
      `now`: upcoming, no upcoming row is earlier, and every upcoming row
      before it is strictly later. */
  ghost predicate IsEarliestAt<R>(instantOf: R -> Option<int>, rows: seq<R>, now: int, i: int)
  {
    0 <= i < |rows| && UpcomingBy(instantOf, rows[i], now)
    && (forall j :: 0 <= j < |rows| && UpcomingBy(instantOf, rows[j], now) ==>
          instantOf(rows[i]).value <= instantOf(rows[j]).value)
    && (forall j :: 0 <= j < i && UpcomingBy(instantOf, rows[j], now) ==>
          instantOf(rows[i]).value < instantOf(rows[j]).value)
  }

  /** The two loops of `get_next_event`, over any way of reading an instant
      off a row: collect the upcoming rows with their instants, then sort them
      by instant (stably) and take the first. Taking the first of a stable
      sort is taking the first row whose instant is smallest, which is what
      `FirstSmallest` does. */
  method EarliestUpcoming<R>(rows: seq<R>, instantOf: R -> Option<int>, now: int) returns (next: Option<R>)
    ensures next.None? <==> forall j :: 0 <= j < |rows| ==> !UpcomingBy(instantOf, rows[j], now)
    ensures next.Some? ==> exists i :: IsEarliestAt(instantOf, rows, now, i) && next.value == rows[i]
  {
    var upcoming, at := CollectUpcoming(rows, instantOf, now);
    if |upcoming| == 0 {
      return None;
    }
    var best := FirstSmallest(upcoming);
    next := Some(upcoming[best].1);
    BestIsEarliest(rows, instantOf, now, upcoming, at, best);
  }

  /** The first loop: the upcoming rows paired with their instants, in row
      order; `at` records where each came from. */
  method CollectUpcoming<R>(rows: seq<R>, instantOf: R -> Option<int>, now: int)
    returns (upcoming: seq<(int, R)>, ghost at: seq<int>)
    ensures |at| == |upcoming|
    ensures forall m :: 0 <= m < |at| ==>
      0 <= at[m] < |rows| && UpcomingBy(instantOf, rows[at[m]], now)
      && upcoming[m] == (instantOf(rows[at[m]]).value, rows[at[m]])
    ensures forall m, m' :: 0 <= m < m' < |at| ==> at[m] < at[m']
    ensures forall j :: 0 <= j < |rows| && UpcomingBy(instantOf, rows[j], now) ==> j in at
  {
    upcoming := [];
    at := [];
    var k := 0;
    while k < |rows|
      invariant 0 <= k <= |rows|
      invariant |at| == |upcoming|
      invariant forall m :: 0 <= m < |at| ==>
        0 <= at[m] < k && UpcomingBy(instantOf, rows[at[m]], now)
        && upcoming[m] == (instantOf(rows[at[m]]).value, rows[at[m]])
      invariant forall m, m' :: 0 <= m < m' < |at| ==> at[m] < at[m']
      invariant forall j :: 0 <= j < k && UpcomingBy(instantOf, rows[j], now) ==> j in at
    {
      var dt := instantOf(rows[k]);
      if dt.Some? && dt.value >= now {
        upcoming := upcoming + [(dt.value, rows[k])];
        at := at + [k];
      }
      k := k + 1;
    }
  }

  /** The second step: the position of the first smallest instant, which is
      what the head of a stable sort by instant is. */
  method FirstSmallest<R>(upcoming: seq<(int, R)>) returns (best: nat)
    requires |upcoming| > 0
    ensures best < |upcoming|
    ensures forall m :: 0 <= m < |upcoming| ==> upcoming[best].0 <= upcoming[m].0
    ensures forall m :: 0 <= m < best ==> upcoming[best].0 < upcoming[m].0
  {
    best := 0;
    var m := 1;
    while m < |upcoming|
      invariant 0 <= best < m <= |upcoming|
      invariant forall m' :: 0 <= m' < m ==> upcoming[best].0 <= upcoming[m'].0
      invariant forall m' :: 0 <= m' < best ==> upcoming[best].0 < upcoming[m'].0
    {
      if upcoming[m].0 < upcoming[best].0 {
        best := m;
      }
      m := m + 1;
    }
  }

  /** The first smallest instant among the collected rows belongs to the
      earliest upcoming row. */
  lemma BestIsEarliest<R>(rows: seq<R>, instantOf: R -> Option<int>, now: int, upcoming: seq<(int, R)>,
                          at: seq<int>, best: int)
    requires |at| == |upcoming| && 0 <= best < |upcoming|
    requires forall m :: 0 <= m < |at| ==>
      0 <= at[m] < |rows| && UpcomingBy(instantOf, rows[at[m]], now)
      && upcoming[m] == (instantOf(rows[at[m]]).value, rows[at[m]])
    requires forall m, m' :: 0 <= m < m' < |at| ==> at[m] < at[m']
    requires forall j :: 0 <= j < |rows| && UpcomingBy(instantOf, rows[j], now) ==> j in at
    requires forall m' :: 0 <= m' < |upcoming| ==> upcoming[best].0 <= upcoming[m'].0
    requires forall m' :: 0 <= m' < best ==> upcoming[best].0 < upcoming[m'].0
    ensures IsEarliestAt(instantOf, rows, now, at[best]) && upcoming[best].1 == rows[at[best]]
  {
    var i := at[best];
    forall j | 0 <= j < |rows| && UpcomingBy(instantOf, rows[j], now)
      ensures instantOf(rows[i]).value <= instantOf(rows[j]).value
      ensures j < i ==> instantOf(rows[i]).value < instantOf(rows[j]).value
    {
      var mj :| 0 <= mj < |at| && at[mj] == j;
      if j < i {
        assert mj < best;
      }
    }
  }

  /** `get_next_event()` with the Events records and `datetime.now(TZ)` as
      parameters: None for an empty sheet or when no row parses to a time at
      or after now; otherwise the first row with the earliest such time. */
  method GetNextEvent(rows: seq<Record>, now: int) returns (next: Option<Record>)
    ensures next.None? <==> forall j :: 0 <= j < |rows| ==> !UpcomingBy(EventInstant, rows[j], now)
    ensures next.Some? ==> exists i :: IsEarliestAt(EventInstant, rows, now, i) && next.value == rows[i]
  {
    if |rows| == 0 {
      return None;
    }
    next := EarliestUpcoming(rows, EventInstant, now);
  }

  /** The next event is never in the past and never an unparsable row. */
  lemma NextEventNotPast(rows: seq<Record>, now: int, i: int)
    requires IsEarliestAt(EventInstant, rows, now, i)
    ensures EventInstant(rows[i]).Some? && EventInstant(rows[i]).value >= now
  {
  }

  /** Only one row can be the next event. */
  lemma EarliestUnique<R>(instantOf: R -> Option<int>, rows: seq<R>, now: int, i: int, i': int)
    requires IsEarliestAt(instantOf, rows, now, i) && IsEarliestAt(instantOf, rows, now, i')
    ensures i == i'
  {
  }

  /** A Templates row whose stripped, lower-cased key equals `key.lower()`. */
  predicate KeyMatches(r: Record, key: string)
  {
    Lower(Strip(Field(r, "key"))) == Lower(key)
  }

  /** `row.get("url")`. */
  function UrlOf(r: Record): Option<string>
  {
    if "url" in r then Some(r["url"]) else None
  }

  /** `get_template(key)`: the url of the first row whose key matches,
      compared without case and surrounding whitespace; None if no row does. */
  method GetTemplate(rows: seq<Record>, key: string) returns (url: Option<string>)
    ensures (forall i :: 0 <= i < |rows| ==> !KeyMatches(rows[i], key)) ==> url == None
    ensures forall i :: (0 <= i < |rows| && KeyMatches(rows[i], key)
      && forall j :: 0 <= j < i ==> !KeyMatches(rows[j], key)) ==> url == UrlOf(rows[i])
  {
    var found := FirstWhere(rows, r => KeyMatches(r, key));
    if found.None? {
      return None;
    }
    return UrlOf(rows[found.value]);
  }

  /** The loop of `get_template`: the position of the first row satisfying
      `p`, or None when no row does. */
  method FirstWhere<R>(rows: seq<R>, p: R -> bool) returns (found: Option<nat>)
    ensures found.None? <==> forall i :: 0 <= i < |rows| ==> !p(rows[i])
    ensures found.Some? ==> found.value < |rows| && p(rows[found.value])
                            && forall j :: 0 <= j < found.value ==> !p(rows[j])
  {
    var k := 0;
    while k < |rows|
      invariant 0 <= k <= |rows|
      invariant forall j :: 0 <= j < k ==> !p(rows[j])
    {
      if p(rows[k]) {
        return Some(k);
      }
      k := k + 1;
    }
    return None;
  }

  /** Keys match regardless of the letter case of the key asked for. */
  lemma KeyMatchesIgnoresCase(r: Record, key: string)
    ensures KeyMatches(r, key) <==> KeyMatches(r, Lower(key))
  {
    assert Lower(Lower(key)) == Lower(key);
  }
}
