/** The recognition listing of `commands/list_recognitions.py`: the month
    and category filter keyboards, and `display_recognitions`, which sends
    the recognitions in messages of ten, numbered across all messages. A
    message is modelled by its content (entry numbers, fields, whether the
    remarks line and the page footer are there), not by its HTML text. */
module ListRecognitions {
  import opened Base
  import opened Layout

  /** One recognition as `get_recognitions()` returns it. */
  datatype Recognition = Recognition(upline: string, downline: string, category: string, month: string, remarks: string)

  /** One numbered entry of a message; the remarks line is present only for
      non-empty remarks (`if rec['remarks']:`). */
  datatype Entry = Entry(number: int, upline: string, downline: string, category: string, month: string,
                         remarks: Option<string>)

  /** A message sent by `display_recognitions`. */
  datatype Message =
    | NotFound
    | Page(title: string, entries: seq<Entry>, footer: Option<(int, int)>)

  const PageSize := 10

  const Cancel := Button("\U{274C} Cancel", "cancel_list_recs")

  /** The entry numbered `number` for `r`. */
  function EntryOf(number: int, r: Recognition): (e: Entry)
    ensures e.remarks.Some? <==> r.remarks != ""
    ensures e.remarks.Some? ==> e.remarks.value == r.remarks
  {
    Entry(number, r.upline, r.downline, r.category, r.month,
          if r.remarks != "" then Some(r.remarks) else None)
  }

  /** The messages for a non-empty list: one per chunk of ten, entry `j` of
      chunk `i` numbered `i * 10 + j + 1`, and a "Page k of m" footer only
      when there are several chunks. */
  function Pages(recs: seq<Recognition>, title: string): seq<Message>
  {
    var chunks := Chunks(recs, PageSize);
    seq(|chunks|, i requires 0 <= i < |chunks| =>
      Page(title,
           seq(|chunks[i]|, j requires 0 <= j < |chunks[i]| => EntryOf(i * PageSize + j + 1, chunks[i][j])),
           if |chunks| > 1 then Some((i + 1, |chunks|)) else None))
  }

  /** `display_recognitions(message, recognitions, title)`: the outer loop
      over the chunks and the inner loop over each chunk's entries. */
  method DisplayRecognitions(recs: seq<Recognition>, title: string) returns (msgs: seq<Message>)
    ensures |recs| == 0 ==> msgs == [NotFound]
    ensures |recs| > 0 ==> msgs == Pages(recs, title)
  {
    if |recs| == 0 {
      return [NotFound];
    }
    var chunks := Chunks(recs, PageSize);
    msgs := [];
    var i := 0;
    while i < |chunks|
      invariant 0 <= i <= |chunks|
      invariant msgs == Pages(recs, title)[..i]
    {
      var chunk := chunks[i];
      var entries := [];
      var j := 0;
      while j < |chunk|
        invariant 0 <= j <= |chunk|
        invariant entries == seq(j, k requires 0 <= k < j => EntryOf(i * PageSize + k + 1, chunk[k]))
      {
        var rec := chunk[j];
        var remarks := if rec.remarks != "" then Some(rec.remarks) else None;
        entries := entries + [Entry(i * PageSize + j + 1, rec.upline, rec.downline, rec.category, rec.month, remarks)];
        j := j + 1;
      }
      var footer := if |chunks| > 1 then Some((i + 1, |chunks|)) else None;
      assert Pages(recs, title)[..i + 1] == Pages(recs, title)[..i] + [Page(title, entries, footer)];
      msgs := msgs + [Page(title, entries, footer)];
      i := i + 1;
    }
    assert Pages(recs, title)[..i] == Pages(recs, title);
  }

  /** There are ceil(n / 10) messages, each holding one to ten entries,
      all but the last holding ten; the footer appears exactly when there
      is more than one message and then counts them. */
  lemma PageShape(recs: seq<Recognition>, title: string, i: int)
    requires |recs| > 0 && 0 <= i < |Pages(recs, title)|
    ensures |Pages(recs, title)| == (|recs| + 9) / 10
    ensures Pages(recs, title)[i].Page? && Pages(recs, title)[i].title == title
    ensures 0 < |Pages(recs, title)[i].entries| <= 10
    ensures i < |Pages(recs, title)| - 1 ==> |Pages(recs, title)[i].entries| == 10
    ensures Pages(recs, title)[i].footer.Some? <==> |Pages(recs, title)| > 1
    ensures Pages(recs, title)[i].footer.Some? ==> Pages(recs, title)[i].footer.value == (i + 1, |Pages(recs, title)|)
  {
    ChunksCeil(recs, PageSize);
    ChunkSize(recs, PageSize, i);
  }

  /** Entry `j` of message `i` is recognition number `i * 10 + j + 1`, that
      is, the one at position `i * 10 + j` of the input. */
  lemma EntryAt(recs: seq<Recognition>, title: string, i: int, j: int)
    requires 0 <= i < |Pages(recs, title)| && 0 <= j < |Pages(recs, title)[i].entries|
    ensures i * 10 + j < |recs|
    ensures Pages(recs, title)[i].entries[j] == EntryOf(i * 10 + j + 1, recs[i * 10 + j])
  {
    ChunkAt(recs, PageSize, i);
  }

  /** Every recognition is listed: recognition `k` (from 0) is entry
      `k % 10` of message `k / 10`, numbered `k + 1`. So the numbers run
      1..n across the messages in input order. */
  lemma EveryRecognitionListed(recs: seq<Recognition>, title: string, k: int)
    requires 0 <= k < |recs|
    ensures k / 10 < |Pages(recs, title)| && k % 10 < |Pages(recs, title)[k / 10].entries|
    ensures Pages(recs, title)[k / 10].entries[k % 10] == EntryOf(k + 1, recs[k])
  {
    ChunkCovers(recs, PageSize, k / 10, k % 10);
  }

  /** The entries of the messages, one message after the other. */
  function AllEntries(msgs: seq<Message>): seq<Entry>
    decreases |msgs|
  {
    if |msgs| == 0 then [] else (if msgs[0].Page? then msgs[0].entries else []) + AllEntries(msgs[1..])
  }

  /** Concatenating the messages' entries gives every recognition once, in
      order, numbered from 1. */
  lemma EntriesInOrder(recs: seq<Recognition>, title: string)
    ensures AllEntries(Pages(recs, title)) == NumberFrom(recs, 0)
  {
    var pages := Pages(recs, title);
    var ns := Numbered(Chunks(recs, PageSize), 0);
    forall i | 0 <= i < |pages|
      ensures pages[i].Page? && pages[i].entries == ns[i]
    {
      assert (0 + i) * PageSize == i * PageSize;
    }
    SameEntries(pages, ns);
    FlattenNumbered(recs, 0);
  }

  lemma {:induction false} SameEntries(msgs: seq<Message>, ns: seq<seq<Entry>>)
    requires |msgs| == |ns| && forall i :: 0 <= i < |msgs| ==> msgs[i].Page? && msgs[i].entries == ns[i]
    ensures AllEntries(msgs) == Flatten(ns)
    decreases |msgs|
  {
    if |msgs| > 0 {
      SameEntries(msgs[1..], ns[1..]);
    }
  }

  /** The entries for `s` numbered from `start + 1`. */
  function NumberFrom(s: seq<Recognition>, start: int): seq<Entry>
  {
    seq(|s|, k requires 0 <= k < |s| => EntryOf(start + k + 1, s[k]))
  }

  /** The entries of each chunk, chunk `i` numbered from `(first + i) * 10 + 1`. */
  function Numbered(chunks: seq<seq<Recognition>>, first: int): seq<seq<Entry>>
  {
    seq(|chunks|, i requires 0 <= i < |chunks| => NumberFrom(chunks[i], (first + i) * PageSize))
  }

  lemma {:induction false} FlattenNumbered(recs: seq<Recognition>, first: nat)
    ensures Flatten(Numbered(Chunks(recs, PageSize), first)) == NumberFrom(recs, first * PageSize)
    decreases |recs|
  {
    var chunks := Chunks(recs, PageSize);
    var ns := Numbered(chunks, first);
    if |recs| > PageSize {
      FlattenNumbered(recs[PageSize..], first + 1);
      assert ns[1..] == Numbered(Chunks(recs[PageSize..], PageSize), first + 1);
      assert ns[0] == NumberFrom(recs[..PageSize], first * PageSize);
      assert (first + 1) * PageSize == first * PageSize + PageSize;
      assert NumberFrom(recs, first * PageSize)
          == NumberFrom(recs[..PageSize], first * PageSize) + NumberFrom(recs[PageSize..], (first + 1) * PageSize);
    } else if |recs| > 0 {
      assert ns[1..] == [];
      assert ns[0] == NumberFrom(recs, first * PageSize);
    }
  }

  /** What a filter handler answers. */
  datatype Reply =
    | NoRecognitions
    | NoCategories
    | Choose(keyboard: Keyboard)
    | Unhandled

  /** The items two per row in their order, then Cancel. */
  method FilterKeyboard(items: seq<string>, prefix: string) returns (kb: Keyboard)
    ensures kb == ButtonGrid(Chunks(items, 2), prefix) + [[Cancel]]
  {
    var rows := GridRows(items, 2, prefix);
    kb := rows + [[Cancel]];
  }

  /** A filter keyboard lists the items in order, two to a row with only the
      last row possibly holding one, each sending `prefix` + the item, and
      ends with the Cancel row. */
  lemma FilterKeyboardShape(items: seq<string>, prefix: string, i: nat)
    ensures var kb := ButtonGrid(Chunks(items, 2), prefix) + [[Cancel]];
      Texts(kb) == items + [Cancel.text] && kb[|kb| - 1] == [Cancel]
      && (i < |kb| - 1 ==> 0 < |kb[i]| <= 2 && (i < |kb| - 2 ==> |kb[i]| == 2)
                           && forall b :: b in kb[i] ==> b.data == prefix + b.text)
  {
    var g := ButtonGrid(Chunks(items, 2), prefix);
    GridTexts(items, 2, prefix);
    TextsConcat(g, [[Cancel]]);
    assert Texts([[Cancel]]) == [Cancel.text];
    if i < |g| {
      GridRowSizes(items, 2, prefix, i);
    }
  }

  /** `filter_by_month`: the available months two per row, or "no
      recognitions" when there are none. Reading them is outside any `try`. */
  method FilterByMonth(months: Fetch<seq<string>>) returns (reply: Reply)
    ensures months.FetchFailed? ==> reply == Unhandled
    ensures months == Fetched([]) ==> reply == NoRecognitions
    ensures months.Fetched? && |months.value| > 0 ==>
      reply == Choose(ButtonGrid(Chunks(months.value, 2), "month_") + [[Cancel]])
  {
    if months.FetchFailed? {
      return Unhandled;
    }
    if |months.value| == 0 {
      return NoRecognitions;
    }
    var kb := FilterKeyboard(months.value, "month_");
    return Choose(kb);
  }

  /** `filter_by_category`: the categories two per row in sheet order. */
  method FilterByCategory(categories: Fetch<seq<string>>) returns (reply: Reply)
    ensures categories.FetchFailed? ==> reply == Unhandled
    ensures categories == Fetched([]) ==> reply == NoCategories
    ensures categories.Fetched? && |categories.value| > 0 ==>
      reply == Choose(ButtonGrid(Chunks(categories.value, 2), "cat_filter_") + [[Cancel]])
  {
    if categories.FetchFailed? {
      return Unhandled;
    }
    if |categories.value| == 0 {
      return NoCategories;
    }
    var kb := FilterKeyboard(categories.value, "cat_filter_");
    return Choose(kb);
  }
}
