/** Inline keyboards and the "n per row" layout the bot uses for them
    (`for i in range(0, len(items), n): row = [...]`), and for splitting a
    long listing into messages of ten. */
module Layout {
  import opened Base

  /** An `InlineKeyboardButton`: the label shown and the callback data sent back. */
  datatype Button = Button(text: string, data: string)

  /** An `InlineKeyboardMarkup`: rows of buttons, top to bottom. */
  type Keyboard = seq<seq<Button>>

  function Min(a: int, b: int): int
  {
    if a <= b then a else b
  }

  /** `[s[i:i + n] for i in range(0, len(s), n)]`: consecutive pieces of
      length `n`, the last one possibly shorter. */
  function Chunks<T>(s: seq<T>, n: nat): seq<seq<T>>
    requires n > 0
    decreases |s|
  {
    if |s| == 0 then []
    else if |s| <= n then [s]
    else [s[..n]] + Chunks(s[n..], n)
  }

  /** The concatenation of a list of lists. */
  function Flatten<T>(rows: seq<seq<T>>): seq<T>
    decreases |rows|
  {
    if |rows| == 0 then [] else rows[0] + Flatten(rows[1..])
  }

  /** Concatenating the chunks gives back the input. */
  lemma {:induction false} FlattenChunks<T>(s: seq<T>, n: nat)
    requires n > 0
    ensures Flatten(Chunks(s, n)) == s
    decreases |s|
  {
    if |s| > n {
      FlattenChunks(s[n..], n);
      assert Chunks(s, n)[1..] == Chunks(s[n..], n);
      assert s == s[..n] + s[n..];
    } else if |s| > 0 {
      assert Chunks(s, n)[1..] == [];
    }
  }

  /** There are ceil(|s| / n) chunks: none for the empty input, otherwise
      just enough of them that `n` each would cover the input. */
  lemma {:induction false} ChunksCount<T>(s: seq<T>, n: nat)
    requires n > 0
    ensures |Chunks(s, n)| == 0 <==> |s| == 0
    ensures |Chunks(s, n)| > 0 ==> (|Chunks(s, n)| - 1) * n < |s| <= |Chunks(s, n)| * n
    decreases |s|
  {
    if |s| > n {
      ChunksCount(s[n..], n);
      var m := |Chunks(s[n..], n)|;
      assert m > 0;
      assert (m + 1) * n == m * n + n;
      assert m * n == (m - 1) * n + n;
    }
  }

  /** The division form of the count: `(|s| + n - 1) / n` chunks. */
  lemma ChunksCeil<T>(s: seq<T>, n: nat)
    requires n > 0
    ensures |Chunks(s, n)| == (|s| + n - 1) / n
  {
    ChunksCount(s, n);
    var c := |Chunks(s, n)|;
    if c == 0 {
      DivUnique(n - 1, n, 0);
    } else {
      assert c * n <= |s| + n - 1 < c * n + n by {
        assert (c - 1) * n + n == c * n;
      }
      DivUnique(|s| + n - 1, n, c);
    }
  }

  /** Chunk `i` starts at `i * n` and runs for `n` elements or to the end. */
  lemma {:induction false} ChunkAt<T>(s: seq<T>, n: nat, i: nat)
    requires n > 0 && i < |Chunks(s, n)|
    ensures i * n < |s| && Chunks(s, n)[i] == s[i * n..Min(i * n + n, |s|)]
    decreases i
  {
    if i > 0 {
      assert |s| > n;
      assert Chunks(s, n)[i] == Chunks(s[n..], n)[i - 1];
      ChunkAt(s[n..], n, i - 1);
      var a, b := (i - 1) * n, i * n;
      assert a + n == b;
      var e := Min(a + n, |s| - n);
      assert e + n == Min(b + n, |s|);
      SliceOfSuffix(s, n, a, e);
    }
  }

  lemma SliceOfSuffix<T>(s: seq<T>, n: nat, a: nat, e: nat)
    requires n + e <= |s| && a <= e
    ensures s[n..][a..e] == s[n + a..n + e]
  {
  }

  /** Every chunk is non-empty and at most `n` long; all but the last are full. */
  lemma ChunkSize<T>(s: seq<T>, n: nat, i: nat)
    requires n > 0 && i < |Chunks(s, n)|
    ensures 0 < |Chunks(s, n)[i]| <= n
    ensures i < |Chunks(s, n)| - 1 ==> |Chunks(s, n)[i]| == n
  {
    ChunkAt(s, n, i);
    if i < |Chunks(s, n)| - 1 {
      ChunkAt(s, n, i + 1);
      assert (i + 1) * n == i * n + n;
    }
  }

  /** Position `i * n + j` of the input (with `j < n`) is found in chunk `i`
      at position `j`. */
  lemma ChunkCovers<T>(s: seq<T>, n: nat, i: nat, j: nat)
    requires n > 0 && j < n && i * n + j < |s|
    ensures i < |Chunks(s, n)| && j < |Chunks(s, n)[i]|
    ensures Chunks(s, n)[i][j] == s[i * n + j]
  {
    ChunksCount(s, n);
    MulMono(0, i, n);
    if |Chunks(s, n)| <= i {
      MulMono(|Chunks(s, n)|, i, n);
    }
    ChunkAt(s, n, i);
  }

  /** One keyboard row: a button per label, whose callback data is `prefix`
      followed by the label. */
  function ButtonRow(labels: seq<string>, prefix: string): (r: seq<Button>)
  {
    seq(|labels|, k requires 0 <= k < |labels| => Button(labels[k], prefix + labels[k]))
  }

  /** A keyboard with one row per chunk. */
  function ButtonGrid(chunks: seq<seq<string>>, prefix: string): (r: Keyboard)
  {
    seq(|chunks|, i requires 0 <= i < |chunks| => ButtonRow(chunks[i], prefix))
  }

  /** The labels of a row, left to right. */
  function RowTexts(row: seq<Button>): (r: seq<string>)
    ensures |r| == |row|
    ensures forall k :: 0 <= k < |row| ==> r[k] == row[k].text
  {
    seq(|row|, k requires 0 <= k < |row| => row[k].text)
  }

  /** The labels of a keyboard, row by row. */
  function Texts(kb: Keyboard): seq<string>
    decreases |kb|
  {
    if |kb| == 0 then [] else RowTexts(kb[0]) + Texts(kb[1..])
  }

  /** Reading the labels of two keyboards one after the other. */
  lemma {:induction false} TextsConcat(a: Keyboard, b: Keyboard)
    ensures Texts(a + b) == Texts(a) + Texts(b)
    decreases |a|
  {
    if |a| > 0 {
      assert (a + b)[1..] == a[1..] + b;
      TextsConcat(a[1..], b);
    } else {
      assert a + b == b;
    }
  }

  /** The labels of a laid-out keyboard, read row by row, are the items in
      their order. */
  lemma {:induction false} GridTexts(items: seq<string>, n: nat, prefix: string)
    requires n > 0
    ensures Texts(ButtonGrid(Chunks(items, n), prefix)) == items
    decreases |items|
  {
    var g := ButtonGrid(Chunks(items, n), prefix);
    if |items| > n {
      GridTexts(items[n..], n, prefix);
      assert g == [ButtonRow(items[..n], prefix)] + ButtonGrid(Chunks(items[n..], n), prefix);
      assert g[1..] == ButtonGrid(Chunks(items[n..], n), prefix);
      assert RowTexts(ButtonRow(items[..n], prefix)) == items[..n];
      assert items == items[..n] + items[n..];
    } else if |items| > 0 {
      assert RowTexts(ButtonRow(items, prefix)) == items;
      assert g[1..] == [];
    }
  }

  /** Every row of a laid-out keyboard holds between one and `n` buttons,
      and only the last row may hold fewer than `n`. */
  lemma GridRowSizes(items: seq<string>, n: nat, prefix: string, i: nat)
    requires n > 0 && i < |ButtonGrid(Chunks(items, n), prefix)|
    ensures 0 < |ButtonGrid(Chunks(items, n), prefix)[i]| <= n
    ensures i < |ButtonGrid(Chunks(items, n), prefix)| - 1 ==> |ButtonGrid(Chunks(items, n), prefix)[i]| == n
  {
    ChunkSize(items, n, i);
  }

  function Drop<T>(s: seq<T>, i: nat): seq<T>
  {
    if i >= |s| then [] else s[i..]
  }

  /** Laying out the items from `i` on: the row starting at `i`, then the
      layout of the items from `i + width` on. */
  lemma GridStep(items: seq<string>, width: nat, prefix: string, i: nat)
    requires width > 0 && i < |items|
    ensures ButtonGrid(Chunks(Drop(items, i), width), prefix)
         == [ButtonRow(items[i..Min(i + width, |items|)], prefix)]
            + ButtonGrid(Chunks(Drop(items, i + width), width), prefix)
  {
    var rest := Drop(items, i);
    var chunk := items[i..Min(i + width, |items|)];
    if |rest| <= width {
      assert rest == chunk;
      assert Drop(items, i + width) == [];
    } else {
      assert rest[width..] == Drop(items, i + width);
      assert rest[..width] == chunk;
      assert Chunks(rest, width) == [chunk] + Chunks(Drop(items, i + width), width);
    }
  }

  /** One more row keeps the outer loop's invariant. */
  lemma GridAppend(items: seq<string>, width: nat, prefix: string, i: nat, rows: Keyboard, row: seq<Button>)
    requires width > 0 && i < |items|
    requires rows + ButtonGrid(Chunks(Drop(items, i), width), prefix) == ButtonGrid(Chunks(items, width), prefix)
    requires row == ButtonRow(items[i..Min(i + width, |items|)], prefix)
    ensures (rows + [row]) + ButtonGrid(Chunks(Drop(items, i + width), width), prefix)
         == ButtonGrid(Chunks(items, width), prefix)
  {
    GridStep(items, width, prefix, i);
    assert (rows + [row]) + ButtonGrid(Chunks(Drop(items, i + width), width), prefix)
        == rows + ([row] + ButtonGrid(Chunks(Drop(items, i + width), width), prefix));
  }

  /** The nested loops of the bot's keyboards:
      `for i in range(0, len(items), width)`, then `for j in range(width)`,
      appending `items[i + j]` while it exists. The result is the items laid
      out `width` per row in their order. The inner loop is `RowFrom`. */
  method GridRows(items: seq<string>, width: nat, prefix: string) returns (rows: Keyboard)
    requires width > 0
    ensures rows == ButtonGrid(Chunks(items, width), prefix)
  {
    rows := [];
    var i := 0;
    assert Drop(items, 0) == items;
    assert rows + ButtonGrid(Chunks(items, width), prefix) == ButtonGrid(Chunks(items, width), prefix);
    while i < |items|
      invariant 0 <= i
      invariant rows + ButtonGrid(Chunks(Drop(items, i), width), prefix)
             == ButtonGrid(Chunks(items, width), prefix)
    {
      var row := RowFrom(items, i, width, prefix);
      GridAppend(items, width, prefix, i, rows, row);
      rows := rows + [row];
      i := i + width;
    }
    assert Drop(items, i) == [];
    assert ButtonGrid(Chunks(Drop(items, i), width), prefix) == [];
    assert rows + [] == rows;
  }

  /** The inner loop: the buttons for the items from `i` up to `i + width`,
      stopping at the end of the list. */
  method RowFrom(items: seq<string>, i: nat, width: nat, prefix: string) returns (row: seq<Button>)
    requires i < |items|
    ensures row == ButtonRow(items[i..Min(i + width, |items|)], prefix)
  {
    row := [];
    var j := 0;
    while j < width
      invariant 0 <= j <= width
      invariant |row| == Min(i + j, |items|) - i
      invariant forall k :: 0 <= k < |row| ==> row[k] == Button(items[i + k], prefix + items[i + k])
    {
      if i + j < |items| {
        row := row + [Button(items[i + j], prefix + items[i + j])];
      }
      j := j + 1;
    }
  }
}
