/**
 * The overlapping text chunker of the RAG ingester: when it can be undone, what it
 * loses otherwise, and how many chunks it makes.
 */
module Chunker {
  import opened Common
  import opened Division

  /** The recognised keys of `chunking_json`; a missing key keeps its default. */
  datatype Raw = Raw(enabled: Option<bool>, unit: Option<string>, size: Option<int>, overlap: Option<int>,
                     min: Option<int>)

  datatype Config = Config(enabled: bool, unit: string, size: int, overlap: int, min: int)

  function Or<T>(o: Option<T>, default: T): T {
    if o.Some? then o.value else default
  }

  predicate Sane(c: Config) {
    c.size > 0 && 0 <= c.overlap < c.size && c.min >= 0 && c.unit == "chars"
  }

  /**
   * `parse_chunking_json`: every result is usable. Missing settings are the defaults, usable
   * ones are kept as they are, and of the others an overlap becomes 0 or a quarter.
   */
  method ParseChunking(raw: Raw) returns (c: Config)
    ensures Sane(c) && (c.enabled <==> raw.enabled != Some(false))
    ensures match raw.size case Some(n) => c.size == (if n > 0 then n else 4000) case None => c.size == 4000
    ensures match raw.min case Some(n) => c.min == (if n >= 0 then n else 0) case None => c.min == 800
    ensures match raw.overlap
      case Some(n) => c.overlap == if n < 0 then 0 else if n < c.size then n else c.size / 4
      case None => c.overlap == if c.size > 400 then 400 else c.size / 4
  {
    c := Config(Or(raw.enabled, true), Or(raw.unit, "chars"), Or(raw.size, 4000), Or(raw.overlap, 400),
      Or(raw.min, 800));
    if c.size <= 0 {
      c := c.(size := 4000);
    }
    if c.overlap < 0 {
      c := c.(overlap := 0);
    }
    if c.overlap >= c.size {
      c := c.(overlap := c.size / 4);
    }
    if c.min < 0 {
      c := c.(min := 0);
    }
    if c.unit != "chars" {
      c := c.(unit := "chars");
    }
  }

  // ----- the chunks

  function Step(c: Config): int {
    c.size - c.overlap
  }

  /** Where window `k` starts. */
  function Start(c: Config, k: nat): nat
    requires Sane(c)
  {
    if k == 0 then 0 else Start(c, k - 1) + Step(c)
  }

  function End(text: string, c: Config, k: nat): nat
    requires Sane(c)
  {
    Min(Start(c, k) + c.size, |text|)
  }

  function Window(text: string, c: Config, k: nat): string
    requires Sane(c) && Start(c, k) <= |text|
  {
    text[Start(c, k)..End(text, c, k)]
  }

  /** The first `n` windows; all but the last of them are full and end inside the text. */
  function Windows(text: string, c: Config, n: nat): (w: seq<string>)
    requires Sane(c) && (n > 0 ==> Start(c, n - 1) <= |text|)
    ensures |w| == n
  {
    if n == 0 then [] else Windows(text, c, n - 1) + [Window(text, c, n - 1)]
  }

  /** Window `k` is not the last one. */
  predicate GoesOn(text: string, c: Config, k: nat)
    requires Sane(c)
  {
    Start(c, k) + c.size < |text|
  }

  /** The tail that starts at window `k` is appended to the window before it. */
  function Merged(text: string, c: Config, k: nat): seq<string>
    requires Sane(c) && k > 0 && Start(c, k) <= |text|
  {
    assert Start(c, k - 1) <= Start(c, k) && (k > 1 ==> Start(c, k - 2) <= Start(c, k - 1));
    Windows(text, c, k - 1) + [Window(text, c, k - 1) + Window(text, c, k)]
  }

  /** A tail shorter than the minimum is merged, whatever makes it shorter. */
  predicate TooShort(text: string, c: Config, k: nat)
    requires Sane(c)
  {
    End(text, c, k) - Start(c, k) < c.min
  }

  /** The chunks of a text longer than a chunk, when the chunker stops at window `k`. */
  ghost predicate ChunksOf(text: string, c: Config, chunks: seq<string>, k: nat) {
    && Sane(c) && |text| > c.size && k > 0 && GoesOn(text, c, k - 1)
    && (if TooShort(text, c, k) then chunks == Merged(text, c, k)
        else chunks == Windows(text, c, k + 1) && !GoesOn(text, c, k))
    && (forall j :: 0 < j < k ==> !TooShort(text, c, j))
  }

  /** `chunk_text_chars`. */
  method ChunkText(text: string, c: Config) returns (chunks: seq<string>, ghost last: nat)
    requires Sane(c)
    ensures !c.enabled || |text| <= c.size ==> chunks == [text]
    ensures c.enabled && |text| > c.size ==> ChunksOf(text, c, chunks, last)
  {
    chunks, last := [], 0;
    if !c.enabled {
      return [text], 0;
    }
    if |text| <= c.size {
      return [text], 0;
    }
    var step := c.size - c.overlap;
    if step <= 0 {
      step := c.size;
    }
    var start := 0;
    while start < |text|
      invariant start == Start(c, last) <= |text| && chunks == Windows(text, c, last)
      invariant last > 0 ==> GoesOn(text, c, last - 1)
      invariant forall j :: 0 < j < last ==> !TooShort(text, c, j)
      decreases |text| - start
    {
      var end := start + c.size;
      if end > |text| {
        end := |text|;
      }
      var len := end - start;
      if len < c.min && chunks != [] {
        chunks := chunks[|chunks| - 1 := chunks[|chunks| - 1] + text[start..start + len]];
        return;
      }
      chunks := chunks + [text[start..start + len]];
      if end == |text| {
        return;
      }
      start := start + step;
      last := last + 1;
    }
  }

  // ----- undoing it

  /** A chunk longer than a window is a window with a merged tail; the tail repeats the overlap. */
  function Unmerge(chunk: string, c: Config): string
    requires Sane(c)
  {
    if |chunk| > c.size + c.overlap then chunk[..c.size] + chunk[c.size + c.overlap..] else chunk
  }

  function DropOverlap(chunk: string, c: Config): string
    requires Sane(c)
  {
    if |chunk| >= c.overlap then chunk[c.overlap..] else []
  }

  /** Put the chunks back together, keeping every overlap once. */
  function Rebuild(chunks: seq<string>, c: Config): string
    requires Sane(c)
  {
    if chunks == [] then []
    else if |chunks| == 1 then Unmerge(chunks[0], c)
    else Rebuild(chunks[..|chunks| - 1], c) + DropOverlap(Unmerge(chunks[|chunks| - 1], c), c)
  }

  lemma RebuildPush(chunks: seq<string>, x: string, c: Config)
    requires Sane(c) && chunks != []
    ensures Rebuild(chunks + [x], c) == Rebuild(chunks, c) + DropOverlap(Unmerge(x, c), c)
  {
    assert (chunks + [x])[..|chunks|] == chunks;
  }

  lemma {:induction false} GoesOnBefore(text: string, c: Config, k: nat)
    requires Sane(c) && k > 0 && GoesOn(text, c, k)
    ensures GoesOn(text, c, k - 1)
  {
  }

  /** A later window contributes what follows the overlap. */
  lemma WindowAdds(text: string, c: Config, k: nat)
    requires Sane(c) && k > 0 && GoesOn(text, c, k - 1)
    ensures Start(c, k) + c.overlap == End(text, c, k - 1) <= End(text, c, k)
    ensures |Window(text, c, k)| > c.overlap
    ensures DropOverlap(Window(text, c, k), c) == text[End(text, c, k - 1)..End(text, c, k)]
    ensures text[..End(text, c, k - 1)] + text[End(text, c, k - 1)..End(text, c, k)] == text[..End(text, c, k)]
  {
  }

  /** The first `n` windows give back the text up to where the last of them ends. */
  lemma {:induction false} RebuildWindows(text: string, c: Config, n: nat)
    requires Sane(c) && n > 0 && |text| > c.size && (n > 1 ==> GoesOn(text, c, n - 2))
    ensures Start(c, n - 1) <= |text| && Rebuild(Windows(text, c, n), c) == text[..End(text, c, n - 1)]
  {
    if n > 1 {
      if n > 2 {
        GoesOnBefore(text, c, n - 2);
      }
      RebuildWindows(text, c, n - 1);
      WindowAdds(text, c, n - 1);
      RebuildPush(Windows(text, c, n - 1), Window(text, c, n - 1), c);
    } else {
      assert Windows(text, c, 1) == [Window(text, c, 0)];
    }
  }

  /** Splitting a merged chunk leaves its window and the new part of the tail. */
  lemma UnmergeTail(text: string, c: Config, k: nat)
    requires Sane(c) && k > 0 && GoesOn(text, c, k - 1)
    ensures var w, x := Window(text, c, k - 1), text[End(text, c, k - 1)..End(text, c, k)];
      && Unmerge(w + Window(text, c, k), c) == w + x
      && Unmerge(w, c) == w
      && DropOverlap(w + x, c) == DropOverlap(w, c) + x
  {
    var w, t := Window(text, c, k - 1), Window(text, c, k);
    WindowAdds(text, c, k);
    assert |w| == c.size;
    assert (w + t)[..c.size] == w && (w + t)[c.size + c.overlap..] == t[c.overlap..];
  }

  lemma JoinMerged(front: seq<string>, w: string, t: string, x: string, c: Config)
    requires Sane(c) && Unmerge(w + t, c) == w + x && Unmerge(w, c) == w
    requires DropOverlap(w + x, c) == DropOverlap(w, c) + x
    ensures Rebuild(front + [w + t], c) == Rebuild(front + [w], c) + x
  {
    if front != [] {
      RebuildPush(front, w, c);
      RebuildPush(front, w + t, c);
      Reassociate(Rebuild(front, c), DropOverlap(w, c), x);
    }
  }

  lemma Reassociate(x: string, y: string, z: string)
    ensures x + (y + z) == (x + y) + z
  {
  }

  lemma MergedAdds(text: string, c: Config, k: nat)
    requires Sane(c) && k > 0 && GoesOn(text, c, k - 1)
    ensures Rebuild(Merged(text, c, k), c)
      == Rebuild(Windows(text, c, k), c) + text[End(text, c, k - 1)..End(text, c, k)]
  {
    UnmergeTail(text, c, k);
    JoinMerged(Windows(text, c, k - 1), Window(text, c, k - 1), Window(text, c, k),
               text[End(text, c, k - 1)..End(text, c, k)], c);
  }

  /** With a merged tail they give back the text up to where the tail ends. */
  lemma RebuildMerged(text: string, c: Config, k: nat)
    requires Sane(c) && k > 0 && |text| > c.size && GoesOn(text, c, k - 1)
    ensures Rebuild(Merged(text, c, k), c) == text[..End(text, c, k)]
  {
    MergedAdds(text, c, k);
    WindowAdds(text, c, k);
    if k > 1 {
      GoesOnBefore(text, c, k - 1);
    }
    RebuildWindows(text, c, k);
  }

  // ----- when it is lossless, and how many chunks there are

  /** The condition the configuration parser does not enforce. */
  predicate Lossless(length: nat, c: Config) {
    c.min <= c.size || length <= 2 * c.size - c.overlap
  }

  /** A minimum above the chunk size merges the second window and stops there. */
  lemma StopsEarly(text: string, c: Config, chunks: seq<string>, k: nat)
    requires ChunksOf(text, c, chunks, k) && c.min > c.size
    ensures k == 1 && TooShort(text, c, 1)
  {
    assert TooShort(text, c, 1);
  }

  lemma ReachesEnd(text: string, c: Config, chunks: seq<string>, k: nat)
    requires ChunksOf(text, c, chunks, k) && c.min <= c.size
    ensures !GoesOn(text, c, k) && End(text, c, k) == |text|
  {
  }

  /**
   * For every text and sane configuration: what can be rebuilt is the whole text exactly
   * under the condition, and otherwise everything beyond `2 * size - overlap` is gone.
   */
  lemma RebuildsExactly(text: string, c: Config, chunks: seq<string>, k: nat)
    requires ChunksOf(text, c, chunks, k)
    ensures Rebuild(chunks, c) == if Lossless(|text|, c) then text else text[..2 * c.size - c.overlap]
    ensures Rebuild(chunks, c) == text <==> Lossless(|text|, c)
  {
    if TooShort(text, c, k) {
      RebuildMerged(text, c, k);
    } else {
      RebuildWindows(text, c, k + 1);
    }
    assert Rebuild(chunks, c) == text[..End(text, c, k)];
    if c.min <= c.size {
      ReachesEnd(text, c, chunks, k);
    } else {
      StopsEarly(text, c, chunks, k);
      assert Start(c, 1) == Start(c, 0) + Step(c);
    }
    assert text[..|text|] == text;
    assert |Rebuild(chunks, c)| == End(text, c, k);
  }

  /** The index of the first window that reaches the end, by division. */
  function LastWindow(length: int, c: Config): int
    requires Sane(c) && length > c.size
  {
    (length - c.size + Step(c) - 1) / Step(c)
  }

  lemma {:induction false} StartIsProduct(c: Config, k: nat)
    requires Sane(c)
    ensures Start(c, k) == k * Step(c)
  {
    if k > 0 {
      StartIsProduct(c, k - 1);
      assert (k - 1) * Step(c) + Step(c) == k * Step(c);
    }
  }

  /** The number of chunks: one per window up to the end, less one when the tail is merged. */
  lemma CountsExactly(text: string, c: Config, chunks: seq<string>, k: nat)
    requires ChunksOf(text, c, chunks, k) && c.min <= c.size
    ensures var n := LastWindow(|text|, c);
      |chunks| == 1 + n - (if |text| - n * Step(c) < c.min then 1 else 0)
  {
    ReachesEnd(text, c, chunks, k);
    StartIsProduct(c, k);
    Quotient(|text| - c.size + Step(c) - 1, Step(c), k);
  }

  /** Every chunk but the last is a full window; a merged last one exceeds it by less than the minimum. */
  lemma ChunkSizes(text: string, c: Config, chunks: seq<string>, k: nat, i: nat)
    requires ChunksOf(text, c, chunks, k) && i < |chunks|
    ensures i < |chunks| - 1 ==> |chunks[i]| == c.size
    ensures i == |chunks| - 1
      ==> (if TooShort(text, c, k) then |chunks[i]| < c.size + c.min else c.min <= |chunks[i]| <= c.size)
  {
    var n := if TooShort(text, c, k) then k - 1 else k;
    if i < n {
      if k > 1 {
        GoesOnBefore(text, c, k - 1);
      }
      WindowSizes(text, c, n, i);
    }
  }

  /** Chunk `i`, up to a merged tail, is the text from `i` steps on. */
  lemma ChunkContent(text: string, c: Config, chunks: seq<string>, k: nat, i: nat)
    requires ChunksOf(text, c, chunks, k) && i < |chunks| - 1
    ensures var at := Start(c, i);
      at == i * (c.size - c.overlap) && at + c.size <= |text| && chunks[i] == text[at..at + c.size]
  {
    var n := if TooShort(text, c, k) then k - 1 else k;
    if k > 1 {
      GoesOnBefore(text, c, k - 1);
    }
    WindowAt(text, c, n, i);
    StartIsProduct(c, i);
  }

  lemma {:induction false} WindowAt(text: string, c: Config, n: nat, i: nat)
    requires Sane(c) && i < n && GoesOn(text, c, n - 1)
    ensures var at := Start(c, i); at + c.size <= |text| && Windows(text, c, n)[i] == text[at..at + c.size]
  {
    if i < n - 1 {
      GoesOnBefore(text, c, n - 1);
      WindowAt(text, c, n - 1, i);
    }
  }

  lemma {:induction false} WindowSizes(text: string, c: Config, n: nat, i: nat)
    requires Sane(c) && i < n && GoesOn(text, c, n - 1)
    ensures |Windows(text, c, n)[i]| == c.size
  {
    if i < n - 1 {
      GoesOnBefore(text, c, n - 1);
      WindowSizes(text, c, n - 1, i);
    }
  }
}
