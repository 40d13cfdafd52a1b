/** Cutting a token sequence into overlapping windows. */
module Chunks {
  import opened Common

  type Token = nat

  /** `range(start, stop, step)` for a positive step. */
  function Range(start: nat, stop: nat, step: nat): (r: seq<nat>)
    requires step > 0
    decreases stop - start
  {
    if start >= stop then [] else [start] + Range(start + step, stop, step)
  }

  /** A slice, clipped to the tokens there are. */
  function Slice(tokens: seq<Token>, start: nat, size: nat): seq<Token> {
    tokens[Min(start, |tokens|)..Min(start + size, |tokens|)]
  }

  function Cut(tokens: seq<Token>, starts: seq<nat>, size: nat): seq<seq<Token>> {
    if starts == [] then [] else [Slice(tokens, starts[0], size)] + Cut(tokens, starts[1..], size)
  }

  datatype RangeError = ZeroStep

  /** How far one window starts after the one before. */
  function Step(size: nat, overlap: nat): nat
    requires overlap < size
  {
    size - overlap
  }

  /** A step of zero is an error and a negative one yields no window, but only when there are tokens. */
  function Windows(tokens: seq<Token>, size: nat, overlap: nat): Result<seq<seq<Token>>, RangeError> {
    if tokens == [] then Ok([])
    else if overlap == size then Err(ZeroStep)
    else if overlap > size then Ok([])
    else Ok(Cut(tokens, Range(0, |tokens|, Step(size, overlap)), size))
  }

  lemma {:induction false} RangeAt(start: nat, stop: nat, step: nat, i: nat)
    requires step > 0 && start <= stop && i < |Range(start, stop, step)|
    ensures Range(start, stop, step)[i] == start + i * step < stop
    decreases stop - start
  {
    if i > 0 {
      RangeAt(start + step, stop, step, i - 1);
    }
  }

  /** The number of starts is the distance divided by the step, rounded up. */
  lemma {:induction false} RangeCount(start: nat, stop: nat, step: nat)
    requires step > 0 && start <= stop
    ensures |Range(start, stop, step)| * step < stop - start + step
    ensures stop - start <= |Range(start, stop, step)| * step
    decreases stop - start
  {
    if start < stop {
      if start + step <= stop {
        RangeCount(start + step, stop, step);
      } else {
        assert Range(start + step, stop, step) == [];
      }
      assert |Range(start, stop, step)| * step == |Range(start + step, stop, step)| * step + step;
    }
  }

  lemma {:induction false} CutAt(tokens: seq<Token>, starts: seq<nat>, size: nat)
    ensures |Cut(tokens, starts, size)| == |starts|
    ensures forall i | 0 <= i < |starts| :: Cut(tokens, starts, size)[i] == Slice(tokens, starts[i], size)
  {
    if starts != [] {
      CutAt(tokens, starts[1..], size);
      forall i | 0 < i < |starts| ensures Cut(tokens, starts, size)[i] == Slice(tokens, starts[i], size) {
        assert Cut(tokens, starts[1..], size)[i - 1] == Slice(tokens, starts[1..][i - 1], size);
      }
    }
  }

  /** Window i starts at token i * step; there are as many as the tokens divided by the step, rounded up. */
  lemma WindowsAreSlices(tokens: seq<Token>, size: nat, overlap: nat)
    requires overlap < size && tokens != []
    ensures Windows(tokens, size, overlap).Ok?
    ensures var ws, step := Windows(tokens, size, overlap).value, Step(size, overlap);
            && (|ws| - 1) * step < |tokens| <= |ws| * step
            && forall i | 0 <= i < |ws| :: i * step < |tokens| && ws[i] == Slice(tokens, i * step, size)
  {
    var step := Step(size, overlap);
    var starts := Range(0, |tokens|, step);
    CutAt(tokens, starts, size);
    RangeCount(0, |tokens|, step);
    forall i | 0 <= i < |starts| ensures starts[i] == i * step && i * step < |tokens| {
      RangeAt(0, |tokens|, step, i);
    }
  }

  /** Where window i and the one after it start. */
  lemma WindowAt(tokens: seq<Token>, size: nat, overlap: nat, i: nat) returns (start: nat)
    requires overlap < size && tokens != [] && Windows(tokens, size, overlap).Ok?
    requires i < |Windows(tokens, size, overlap).value|
    ensures var ws, step := Windows(tokens, size, overlap).value, Step(size, overlap);
            && start == i * step < |tokens| && ws[i] == Slice(tokens, start, size)
            && (i + 1) * step == start + step
            && if i + 1 < |ws| then ws[i + 1] == Slice(tokens, start + step, size) else start + step >= |tokens|
  {
    var ws, step := Windows(tokens, size, overlap).value, Step(size, overlap);
    start := i * step;
    WindowSlice(tokens, size, overlap, i);
    WindowsCover(tokens, size, overlap);
    NextMultiple(i, step, |ws|, |tokens|);
    if i + 1 < |ws| {
      WindowSlice(tokens, size, overlap, i + 1);
    }
  }

  lemma WindowSlice(tokens: seq<Token>, size: nat, overlap: nat, i: nat)
    requires overlap < size && tokens != [] && Windows(tokens, size, overlap).Ok?
    requires i < |Windows(tokens, size, overlap).value|
    ensures var step := Step(size, overlap);
            i * step < |tokens| && Windows(tokens, size, overlap).value[i] == Slice(tokens, i * step, size)
  {
    WindowsAreSlices(tokens, size, overlap);
  }

  lemma WindowsCover(tokens: seq<Token>, size: nat, overlap: nat)
    requires overlap < size && tokens != [] && Windows(tokens, size, overlap).Ok?
    ensures |tokens| <= |Windows(tokens, size, overlap).value| * Step(size, overlap)
  {
    WindowsAreSlices(tokens, size, overlap);
  }

  lemma NextMultiple(i: nat, step: nat, n: nat, total: nat)
    requires i < n && total <= n * step
    ensures (i + 1) * step == i * step + step
    ensures i + 1 == n ==> i * step + step >= total
  {
  }

  lemma BeforeMultiple(k: nat, step: nat, n: nat, total: nat)
    requires k * step < total <= n * step
    ensures k < n
  {
    if k >= n {
      ProductGrows(n, k, step);
    }
  }

  lemma ProductGrows(a: nat, b: nat, step: nat)
    requires a <= b
    ensures a * step <= b * step
  {
    assert b * step == a * step + (b - a) * step;
  }

  /** The tail of a slice starts the slice one step further on, and is empty at the end of the tokens. */
  lemma SliceTail(tokens: seq<Token>, start: nat, size: nat, step: nat)
    requires step <= size && start <= |tokens|
    ensures var w := Slice(tokens, start, size);
            var tail := w[Min(step, |w|)..];
            && |tail| <= size - step && tail <= Slice(tokens, start + step, size)
            && (start + step >= |tokens| ==> tail == [])
  {
  }

  /** What follows a window's first step tokens is a prefix of the next window; nothing follows in the last. */
  lemma TailsOverlap(tokens: seq<Token>, size: nat, overlap: nat, i: nat)
    requires overlap < size && tokens != [] && Windows(tokens, size, overlap).Ok?
    requires i < |Windows(tokens, size, overlap).value|
    ensures var ws, step := Windows(tokens, size, overlap).value, Step(size, overlap);
            var tail := ws[i][Min(step, |ws[i]|)..];
            |tail| <= overlap && if i + 1 < |ws| then tail <= ws[i + 1] else tail == []
  {
    var start := WindowAt(tokens, size, overlap, i);
    SliceTail(tokens, start, size, Step(size, overlap));
  }

  /** Each window's first step tokens, one after another. */
  function Heads(windows: seq<seq<Token>>, step: nat): seq<Token> {
    if windows == [] then []
    else Heads(windows[..|windows| - 1], step) + windows[|windows| - 1][..Min(step, |windows[|windows| - 1]|)]
  }

  lemma NextHead(tokens: seq<Token>, start: nat, size: nat, step: nat)
    requires step <= size && start <= |tokens|
    ensures var w := Slice(tokens, start, size);
            tokens[..start] + w[..Min(step, |w|)] == tokens[..Min(start + step, |tokens|)]
  {
  }

  lemma {:induction false} HeadsArePrefix(tokens: seq<Token>, size: nat, overlap: nat, n: nat)
    requires overlap < size && tokens != [] && Windows(tokens, size, overlap).Ok?
    requires n <= |Windows(tokens, size, overlap).value|
    ensures var ws, step := Windows(tokens, size, overlap).value, Step(size, overlap);
            n * step >= 0 && Heads(ws[..n], step) == tokens[..Min(n * step, |tokens|)]
  {
    if n > 0 {
      var ws := Windows(tokens, size, overlap).value;
      HeadsArePrefix(tokens, size, overlap, n - 1);
      assert ws[..n][..n - 1] == ws[..n - 1];
      var start := WindowAt(tokens, size, overlap, n - 1);
      NextHead(tokens, start, size, Step(size, overlap));
    }
  }

  /** Nothing is lost and nothing invented: the heads of the windows are the input. */
  lemma WindowsRebuildInput(tokens: seq<Token>, size: nat, overlap: nat)
    requires overlap < size && Windows(tokens, size, overlap).Ok?
    ensures Heads(Windows(tokens, size, overlap).value, Step(size, overlap)) == tokens
  {
    if tokens != [] {
      WindowsAreSlices(tokens, size, overlap);
      var ws := Windows(tokens, size, overlap).value;
      HeadsArePrefix(tokens, size, overlap, |ws|);
      assert ws[..|ws|] == ws;
    }
  }

  /** The input can be rebuilt from the windows' heads exactly under the guard on the settings. */
  lemma RebuildableIffOverlapIsSmaller(tokens: seq<Token>, size: nat, overlap: nat)
    requires tokens != []
    ensures overlap < size <==>
              Windows(tokens, size, overlap).Ok? &&
              exists step :: Heads(Windows(tokens, size, overlap).value, step) == tokens
  {
    if overlap < size {
      WindowsAreSlices(tokens, size, overlap);
      WindowsRebuildInput(tokens, size, overlap);
    }
  }

  // ---------------------------------------------------------------------------
  // Chunks of text
  // ---------------------------------------------------------------------------

  /** Tokenising, detokenising and stripping are foreign. */
  datatype Tokenizer = Tokenizer(encode: string -> seq<Token>, decode: seq<Token> -> string, strip: string -> string)

  function NonBlank(tokenizer: Tokenizer, windows: seq<seq<Token>>): seq<string> {
    if windows == [] then []
    else
      var chunk := tokenizer.strip(tokenizer.decode(windows[0]));
      (if chunk != "" then [chunk] else []) + NonBlank(tokenizer, windows[1..])
  }

  function Chunk(tokenizer: Tokenizer, size: nat, overlap: nat, text: string): Result<seq<string>, RangeError> {
    var windows := Windows(tokenizer.encode(text), size, overlap);
    if windows.Err? then Err(windows.error) else Ok(NonBlank(tokenizer, windows.value))
  }

  /** The chunks come in the order of their windows, one for each window whose text is not blank. */
  lemma {:induction false} NonBlankKeepsOrder(tokenizer: Tokenizer, a: seq<seq<Token>>, w: seq<Token>)
    ensures NonBlank(tokenizer, []) == []
    ensures NonBlank(tokenizer, a + [w]) ==
              if tokenizer.strip(tokenizer.decode(w)) == "" then NonBlank(tokenizer, a)
              else NonBlank(tokenizer, a) + [tokenizer.strip(tokenizer.decode(w))]
    decreases |a|
  {
    if a == [] {
      assert a + [w] == [w] && [w][1..] == [];
    } else {
      assert (a + [w])[1..] == a[1..] + [w];
      NonBlankKeepsOrder(tokenizer, a[1..], w);
    }
  }

  lemma {:induction false} NonBlankIsComplete(tokenizer: Tokenizer, windows: seq<seq<Token>>, chunk: string)
    ensures chunk in NonBlank(tokenizer, windows) <==>
              chunk != "" && exists i :: 0 <= i < |windows| && tokenizer.strip(tokenizer.decode(windows[i])) == chunk
  {
    if windows != [] {
      NonBlankIsComplete(tokenizer, windows[1..], chunk);
      var first := tokenizer.strip(tokenizer.decode(windows[0]));
      if chunk in NonBlank(tokenizer, windows[1..]) {
        var i :| 0 <= i < |windows| - 1 && tokenizer.strip(tokenizer.decode(windows[1..][i])) == chunk;
        assert tokenizer.strip(tokenizer.decode(windows[i + 1])) == chunk;
      }
      if i :| 0 < i < |windows| && tokenizer.strip(tokenizer.decode(windows[i])) == chunk {
        assert windows[1..][i - 1] == windows[i];
      }
    }
  }

  /** There is a window that starts after k steps of size minus overlap, and this is its stripped text. */
  predicate IsWindow(tokenizer: Tokenizer, tokens: seq<Token>, size: nat, overlap: nat, k: nat, text: string)
    requires overlap < size
  {
    var step: nat := size - overlap;
    k * step < |tokens| && text == tokenizer.strip(tokenizer.decode(tokens[k * step..Min(k * step + size, |tokens|)]))
  }

  /**
    Chunking is refused exactly when there are tokens and the overlap is the size, yields nothing when
    the overlap is larger, and otherwise yields exactly the texts of all windows that are not blank.
   */
  lemma ChunkingIsExact(tokenizer: Tokenizer, size: nat, overlap: nat, text: string)
    ensures var tokens, chunks := tokenizer.encode(text), Chunk(tokenizer, size, overlap, text);
            && (chunks.Err? <==> tokens != [] && overlap == size)
            && (overlap > size ==> chunks == Ok([]))
            && (overlap < size ==> forall chunk ::
                  chunk in chunks.value <==>
                  chunk != "" && exists k: nat :: IsWindow(tokenizer, tokens, size, overlap, k, chunk))
  {
    var tokens := tokenizer.encode(text);
    if tokens != [] && overlap < size {
      forall chunk ensures chunk in Chunk(tokenizer, size, overlap, text).value <==>
          chunk != "" && exists k: nat :: IsWindow(tokenizer, tokens, size, overlap, k, chunk)
      {
        NonBlankIsComplete(tokenizer, Windows(tokens, size, overlap).value, chunk);
        WindowsAreTexts(tokenizer, tokens, size, overlap, chunk);
      }
    }
  }

  lemma WindowsAreTexts(tokenizer: Tokenizer, tokens: seq<Token>, size: nat, overlap: nat, chunk: string)
    requires overlap < size && tokens != []
    ensures var ws := Windows(tokens, size, overlap).value;
            (exists i :: 0 <= i < |ws| && tokenizer.strip(tokenizer.decode(ws[i])) == chunk) <==>
            exists k: nat :: IsWindow(tokenizer, tokens, size, overlap, k, chunk)
  {
    WindowsAreSlices(tokens, size, overlap);
    var ws, step := Windows(tokens, size, overlap).value, Step(size, overlap);
    if i :| 0 <= i < |ws| && tokenizer.strip(tokenizer.decode(ws[i])) == chunk {
      assert IsWindow(tokenizer, tokens, size, overlap, i, chunk);
    }
    if k: nat :| IsWindow(tokenizer, tokens, size, overlap, k, chunk) {
      BeforeMultiple(k, step, |ws|, |tokens|);
      assert tokenizer.strip(tokenizer.decode(ws[k])) == chunk;
    }
  }
}
