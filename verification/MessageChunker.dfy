/**
 The chat adapter's message splitter: long replies are cut into chunks of at most `maxLen`
 characters, preferring to cut just after a newline.  Every character is one byte long here.
 */
module MessageChunker {
  import opened Wrappers

  function Concat(chunks: seq<string>): string {
    if chunks == [] then "" else chunks[0] + Concat(chunks[1..])
  }

  ghost predicate NoNewline(text: string, lo: nat, hi: nat)
    requires hi <= |text|
  {
    forall j | lo <= j < hi :: text[j] != '\n'
  }

  /** `at` is where a chunk that starts at the front of `text` has to end: just after the last
      newline of the window `text[..window]`, or at the window's end when it has no newline. */
  ghost predicate CutsAt(text: string, window: nat, at: nat)
    requires window <= |text|
  {
    if NoNewline(text, 0, window) then at == window
    else 0 < at <= window && text[at - 1] == '\n' && NoNewline(text, at, window)
  }

  /** The last newline of `text[..n]`, as an end position; `full` if there is none. */
  function SplitPoint(text: string, n: nat, full: nat): (at: nat)
    requires n <= full <= |text| && NoNewline(text, n, full)
    ensures CutsAt(text, full, at)
    ensures 0 < full ==> 0 < at
  {
    if n == 0 then full else if text[n - 1] == '\n' then n else SplitPoint(text, n - 1, full)
  }

  /** The chunk list, as a function of the text. */
  function Chunks(text: string, maxLen: nat): seq<string>
    requires 0 < maxLen
    decreases |text|
  {
    if |text| <= maxLen then [text]
    else
      var at := SplitPoint(text, maxLen, maxLen);
      [text[..at]] + Chunks(text[at..], maxLen)
  }

  /** `chunk_message`: the loop shrinks `remaining` and pushes to `chunks`. */
  method ChunkMessage(content: string, maxLen: nat) returns (chunks: seq<string>)
    requires 0 < maxLen
    ensures chunks == Chunks(content, maxLen)
  {
    if |content| <= maxLen {
      return [content];
    }
    chunks := [];
    var remaining := content;
    while remaining != ""
      invariant remaining != "" && chunks + Chunks(remaining, maxLen) == Chunks(content, maxLen)
      decreases |remaining|
    {
      if |remaining| <= maxLen {
        chunks := chunks + [remaining];
        break;
      }
      var newline := RFind(remaining[..maxLen]);
      var splitAt := if newline.Some? then newline.value + 1 else maxLen;
      LastNewlineIsSplit(remaining, maxLen, newline);
      ChunksAfter(chunks, remaining, maxLen);
      chunks := chunks + [remaining[..splitAt]];
      remaining := remaining[splitAt..];
    }
  }

  /** The result of `RFind` on the window decides the split point. */
  lemma LastNewlineIsSplit(text: string, maxLen: nat, newline: Option<nat>)
    requires 0 < maxLen < |text|
    requires newline.None? ==> NoNewline(text[..maxLen], 0, maxLen)
    requires newline.Some? ==> newline.value < maxLen && text[..maxLen][newline.value] == '\n'
                               && NoNewline(text[..maxLen], newline.value + 1, maxLen)
    ensures SplitPoint(text, maxLen, maxLen) == if newline.Some? then newline.value + 1 else maxLen
  {
    assert forall j | 0 <= j < maxLen :: text[j] == text[..maxLen][j];
    var at := if newline.Some? then newline.value + 1 else maxLen;
    assert CutsAt(text, maxLen, at) && CutsAt(text, maxLen, SplitPoint(text, maxLen, maxLen));
  }

  lemma ChunksAfter(chunks: seq<string>, text: string, maxLen: nat)
    requires 0 < maxLen < |text|
    ensures var at := SplitPoint(text, maxLen, maxLen);
            chunks + Chunks(text, maxLen) == chunks + [text[..at]] + Chunks(text[at..], maxLen)
  {
  }

  /** `str::rfind('\n')`. */
  method RFind(window: string) returns (at: Option<nat>)
    ensures at.None? ==> NoNewline(window, 0, |window|)
    ensures at.Some? ==> at.value < |window| && window[at.value] == '\n'
                         && NoNewline(window, at.value + 1, |window|)
  {
    var i := |window|;
    while i > 0
      invariant 0 <= i <= |window|
      invariant NoNewline(window, i, |window|)
    {
      i := i - 1;
      if window[i] == '\n' { return Some(i); }
    }
    at := None;
  }

  /** Nothing is lost, added or reordered. */
  lemma {:induction false} ChunksConcat(text: string, maxLen: nat)
    requires 0 < maxLen
    ensures Concat(Chunks(text, maxLen)) == text
    decreases |text|
  {
    if |text| > maxLen {
      ChunksConcat(text[SplitPoint(text, maxLen, maxLen)..], maxLen);
    }
  }

  /** The cut rule, for every chunk but the last: the text that was left when chunk `i` was cut did
      not fit, and chunk `i` is its front up to the prescribed cut. */
  lemma {:induction false} CutRule(text: string, maxLen: nat, i: nat)
    requires 0 < maxLen && i < |Chunks(text, maxLen)|
    ensures var chunks := Chunks(text, maxLen);
            var rest := Concat(chunks[i..]);
            if i == |chunks| - 1 then chunks[i] == rest && |rest| <= maxLen
            else maxLen < |rest| && chunks[i] <= rest && CutsAt(rest, maxLen, |chunks[i]|)
    decreases i
  {
    var chunks := Chunks(text, maxLen);
    if |text| > maxLen {
      var tail := text[SplitPoint(text, maxLen, maxLen)..];
      if i == 0 {
        ChunksConcat(text, maxLen);
        assert chunks[0..] == chunks;
      } else {
        CutRule(tail, maxLen, i - 1);
        assert chunks[i..] == Chunks(tail, maxLen)[i - 1..];
      }
    } else {
      assert chunks[0..] == [text];
      assert Concat([text]) == text + "";
    }
  }

  /** Every chunk fits, only the chunk of an empty text is empty, and two neighbours never fit
      into one chunk. */
  lemma {:induction false} ChunksFit(text: string, maxLen: nat, i: nat)
    requires 0 < maxLen && i < |Chunks(text, maxLen)|
    ensures var chunks := Chunks(text, maxLen);
            && |chunks[i]| <= maxLen
            && (text != "" ==> chunks[i] != "")
            && (i + 1 < |chunks| ==> |chunks[i]| + |chunks[i + 1]| > maxLen)
    decreases i
  {
    if |text| > maxLen {
      var at := SplitPoint(text, maxLen, maxLen);
      var tail := text[at..];
      assert Chunks(text, maxLen) == [text[..at]] + Chunks(tail, maxLen);
      if i > 0 {
        ChunksFit(tail, maxLen, i - 1);
      } else if |tail| > maxLen {
        NextCutIsFar(text, maxLen, at);
      }
    }
  }

  /** After a cut at a newline the rest of the old window holds no newline, so the next cut lies
      beyond that window. */
  lemma NextCutIsFar(text: string, maxLen: nat, at: nat)
    requires 0 < maxLen && at <= maxLen && maxLen < |text| - at && CutsAt(text, maxLen, at)
    ensures at + SplitPoint(text[at..], maxLen, maxLen) > maxLen
  {
    var tail := text[at..];
    assert forall j | 0 <= j < maxLen - at :: tail[j] == text[at + j];
    assert NoNewline(tail, 0, maxLen - at);
  }

  /** The first two chunks of a text of three or more carry more than `maxLen` characters. */
  lemma FirstPair(text: string, maxLen: nat) returns (length: nat)
    requires 0 < maxLen && |Chunks(text, maxLen)| > 2
    ensures maxLen < length <= |text|
    ensures |Chunks(text, maxLen)| == 2 + |Chunks(text[length..], maxLen)|
  {
    var at := SplitPoint(text, maxLen, maxLen);
    var tail := text[at..];
    var next := SplitPoint(tail, maxLen, maxLen);
    NextCutIsFar(text, maxLen, at);
    length := at + next;
    assert tail[next..] == text[length..];
  }

  /** Each pair of neighbours carries more than `maxLen` characters. */
  lemma {:induction false} PairsWeigh(text: string, maxLen: nat)
    requires 0 < maxLen
    ensures Load(|Chunks(text, maxLen)|, maxLen) <= |text|
    decreases |text|
  {
    var n := |Chunks(text, maxLen)|;
    if n > 2 {
      var length := FirstPair(text, maxLen);
      PairsWeigh(text[length..], maxLen);
    } else if n == 2 {
      ChunksFit(text, maxLen, 0);
      ChunksConcat(text, maxLen);
      ConcatOfTwo(Chunks(text, maxLen));
    }
  }

  lemma ConcatOfTwo(chunks: seq<string>)
    requires |chunks| == 2
    ensures |Concat(chunks)| == |chunks[0]| + |chunks[1]|
  {
    assert Concat(chunks[1..][1..]) == "";
  }

  /** The least length of `n` chunks, counted in pairs. */
  function Load(n: nat, maxLen: nat): nat {
    if n < 2 then 0 else Load(n - 2, maxLen) + (maxLen + 1)
  }

  lemma {:induction false} LoadIsProduct(n: nat, maxLen: nat)
    ensures Load(n, maxLen) == n / 2 * (maxLen + 1)
  {
    if n >= 2 {
      LoadIsProduct(n - 2, maxLen);
      assert n / 2 == (n - 2) / 2 + 1;
      assert ((n - 2) / 2 + 1) * (maxLen + 1) == (n - 2) / 2 * (maxLen + 1) + (maxLen + 1);
    }
  }

  lemma QuotientBound(q: nat, d: nat, a: nat)
    requires 0 < d && q * d <= a
    ensures q <= a / d
  {
    var k := a / d;
    assert a < (k + 1) * d;
    MulMonotone(k + 1, q, d);
  }

  lemma MulMonotone(x: nat, y: nat, d: nat)
    ensures x <= y ==> x * d <= y * d
  {
  }

  /** Hence few chunks are sent. */
  lemma CountBound(text: string, maxLen: nat)
    requires 0 < maxLen
    ensures |Chunks(text, maxLen)| <= 2 * (|text| / (maxLen + 1)) + 1
  {
    var n := |Chunks(text, maxLen)|;
    PairsWeigh(text, maxLen);
    LoadIsProduct(n, maxLen);
    QuotientBound(n / 2, maxLen + 1, |text|);
  }
}
