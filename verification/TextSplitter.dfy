/**
 Model of pkg/utils/text_splitter.go: a text is cut into chunks of at most
 `chunkSize` runes, consecutive chunks sharing `overlap` runes.

 A Go string is a sequence of bytes. For valid UTF-8 it is determined by its
 runes, so a text is modelled as its runes, and `len(text)` as the number of
 bytes that encode them.
 */
module TextSplitter {

  /** The number of bytes that encode one rune in UTF-8 (section 3 of RFC 3629). */
  function RuneBytes(c: char): (n: nat)
    ensures 1 <= n <= 4
  {
    if c as int < 0x80 then 1
    else if c as int < 0x800 then 2
    else if c as int < 0x1_0000 then 3
    else 4
  }

  /** Go's `len(text)`. */
  function ByteLen(text: string): (n: nat)
    ensures |text| <= n <= 4 * |text|
  {
    if text == "" then 0 else RuneBytes(text[0]) + ByteLen(text[1..])
  }

  /** The distance between the starts of consecutive chunks. */
  function Step(chunkSize: nat, overlap: int): (step: nat)
    requires 0 < chunkSize
    ensures 0 < step
    ensures 0 <= overlap < chunkSize ==> chunkSize - step == overlap
    ensures chunkSize <= overlap ==> step == chunkSize
    ensures 0 <= overlap ==> step <= chunkSize
  {
    if chunkSize - overlap <= 0 then chunkSize else chunkSize - overlap
  }

  /** The chunks that start at `i`, `i + step`, ... up to the first one that reaches the end. */
  function ChunksFrom(runes: string, i: nat, chunkSize: nat, step: nat): (chunks: seq<string>)
    requires 0 < chunkSize && 0 < step
    decreases |runes| - i
  {
    if |runes| <= i then []
    else if |runes| <= i + chunkSize then [runes[i..]]
    else [runes[i..i + chunkSize]] + ChunksFrom(runes, i + step, chunkSize, step)
  }

  /** The result of the splitter: the byte-length shortcut, or the rune loop. */
  function Split(text: string, chunkSize: nat, overlap: int): seq<string>
    requires 0 < chunkSize
  {
    if ByteLen(text) <= chunkSize then [text] else ChunksFrom(text, 0, chunkSize, Step(chunkSize, overlap))
  }

  method SplitText(text: string, chunkSize: nat, overlap: int) returns (chunks: seq<string>)
    requires 0 < chunkSize
    ensures chunks == Split(text, chunkSize, overlap)
  {
    if ByteLen(text) <= chunkSize {
      return [text];
    }
    chunks := [];
    var runes := text;
    var totalLen := |runes|;
    var step := chunkSize - overlap;
    if step <= 0 {
      step := chunkSize;
    }
    var i := 0;
    while i < totalLen
      invariant 0 <= i
      invariant chunks + ChunksFrom(runes, i, chunkSize, step) == ChunksFrom(runes, 0, chunkSize, step)
      decreases totalLen - i
    {
      var end := i + chunkSize;
      if totalLen < end {
        end := totalLen;
      }
      ghost var before := chunks;
      chunks := chunks + [runes[i..end]];
      if end == totalLen {
        assert runes[..end] == runes;
        return;
      }
      Regroup(before, runes[i..end], ChunksFrom(runes, i + step, chunkSize, step));
      i := i + step;
    }
  }

  lemma Regroup(before: seq<string>, chunk: string, rest: seq<string>)
    ensures before + ([chunk] + rest) == before + [chunk] + rest
  {
  }

  /** Glues chunks together again: each later chunk without the runes it shares with its predecessor. */
  function Reassemble(chunks: seq<string>, shared: nat): string
    requires forall k :: 1 <= k < |chunks| ==> shared <= |chunks[k]|
  {
    if chunks == [] then ""
    else if |chunks| == 1 then chunks[0]
    else Reassemble(chunks[..|chunks| - 1], shared) + chunks[|chunks| - 1][shared..]
  }

  /** Reassembly, taken apart at the front. */
  lemma {:induction false} ReassembleFront(first: string, rest: seq<string>, shared: nat)
    requires rest != []
    requires forall k :: 0 <= k < |rest| ==> shared <= |rest[k]|
    ensures |Reassemble(rest, shared)| >= shared
    ensures Reassemble([first] + rest, shared) == first + Reassemble(rest, shared)[shared..]
  {
    var n := |rest| - 1;
    if n == 0 {
      ReassembleOne(rest[0], shared);
      ReassembleOne(first, shared);
      ReassembleLast([first], rest[0], shared);
      assert rest == [rest[0]];
    } else {
      var front, last := rest[..n], rest[n];
      ReassembleFront(first, front, shared);
      assert rest == front + [last];
      ReassembleLast(front, last, shared);
      assert [first] + rest == ([first] + front) + [last];
      ReassembleLast([first] + front, last, shared);
      DropJoins(first, Reassemble(front, shared), last[shared..], shared);
    }
  }

  lemma ReassembleOne(chunk: string, shared: nat)
    ensures Reassemble([chunk], shared) == chunk
  {
  }

  lemma ReassembleLast(front: seq<string>, last: string, shared: nat)
    requires front != [] && shared <= |last|
    requires forall k :: 1 <= k < |front| ==> shared <= |front[k]|
    ensures Reassemble(front + [last], shared) == Reassemble(front, shared) + last[shared..]
  {
    assert (front + [last])[..|front|] == front;
  }

  lemma DropJoins(a: string, b: string, c: string, shared: nat)
    requires shared <= |b|
    ensures a + b[shared..] + c == a + (b + c)[shared..]
  {
  }

  /** `k` is the least number of steps of length `b` that cover `a`. */
  predicate Covers(k: nat, a: nat, b: nat) {
    a <= k * b && (0 < k ==> (k - 1) * b < a)
  }

  /** The ceiling of `a / b`. */
  function CeilDiv(a: nat, b: nat): nat
    requires 0 < b
  {
    (a + b - 1) / b
  }

  lemma CoversIsCeiling(k: nat, a: nat, b: nat)
    requires 0 < b && Covers(k, a, b)
    ensures k == CeilDiv(a, b)
  {
    var q, r := (a + b - 1) / b, (a + b - 1) % b;
    assert a + b - 1 == q * b + r;
    assert (k + 1) * b == k * b + b;
    if q < k {
      Monotone(q, k - 1, b);
    } else if k < q {
      Monotone(k + 1, q, b);
    }
  }

  lemma Monotone(x: nat, y: nat, b: nat)
    requires x <= y
    ensures x * b <= y * b
  {
  }

  /** Everything the splitter guarantees about the chunks from position `i` on. */
  lemma ChunksFromFacts(runes: string, i: nat, chunkSize: nat, step: nat)
    requires i < |runes| && 0 < step <= chunkSize
    ensures var cs := ChunksFrom(runes, i, chunkSize, step);
            && cs != []
            && (forall k :: 0 <= k < |cs| ==> 0 < |cs[k]| <= chunkSize)
            && (forall k :: 1 <= k < |cs| ==> chunkSize - step < |cs[k]|)
            && Reassemble(cs, chunkSize - step) == runes[i..]
            && Covers(|cs| - 1, if |runes| - i <= chunkSize then 0 else |runes| - i - chunkSize, step)
  {
    ChunksFromSizes(runes, i, chunkSize, step);
    ChunksFromReassemble(runes, i, chunkSize, step);
    ChunksFromCover(runes, i, chunkSize, step);
  }

  lemma {:induction false} ChunksFromSizes(runes: string, i: nat, chunkSize: nat, step: nat)
    requires i < |runes| && 0 < step <= chunkSize
    ensures var cs := ChunksFrom(runes, i, chunkSize, step);
            && cs != []
            && (forall k :: 0 <= k < |cs| ==> 0 < |cs[k]| <= chunkSize)
            && (forall k :: 1 <= k < |cs| ==> chunkSize - step < |cs[k]|)
    decreases |runes| - i
  {
    if i + chunkSize < |runes| {
      ChunksFromSizes(runes, i + step, chunkSize, step);
      ChunksFromHead(runes, i + step, chunkSize, step);
    }
  }

  lemma {:induction false} ChunksFromReassemble(runes: string, i: nat, chunkSize: nat, step: nat)
    requires i < |runes| && 0 < step <= chunkSize
    ensures var cs := ChunksFrom(runes, i, chunkSize, step);
            && (forall k :: 1 <= k < |cs| ==> chunkSize - step <= |cs[k]|)
            && Reassemble(cs, chunkSize - step) == runes[i..]
    decreases |runes| - i
  {
    ChunksFromSizes(runes, i, chunkSize, step);
    if i + chunkSize < |runes| {
      var rest := ChunksFrom(runes, i + step, chunkSize, step);
      ChunksFromReassemble(runes, i + step, chunkSize, step);
      ChunksFromSizes(runes, i + step, chunkSize, step);
      ChunksFromHead(runes, i + step, chunkSize, step);
      ReassembleFront(runes[i..i + chunkSize], rest, chunkSize - step);
      WindowJoins(runes, i, chunkSize, step);
    }
  }

  lemma WindowJoins(runes: string, i: nat, chunkSize: nat, step: nat)
    requires i + chunkSize < |runes| && step <= chunkSize
    ensures runes[i..] == runes[i..i + chunkSize] + runes[i + step..][chunkSize - step..]
  {
  }

  lemma {:induction false} ChunksFromCover(runes: string, i: nat, chunkSize: nat, step: nat)
    requires i < |runes| && 0 < step <= chunkSize
    ensures var cs := ChunksFrom(runes, i, chunkSize, step);
            && cs != []
            && Covers(|cs| - 1, if |runes| - i <= chunkSize then 0 else |runes| - i - chunkSize, step)
    decreases |runes| - i
  {
    if i + chunkSize < |runes| {
      ChunksFromCover(runes, i + step, chunkSize, step);
      CoversNext(|ChunksFrom(runes, i + step, chunkSize, step)| - 1, |runes| - i - chunkSize, step);
    }
  }

  lemma ChunksFromHead(runes: string, i: nat, chunkSize: nat, step: nat)
    requires i < |runes| && 0 < step <= chunkSize
    ensures var cs := ChunksFrom(runes, i, chunkSize, step);
            cs != [] && |cs[0]| == (if |runes| - i <= chunkSize then |runes| - i else chunkSize)
  {
  }

  lemma CoversNext(k: nat, a: nat, b: nat)
    requires 0 < a && 0 < b
    requires Covers(k, if a <= b then 0 else a - b, b)
    ensures Covers(k + 1, a, b)
  {
    assert (k + 1) * b == k * b + b;
    if 0 < k {
      assert k * b == (k - 1) * b + b;
    }
  }

  /** No rune is lost or repeated: dropping the shared runes of each later chunk gives the text back. */
  lemma SplitReassembles(text: string, chunkSize: nat, overlap: nat)
    requires 0 < chunkSize
    ensures var chunks := Split(text, chunkSize, overlap);
            var shared := chunkSize - Step(chunkSize, overlap);
            && (forall k :: 1 <= k < |chunks| ==> shared < |chunks[k]|)
            && Reassemble(chunks, shared) == text
  {
    if chunkSize < ByteLen(text) {
      ChunksFromFacts(text, 0, chunkSize, Step(chunkSize, overlap));
    }
  }

  /** No chunk is longer than `chunkSize`, and every chunk after the first adds a rune to its predecessor. */
  lemma SplitBounds(text: string, chunkSize: nat, overlap: nat)
    requires 0 < chunkSize
    ensures var chunks := Split(text, chunkSize, overlap);
            && chunks != []
            && (forall k :: 0 <= k < |chunks| ==> |chunks[k]| <= chunkSize)
            && (overlap < chunkSize ==> forall k :: 1 <= k < |chunks| ==> overlap < |chunks[k]|)
  {
    if chunkSize < ByteLen(text) {
      ChunksFromFacts(text, 0, chunkSize, Step(chunkSize, overlap));
    }
  }

  /** One chunk when the runes fit, otherwise one more for each started step beyond the first chunk. */
  lemma SplitCount(text: string, chunkSize: nat, overlap: nat)
    requires 0 < chunkSize
    ensures |Split(text, chunkSize, overlap)|
         == if |text| <= chunkSize then 1
            else 1 + CeilDiv(|text| - chunkSize, Step(chunkSize, overlap))
  {
    if chunkSize < ByteLen(text) {
      var step := Step(chunkSize, overlap);
      ChunksFromFacts(text, 0, chunkSize, step);
      CoversIsCeiling(|Split(text, chunkSize, overlap)| - 1,
                      if |text| <= chunkSize then 0 else |text| - chunkSize, step);
      if |text| <= chunkSize {
        CoversIsCeiling(0, 0, step);
      }
    }
  }

  /**
   The shortcut on the byte length changes the result of the rune loop on no
   text but the empty one, for which the loop would return no chunk at all.
   */
  lemma ShortcutAgreesWithLoop(text: string, chunkSize: nat, overlap: int)
    requires 0 < chunkSize
    ensures Split(text, chunkSize, overlap) == ChunksFrom(text, 0, chunkSize, Step(chunkSize, overlap))
       <==> text != ""
  {
    if text != "" && ByteLen(text) <= chunkSize {
      assert text[0..] == text;
    }
  }

  /** Chunk `k` from position `i` on is the window of `chunkSize` runes that starts `k` steps later. */
  lemma {:induction false} ChunkWindow(runes: string, i: nat, chunkSize: nat, step: nat, k: nat)
    requires 0 < chunkSize && 0 < step
    requires k < |ChunksFrom(runes, i, chunkSize, step)|
    ensures i + k * step < |runes|
    ensures ChunksFrom(runes, i, chunkSize, step)[k]
         == runes[i + k * step..if i + k * step + chunkSize <= |runes| then i + k * step + chunkSize else |runes|]
    decreases k
  {
    if 0 < k {
      ChunkWindow(runes, i + step, chunkSize, step, k - 1);
      assert k * step == (k - 1) * step + step;
    } else if |runes| <= i + chunkSize {
      assert runes[..|runes|] == runes;
    }
  }

  /** Context at a boundary is preserved: a chunk begins with the last `overlap` runes of the chunk before it. */
  lemma SplitOverlaps(text: string, chunkSize: nat, overlap: nat, k: nat)
    requires overlap < chunkSize
    requires k + 1 < |Split(text, chunkSize, overlap)|
    ensures var chunks := Split(text, chunkSize, overlap);
            && |chunks[k]| == chunkSize
            && overlap < |chunks[k + 1]|
            && chunks[k + 1][..overlap] == chunks[k][chunkSize - overlap..]
  {
    var step := Step(chunkSize, overlap);
    SplitBounds(text, chunkSize, overlap);
    ChunkWindow(text, 0, chunkSize, step, k);
    ChunkWindow(text, 0, chunkSize, step, k + 1);
    var chunks, i := Split(text, chunkSize, overlap), k * step;
    assert (k + 1) * step == i + step;
    assert overlap < |chunks[k + 1]| <= |text| - (i + step);
    assert chunks[k] == text[i..i + chunkSize];
    assert chunks[k + 1][..overlap] == text[i + step..i + chunkSize];
  }

  /** Different texts are never split into the same chunks. */
  lemma SplitInjective(a: string, b: string, chunkSize: nat, overlap: nat)
    requires 0 < chunkSize
    requires Split(a, chunkSize, overlap) == Split(b, chunkSize, overlap)
    ensures a == b
  {
    SplitReassembles(a, chunkSize, overlap);
    SplitReassembles(b, chunkSize, overlap);
  }
}
