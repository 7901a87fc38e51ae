/** Sentence-window chunking of a description: the stripped text is split
    after every `.`, `!` or `?` that is followed by whitespace, the pieces are
    stripped (empty ones dropped), and windows of `sentenceChunkSize`
    consecutive sentences, starting every `sentenceChunkSize - overlap`
    sentences, are joined with single spaces. */
module SemanticChunk {
  import opened Wrappers
  import opened Sequences
  import opened TextPreprocessing
  import opened PyRange

  predicate IsTerminal(c: char)
  {
    c == '.' || c == '!' || c == '?'
  }

  /** `s.endswith(('.', '!', '?'))`. */
  predicate EndsWithTerminal(s: string)
  {
    s != [] && IsTerminal(s[|s| - 1])
  }

  /** A position where the pattern `(?<=[.!?])\s+` can start matching. */
  predicate IsBreak(s: string, p: int)
  {
    1 <= p < |s| && IsTerminal(s[p - 1]) && IsSpace(s[p])
  }

  /** The first break position at or after `p`, or `|s|` when there is none. */
  function FindBreak(s: string, p: nat): (b: nat)
    requires 1 <= p <= |s|
    ensures p <= b <= |s|
    ensures b < |s| ==> IsBreak(s, b)
    ensures forall q :: p <= q < b ==> !IsBreak(s, q)
    decreases |s| - p
  {
    if p == |s| then |s|
    else if IsBreak(s, p) then p
    else FindBreak(s, p + 1)
  }

  /** `re.split(r'(?<=[.!?])\s+', s)`: every piece but the last ends with a
      terminal character and is not empty. */
  function SplitSentences(s: string): (r: seq<string>)
    ensures |r| >= 1
    ensures forall i :: 0 <= i < |r| - 1 ==> EndsWithTerminal(r[i])
    ensures (s == [] || FindBreak(s, 1) == |s|) ==> r == [s]
    decreases |s|
  {
    if s == [] then [s]
    else
      var b := FindBreak(s, 1);
      if b == |s| then [s]
      else
        var q := b + LeadingSpaces(s[b..]);
        [s[..b]] + SplitSentences(s[q..])
  }

  /** The whitespace runs the split removes, one between each two pieces. */
  function Separators(s: string): seq<string>
    decreases |s|
  {
    if s == [] then []
    else
      var b := FindBreak(s, 1);
      if b == |s| then []
      else
        var q := b + LeadingSpaces(s[b..]);
        [s[b..q]] + Separators(s[q..])
  }

  /** `pieces[0] + seps[0] + pieces[1] + ... + pieces[|pieces| - 1]`. */
  function Interleave(pieces: seq<string>, seps: seq<string>): string
    requires |pieces| == |seps| + 1
    decreases |seps|
  {
    if seps == [] then pieces[0] else pieces[0] + seps[0] + Interleave(pieces[1..], seps[1..])
  }

  /** A non-empty run of whitespace. */
  predicate WhitespaceRun(w: string)
  {
    w != [] && forall j :: 0 <= j < |w| ==> IsSpace(w[j])
  }

  /** `t` has no position where the split pattern can match (`IsBreak`
      never holds outside `t`). */
  predicate NoBreak(t: string)
  {
    forall p :: 0 <= p < |t| ==> !IsBreak(t, p)
  }

  predicate AllNoBreak(r: seq<string>)
  {
    forall i :: 0 <= i < |r| ==> NoBreak(r[i])
  }

  predicate AllRuns(ws: seq<string>)
  {
    forall i :: 0 <= i < |ws| ==> WhitespaceRun(ws[i])
  }

  /** Every piece after the first is empty or starts with a non-space. */
  predicate LaterPiecesStartClean(r: seq<string>)
  {
    forall i :: 1 <= i < |r| ==> r[i] == [] || !IsSpace(r[i][0])
  }

  lemma AllNoBreakCons(x: string, r: seq<string>)
    requires NoBreak(x) && AllNoBreak(r)
    ensures AllNoBreak([x] + r)
  {
    forall i | 1 <= i < |[x] + r| ensures NoBreak(([x] + r)[i]) {
      assert ([x] + r)[i] == r[i - 1];
    }
  }

  lemma AllRunsCons(w: string, ws: seq<string>)
    requires WhitespaceRun(w) && AllRuns(ws)
    ensures AllRuns([w] + ws)
  {
    forall i | 1 <= i < |[w] + ws| ensures WhitespaceRun(([w] + ws)[i]) {
      assert ([w] + ws)[i] == ws[i - 1];
    }
  }

  lemma LaterPiecesStartCleanCons(x: string, r: seq<string>)
    requires LaterPiecesStartClean(r) && (r != [] ==> r[0] == [] || !IsSpace(r[0][0]))
    ensures LaterPiecesStartClean([x] + r)
  {
    forall i | 1 <= i < |[x] + r| ensures ([x] + r)[i] == [] || !IsSpace(([x] + r)[i][0]) {
      assert ([x] + r)[i] == r[i - 1];
    }
  }

  lemma InterleaveCons(a: string, w: string, r: seq<string>, ws: seq<string>)
    requires |r| == |ws| + 1
    ensures Interleave([a] + r, [w] + ws) == a + w + Interleave(r, ws)
  {
    assert ([a] + r)[1..] == r;
    assert ([w] + ws)[1..] == ws;
  }

  lemma SlicesRejoin(s: string, b: nat, q: nat)
    requires b <= q <= |s|
    ensures s[..b] + s[b..q] + s[q..] == s
  {
    assert s[..b] + s[b..q] == s[..q];
  }

  /** A prefix that holds no break of `s` holds no break of its own. */
  lemma PrefixNoBreak(s: string, b: nat)
    requires 1 <= b <= |s|
    requires forall q :: 1 <= q < b ==> !IsBreak(s, q)
    ensures NoBreak(s[..b])
  {
    forall p | 1 <= p < b ensures !IsBreak(s[..b], p) {
      assert !IsBreak(s, p);
      assert s[..b][p - 1] == s[p - 1] && s[..b][p] == s[p];
    }
  }

  /** The split of a text that has a break: the piece before it, then the
      split of what follows the whitespace run. */
  lemma {:induction false} SplitAtBreak(s: string, b: nat, q: nat)
    requires s != [] && b == FindBreak(s, 1) && b < |s| && q == b + LeadingSpaces(s[b..])
    ensures SplitSentences(s) == [s[..b]] + SplitSentences(s[q..])
  {
    var rest := SplitSentences(s[q..]);
    assert SplitSentences(s) == [s[..b]] + rest;
  }

  /** The separators of a text that has a break. */
  lemma {:induction false} SeparatorsAtBreak(s: string, b: nat, q: nat)
    requires s != [] && b == FindBreak(s, 1) && b < |s| && q == b + LeadingSpaces(s[b..])
    ensures Separators(s) == [s[b..q]] + Separators(s[q..])
  {
    var rest := Separators(s[q..]);
    assert Separators(s) == [s[b..q]] + rest;
  }

  /** The run removed at a break is whitespace, non-empty and maximal. */
  lemma {:induction false} RunAtBreak(s: string, b: nat, q: nat)
    requires s != [] && b == FindBreak(s, 1) && b < |s| && q == b + LeadingSpaces(s[b..])
    ensures b < q <= |s|
    ensures WhitespaceRun(s[b..q])
    ensures q < |s| ==> !IsSpace(s[q])
  {
    assert IsSpace(s[b..][0]);
    assert s[b..q] == s[b..][..q - b];
    assert q < |s| ==> s[q] == s[b..][q - b];
  }

  /** No piece of the split contains a break. */
  lemma {:induction false} SplitPiecesHaveNoBreak(s: string)
    ensures AllNoBreak(SplitSentences(s))
    decreases |s|
  {
    if s != [] {
      var b := FindBreak(s, 1);
      PrefixNoBreak(s, b);
      if b < |s| {
        var q := b + LeadingSpaces(s[b..]);
        SplitAtBreak(s, b, q);
        RunAtBreak(s, b, q);
        SplitPiecesHaveNoBreak(s[q..]);
        AllNoBreakCons(s[..b], SplitSentences(s[q..]));
      } else {
        assert s[..b] == s;
      }
    }
  }

  /** One separator between each two pieces. */
  lemma {:induction false} SplitCounts(s: string)
    ensures |Separators(s)| == |SplitSentences(s)| - 1
    decreases |s|
  {
    if s != [] {
      var b := FindBreak(s, 1);
      if b < |s| {
        var q := b + LeadingSpaces(s[b..]);
        SplitAtBreak(s, b, q);
        SeparatorsAtBreak(s, b, q);
        RunAtBreak(s, b, q);
        SplitCounts(s[q..]);
      }
    }
  }

  /** Each separator is a non-empty whitespace run. */
  lemma {:induction false} SeparatorsAreRuns(s: string)
    ensures AllRuns(Separators(s))
    decreases |s|
  {
    if s != [] {
      var b := FindBreak(s, 1);
      if b < |s| {
        var q := b + LeadingSpaces(s[b..]);
        SeparatorsAtBreak(s, b, q);
        RunAtBreak(s, b, q);
        SeparatorsAreRuns(s[q..]);
        AllRunsCons(s[b..q], Separators(s[q..]));
      }
    }
  }

  /** The first piece starts where the text does, and each later piece is
      empty or starts with a non-space: every separator is maximal. */
  lemma {:induction false} SplitPiecesStart(s: string)
    ensures s != [] ==> SplitSentences(s)[0] != [] && SplitSentences(s)[0][0] == s[0]
    ensures LaterPiecesStartClean(SplitSentences(s))
    decreases |s|
  {
    if s != [] {
      var b := FindBreak(s, 1);
      if b < |s| {
        var q := b + LeadingSpaces(s[b..]);
        SplitAtBreak(s, b, q);
        RunAtBreak(s, b, q);
        SplitPiecesStart(s[q..]);
        var rest := SplitSentences(s[q..]);
        assert q < |s| ==> s[q..][0] == s[q];
        assert q == |s| ==> rest == [[]];
        LaterPiecesStartCleanCons(s[..b], rest);
      }
    }
  }

  /** Putting the separators back between the pieces gives the input. */
  lemma {:induction false} SplitInterleave(s: string)
    ensures |Separators(s)| == |SplitSentences(s)| - 1
    ensures Interleave(SplitSentences(s), Separators(s)) == s
    decreases |s|
  {
    SplitCounts(s);
    if s != [] {
      var b := FindBreak(s, 1);
      if b < |s| {
        var q := b + LeadingSpaces(s[b..]);
        SplitAtBreak(s, b, q);
        SeparatorsAtBreak(s, b, q);
        RunAtBreak(s, b, q);
        SplitInterleave(s[q..]);
        InterleaveCons(s[..b], s[b..q], SplitSentences(s[q..]), Separators(s[q..]));
        SlicesRejoin(s, b, q);
      }
    }
  }

  /** `re.split` cuts the text at each maximal whitespace run after a
      terminal character and nowhere else: no piece holds a break, the runs
      put back between the pieces rebuild the input, and no run can be
      extended into the piece after it. */
  lemma SplitRebuilds(s: string)
    ensures var r, ws := SplitSentences(s), Separators(s);
      && |ws| == |r| - 1
      && AllRuns(ws)
      && AllNoBreak(r)
      && LaterPiecesStartClean(r)
      && Interleave(r, ws) == s
  {
    SplitInterleave(s);
    SeparatorsAreRuns(s);
    SplitPiecesHaveNoBreak(s);
    SplitPiecesStart(s);
  }

  /** The pieces kept after stripping each one, in order. */
  function CleanSentences(pieces: seq<string>): (r: seq<string>)
    ensures |r| <= |pieces|
    ensures forall i :: 0 <= i < |r| ==> Trimmed(r[i])
  {
    if pieces == [] then []
    else
      var s := Strip(pieces[|pieces| - 1]);
      var init := CleanSentences(pieces[..|pieces| - 1]);
      var last := if s != [] then [s] else [];
      AppendTrimmed(init, last);
      init + last
  }

  /** Non-empty, with no whitespace at either end. */
  predicate Trimmed(s: string)
  {
    s != [] && !IsSpace(s[0]) && !IsSpace(s[|s| - 1])
  }

  lemma AppendTrimmed(a: seq<string>, b: seq<string>)
    requires forall i :: 0 <= i < |a| ==> Trimmed(a[i])
    requires forall i :: 0 <= i < |b| ==> Trimmed(b[i])
    ensures forall i :: 0 <= i < |a + b| ==> Trimmed((a + b)[i])
  {
    forall i | 0 <= i < |a + b| ensures Trimmed((a + b)[i]) {
      if i < |a| {
        assert (a + b)[i] == a[i];
      } else {
        assert (a + b)[i] == b[i - |a|];
      }
    }
  }

  /** A list of sentences as produced by `CleanSentences`. */
  predicate CleanList(sentences: seq<string>)
  {
    forall i :: 0 <= i < |sentences| ==> sentences[i] != [] && !IsSpace(sentences[i][0])
  }

  /** `not s.strip()`: nothing but whitespace. */
  predicate IsBlank(s: string)
  {
    s == [] || (IsSpace(s[0]) && IsBlank(s[1..]))
  }

  /** A string is blank exactly when stripping it leaves nothing. */
  lemma {:induction false} BlankIffStripsToNothing(s: string)
    ensures IsBlank(s) <==> Strip(s) == []
  {
    if s != [] {
      BlankIffStripsToNothing(s[1..]);
      assert forall i :: 0 < i < |s| ==> s[i] == s[1..][i - 1];
    }
  }

  /** `' '.join(words)`. */
  function JoinSpace(words: seq<string>): (r: string)
    ensures |words| > 0 && |words[0]| > 0 ==> |r| > 0 && r[0] == words[0][0]
  {
    if words == [] then ""
    else if |words| == 1 then words[0]
    else words[0] + " " + JoinSpace(words[1..])
  }

  /** The sentences the chunker works on. */
  function Sentences(text: string): seq<string>
  {
    var stripped := Strip(text);
    var split := SplitSentences(stripped);
    var pieces := if |split| == 1 && !EndsWithTerminal(split[0]) then [stripped] else split;
    CleanSentences(pieces)
  }

  /** The window `sentences[i:i+size]` joined with spaces. */
  function Window(sentences: seq<string>, i: nat, size: int): string
  {
    JoinSpace(PySlice(sentences, i, i + size))
  }

  /** The chunks of the windows starting at `positions`, in order, windows
      that are blank being dropped. */
  function ChunkList(sentences: seq<string>, size: int, positions: seq<nat>): seq<string>
  {
    if positions == [] then []
    else
      var chunk := Window(sentences, positions[|positions| - 1], size);
      ChunkList(sentences, size, positions[..|positions| - 1]) + (if !IsBlank(chunk) then [chunk] else [])
  }

  const ZeroStep := "range() arg 3 must not be zero"

  /** The outcome of chunking a non-empty list of clean sentences: a zero
      step raises, a negative one makes the range empty. */
  function ChunkSentences(sentences: seq<string>, size: int, overlap: int): Result<seq<string>>
  {
    if sentences == [] then Success([])
    else if size - overlap == 0 then Failure(ValueError(ZeroStep))
    else if size - overlap < 0 then Success([])
    else Success(ChunkList(sentences, size, RangeFrom(|sentences|, size - overlap, 0)))
  }

  /** What `semantic_chunk(text, size, overlap)` returns or raises. */
  function SemanticChunkSpec(text: string, size: int, overlap: int): Result<seq<string>>
  {
    if Strip(text) == [] then Success([]) else ChunkSentences(Sentences(text), size, overlap)
  }

  /** The chunker: split, clean, then one chunk per range position. */
  method Chunk(text: string, sentenceChunkSize: int, overlap: int) returns (r: Result<seq<string>>)
    ensures r == SemanticChunkSpec(text, sentenceChunkSize, overlap)
  {
    var stripped := Strip(text);
    if stripped == [] {
      return Success([]);
    }
    var pieces := SplitSentences(stripped);
    if |pieces| == 1 && !EndsWithTerminal(pieces[0]) {
      pieces := [stripped];
    }
    var cleaned := Clean(pieces);
    assert cleaned == Sentences(text);
    if cleaned == [] {
      return Success([]);
    }
    var step := sentenceChunkSize - overlap;
    if step == 0 {
      return Failure(ValueError(ZeroStep));
    }
    if step < 0 {
      return Success([]);
    }
    var chunks := ChunkWindows(cleaned, sentenceChunkSize, step);
    return Success(chunks);
  }

  /** The cleaning loop: strip each piece, keep the non-empty ones. */
  method Clean(pieces: seq<string>) returns (cleaned: seq<string>)
    ensures cleaned == CleanSentences(pieces)
  {
    cleaned := [];
    var k := 0;
    while k < |pieces|
      invariant 0 <= k <= |pieces|
      invariant cleaned == CleanSentences(pieces[..k])
    {
      var s := Strip(pieces[k]);
      assert pieces[..k + 1][..k] == pieces[..k];
      if s != [] {
        cleaned := cleaned + [s];
      }
      k := k + 1;
    }
    assert pieces[..k] == pieces;
  }

  /** The windowing loop over `range(0, len(sentences), step)`. */
  method ChunkWindows(sentences: seq<string>, size: int, step: int) returns (chunks: seq<string>)
    requires step > 0
    ensures chunks == ChunkList(sentences, size, RangeFrom(|sentences|, step, 0))
  {
    chunks := [];
    var i: nat := 0;
    ghost var done: seq<nat> := [];
    while i < |sentences|
      invariant done + RangeFrom(|sentences|, step, i) == RangeFrom(|sentences|, step, 0)
      invariant chunks == ChunkList(sentences, size, done)
      decreases |sentences| - i
    {
      var chunk := Window(sentences, i, size);
      ghost var next := done + [i];
      ChunkListSnoc(sentences, size, done, i);
      RangeStep(|sentences|, step, i, done);
      if !IsBlank(chunk) {
        chunks := chunks + [chunk];
      }
      done := next;
      i := i + step;
    }
    assert RangeFrom(|sentences|, step, i) == [];
    assert done + [] == done;
  }

  lemma ChunkListSnoc(sentences: seq<string>, size: int, done: seq<nat>, i: nat)
    ensures var chunk := Window(sentences, i, size);
      ChunkList(sentences, size, done + [i]) == ChunkList(sentences, size, done) + (if !IsBlank(chunk) then [chunk] else [])
  {
    assert (done + [i])[..|done|] == done;
  }

  lemma RangeStep(n: int, step: int, i: nat, done: seq<nat>)
    requires step > 0 && i < n
    ensures done + RangeFrom(n, step, i) == (done + [i]) + RangeFrom(n, step, i + step)
  {
  }

  /** Blank input yields no chunks. */
  lemma BlankHasNoChunks(text: string, size: int, overlap: int)
    requires forall i :: 0 <= i < |text| ==> IsSpace(text[i])
    ensures SemanticChunkSpec(text, size, overlap) == Success([])
  {
  }

  /** A step of zero raises exactly when there is some sentence to chunk. */
  lemma {:induction false} ZeroStepRaises(text: string, size: int)
    requires exists i :: 0 <= i < |text| && !IsSpace(text[i])
    ensures SemanticChunkSpec(text, size, size).Failure?
    ensures SemanticChunkSpec(text, size, size).error == ValueError(ZeroStep)
  {
    var stripped := Strip(text);
    assert stripped != [];
    var split := SplitSentences(stripped);
    var pieces := if |split| == 1 && !EndsWithTerminal(split[0]) then [stripped] else split;
    NonBlankKeepsSentence(pieces, stripped);
  }

  /** Splitting a stripped non-empty text leaves at least one sentence. */
  lemma {:induction false} NonBlankKeepsSentence(pieces: seq<string>, stripped: string)
    requires stripped != [] && !IsSpace(stripped[0])
    requires pieces == [stripped] || pieces == SplitSentences(stripped)
    ensures CleanSentences(pieces) != []
  {
    if pieces == [stripped] {
      assert CleanSentences(pieces) == CleanSentences([]) + [Strip(stripped)] by {
        assert pieces[..0] == [];
      }
    } else {
      var b := FindBreak(stripped, 1);
      if b < |stripped| {
        assert pieces[0] == stripped[..b];
        assert !IsSpace(pieces[0][0]);
        CleanKeepsFirst(pieces);
      }
    }
  }

  /** A first piece that does not start with whitespace survives cleaning. */
  lemma {:induction false} CleanKeepsFirst(pieces: seq<string>)
    requires |pieces| >= 1 && pieces[0] != [] && !IsSpace(pieces[0][0])
    ensures CleanSentences(pieces) != []
    decreases |pieces|
  {
    if |pieces| == 1 {
      assert pieces[..0] == [];
      assert Strip(pieces[0]) != [];
    } else {
      var init := pieces[..|pieces| - 1];
      assert init[0] == pieces[0];
      CleanKeepsFirst(init);
    }
  }

  /** Stripping a string without edge whitespace changes nothing. */
  lemma StripStripped(s: string)
    requires s != [] && !IsSpace(s[0]) && !IsSpace(s[|s| - 1])
    ensures Strip(s) == s
  {
    assert LeadingSpaces(s) == 0;
    assert EndWithoutSpaces(s) == |s|;
  }

  /** Text without a sentence break has the stripped text as its only sentence. */
  lemma {:induction false} NoBreakSingleSentence(text: string)
    requires Strip(text) != [] && FindBreak(Strip(text), 1) == |Strip(text)|
    ensures Sentences(text) == [Strip(text)]
  {
    var stripped := Strip(text);
    assert SplitSentences(stripped) == [stripped];
    var one := [stripped];
    assert one[..0] == [];
    StripStripped(stripped);
    assert CleanSentences(one) == [stripped];
  }

  /** A single sentence makes a single chunk when size and step are positive. */
  lemma {:induction false} SingleSentenceChunk(sentence: string, size: int, overlap: int)
    requires sentence != [] && !IsSpace(sentence[0])
    requires size >= 1 && size - overlap >= 1
    ensures ChunkSentences([sentence], size, overlap) == Success([sentence])
  {
    var one := [sentence];
    assert RangeFrom(1, size - overlap, 0) == [0];
    var p: seq<nat> := [0];
    assert p[..0] == [];
    assert PySlice(one, 0, size) == one;
    assert Window(one, 0, size) == sentence;
    WindowNotBlank(one, 0, size);
    assert ChunkList(one, size, p) == [sentence];
  }

  /** Text without a sentence break becomes one chunk: the text stripped. */
  lemma {:induction false} NoBreakSingleChunk(text: string, size: int, overlap: int)
    requires Strip(text) != [] && FindBreak(Strip(text), 1) == |Strip(text)|
    requires size >= 1 && size - overlap >= 1
    ensures SemanticChunkSpec(text, size, overlap) == Success([Strip(text)])
  {
    NoBreakSingleSentence(text);
    SingleSentenceChunk(Strip(text), size, overlap);
  }

  /** With a positive window size no window of clean sentences is blank. */
  lemma WindowNotBlank(sentences: seq<string>, i: nat, size: int)
    requires CleanList(sentences) && i < |sentences| && size >= 1
    ensures !IsBlank(Window(sentences, i, size))
  {
    var w := PySlice(sentences, i, i + size);
    assert w[0] == sentences[i];
    var c := Window(sentences, i, size);
    assert !IsSpace(c[0]);
  }

  /** The windows at `positions`, none dropped. */
  function Windows(sentences: seq<string>, size: int, positions: seq<nat>): seq<string>
  {
    seq(|positions|, j requires 0 <= j < |positions| => Window(sentences, positions[j], size))
  }

  /** Over clean sentences, a positive size and positions inside the list,
      no window is dropped. */
  lemma {:induction false} ChunkListWindows(sentences: seq<string>, size: int, positions: seq<nat>)
    requires CleanList(sentences) && size >= 1
    requires forall k :: 0 <= k < |positions| ==> positions[k] < |sentences|
    ensures ChunkList(sentences, size, positions) == Windows(sentences, size, positions)
  {
    if positions != [] {
      var n := |positions| - 1;
      var init := positions[..n];
      assert forall k :: 0 <= k < |init| ==> init[k] == positions[k];
      ChunkListWindows(sentences, size, init);
      var last := Window(sentences, positions[n], size);
      assert !IsBlank(last) by {
        WindowNotBlank(sentences, positions[n], size);
      }
      WindowsSnoc(sentences, size, positions);
    }
  }

  lemma WindowsSnoc(sentences: seq<string>, size: int, positions: seq<nat>)
    requires positions != []
    ensures var n := |positions| - 1;
      Windows(sentences, size, positions) == Windows(sentences, size, positions[..n]) + [Window(sentences, positions[n], size)]
  {
    var n := |positions| - 1;
    var a, b := Windows(sentences, size, positions), Windows(sentences, size, positions[..n]) + [Window(sentences, positions[n], size)];
    forall k | 0 <= k < |a| ensures a[k] == b[k] {
      if k < n {
        assert positions[..n][k] == positions[k];
      }
    }
  }

  /** The sentences of a text are clean, and none remain for blank text. */
  lemma {:induction false} SentencesClean(text: string)
    ensures CleanList(Sentences(text))
    ensures Strip(text) == [] ==> Sentences(text) == []
  {
    if Strip(text) == [] {
      assert SplitSentences([]) == [[]];
      var blank: seq<string> := [[]];
      assert blank[..0] == [];
      assert Strip([]) == [];
      assert CleanSentences(blank) == [];
    }
  }

  /** For a positive step and size, clean sentences give one chunk per
      position of `range(0, len(sentences), step)`: the window at that position. */
  lemma {:induction false} ChunksPerPosition(sentences: seq<string>, size: int, overlap: int)
    requires CleanList(sentences) && size >= 1 && size - overlap >= 1
    ensures ChunkSentences(sentences, size, overlap)
      == Success(Windows(sentences, size, RangeFrom(|sentences|, size - overlap, 0)))
  {
    var step := size - overlap;
    var positions := RangeFrom(|sentences|, step, 0);
    forall k | 0 <= k < |positions|
      ensures positions[k] < |sentences|
    {
      RangeAt(|sentences|, step, 0, k);
    }
    ChunkListWindows(sentences, size, positions);
  }

  /** For a positive step and size there are `ceil(len(sentences) / step)`
      chunks, and chunk `j`, which starts at sentence `start = j * step`,
      joins `sentences[start : start + size]`, which holds at most `size`
      sentences. */
  lemma {:induction false} ChunksAreWindows(sentences: seq<string>, size: int, overlap: int, j: nat, start: nat)
    requires CleanList(sentences) && size >= 1 && size - overlap >= 1
    requires start == j * (size - overlap)
    ensures var r := ChunkSentences(sentences, size, overlap);
      && r.Success?
      && |r.value| == RangeLength(|sentences|, size - overlap)
      && (j < |r.value| ==>
            && r.value[j] == JoinSpace(PySlice(sentences, start, start + size))
            && |PySlice(sentences, start, start + size)| <= size)
  {
    var step := size - overlap;
    var positions := RangeFrom(|sentences|, step, 0);
    ChunksPerPosition(sentences, size, overlap);
    RangeLengthIsCount(|sentences|, step);
    if j < |positions| {
      RangeAt(|sentences|, step, 0, j);
      WindowAt(sentences, size, positions, j, start);
    }
  }

  /** Window `j`, which starts at `p`, is the joined slice of at most
      `size` sentences from `p`. */
  lemma WindowAt(sentences: seq<string>, size: int, positions: seq<nat>, j: nat, p: nat)
    requires size >= 1 && j < |positions| && positions[j] == p
    ensures Windows(sentences, size, positions)[j] == JoinSpace(PySlice(sentences, p, p + size))
    ensures |PySlice(sentences, p, p + size)| <= size
  {
  }

  /** When consecutive windows overlap or touch, sentence `k` lies in the
      window of chunk `k / step` (whose text `ChunksAreWindows` gives). */
  lemma {:induction false} ChunksCoverSentences(sentences: seq<string>, size: int, overlap: int, k: nat)
    requires CleanList(sentences) && size >= 1 && size - overlap >= 1 && overlap >= 0
    requires k < |sentences|
    ensures var r, step := ChunkSentences(sentences, size, overlap), size - overlap;
      && r.Success?
      && k / step < |r.value|
      && (k / step) * step <= k < (k / step) * step + size
  {
    var step := size - overlap;
    RangeCovers(|sentences|, step, k);
    ChunksAreWindows(sentences, size, overlap, 0, 0);
    RangeLengthIsCount(|sentences|, step);
  }

  /** The chunks of a text are the chunks of its sentences, which are clean. */
  lemma {:induction false} SpecChunksSentences(text: string, size: int, overlap: int)
    ensures CleanList(Sentences(text))
    ensures SemanticChunkSpec(text, size, overlap) == ChunkSentences(Sentences(text), size, overlap)
  {
    SentencesClean(text);
  }
}
