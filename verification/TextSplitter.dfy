/** The chunking of `SqliteIndexer.split_text`: text is normalised line by line and cut
    into overlapping windows, preferring to end a window at a newline or a space. */
module TextSplitter {

  // ---------------------------------------------------------------- whitespace

  /** The characters `str.strip` removes. */
  predicate IsSpace(c: char) {
    || '\U{9}' <= c <= '\U{D}'
    || '\U{1C}' <= c <= '\U{20}'
    || c == '\U{85}' || c == '\U{A0}' || c == '\U{1680}'
    || '\U{2000}' <= c <= '\U{200A}'
    || c == '\U{2028}' || c == '\U{2029}' || c == '\U{202F}' || c == '\U{205F}' || c == '\U{3000}'
  }

  /** The characters at which `str.splitlines` breaks. */
  predicate IsLineBreak(c: char) {
    || '\U{A}' <= c <= '\U{D}'
    || '\U{1C}' <= c <= '\U{1E}'
    || c == '\U{85}' || c == '\U{2028}' || c == '\U{2029}'
  }

  function StripLeft(s: string): string {
    if s != "" && IsSpace(s[0]) then StripLeft(s[1..]) else s
  }

  function StripRight(s: string): string {
    if s != "" && IsSpace(s[|s| - 1]) then StripRight(s[..|s| - 1]) else s
  }

  function Strip(s: string): string {
    StripRight(StripLeft(s))
  }

  /** `s` without its whitespace: what chunking must not lose. */
  function Ink(s: string): string {
    if s == "" then "" else (if IsSpace(s[0]) then "" else [s[0]]) + Ink(s[1..])
  }

  // ---------------------------------------------------------------- normalisation

  function FirstBreak(s: string): (k: nat)
    ensures k <= |s|
    ensures k < |s| ==> IsLineBreak(s[k])
  {
    if s == "" || IsLineBreak(s[0]) then 0 else 1 + FirstBreak(s[1..])
  }

  /** Where the line behind a break begins. */
  function NextLine(s: string, k: nat): (next: nat)
    requires k < |s|
    ensures k < next <= |s|
  {
    if s[k] == '\r' && k + 1 < |s| && s[k + 1] == '\n' then k + 2 else k + 1
  }

  /** `str.splitlines`: "\r\n" is one break, and a final break opens no new line. */
  function SplitLines(s: string): seq<string>
    decreases |s|
  {
    var k := FirstBreak(s);
    if s == "" then []
    else if k == |s| then [s]
    else [s[..k]] + SplitLines(s[NextLine(s, k)..])
  }

  /** The stripped lines, joined by newlines. */
  function JoinStripped(lines: seq<string>): string {
    if lines == [] then ""
    else if |lines| == 1 then Strip(lines[0])
    else Strip(lines[0]) + "\n" + JoinStripped(lines[1..])
  }

  function Normalize(text: string): string {
    Strip(JoinStripped(SplitLines(text)))
  }

  // ---------------------------------------------------------------- lines

  predicate IsLine(s: string) {
    forall c | c in s :: !IsLineBreak(c)
  }

  /** What ends a line in front of `rest`: "\r\n", or one character, which is not the first half of that. */
  predicate EndsLine(ending: string, rest: string) {
    || ending == "\r\n"
    || (|ending| == 1 && IsLineBreak(ending[0]) && !(ending == "\r" && rest != "" && rest[0] == '\n'))
  }

  lemma {:induction false} FirstBreakIs(line: string, rest: string)
    requires IsLine(line) && (rest == "" || IsLineBreak(rest[0]))
    ensures FirstBreak(line + rest) == |line|
  {
    if line == "" {
      assert line + rest == rest;
    } else {
      assert line[0] in line && (line + rest)[1..] == line[1..] + rest;
      FirstBreakIs(line[1..], rest);
    }
  }

  /** A text is split where its first line ends, whatever ends it; and a text that is one line is left whole. */
  lemma LinesExactly(line: string, ending: string, rest: string)
    requires IsLine(line) && EndsLine(ending, rest)
    ensures SplitLines(line + ending + rest) == [line] + SplitLines(rest)
    ensures SplitLines(line) == if line == "" then [] else [line]
  {
    var s := line + ending + rest;
    assert s == line + (ending + rest);
    FirstBreakIs(line, ending + rest);
    FirstBreakIs(line, "");
    assert line + "" == line;
    assert s[..|line|] == line;
    assert s[|line| + |ending|..] == rest;
  }

  function StripAll(lines: seq<string>): seq<string> {
    seq(|lines|, i requires 0 <= i < |lines| => Strip(lines[i]))
  }

  lemma StrippedIsLine(line: string)
    requires IsLine(line)
    ensures IsLine(Strip(line))
  {
    var k, m := StripSlice(line);
    assert forall c | c in line[k..m] :: c in line;
  }

  /** Joining keeps the lines apart: what is joined are the stripped lines, no more and no fewer. */
  lemma {:induction false} JoinedLines(lines: seq<string>)
    requires lines != [] && (forall line | line in lines :: IsLine(line)) && Strip(lines[|lines| - 1]) != ""
    ensures SplitLines(JoinStripped(lines)) == StripAll(lines)
  {
    StrippedIsLine(lines[0]);
    if |lines| == 1 {
      LinesExactly(Strip(lines[0]), "\n", "");
    } else {
      JoinedLines(lines[1..]);
      LinesExactly(Strip(lines[0]), "\n", JoinStripped(lines[1..]));
    }
  }

  // ---------------------------------------------------------------- windows

  /** `str.rfind` of one character: the last place of `c` in `s[lo..hi]`, or -1. */
  function RFind(s: string, c: char, lo: nat, hi: nat): (k: int)
    requires lo <= hi <= |s|
    ensures k == -1 || (lo <= k < hi && s[k] == c)
    ensures forall j | lo <= j < hi && s[j] == c :: j <= k
    decreases hi
  {
    if lo == hi then -1 else if s[hi - 1] == c then hi - 1 else RFind(s, c, lo, hi - 1)
  }

  function Max(a: int, b: int): int { if a < b then b else a }

  function Min(a: int, b: int): int { if a < b then a else b }

  /** Where the window opened at `start` ends. */
  function WindowEnd(s: string, start: nat, size: nat): (end: nat)
    requires start < |s| && size > 0
    ensures start < end <= |s|
    ensures end <= start + size
    ensures end < |s| ==> start + size / 2 <= end
  {
    var end := Min(start + size, |s|);
    if end < |s| then
      var floor := start + size / 2;
      var boundary := Max(RFind(s, '\n', floor, end), RFind(s, ' ', floor, end));
      if boundary > start then boundary else end
    else end
  }

  /** Where the next window opens: `overlap` back from `end`, unless that makes no progress. */
  function NextStart(start: nat, end: nat, overlap: nat): (next: nat)
    requires start < end
    ensures start < next <= end
    ensures end <= next + overlap
  {
    var back := Max(0, end - overlap);
    if back > start then back else end
  }

  predicate IsBreak(s: string, k: nat)
    requires k < |s|
  {
    s[k] == '\n' || s[k] == ' '
  }

  /** The second half of the window opened at `start`, without the place where it opens. */
  predicate InSecondHalf(start: nat, size: nat, k: nat) {
    start < k && start + size / 2 <= k < start + size
  }

  /** A window that does not reach the end of the text stops at the last newline or space of its second half,
      and is full if there is none: words are cut only where they leave no choice. */
  lemma WindowEndsAtBreak(s: string, start: nat, size: nat)
    requires start < |s| && size > 0
    ensures |s| <= start + size ==> WindowEnd(s, start, size) == |s|
    ensures start + size < |s| ==>
              var end := WindowEnd(s, start, size);
              && (forall k: nat | InSecondHalf(start, size, k) && IsBreak(s, k) :: k <= end)
              && (end == start + size || (InSecondHalf(start, size, end) && IsBreak(s, end)))
              && (end == start + size ==> forall k: nat | InSecondHalf(start, size, k) :: !IsBreak(s, k))
  {
  }

  datatype Window = Window(start: nat, end: nat)

  function Windows(s: string, start: nat, size: nat, overlap: nat): seq<Window>
    requires size > 0
    decreases |s| - start
  {
    if start >= |s| then []
    else
      var end := WindowEnd(s, start, size);
      if end >= |s| then [Window(start, end)]
      else [Window(start, end)] + Windows(s, NextStart(start, end, overlap), size, overlap)
  }

  ghost predicate InBounds(s: string, windows: seq<Window>) {
    forall w | w in windows :: w.start <= w.end <= |s|
  }

  /** The stripped contents of the windows, without the empty ones. */
  function Chunks(s: string, windows: seq<Window>): seq<string>
    requires InBounds(s, windows)
  {
    if windows == [] then []
    else NonEmpty(Strip(s[windows[0].start..windows[0].end])) + Chunks(s, windows[1..])
  }

  function NonEmpty(chunk: string): seq<string> {
    if chunk == "" then [] else [chunk]
  }

  /** The chunks of the windows from `start` on. */
  function ChunksFrom(s: string, start: nat, size: nat, overlap: nat): seq<string>
    requires size > 0
  {
    WindowsInBounds(s, start, size, overlap);
    Chunks(s, Windows(s, start, size, overlap))
  }

  function SplitText(text: string, size: nat, overlap: nat): seq<string>
    requires size > 0
  {
    ChunksFrom(Normalize(text), 0, size, overlap)
  }

  lemma ChunksFromStep(s: string, start: nat, size: nat, overlap: nat)
    requires size > 0 && start < |s|
    ensures var end := WindowEnd(s, start, size);
            ChunksFrom(s, start, size, overlap) == NonEmpty(Strip(s[start..end])) + (
              if end >= |s| then [] else ChunksFrom(s, NextStart(start, end, overlap), size, overlap))
  {
    var end := WindowEnd(s, start, size);
    var rest := if end >= |s| then [] else Windows(s, NextStart(start, end, overlap), size, overlap);
    var ws := Windows(s, start, size, overlap);
    WindowsInBounds(s, start, size, overlap);
    assert ws == [Window(start, end)] + rest;
    assert ws[0] == Window(start, end) && ws[1..] == rest;
    assert Chunks(s, ws) == NonEmpty(Strip(s[start..end])) + Chunks(s, ws[1..]);
  }

  lemma Associative<T>(a: seq<T>, b: seq<T>, c: seq<T>)
    ensures a + (b + c) == (a + b) + c
  {
  }

  /** The loop of `split_text`. It ends for every text: each window opens further right. */
  method Split(text: string, size: nat, overlap: nat) returns (chunks: seq<string>)
    requires overlap < size
    ensures chunks == SplitText(text, size, overlap)
  {
    var normalized := Normalize(text);
    chunks := [];
    if normalized == "" {
      return;
    }
    var start := 0;
    ghost var whole := ChunksFrom(normalized, 0, size, overlap);
    assert whole == SplitText(text, size, overlap);
    while start < |normalized|
      invariant start < |normalized|
      invariant chunks + ChunksFrom(normalized, start, size, overlap) == whole
      decreases |normalized| - start
    {
      var end := FindEnd(normalized, start, size);
      var chunk := Strip(normalized[start..end]);
      SplitStep(normalized, start, end, chunk, size, overlap, chunks, whole);
      if chunk != "" {
        chunks := chunks + [chunk];
      }
      if end >= |normalized| {
        break;
      }
      var nextStart := Max(0, end - overlap);
      nextStart := if nextStart > start then nextStart else end;
      assert nextStart == NextStart(start, end, overlap);
      start := nextStart;
    }
  }

  /** The end of one window: the last newline or space in its second half, or its full size. */
  method FindEnd(s: string, start: nat, size: nat) returns (end: nat)
    requires start < |s| && size > 0
    ensures end == WindowEnd(s, start, size)
  {
    end := Min(start + size, |s|);
    if end < |s| {
      var searchFloor := start + size / 2;
      var newline := RFind(s, '\n', searchFloor, end);
      var space := RFind(s, ' ', searchFloor, end);
      var boundary := Max(newline, space);
      if boundary > start {
        end := boundary;
      }
    }
  }

  /** One round of the loop: the window's chunk moves from what is to come to what is there. */
  lemma SplitStep(s: string, start: nat, end: nat, chunk: string, size: nat, overlap: nat,
                  before: seq<string>, whole: seq<string>)
    requires size > 0 && start < |s| && before + ChunksFrom(s, start, size, overlap) == whole
    requires end == WindowEnd(s, start, size) && chunk == Strip(s[start..end])
    ensures var chunks := if chunk == "" then before else before + [chunk];
            if end >= |s| then chunks == whole
            else chunks + ChunksFrom(s, NextStart(start, end, overlap), size, overlap) == whole
  {
    ChunksFromStep(s, start, size, overlap);
    Shift(before, chunk, if end >= |s| then [] else ChunksFrom(s, NextStart(start, end, overlap), size, overlap));
  }

  lemma Shift(before: seq<string>, chunk: string, rest: seq<string>)
    ensures before + (NonEmpty(chunk) + rest) == (if chunk == "" then before else before + [chunk]) + rest
  {
    Associative(before, NonEmpty(chunk), rest);
    assert before + [] == before;
  }

  // ---------------------------------------------------------------- nothing is lost

  lemma {:induction false} WindowsInBounds(s: string, start: nat, size: nat, overlap: nat)
    requires size > 0
    ensures InBounds(s, Windows(s, start, size, overlap))
    decreases |s| - start
  {
    if start < |s| {
      var end := WindowEnd(s, start, size);
      if end < |s| {
        WindowsInBounds(s, NextStart(start, end, overlap), size, overlap);
      }
    }
  }

  lemma {:induction false} InkConcat(a: string, b: string)
    ensures Ink(a + b) == Ink(a) + Ink(b)
  {
    if a == "" {
      assert a + b == b;
    } else {
      InkConcat(a[1..], b);
      assert (a + b)[1..] == a[1..] + b;
      Associative(if IsSpace(a[0]) then "" else [a[0]], Ink(a[1..]), Ink(b));
    }
  }

  lemma {:induction false} InkStripLeft(s: string)
    ensures Ink(StripLeft(s)) == Ink(s)
  {
    if s != "" && IsSpace(s[0]) {
      InkStripLeft(s[1..]);
    }
  }

  lemma {:induction false} InkStripRight(s: string)
    ensures Ink(StripRight(s)) == Ink(s)
  {
    if s != "" && IsSpace(s[|s| - 1]) {
      InkStripRight(s[..|s| - 1]);
      InkConcat(s[..|s| - 1], s[|s| - 1..]);
      assert s == s[..|s| - 1] + s[|s| - 1..];
    }
  }

  lemma InkStrip(s: string)
    ensures Ink(Strip(s)) == Ink(s)
  {
    InkStripLeft(s);
    InkStripRight(StripLeft(s));
  }

  lemma {:induction false} InkLines(s: string)
    ensures Ink(JoinStripped(SplitLines(s))) == Ink(s)
    decreases |s|
  {
    var k := FirstBreak(s);
    if s == "" {
    } else if k == |s| {
      InkStrip(s);
    } else {
      var next := NextLine(s, k);
      InkLines(s[next..]);
      LineByLine(s, k, next, SplitLines(s[next..]));
      FirstLine(s, k, next);
    }
  }

  lemma FirstLine(s: string, k: nat, next: nat)
    requires k < |s| && k == FirstBreak(s) && next == NextLine(s, k)
    ensures SplitLines(s) == [s[..k]] + SplitLines(s[next..])
  {
  }

  lemma LineByLine(s: string, k: nat, next: nat, rest: seq<string>)
    requires k < next <= |s|
    requires IsSpace(s[k]) && (next == k + 1 || (next == k + 2 && IsSpace(s[k + 1])))
    requires Ink(JoinStripped(rest)) == Ink(s[next..])
    ensures Ink(JoinStripped([s[..k]] + rest)) == Ink(s)
  {
    InkBreak(s, k, next);
    InkStrip(s[..k]);
    InkJoin(s[..k], rest);
  }

  lemma InkSkips(s: string)
    requires s != "" && IsSpace(s[0])
    ensures Ink(s) == Ink(s[1..])
  {
  }

  /** A line break holds no ink. */
  lemma InkBreak(s: string, k: nat, next: nat)
    requires k < next <= |s|
    requires IsSpace(s[k]) && (next == k + 1 || (next == k + 2 && IsSpace(s[k + 1])))
    ensures Ink(s) == Ink(s[..k]) + Ink(s[next..])
  {
    assert s[..k] + s[k..] == s;
    InkConcat(s[..k], s[k..]);
    DropOne(s, k);
    InkSkips(s[k..]);
    if next == k + 2 {
      InkSkips(s[k + 1..]);
      DropOne(s, k + 1);
    }
  }

  lemma DropOne(s: string, k: nat)
    requires k < |s|
    ensures s[k..][1..] == s[k + 1..]
  {
  }

  lemma JoinCons(line: string, rest: seq<string>)
    requires rest != []
    ensures JoinStripped([line] + rest) == Strip(line) + ("\n" + JoinStripped(rest))
  {
    assert ([line] + rest)[1..] == rest;
    Associative(Strip(line), "\n", JoinStripped(rest));
  }

  lemma InkJoin(line: string, rest: seq<string>)
    ensures Ink(JoinStripped([line] + rest)) == Ink(Strip(line)) + Ink(JoinStripped(rest))
  {
    if rest == [] {
      assert [line] + rest == [line];
    } else {
      var tail := "\n" + JoinStripped(rest);
      JoinCons(line, rest);
      InkConcat(Strip(line), tail);
      InkSkips(tail);
      assert tail[1..] == JoinStripped(rest);
    }
  }

  /** Normalisation moves and drops whitespace only. */
  lemma NormalizeKeepsInk(text: string)
    ensures Ink(Normalize(text)) == Ink(text)
  {
    InkLines(text);
    InkStrip(JoinStripped(SplitLines(text)));
  }

  // ---------------------------------------------------------------- the shape of the windows

  /** Neighbouring windows leave no gap and never step back; they share exactly `overlap`, or nothing if the
      first is not longer than that. */
  ghost predicate Follows(w: Window, next: Window, overlap: nat) {
    && w.start < next.start <= w.end <= next.end
    && next.start == if w.end - w.start > overlap then w.end - overlap else w.end
  }

  /** A window ends no earlier than the one before it, for every overlap. */
  lemma EndsNeverStepBack(s: string, start: nat, size: nat, overlap: nat)
    requires overlap < size && start < |s| && WindowEnd(s, start, size) < |s|
    ensures var end := WindowEnd(s, start, size);
            end <= WindowEnd(s, NextStart(start, end, overlap), size)
  {
    var end := WindowEnd(s, start, size);
    var next := NextStart(start, end, overlap);
    if next < end && next + size < |s| {
      var floor, limit := next + size / 2, next + size;
      if floor <= end {
        assert s[end] == '\n' ==> RFind(s, '\n', floor, limit) >= end;
        assert s[end] == ' ' ==> RFind(s, ' ', floor, limit) >= end;
      }
    }
  }

  /** The windows of a text of `length` characters: of at most `size`, the last one reaching its end. */
  ghost predicate Orderly(ws: seq<Window>, length: nat, size: nat, overlap: nat) {
    && ws != [] && ws[|ws| - 1].end == length
    && (forall i | 0 <= i < |ws| :: ws[i].start < ws[i].end <= ws[i].start + size)
    && (forall i | 0 < i < |ws| :: Follows(ws[i - 1], ws[i], overlap))
  }

  lemma ConsOrderly(w: Window, rest: seq<Window>, length: nat, size: nat, overlap: nat)
    requires w.start < w.end <= w.start + size
    requires Orderly(rest, length, size, overlap) && Follows(w, rest[0], overlap)
    ensures Orderly([w] + rest, length, size, overlap)
  {
    var ws := [w] + rest;
    assert forall i | 0 < i < |ws| :: ws[i] == rest[i - 1];
    forall i | 0 < i < |ws| ensures Follows(ws[i - 1], ws[i], overlap) {
      if i > 1 { assert Follows(rest[i - 2], rest[i - 1], overlap); }
    }
  }

  lemma {:induction false} WindowLaws(s: string, start: nat, size: nat, overlap: nat)
    requires overlap < size && start < |s|
    ensures var ws := Windows(s, start, size, overlap);
            Orderly(ws, |s|, size, overlap) && ws[0] == Window(start, WindowEnd(s, start, size))
    decreases |s| - start
  {
    var end := WindowEnd(s, start, size);
    if end < |s| {
      var next := NextStart(start, end, overlap);
      WindowLaws(s, next, size, overlap);
      EndsNeverStepBack(s, start, size, overlap);
      ConsOrderly(Window(start, end), Windows(s, next, size, overlap), |s|, size, overlap);
    }
  }

  function Times(count: nat, step: nat): nat {
    if count == 0 then 0 else step + Times(count - 1, step)
  }

  lemma {:induction false} TimesIs(count: nat, step: nat)
    ensures Times(count, step) == count * step
  {
    if count > 0 {
      TimesIs(count - 1, step);
      assert count * step == (count - 1) * step + step;
    }
  }

  lemma Progress(s: string, start: nat, size: nat, overlap: nat)
    requires overlap < size / 2 && start < |s| && WindowEnd(s, start, size) < |s|
    ensures start + (size / 2 - overlap) <= NextStart(start, WindowEnd(s, start, size), overlap)
  {
  }

  lemma OneMoreWindow(s: string, start: nat, size: nat, overlap: nat)
    requires size > 0 && start < |s| && WindowEnd(s, start, size) < |s|
    ensures |Windows(s, start, size, overlap)|
         == |Windows(s, NextStart(start, WindowEnd(s, start, size), overlap), size, overlap)| + 1
  {
  }

  lemma {:induction false} WindowSteps(s: string, start: nat, size: nat, overlap: nat)
    requires overlap < size / 2 && start < |s|
    ensures var n := |Windows(s, start, size, overlap)|;
            n > 0 && Times(n - 1, size / 2 - overlap) <= |s| - start
    decreases |s| - start
  {
    var end := WindowEnd(s, start, size);
    if end < |s| {
      Progress(s, start, size, overlap);
      WindowSteps(s, NextStart(start, end, overlap), size, overlap);
      OneMoreWindow(s, start, size, overlap);
    }
  }

  /** With an overlap below half a window, every window but the last makes `size / 2 - overlap` progress. */
  lemma WindowCount(s: string, size: nat, overlap: nat)
    requires overlap < size / 2 && s != ""
    ensures (|Windows(s, 0, size, overlap)| - 1) * (size / 2 - overlap) <= |s|
  {
    WindowSteps(s, 0, size, overlap);
    TimesIs(|Windows(s, 0, size, overlap)| - 1, size / 2 - overlap);
  }

  // ---------------------------------------------------------------- chunks cover the text in order

  lemma {:induction false} StripLeftSlice(s: string) returns (k: nat)
    ensures k <= |s| && StripLeft(s) == s[k..]
    ensures forall p | 0 <= p < k :: IsSpace(s[p])
    ensures k < |s| ==> !IsSpace(s[k])
  {
    k := 0;
    if s != "" && IsSpace(s[0]) {
      var j := StripLeftSlice(s[1..]);
      k := j + 1;
      forall p | 0 <= p < k ensures IsSpace(s[p]) {
        if p > 0 { assert s[p] == s[1..][p - 1]; }
      }
    }
  }

  lemma {:induction false} StripRightSlice(s: string) returns (k: nat)
    ensures k <= |s| && StripRight(s) == s[..k]
    ensures forall p | k <= p < |s| :: IsSpace(s[p])
    ensures k > 0 ==> !IsSpace(s[k - 1])
  {
    k := |s|;
    if s != "" && IsSpace(s[|s| - 1]) {
      k := StripRightSlice(s[..|s| - 1]);
      forall p | k <= p < |s| ensures IsSpace(s[p]) {
        if p < |s| - 1 { assert s[p] == s[..|s| - 1][p]; }
      }
    }
  }

  ghost predicate InkAt(s: string, p: nat) {
    p < |s| && !IsSpace(s[p])
  }

  /** `s[k..m]` is what stripping leaves of `s`. */
  ghost predicate Stripped(s: string, k: nat, m: nat) {
    && k <= m <= |s|
    && (forall p: nat | p < |s| && InkAt(s, p) :: k <= p < m)
    && (k < m ==> InkAt(s, k) && InkAt(s, m - 1))
  }

  lemma StripSlice(s: string) returns (k: nat, m: nat)
    ensures Stripped(s, k, m) && Strip(s) == s[k..m]
  {
    k := StripLeftSlice(s);
    var j := StripRightSlice(s[k..]);
    m := k + j;
    assert s[k..][..j] == s[k..m];
    forall p: nat | p < |s| && InkAt(s, p) ensures k <= p < m {
      if p >= k { assert s[p] == s[k..][p - k]; }
    }
    if j > 0 { assert s[m - 1] == s[k..][j - 1]; }
  }

  /** `chunk` is what lies at `offset` in `s`, and begins and ends with a non-space. */
  ghost predicate PlacedAt(s: string, chunk: string, offset: nat) {
    && chunk != "" && offset + |chunk| <= |s| && s[offset..offset + |chunk|] == chunk
    && InkAt(s, offset) && InkAt(s, offset + |chunk| - 1)
  }

  lemma SliceOfSlice(s: string, start: nat, end: nat, k: nat, m: nat)
    requires start <= end <= |s| && k <= m <= end - start
    ensures s[start..end][k..m] == s[start + k..start + m]
  {
    var slice := s[start..end][k..m];
    forall i | 0 <= i < m - k ensures slice[i] == s[start + k..start + m][i] {
      assert slice[i] == s[start..end][k + i] == s[start + k + i];
    }
  }

  /** Stripping a window keeps every non-space of it. */
  lemma StripWindow(s: string, start: nat, end: nat) returns (offset: nat)
    requires start <= end <= |s|
    ensures var chunk := Strip(s[start..end]);
            && start <= offset && offset + |chunk| <= end
            && (chunk != "" ==> PlacedAt(s, chunk, offset))
            && (forall p: nat | start <= p < end && InkAt(s, p) :: offset <= p < offset + |chunk|)
  {
    var window := s[start..end];
    var k, m := StripSlice(window);
    offset := start + k;
    SliceOfSlice(s, start, end, k, m);
    forall p: nat | start <= p < end && InkAt(s, p) ensures offset <= p < start + m {
      assert s[p] == window[p - start] && InkAt(window, p - start);
    }
    if k < m {
      assert s[offset] == window[k] && s[start + m - 1] == window[m - 1];
    }
  }

  /** A chunk and where it lies. */
  datatype Piece = Piece(offset: nat, text: string) {
    function End(): nat { offset + |text| }
  }

  function Texts(pieces: seq<Piece>): seq<string> {
    seq(|pieces|, i requires 0 <= i < |pieces| => pieces[i].text)
  }

  lemma TextsCons(piece: Piece, pieces: seq<Piece>)
    ensures Texts([piece] + pieces) == [piece.text] + Texts(pieces)
  {
  }

  ghost predicate AllPlaced(s: string, pieces: seq<Piece>) {
    forall i | 0 <= i < |pieces| :: PlacedAt(s, pieces[i].text, pieces[i].offset)
  }

  /** Beginnings and ends both go forward. */
  ghost predicate InOrder(pieces: seq<Piece>) {
    forall i, j | 0 <= i < j < |pieces| ::
      pieces[i].offset <= pieces[j].offset && pieces[i].End() <= pieces[j].End()
  }

  /** Every non-space of `s` from `from` on lies in a piece. */
  ghost predicate Covers(s: string, pieces: seq<Piece>, from: nat) {
    forall p: nat {:trigger InSome(pieces, p)} | from <= p && InkAt(s, p) :: InSome(pieces, p)
  }

  ghost predicate InSome(pieces: seq<Piece>, p: nat) {
    exists i :: 0 <= i < |pieces| && pieces[i].offset <= p < pieces[i].End()
  }

  /** No piece begins before `start`, and none ends before a non-space that lies before `end`. */
  ghost predicate Beyond(s: string, pieces: seq<Piece>, start: nat, end: nat) {
    forall i | 0 <= i < |pieces| ::
      start <= pieces[i].offset && forall p: nat | p < end && InkAt(s, p) :: p < pieces[i].End()
  }

  lemma StartsAfter(s: string, start: nat, end: nat, first: Piece, piece: Piece)
    requires start <= first.offset && first.End() <= end && start <= piece.offset
    requires forall p: nat | start <= p < end && InkAt(s, p) :: first.offset <= p
    requires PlacedAt(s, piece.text, piece.offset)
    ensures first.offset <= piece.offset
  {
  }

  /** The piece of a window may stand before the pieces of the windows after it. */
  lemma ConsOrdered(s: string, start: nat, end: nat, first: Piece, tail: seq<Piece>)
    requires start <= first.offset && first.End() <= end
    requires PlacedAt(s, first.text, first.offset)
    requires forall p: nat | start <= p < end && InkAt(s, p) :: first.offset <= p < first.End()
    requires AllPlaced(s, tail) && InOrder(tail) && Beyond(s, tail, start, end)
    ensures AllPlaced(s, [first] + tail) && InOrder([first] + tail)
  {
    var pieces := [first] + tail;
    assert forall i | 0 < i < |pieces| :: pieces[i] == tail[i - 1];
    var last := first.End() - 1;
    assert InkAt(s, last);
    forall i | 0 < i < |pieces|
      ensures first.offset <= pieces[i].offset && first.End() <= pieces[i].End()
    {
      StartsAfter(s, start, end, first, tail[i - 1]);
    }
  }

  lemma ConsCovers(s: string, start: nat, end: nat, first: Piece, tail: seq<Piece>, from: nat)
    requires start <= from <= end && start <= first.offset
    requires forall p: nat | start <= p < end && InkAt(s, p) :: first.offset <= p < first.End()
    requires Covers(s, tail, from) && Beyond(s, tail, start, end)
    ensures Covers(s, [first] + tail, start) && Beyond(s, [first] + tail, start, end)
  {
    var pieces := [first] + tail;
    forall p: nat | start <= p && InkAt(s, p) ensures InSome(pieces, p) {
      if p < end {
        assert pieces[0] == first;
      } else {
        assert InSome(tail, p);
        var i :| 0 <= i < |tail| && tail[i].offset <= p < tail[i].End();
        assert pieces[i + 1] == tail[i];
      }
    }
    forall p: nat | p < end && InkAt(s, p) && p < start ensures p < first.End() {}
  }

  lemma {:induction false} PlaceChunks(s: string, start: nat, size: nat, overlap: nat)
    returns (pieces: seq<Piece>)
    requires overlap < size && start < |s|
    ensures Texts(pieces) == ChunksFrom(s, start, size, overlap)
    ensures AllPlaced(s, pieces) && InOrder(pieces) && Covers(s, pieces, start)
    ensures Beyond(s, pieces, start, WindowEnd(s, start, size))
    decreases |s| - start
  {
    var end := WindowEnd(s, start, size);
    ChunksFromStep(s, start, size, overlap);
    var text := Strip(s[start..end]);
    var offset := StripWindow(s, start, end);
    var tail, next := [], end;
    if end < |s| {
      next := NextStart(start, end, overlap);
      tail := PlaceChunks(s, next, size, overlap);
      EndsNeverStepBack(s, start, size, overlap);
    }
    assert Beyond(s, tail, start, end);
    if text == "" {
      pieces := tail;
    } else {
      var first := Piece(offset, text);
      ConsOrdered(s, start, end, first, tail);
      ConsCovers(s, start, end, first, tail, next);
      TextsCons(first, tail);
      pieces := [first] + tail;
    }
  }

  lemma {:induction false} ChunksFit(s: string, start: nat, size: nat, overlap: nat)
    requires overlap < size
    ensures forall chunk | chunk in ChunksFrom(s, start, size, overlap) :: 0 < |chunk| <= size
    decreases |s| - start
  {
    if start < |s| {
      var end := WindowEnd(s, start, size);
      ChunksFromStep(s, start, size, overlap);
      var _ := StripWindow(s, start, end);
      if end < |s| {
        ChunksFit(s, NextStart(start, end, overlap), size, overlap);
      }
    }
  }

  /** The promise of `split_text`: the chunks are non-empty pieces of the normalised text of at
      most `size` characters, in order, and hold every non-space character of it. */
  lemma ChunksCoverText(text: string, size: nat, overlap: nat)
    requires overlap < size
    ensures exists pieces: seq<Piece> ::
              && Texts(pieces) == SplitText(text, size, overlap)
              && AllPlaced(Normalize(text), pieces) && InOrder(pieces) && Covers(Normalize(text), pieces, 0)
    ensures forall chunk | chunk in SplitText(text, size, overlap) :: 0 < |chunk| <= size
  {
    var s := Normalize(text);
    var pieces: seq<Piece> := [];
    if s != "" {
      pieces := PlaceChunks(s, 0, size, overlap);
    }
    assert Texts(pieces) == SplitText(text, size, overlap);
    ChunksFit(s, 0, size, overlap);
  }

  /** A text is chunked to nothing exactly when it is only whitespace. */
  lemma EmptyExactlyWhenBlank(text: string, size: nat, overlap: nat)
    requires overlap < size
    ensures SplitText(text, size, overlap) == [] <==> Ink(text) == ""
  {
    NormalizeKeepsInk(text);
    var s, chunks := Normalize(text), SplitText(text, size, overlap);
    ChunksCoverText(text, size, overlap);
    var pieces: seq<Piece> :| Texts(pieces) == chunks && AllPlaced(s, pieces) && Covers(s, pieces, 0);
    InkEmptyExactly(s);
    if pieces != [] {
      assert PlacedAt(s, pieces[0].text, pieces[0].offset);
      assert Texts(pieces)[0] == pieces[0].text;
    } else {
      forall p: nat ensures !InkAt(s, p) {
        assert !InSome(pieces, p);
      }
    }
  }

  lemma {:induction false} InkEmptyExactly(s: string)
    ensures Ink(s) == "" <==> forall p: nat :: !InkAt(s, p)
  {
    if s == "" {
    } else {
      InkEmptyExactly(s[1..]);
      if Ink(s) == "" {
        forall p: nat ensures !InkAt(s, p) {
          if 0 < p < |s| { assert !InkAt(s[1..], p - 1); }
        }
      } else if !IsSpace(s[0]) {
        assert InkAt(s, 0);
      } else {
        var p: nat :| InkAt(s[1..], p);
        assert InkAt(s, p + 1);
      }
    }
  }
}
