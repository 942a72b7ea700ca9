/**
 * The stream splitter of the off-peak bridge (async/bridge.ts:357-437).
 *
 * Upstream text arrives in chunks.  Each chunk has its line endings normalised,
 * is appended to `pending`, and complete frames (text up to and including a blank
 * line) are cut off the front.  A frame that carries the expiry marker is never
 * forwarded and ends the stream.
 */
module Framing {
  import opened Util

  const EXPIRED_MARKER: string := "off-peak-ticket-expired"

  /** Cap on `pending`, in characters. */
  const MAX_PENDING_FRAME: nat := 1024 * 1024

  // ---------------------------------------------------------------------------
  // Text search
  // ---------------------------------------------------------------------------

  predicate BoundaryAt(s: string, i: int) {
    0 <= i && i + 1 < |s| && s[i] == '\n' && s[i + 1] == '\n'
  }

  ghost predicate HasBoundary(s: string) {
    exists i :: BoundaryAt(s, i)
  }

  /** JavaScript's `s.indexOf("\n\n", from)`. */
  function IndexOfBoundary(s: string, from: nat := 0): (idx: int)
    ensures idx == -1 || (from <= idx && BoundaryAt(s, idx))
    ensures idx == -1 ==> forall i :: from <= i ==> !BoundaryAt(s, i)
    ensures idx != -1 ==> forall i :: from <= i < idx ==> !BoundaryAt(s, i)
    decreases |s| - from
  {
    if from + 1 >= |s| then -1
    else if BoundaryAt(s, from) then from
    else IndexOfBoundary(s, from + 1)
  }

  predicate OccursAt(s: string, m: string, i: int) {
    0 <= i && i + |m| <= |s| && s[i..i + |m|] == m
  }

  /** JavaScript's `s.includes(m)`. */
  predicate Includes(s: string, m: string) {
    exists i :: 0 <= i <= |s| && OccursAt(s, m, i)
  }

  predicate Marked(s: string) {
    Includes(s, EXPIRED_MARKER)
  }

  // ---------------------------------------------------------------------------
  // Frames of a whole text
  // ---------------------------------------------------------------------------

  datatype Parsed = Parsed(frames: seq<string>, tail: string)

  /** A complete frame: its only blank line is its last two characters. */
  predicate IsFrame(f: string) {
    |f| >= 2 && IndexOfBoundary(f) == |f| - 2
  }

  function Split(s: string): Parsed
    decreases |s|
  {
    var i := IndexOfBoundary(s);
    if i < 0 then Parsed([], s)
    else
      var rest := Split(s[i + 2..]);
      Parsed([s[..i + 2]] + rest.frames, rest.tail)
  }

  /** What it means to have cut `s` into frames, with no reference to how. */
  ghost predicate IsSplit(s: string, p: Parsed) {
    && Concat(p.frames) + p.tail == s
    && (forall i :: 0 <= i < |p.frames| ==> IsFrame(p.frames[i]))
    && !HasBoundary(p.tail)
  }

  lemma FirstBoundary(s: string, k: int)
    requires BoundaryAt(s, k) && forall i :: 0 <= i < k ==> !BoundaryAt(s, i)
    ensures IndexOfBoundary(s) == k
  {
  }

  lemma FrameOfPrefix(s: string, k: int)
    requires k == IndexOfBoundary(s) && k >= 0
    ensures IsFrame(s[..k + 2])
  {
    var f := s[..k + 2];
    assert BoundaryAt(f, k);
    forall i | 0 <= i < k ensures !BoundaryAt(f, i) {
      assert !BoundaryAt(s, i);
    }
    FirstBoundary(f, k);
  }

  lemma FrameThenAnything(f: string, rest: string)
    requires IsFrame(f)
    ensures IndexOfBoundary(f + rest) == |f| - 2
  {
    assert BoundaryAt(f, |f| - 2);
    assert BoundaryAt(f + rest, |f| - 2);
    forall i | 0 <= i < |f| - 2 ensures !BoundaryAt(f + rest, i) {
      assert !BoundaryAt(f, i);
    }
    FirstBoundary(f + rest, |f| - 2);
  }

  lemma SplitWithHead(head: string, s: string, rest: Parsed)
    requires IsFrame(head) && IsSplit(s, rest)
    ensures IsSplit(head + s, Parsed([head] + rest.frames, rest.tail))
  {
    hide IsFrame, HasBoundary;
    assert ([head] + rest.frames)[1..] == rest.frames;
    assert (head + Concat(rest.frames)) + rest.tail == head + (Concat(rest.frames) + rest.tail);
  }

  /** The recursive cut meets the declarative description. */
  lemma {:induction false} SplitIsSplit(s: string)
    ensures IsSplit(s, Split(s))
    decreases |s|
  {
    var i := IndexOfBoundary(s);
    if i < 0 {
    } else {
      SplitIsSplit(s[i + 2..]);
      FrameOfPrefix(s, i);
      SplitWithHead(s[..i + 2], s[i + 2..], Split(s[i + 2..]));
      hide IsSplit;
      assert s == s[..i + 2] + s[i + 2..];
    }
  }

  /** There is only one way to cut a text into frames. */
  lemma {:induction false} SplitUnique(s: string, p: Parsed)
    requires IsSplit(s, p)
    ensures p == Split(s)
    decreases |p.frames|
  {
    if p.frames == [] {
      assert s == p.tail;
      assert IndexOfBoundary(s) == -1;
    } else {
      var f := p.frames[0];
      var rest := Concat(p.frames[1..]) + p.tail;
      assert s == f + rest;
      assert IsFrame(f);
      FrameThenAnything(f, rest);
      assert s[..|f|] == f && s[|f|..] == rest;
      SplitUnique(rest, Parsed(p.frames[1..], p.tail));
      assert p.frames == [f] + p.frames[1..];
    }
  }

  lemma Regroup(x: string, t: string, b: string, y: string, u: string)
    requires t + b == y + u
    ensures (x + y) + u == (x + t) + b
  {
    assert (x + y) + u == x + (y + u);
  }

  /** Cutting a text that grows: earlier frames stay, only the tail is cut again. */
  lemma SplitAppend(a: string, b: string)
    ensures Split(a + b).frames == Split(a).frames + Split(Split(a).tail + b).frames
    ensures Split(a + b).tail == Split(Split(a).tail + b).tail
  {
    var p := Split(a);
    var q := Split(p.tail + b);
    SplitIsSplit(a);
    SplitIsSplit(p.tail + b);
    ConcatAppend(p.frames, q.frames);
    var joined := Parsed(p.frames + q.frames, q.tail);
    Regroup(Concat(p.frames), p.tail, b, Concat(q.frames), q.tail);
    SplitUnique(a + b, joined);
  }

  // ---------------------------------------------------------------------------
  // The expiry marker
  // ---------------------------------------------------------------------------

  /** Index of the first frame that carries the marker, or the number of frames. */
  function FirstMarked(frames: seq<string>): (k: nat)
    ensures k <= |frames|
    ensures k < |frames| ==> Marked(frames[k])
    ensures forall i :: 0 <= i < k ==> !Marked(frames[i])
  {
    if frames == [] || Marked(frames[0]) then 0 else 1 + FirstMarked(frames[1..])
  }

  lemma {:induction false} FirstMarkedAppend(a: seq<string>, b: seq<string>)
    ensures FirstMarked(a + b) == if FirstMarked(a) < |a| then FirstMarked(a) else |a| + FirstMarked(b)
  {
    if a == [] {
      assert a + b == b;
    } else {
      assert (a + b)[1..] == a[1..] + b;
      FirstMarkedAppend(a[1..], b);
    }
  }

  lemma OccurrenceContains(s: string, m: string, i: int, j: int)
    requires OccursAt(s, m, i) && i <= j < i + |m|
    ensures s[j] in m
  {
    assert s[i..i + |m|][j - i] == s[j];
  }

  lemma OccursInJoin(f: string, rest: string, m: string, i: int)
    requires OccursAt(f, m, i) || (i >= |f| && OccursAt(rest, m, i - |f|))
    ensures OccursAt(f + rest, m, i)
  {
    if OccursAt(f, m, i) {
      assert (f + rest)[i..i + |m|] == f[i..i + |m|];
    } else {
      assert (f + rest)[i..i + |m|] == rest[i - |f|..i - |f| + |m|];
    }
  }

  lemma OccursInPart(f: string, rest: string, m: string, i: int)
    requires OccursAt(f + rest, m, i)
    requires |f| > 0 && f[|f| - 1] !in m
    ensures OccursAt(f, m, i) || (i >= |f| && OccursAt(rest, m, i - |f|))
  {
    if i + |m| <= |f| {
      assert f[i..i + |m|] == (f + rest)[i..i + |m|];
    } else if i >= |f| {
      assert rest[i - |f|..i - |f| + |m|] == (f + rest)[i..i + |m|];
    } else {
      OccurrenceContains(f + rest, m, i, |f| - 1);
    }
  }

  /** The marker contains no newline, so it cannot straddle the end of a frame. */
  lemma MarkerStaysInside(f: string, rest: string, m: string)
    requires |f| > 0 && f[|f| - 1] !in m
    ensures Includes(f + rest, m) <==> Includes(f, m) || Includes(rest, m)
  {
    if Includes(f, m) {
      var i :| 0 <= i <= |f| && OccursAt(f, m, i);
      OccursInJoin(f, rest, m, i);
    }
    if Includes(rest, m) {
      var i :| 0 <= i <= |rest| && OccursAt(rest, m, i);
      OccursInJoin(f, rest, m, |f| + i);
    }
    if Includes(f + rest, m) {
      var i :| 0 <= i <= |f + rest| && OccursAt(f + rest, m, i);
      OccursInPart(f, rest, m, i);
    }
  }

  lemma {:induction false} MarkedFrames(frames: seq<string>, tail: string)
    requires forall i :: 0 <= i < |frames| ==> IsFrame(frames[i])
    ensures Marked(Concat(frames) + tail) <==> FirstMarked(frames) < |frames| || Marked(tail)
  {
    if frames == [] {
      assert Concat(frames) + tail == tail;
    } else {
      var f := frames[0];
      assert IsFrame(f) && BoundaryAt(f, |f| - 2);
      var rest := Concat(frames[1..]) + tail;
      assert Concat(frames) + tail == f + rest;
      assert f[|f| - 1] == '\n' && '\n' !in EXPIRED_MARKER;
      MarkerStaysInside(f, rest, EXPIRED_MARKER);
      MarkedFrames(frames[1..], tail);
    }
  }

  // ---------------------------------------------------------------------------
  // What a whole text amounts to
  // ---------------------------------------------------------------------------

  datatype TextOutcome = TextOutcome(forwarded: seq<string>, expired: bool)

  /** The frames before the first marked one; expired iff a frame or the tail is marked. */
  function OutcomeOf(text: string): TextOutcome {
    var p := Split(text);
    var k := FirstMarked(p.frames);
    TextOutcome(p.frames[..k], k < |p.frames| || Marked(p.tail))
  }

  /** The marker is in the text iff the stream expires, and it never reaches the client. */
  lemma MarkerNeverForwarded(text: string)
    ensures OutcomeOf(text).expired <==> Marked(text)
    ensures !Marked(Concat(OutcomeOf(text).forwarded))
    ensures Concat(OutcomeOf(text).forwarded) <= text
  {
    var p := Split(text);
    SplitIsSplit(text);
    MarkedFrames(p.frames, p.tail);
    var k := FirstMarked(p.frames);
    MarkedFrames(p.frames[..k], "");
    assert FirstMarked(p.frames[..k]) == k;
    assert Concat(p.frames[..k]) + "" == Concat(p.frames[..k]);
    assert p.frames == p.frames[..k] + p.frames[k..];
    ConcatAppend(p.frames[..k], p.frames[k..]);
    assert !Marked("");
  }

  // ---------------------------------------------------------------------------
  // Line endings, normalised chunk by chunk
  // ---------------------------------------------------------------------------

  /** `s.replace(/\r\n/g, "\n")`. */
  function CrLfToLf(s: string): string {
    if s == "" then ""
    else if |s| >= 2 && s[0] == '\r' && s[1] == '\n' then "\n" + CrLfToLf(s[2..])
    else [s[0]] + CrLfToLf(s[1..])
  }

  /** `s.replace(/\r/g, "\n")`. */
  function CrToLf(s: string): string {
    seq(|s|, i requires 0 <= i < |s| => if s[i] == '\r' then '\n' else s[i])
  }

  function Normalize(s: string): string {
    CrToLf(CrLfToLf(s))
  }

  /** The cut between `a` and `b` falls inside a CRLF pair. */
  predicate CutsCrLf(a: string, b: string) {
    |a| > 0 && |b| > 0 && a[|a| - 1] == '\r' && b[0] == '\n'
  }

  lemma CrLfPair(a: string, b: string)
    requires |a| >= 2 && a[0] == '\r' && a[1] == '\n'
    ensures CrLfToLf(a) == "\n" + CrLfToLf(a[2..]) && CrLfToLf(a + b) == "\n" + CrLfToLf(a[2..] + b)
  {
    assert (a + b)[2..] == a[2..] + b;
  }

  lemma CrLfSingle(a: string, b: string)
    requires a != "" && !(|a| >= 2 && a[0] == '\r' && a[1] == '\n') && !(|a| == 1 && CutsCrLf(a, b))
    ensures CrLfToLf(a) == [a[0]] + CrLfToLf(a[1..]) && CrLfToLf(a + b) == [a[0]] + CrLfToLf(a[1..] + b)
  {
    assert (a + b)[1..] == a[1..] + b;
  }

  lemma {:induction false} CrLfAppend(a: string, b: string)
    ensures !CutsCrLf(a, b) ==> CrLfToLf(a + b) == CrLfToLf(a) + CrLfToLf(b)
    ensures CutsCrLf(a, b) ==> |CrLfToLf(a + b)| + 1 == |CrLfToLf(a)| + |CrLfToLf(b)|
    decreases |a|
  {
    if a == "" {
      assert a + b == b && CrLfToLf(a) == "";
    } else if |a| >= 2 && a[0] == '\r' && a[1] == '\n' {
      CrLfPair(a, b);
      hide CrLfToLf;
      CrLfAppend(a[2..], b);
    } else if |a| == 1 && CutsCrLf(a, b) {
      CutShortens(a, b);
    } else {
      CrLfSingle(a, b);
      hide CrLfToLf;
      CrLfAppend(a[1..], b);
    }
  }

  lemma CutShortens(a: string, b: string)
    requires |a| == 1 && CutsCrLf(a, b)
    ensures |CrLfToLf(a + b)| + 1 == |CrLfToLf(a)| + |CrLfToLf(b)|
  {
    assert (a + b)[2..] == b[1..];
    assert a[1..] == "";
  }

  /** Normalising two pieces separately is the same as normalising their join iff no CRLF is cut. */
  lemma NormalizeAppendIff(a: string, b: string)
    ensures Normalize(a + b) == Normalize(a) + Normalize(b) <==> !CutsCrLf(a, b)
    ensures CutsCrLf(a, b) ==> |Normalize(a + b)| + 1 == |Normalize(a)| + |Normalize(b)|
  {
    CrLfAppend(a, b);
  }

  function NormalizeEach(chunks: seq<string>): string {
    if chunks == [] then "" else Normalize(chunks[0]) + NormalizeEach(chunks[1..])
  }

  lemma {:induction false} NormalizeEachSnoc(chunks: seq<string>, c: string)
    ensures NormalizeEach(chunks + [c]) == NormalizeEach(chunks) + Normalize(c)
  {
    if chunks == [] {
      assert chunks + [c] == [c];
      assert NormalizeEach([c]) == Normalize(c) + NormalizeEach([c][1..]);
    } else {
      assert (chunks + [c])[1..] == chunks[1..] + [c];
      NormalizeEachSnoc(chunks[1..], c);
    }
  }

  /** Number of chunk borders that fall inside a CRLF pair. */
  function CutCrLfs(chunks: seq<string>): nat {
    if chunks == [] then 0
    else (if CutsCrLf(chunks[0], Concat(chunks[1..])) then 1 else 0) + CutCrLfs(chunks[1..])
  }

  lemma {:induction false} NormalizeEachIff(chunks: seq<string>)
    ensures |NormalizeEach(chunks)| == |Normalize(Concat(chunks))| + CutCrLfs(chunks)
    ensures NormalizeEach(chunks) == Normalize(Concat(chunks)) <==> CutCrLfs(chunks) == 0
  {
    if chunks == [] {
    } else {
      NormalizeEachIff(chunks[1..]);
      NormalizeAppendIff(chunks[0], Concat(chunks[1..]));
    }
  }

  lemma {:induction false} LfOnlyNeverCut(chunks: seq<string>)
    requires '\r' !in Concat(chunks)
    ensures CutCrLfs(chunks) == 0
  {
    if chunks == [] {
    } else {
      assert forall x :: x in Concat(chunks[1..]) ==> x in Concat(chunks);
      assert forall x :: x in chunks[0] ==> x in Concat(chunks);
      LfOnlyNeverCut(chunks[1..]);
    }
  }

  // ---------------------------------------------------------------------------
  // The incremental splitter
  // ---------------------------------------------------------------------------

  datatype Verdict = Reading | Expired | TooLong

  datatype Progress = Progress(pending: string, forwarded: seq<string>, verdict: Verdict)

  const START: Progress := Progress("", [], Reading)

  /** Cut all complete frames off `text`, stopping at the first marked one. */
  function Extract(forwarded: seq<string>, text: string): Progress
    decreases |text|
  {
    var idx := IndexOfBoundary(text);
    if idx < 0 then Progress(text, forwarded, Reading)
    else
      var frame := text[..idx + 2];
      if Marked(frame) then Progress(text[idx + 2..], forwarded, Expired)
      else Extract(forwarded + [frame], text[idx + 2..])
  }

  /** One chunk. */
  function Feed(p: Progress, chunk: string, cap: nat): Progress {
    if p.verdict != Reading then p
    else
      var text := p.pending + Normalize(chunk);
      if |text| > cap then Progress(text, p.forwarded, TooLong)
      else Extract(p.forwarded, text)
  }

  function FeedAll(chunks: seq<string>, cap: nat): Progress {
    if chunks == [] then START
    else Feed(FeedAll(chunks[..|chunks| - 1], cap), chunks[|chunks| - 1], cap)
  }

  /** `text.endsWith("\n\n")`. */
  predicate EndsFrame(text: string) {
    |text| >= 2 && text[|text| - 2..] == "\n\n"
  }

  lemma EndsFrameHasBoundary(text: string)
    requires EndsFrame(text)
    ensures HasBoundary(text)
  {
    var i := |text| - 2;
    assert text[i] == text[i..][0] && text[i + 1] == text[i..][1];
    assert BoundaryAt(text, i);
  }

  /** End of stream: a leftover is inspected, and forwarded only if it ends a frame. */
  function Finish(p: Progress): Progress {
    if p.verdict != Reading then p
    else if Marked(p.pending) then Progress("", p.forwarded, Expired)
    else if EndsFrame(p.pending) then
      Progress("", p.forwarded + [p.pending], Reading)
    else Progress("", p.forwarded, Reading)
  }

  /** Extraction frame by frame agrees with the cut of the whole text. */
  lemma {:induction false} ExtractMeansSplit(forwarded: seq<string>, text: string)
    ensures var s := Split(text);
            var k := FirstMarked(s.frames);
            var e := Extract(forwarded, text);
            && e.forwarded == forwarded + s.frames[..k]
            && (e.verdict == Expired <==> k < |s.frames|)
            && e.verdict != TooLong
            && (e.verdict == Reading ==> e.pending == s.tail)
    decreases |text|
  {
    hide Marked, IndexOfBoundary, FirstMarked;
    var idx := IndexOfBoundary(text);
    var s := Split(text);
    if idx < 0 {
      NoFramesUnmarked();
    } else {
      var frame, rest := text[..idx + 2], text[idx + 2..];
      var t := Split(rest);
      assert s == Parsed([frame] + t.frames, t.tail);
      FirstMarkedCons(frame, t.frames);
      if !Marked(frame) {
        ExtractMeansSplit(forwarded + [frame], rest);
        var k := FirstMarked(t.frames);
        assert s.frames[..1 + k] == [frame] + t.frames[..k];
      }
    }
  }

  lemma NoFramesUnmarked()
    ensures FirstMarked([]) == 0
  {
  }

  lemma FirstMarkedCons(f: string, fs: seq<string>)
    ensures FirstMarked([f] + fs) == if Marked(f) then 0 else 1 + FirstMarked(fs)
  {
    assert ([f] + fs)[1..] == fs;
  }

  /** The relation between the splitter and the normalised text it has been given. */
  ghost predicate Tracks(p: Progress, text: string) {
    var s := Split(text);
    var k := FirstMarked(s.frames);
    && p.forwarded <= s.frames[..k]
    && (p.verdict == Reading ==> k == |s.frames| && p.forwarded == s.frames && p.pending == s.tail)
    && (p.verdict == Expired ==> k < |s.frames| && p.forwarded == s.frames[..k])
  }

  lemma StoppedTracks(p: Progress, before: string, more: string)
    requires Tracks(p, before) && p.verdict != Reading
    ensures Tracks(p, before + more)
  {
    SplitAppend(before, more);
    var sb := Split(before).frames;
    var grown := Split(Split(before).tail + more).frames;
    FirstMarkedAppend(sb, grown);
    var k, j := FirstMarked(sb), FirstMarked(sb + grown);
    assert (sb + grown)[..j][..k] == sb[..k];
  }

  lemma ReadingTracks(p: Progress, before: string, more: string)
    requires Tracks(p, before) && p.verdict == Reading
    ensures Tracks(Extract(p.forwarded, p.pending + more), before + more)
    ensures Tracks(Progress(p.pending + more, p.forwarded, TooLong), before + more)
  {
    SplitAppend(before, more);
    var sb := Split(before).frames;
    var grown := Split(p.pending + more).frames;
    FirstMarkedAppend(sb, grown);
    ExtractMeansSplit(p.forwarded, p.pending + more);
    var j := FirstMarked(grown);
    assert (sb + grown)[..|sb| + j] == sb + grown[..j];
    assert j == |grown| ==> grown[..j] == grown;
  }

  lemma {:induction false} FeedAllInvariant(chunks: seq<string>, cap: nat)
    ensures Tracks(FeedAll(chunks, cap), NormalizeEach(chunks))
  {
    if chunks == [] {
      assert IndexOfBoundary("") == -1;
    } else {
      var init := chunks[..|chunks| - 1];
      var c := chunks[|chunks| - 1];
      assert chunks == init + [c];
      FeedAllInvariant(init, cap);
      NormalizeEachSnoc(init, c);
      if FeedAll(init, cap).verdict == Reading {
        ReadingTracks(FeedAll(init, cap), NormalizeEach(init), Normalize(c));
      } else {
        StoppedTracks(FeedAll(init, cap), NormalizeEach(init), Normalize(c));
      }
    }
  }

  /**
   * Chunk independence against the whole text: unless the cap trips, the chunks
   * forward exactly what the text (each chunk normalised) amounts to.
   */
  lemma StreamMeansText(chunks: seq<string>, cap: nat)
    requires FeedAll(chunks, cap).verdict != TooLong
    ensures var end := Finish(FeedAll(chunks, cap));
            end.forwarded == OutcomeOf(NormalizeEach(chunks)).forwarded
            && (end.verdict == Expired <==> OutcomeOf(NormalizeEach(chunks)).expired)
  {
    FeedAllInvariant(chunks, cap);
    LeftoverHasNoBoundary(chunks, cap);
    var s := Split(NormalizeEach(chunks));
    assert s.frames[..|s.frames|] == s.frames;
  }

  /** While reading, `pending` never holds a blank line: the end-of-stream flush is dead. */
  lemma LeftoverHasNoBoundary(chunks: seq<string>, cap: nat)
    ensures var p := FeedAll(chunks, cap);
            p.verdict == Reading ==>
              !HasBoundary(p.pending) && Finish(p).forwarded == p.forwarded
  {
    FeedAllInvariant(chunks, cap);
    SplitIsSplit(NormalizeEach(chunks));
    var p := FeedAll(chunks, cap);
    if EndsFrame(p.pending) {
      EndsFrameHasBoundary(p.pending);
    }
  }

  /** Two chunkings of one text that cut no CRLF, with the cap not hit, are indistinguishable. */
  lemma ChunkIndependence(a: seq<string>, b: seq<string>, cap: nat)
    requires Concat(a) == Concat(b)
    requires CutCrLfs(a) == 0 && CutCrLfs(b) == 0
    requires FeedAll(a, cap).verdict != TooLong && FeedAll(b, cap).verdict != TooLong
    ensures Finish(FeedAll(a, cap)).forwarded == Finish(FeedAll(b, cap)).forwarded
    ensures Finish(FeedAll(a, cap)).verdict == Finish(FeedAll(b, cap)).verdict
    ensures Finish(FeedAll(a, cap)).verdict == Expired <==> Marked(Normalize(Concat(a)))
  {
    StreamMeansText(a, cap);
    StreamMeansText(b, cap);
    NormalizeEachIff(a);
    NormalizeEachIff(b);
    MarkerNeverForwarded(Normalize(Concat(a)));
    FinishVerdict(a, cap);
    FinishVerdict(b, cap);
  }

  lemma FinishVerdict(chunks: seq<string>, cap: nat)
    requires FeedAll(chunks, cap).verdict != TooLong
    ensures Finish(FeedAll(chunks, cap)).verdict != TooLong
  {
  }

  /** LF-only text: the chunking never matters. */
  lemma LfOnlyChunkIndependence(a: seq<string>, b: seq<string>, cap: nat)
    requires Concat(a) == Concat(b) && '\r' !in Concat(a)
    requires FeedAll(a, cap).verdict != TooLong && FeedAll(b, cap).verdict != TooLong
    ensures Finish(FeedAll(a, cap)).forwarded == Finish(FeedAll(b, cap)).forwarded
    ensures Finish(FeedAll(a, cap)).verdict == Finish(FeedAll(b, cap)).verdict
  {
    LfOnlyNeverCut(a);
    LfOnlyNeverCut(b);
    ChunkIndependence(a, b, cap);
  }

  lemma NormalizeCut()
    ensures Normalize("a\r") == "a\n" && Normalize("\nb") == "\nb" && Normalize("a\r\nb") == "a\nb"
  {
    assert CrLfToLf("a\r") == "a" + CrLfToLf("a\r"[1..]) && "a\r"[1..] == "\r";
    assert CrLfToLf("\r") == "\r" + CrLfToLf("");
    assert CrLfToLf("\nb") == "\n" + CrLfToLf("\nb"[1..]) && "\nb"[1..] == "b";
    assert CrLfToLf("b") == "b" + CrLfToLf("");
    assert CrLfToLf("a\r\nb") == "a" + CrLfToLf("a\r\nb"[1..]) && "a\r\nb"[1..] == "\r\nb";
    assert CrLfToLf("\r\nb") == "\n" + CrLfToLf("\r\nb"[2..]) && "\r\nb"[2..] == "b";
  }

  lemma NormalizeCutChunks()
    ensures Concat(["a\r", "\nb"]) == "a\r\nb" == Concat(["a\r\nb"])
    ensures NormalizeEach(["a\r", "\nb"]) == "a\n\nb" && NormalizeEach(["a\r\nb"]) == "a\nb"
  {
    hide Normalize;
    NormalizeCut();
    ConcatSnoc(["a\r"], "\nb");
    ConcatSnoc([], "a\r");
    ConcatSnoc([], "a\r\nb");
    NormalizeEachSnoc(["a\r"], "\nb");
    NormalizeEachSnoc([], "a\r");
    NormalizeEachSnoc([], "a\r\nb");
    assert ["a\r"] + ["\nb"] == ["a\r", "\nb"] && [] + ["a\r"] == ["a\r"] && [] + ["a\r\nb"] == ["a\r\nb"];
  }

  /** A CRLF cut between two chunks becomes a blank line: the forwarded text differs. */
  lemma CutCrLfChangesTheStream()
    ensures Concat(["a\r", "\nb"]) == Concat(["a\r\nb"])
    ensures OutcomeOf(NormalizeEach(["a\r", "\nb"])).forwarded == ["a\n\n"]
    ensures OutcomeOf(NormalizeEach(["a\r\nb"])).forwarded == []
  {
    NormalizeCutChunks();
    hide NormalizeEach;
    FirstBoundary("a\n\n", 1);
    assert Concat(["a\n\n"]) == "a\n\n" + Concat([]);
    SplitUnique("a\n\nb", Parsed(["a\n\n"], "b"));
    assert !HasBoundary("a\nb");
    SplitUnique("a\nb", Parsed([], "a\nb"));
    assert FirstMarked(["a\n\n"]) == 1;
  }

  // ---------------------------------------------------------------------------
  // The length cap
  // ---------------------------------------------------------------------------

  /** Chunk `i` overflows: nothing expired before it, and leftover plus chunk exceed the cap. */
  ghost predicate Overflows(chunks: seq<string>, cap: nat, i: int) {
    && 0 <= i < |chunks|
    && var s := Split(NormalizeEach(chunks[..i]));
       FirstMarked(s.frames) == |s.frames| && |s.tail| + |Normalize(chunks[i])| > cap
  }

  lemma OverflowsEarly(chunks: seq<string>, cap: nat, n: nat)
    requires n <= |chunks|
    ensures forall i :: i < n ==> (Overflows(chunks[..n], cap, i) <==> Overflows(chunks, cap, i))
  {
    hide Split, NormalizeEach, Normalize, FirstMarked;
    forall i | 0 <= i < n
      ensures Overflows(chunks[..n], cap, i) <==> Overflows(chunks, cap, i)
    {
      assert chunks[..n][..i] == chunks[..i];
    }
  }

  /** Whether the last chunk overflows is whether the loop, still reading, trips on it. */
  lemma OverflowsLast(chunks: seq<string>, cap: nat)
    requires chunks != [] && FeedAll(chunks[..|chunks| - 1], cap).verdict != TooLong
    ensures FeedAll(chunks, cap).verdict == TooLong <==> Overflows(chunks, cap, |chunks| - 1)
  {
    var n := |chunks| - 1;
    var p := FeedAll(chunks[..n], cap);
    FeedAllInvariant(chunks[..n], cap);
    ExtractMeansSplit(p.forwarded, p.pending + Normalize(chunks[n]));
  }

  /** Exactly when the cap trips. */
  lemma {:induction false} CapTripsIff(chunks: seq<string>, cap: nat)
    ensures FeedAll(chunks, cap).verdict == TooLong <==> exists i :: Overflows(chunks, cap, i)
  {
    if chunks == [] {
    } else {
      var n := |chunks| - 1;
      CapTripsIff(chunks[..n], cap);
      OverflowsEarly(chunks, cap, n);
      if FeedAll(chunks[..n], cap).verdict != TooLong {
        OverflowsLast(chunks, cap);
        assert forall i :: Overflows(chunks, cap, i) ==> i == n || Overflows(chunks[..n], cap, i);
      }
    }
  }

  /** Whether the cap trips does depend on the chunking: one text, two chunkings. */
  lemma CapDependsOnChunking(cap: nat)
    requires cap >= 2
    ensures var long := seq(cap - 1, i => 'a');
            && Concat(["\n\n", long]) == Concat(["\n\n" + long])
            && FeedAll(["\n\n" + long], cap).verdict == TooLong
            && FeedAll(["\n\n", long], cap).verdict == Reading
  {
    var long := seq(cap - 1, i => 'a');
    assert Concat(["\n\n", long]) == "\n\n" + Concat([long]);
    assert Concat([long]) == long + Concat([]);
    assert Concat(["\n\n" + long]) == ("\n\n" + long) + Concat([]);
    NoCarriageReturn("\n\n" + long);
    NoCarriageReturn("\n\n");
    NoCarriageReturn(long);
    var one := ["\n\n" + long];
    assert one[..0] == [];
    assert FeedAll(one, cap) == Feed(START, "\n\n" + long, cap);
    var two := ["\n\n", long];
    assert two[..1] == ["\n\n"] && ["\n\n"][..0] == [];
    assert FeedAll(["\n\n"], cap) == Feed(START, "\n\n", cap);
    assert "" + "\n\n" == "\n\n";
    FirstBoundary("\n\n", 0);
    assert "\n\n"[..2] == "\n\n" && "\n\n"[2..] == "";
    assert FeedAll(["\n\n"], cap) == Extract(["\n\n"], "");
    assert FeedAll(two, cap) == Feed(Progress("", ["\n\n"], Reading), long, cap);
    assert "" + long == long;
    assert forall i :: !BoundaryAt(long, i);
  }

  lemma {:induction false} NoCarriageReturn(s: string)
    requires '\r' !in s
    ensures Normalize(s) == s
  {
    if s == "" {
    } else {
      NoCarriageReturn(s[1..]);
      assert CrLfToLf(s) == [s[0]] + CrLfToLf(s[1..]);
      assert CrLfToLf(s[1..]) == s[1..] by {
        assert |CrLfToLf(s[1..])| == |s[1..]|;
        forall i | 0 <= i < |s[1..]| ensures CrLfToLf(s[1..])[i] == s[1..][i] {
          assert Normalize(s[1..])[i] == s[1..][i];
          NoCrInResult(s[1..]);
        }
      }
    }
  }

  lemma {:induction false} NoCrInResult(s: string)
    requires '\r' !in s
    ensures '\r' !in CrLfToLf(s)
  {
    if s == "" {
    } else {
      NoCrInResult(s[1..]);
    }
  }
}
