/**
 * The driver of `annotate_video.py`: the frame rate read from ffprobe's report,
 * the split of the frame list into batches, and the per-batch worker that
 * annotates each frame and carries on past the frames that fail.
 */
module Pipeline {
  import opened Common
  import opened Zones
  import opened Annotations

  /** The outcome of a frame whose image cannot be read or written. */
  const OPEN_FAILED := "cannot open image"
  const SAVE_FAILED := "cannot save image"
  /** The errors of the frame-rate parse. */
  const NO_FRAMERATE := "Cannot determine video framerate"
  const NO_FPS_FIELD := "IndexError: list index out of range"

  // ---------------------------------------------------------------------------
  // batched
  // ---------------------------------------------------------------------------

  /** The batch size of the driver. */
  const BATCH_SIZE: nat := 500

  function Min(a: int, b: int): int {
    if a <= b then a else b
  }

  /**
   * The chunks `batched(xs, n)` yields: successive slices of `n` elements, the last
   * one possibly shorter. `islice` with a size of zero yields an empty tuple at once,
   * which ends the generator.
   */
  function Chunks<T>(xs: seq<T>, n: nat): seq<seq<T>>
    decreases |xs|
  {
    if n == 0 || xs == [] then []
    else
      var k := Min(n, |xs|);
      [xs[..k]] + Chunks(xs[k..], n)
  }

  /** The chunks, put back together, are the input in order; with a size of zero there are none. */
  lemma {:induction false} ChunksFlatten<T>(xs: seq<T>, n: nat)
    ensures n > 0 ==> Flatten(Chunks(xs, n)) == xs
    ensures n == 0 ==> Chunks(xs, n) == []
    decreases |xs|
  {
    if n > 0 && xs != [] {
      var k := Min(n, |xs|);
      ChunksFlatten(xs[k..], n);
      FlattenCons(xs[..k], Chunks(xs[k..], n));
      assert xs[..k] + xs[k..] == xs;
    }
  }

  /** Every chunk holds between one and `n` elements, and every chunk but the last exactly `n`. */
  lemma {:induction false} ChunksSizes<T>(xs: seq<T>, n: nat)
    ensures forall i :: 0 <= i < |Chunks(xs, n)| ==> 0 < |Chunks(xs, n)[i]| <= n
    ensures forall i :: 0 <= i < |Chunks(xs, n)| - 1 ==> |Chunks(xs, n)[i]| == n
    decreases |xs|
  {
    if n > 0 && xs != [] {
      var k := Min(n, |xs|);
      ChunksSizes(xs[k..], n);
      var c := Chunks(xs, n);
      assert c[1..] == Chunks(xs[k..], n);
      if |c| > 1 {
        assert |xs[k..]| > 0;
        assert k == n;
      }
    }
  }

  /** The chunks from `i` on: the chunk at `i`, then the chunks after it. */
  lemma ChunksAt<T>(xs: seq<T>, n: nat, i: nat)
    requires n > 0 && i < |xs|
    ensures Chunks(xs[i..], n) == [xs[i..Min(i + n, |xs|)]] + Chunks(xs[Min(i + n, |xs|)..], n)
  {
    var k := Min(n, |xs| - i);
    assert xs[i..][..k] == xs[i..Min(i + n, |xs|)];
    assert xs[i..][k..] == xs[Min(i + n, |xs|)..];
  }

  /** `batched`: draw tuples of at most `n` elements from one iterator until one comes back empty. */
  method Batched<T>(xs: seq<T>, n: nat) returns (chunks: seq<seq<T>>)
    ensures chunks == Chunks(xs, n)
  {
    chunks := [];
    var i := 0;
    while true
      invariant 0 <= i <= |xs|
      invariant chunks + Chunks(xs[i..], n) == Chunks(xs, n)
      decreases |xs| - i
    {
      var chunk := xs[i..Min(i + n, |xs|)];
      if chunk == [] {
        break;
      }
      ChunksAt(xs, n, i);
      assert chunks + [chunk] + Chunks(xs[Min(i + n, |xs|)..], n) == Chunks(xs, n);
      chunks := chunks + [chunk];
      i := Min(i + n, |xs|);
    }
    assert Chunks(xs[i..], n) == [];
    assert chunks + [] == chunks;
  }

  // ---------------------------------------------------------------------------
  // annotate_files and the batch loop of main
  // ---------------------------------------------------------------------------

  /** One entry of the frame list: the extracted image, where its annotated copy goes, and its frame number. */
  datatype FrameFile = FrameFile(infile: string, outfile: string, framenum: int)

  /**
   * What the worker cannot see from here: which images open, which outputs can be
   * saved, which drawing calls PIL rejects, and the text boxes of the fonts.
   */
  datatype Io = Io(opens: string -> bool, saves: string -> bool, fails: Cmd -> bool, bbox: (Font, string) -> BBox)

  /**
   * What becomes of one frame: the display list saved to its output file, or the
   * exception that the worker reports before it moves on.
   */
  function FrameOutcome(anno: Annotate, f: FrameFile, io: Io): Result<seq<Cmd>>
    reads anno, anno.zc
    requires anno.Valid()
  {
    if !io.opens(f.infile) then Err(OPEN_FAILED)
    else
      match anno.FrameResult(f.framenum, io.fails, io.bbox)
      case Err(e) => Err(e)
      case Ok(cmds) => if io.saves(f.outfile) then Ok(cmds) else Err(SAVE_FAILED)
  }

  /** The outcome of every frame of the list, each on its own. */
  function Outcomes(anno: Annotate, frames: seq<FrameFile>, io: Io): (r: seq<Result<seq<Cmd>>>)
    reads anno, anno.zc
    requires anno.Valid()
    ensures |r| == |frames|
    ensures forall i :: 0 <= i < |frames| ==> r[i] == FrameOutcome(anno, frames[i], io)
  {
    if frames == [] then []
    else Outcomes(anno, frames[..|frames| - 1], io) + [FrameOutcome(anno, frames[|frames| - 1], io)]
  }

  /** The outcomes of two lists, one after the other, are the outcomes of their concatenation. */
  lemma OutcomesAppend(anno: Annotate, a: seq<FrameFile>, b: seq<FrameFile>, io: Io)
    requires anno.Valid()
    ensures Outcomes(anno, a + b, io) == Outcomes(anno, a, io) + Outcomes(anno, b, io)
  {
    var l, r := Outcomes(anno, a + b, io), Outcomes(anno, a, io) + Outcomes(anno, b, io);
    assert |l| == |r|;
    forall i | 0 <= i < |l|
      ensures l[i] == r[i]
    {
      if i < |a| {
        assert (a + b)[i] == a[i];
      } else {
        assert (a + b)[i] == b[i - |a|];
      }
    }
  }

  /** The body of the loop of `annotate_files`: open, annotate and save one frame, or report its exception. */
  method AnnotateFile(anno: Annotate, f: FrameFile, io: Io) returns (outcome: Result<seq<Cmd>>)
    requires anno.Valid()
    ensures outcome == FrameOutcome(anno, f, io)
  {
    if !io.opens(f.infile) {
      outcome := Err(OPEN_FAILED);
    } else {
      var image := anno.AnnotateFrame(f.framenum, io.fails, io.bbox);
      if image.Err? {
        outcome := Err(image.reason);
      } else if !io.saves(f.outfile) {
        outcome := Err(SAVE_FAILED);
      } else {
        outcome := image;
      }
    }
  }

  /**
   * `annotate_files`: every frame of the batch is opened, annotated and saved in
   * turn; an exception only loses its own frame.
   */
  method AnnotateFiles(anno: Annotate, frames: seq<FrameFile>, io: Io) returns (outcomes: seq<Result<seq<Cmd>>>)
    requires anno.Valid()
    ensures outcomes == Outcomes(anno, frames, io)
  {
    outcomes := [];
    for i := 0 to |frames|
      invariant outcomes == Outcomes(anno, frames[..i], io)
    {
      assert frames[..i + 1][..i] == frames[..i];
      var outcome := AnnotateFile(anno, frames[i], io);
      outcomes := outcomes + [outcome];
    }
    assert frames[..|frames|] == frames;
  }

  /** The loop state of `main` after `b` batches: the outcomes of their frames. */
  ghost predicate BatchesDone(anno: Annotate, batches: seq<seq<FrameFile>>, b: nat, io: Io, outcomes: seq<Result<seq<Cmd>>>)
    reads anno, anno.zc
  {
    anno.Valid() && b <= |batches| && outcomes == Outcomes(anno, Flatten(batches[..b]), io)
  }

  /** One more batch: its outcomes follow those of the batches before it. */
  lemma BatchStep(anno: Annotate, batches: seq<seq<FrameFile>>, b: nat, io: Io, outcomes: seq<Result<seq<Cmd>>>)
    requires BatchesDone(anno, batches, b, io, outcomes) && b < |batches|
    ensures BatchesDone(anno, batches, b + 1, io, outcomes + Outcomes(anno, batches[b], io))
  {
    assert batches[..b + 1] == batches[..b] + [batches[b]];
    FlattenSnoc(batches[..b], batches[b]);
    OutcomesAppend(anno, Flatten(batches[..b]), batches[b], io);
  }

  /** After the last batch every frame has its outcome. */
  lemma BatchesFinished(anno: Annotate, frames: seq<FrameFile>, io: Io, outcomes: seq<Result<seq<Cmd>>>)
    requires BatchesDone(anno, Chunks(frames, BATCH_SIZE), |Chunks(frames, BATCH_SIZE)|, io, outcomes)
    ensures outcomes == Outcomes(anno, frames, io)
  {
    var batches := Chunks(frames, BATCH_SIZE);
    assert batches[..|batches|] == batches;
    ChunksFlatten(frames, BATCH_SIZE);
  }

  /**
   * The frame loop of `main`: the frame list in batches of 500, each handed to
   * `annotate_files`. Every frame is processed exactly once, and the outcomes
   * line up with the frame list.
   */
  method ProcessFrames(anno: Annotate, frames: seq<FrameFile>, io: Io) returns (outcomes: seq<Result<seq<Cmd>>>)
    requires anno.Valid()
    ensures outcomes == Outcomes(anno, frames, io)
  {
    var batches := Batched(frames, BATCH_SIZE);
    outcomes := [];
    for b := 0 to |batches|
      invariant BatchesDone(anno, batches, b, io, outcomes)
    {
      var outs := AnnotateFiles(anno, batches[b], io);
      BatchStep(anno, batches, b, io, outcomes);
      outcomes := outcomes + outs;
    }
    BatchesFinished(anno, frames, io, outcomes);
  }

  // ---------------------------------------------------------------------------
  // The frame rate from ffprobe's report
  // ---------------------------------------------------------------------------

  /** The line boundaries of Python's `str.splitlines()`. */
  predicate IsLineBreak(c: char) {
    || '\n' <= c <= '\r'
    || '\U{1c}' <= c <= '\U{1e}'
    || c == '\U{85}' || c == '\U{2028}' || c == '\U{2029}'
  }

  /** Where the first line of `s` ends: the index of its first line break, or `|s|`. */
  function LineEnd(s: string): (k: nat)
    ensures k <= |s|
    ensures forall i :: 0 <= i < k ==> !IsLineBreak(s[i])
    ensures k < |s| ==> IsLineBreak(s[k])
  {
    if s == [] || IsLineBreak(s[0]) then 0 else 1 + LineEnd(s[1..])
  }

  /** `s.splitlines()`: `\r\n` is one boundary, and a final boundary opens no empty line. */
  function SplitLines(s: string): (lines: seq<string>)
    ensures forall i, j :: 0 <= i < |lines| && 0 <= j < |lines[i]| ==> !IsLineBreak(lines[i][j])
    decreases |s|
  {
    if s == [] then []
    else
      var k := LineEnd(s);
      if k == |s| then [s]
      else
        var skip := if s[k] == '\r' && k + 1 < |s| && s[k + 1] == '\n' then 2 else 1;
        [s[..k]] + SplitLines(s[k + skip..])
  }

  /** Text without line breaks is one line, or none when it is empty. */
  lemma SplitLinesSingle(s: string)
    requires forall i :: 0 <= i < |s| ==> !IsLineBreak(s[i])
    ensures SplitLines(s) == if s == [] then [] else [s]
  {
    if s != [] {
      assert LineEnd(s) == |s|;
    }
  }

  /** A line followed by a newline, then the rest: the line, then the lines of the rest. */
  lemma SplitLinesNewline(a: string, b: string)
    requires forall i :: 0 <= i < |a| ==> !IsLineBreak(a[i])
    ensures SplitLines(a + "\n" + b) == [a] + SplitLines(b)
  {
    var s := a + "\n" + b;
    LineEndAt(a, "\n" + b);
    assert s == a + ("\n" + b);
    assert s[..|a|] == a && s[|a| + 1..] == b;
  }

  /** The first line ends where the break-free prefix ends. */
  lemma {:induction false} LineEndAt(a: string, b: string)
    requires forall i :: 0 <= i < |a| ==> !IsLineBreak(a[i])
    requires b != [] && IsLineBreak(b[0])
    ensures LineEnd(a + b) == |a|
  {
    if a != [] {
      assert (a + b)[1..] == a[1..] + b;
      LineEndAt(a[1..], b);
    } else {
      assert a + b == b;
    }
  }

  /** The line ffprobe writes for the video stream. */
  predicate IsVideoStreamLine(l: string) {
    Contains(l, "Stream") && Contains(l, "Video") && Contains(l, "fps")
  }

  /** The index of the first line that matches, when one does. */
  function FirstVideoLine(lines: seq<string>): (r: Option<nat>)
    ensures r.Some? ==> r.value < |lines| && IsVideoStreamLine(lines[r.value])
    ensures r.Some? ==> forall j :: 0 <= j < r.value ==> !IsVideoStreamLine(lines[j])
    ensures r.None? <==> forall j :: 0 <= j < |lines| ==> !IsVideoStreamLine(lines[j])
  {
    if lines == [] then None
    else if IsVideoStreamLine(lines[0]) then Some(0)
    else match FirstVideoLine(lines[1..])
      case None => None
      case Some(j) => Some(j + 1)
  }

  /** `[x.strip() for x in l.split(',') if 'fps' in x]` */
  function FpsParts(parts: seq<string>): (r: seq<string>)
  {
    if parts == [] then []
    else (if Contains(parts[0], "fps") then [Strip(parts[0])] else []) + FpsParts(parts[1..])
  }

  /**
   * The frame rate `main` passes to ffmpeg: on the first line that mentions
   * `Stream`, `Video` and `fps`, the first whitespace token of the first
   * comma-separated field that mentions `fps`. No such line is a `ValueError`.
   */
  function ParseFps(stdout: string): (r: Result<string>)
  {
    var lines := SplitLines(stdout);
    match FirstVideoLine(lines)
    case None => Err(NO_FRAMERATE)
    case Some(j) =>
      var parts := FpsParts(Split(lines[j], ','));
      if parts == [] then Err(NO_FPS_FIELD)
      else Ok(FirstToken(parts[0]))
  }

  /** A run that does not hold the separator lies in one field of the split. */
  lemma {:induction false} ContainsSomePart(s: string, t: string, sep: char)
    requires Contains(s, t) && sep !in t
    ensures exists i :: 0 <= i < |Split(s, sep)| && Contains(Split(s, sep)[i], t)
    decreases |s|
  {
    var parts := Split(s, sep);
    if t <= s {
      PrefixInFirstPart(s, t, sep);
      assert Contains(parts[0], t);
    } else {
      ContainsSomePart(s[1..], t, sep);
      var rest := Split(s[1..], sep);
      var j :| 0 <= j < |rest| && Contains(rest[j], t);
      if s[0] == sep {
        assert parts[j + 1] == rest[j];
      } else if j == 0 {
        assert ([s[0]] + rest[0])[1..] == rest[0];
        assert Contains(parts[0], t);
      } else {
        assert parts[j] == rest[j];
      }
    }
  }

  lemma {:induction false} PrefixInFirstPart(s: string, t: string, sep: char)
    requires t <= s && sep !in t
    ensures t <= Split(s, sep)[0]
    decreases |s|
  {
    if t != [] {
      assert s[0] == t[0] && t[0] != sep;
      PrefixInFirstPart(s[1..], t[1..], sep);
    }
  }

  /** A run that occurs in `s` starts at some index of `s`. */
  lemma {:induction false} ContainsAt(s: string, t: string)
    requires Contains(s, t) && t != []
    ensures exists i :: 0 <= i < |s| && s[i] == t[0]
    decreases |s|
  {
    if t <= s {
      assert s[0] == t[0];
    } else {
      ContainsAt(s[1..], t);
      var i :| 0 <= i < |s[1..]| && s[1..][i] == t[0];
      assert s[i + 1] == t[0];
    }
  }

  /** Some field of the list mentions `fps` exactly when the filtered list is not empty, and then its head is that field stripped. */
  lemma {:induction false} FpsPartsHead(parts: seq<string>, i: nat)
    requires i < |parts| && Contains(parts[i], "fps")
    ensures FpsParts(parts) != []
    ensures exists k :: 0 <= k <= i && Contains(parts[k], "fps") && FpsParts(parts)[0] == Strip(parts[k])
  {
    if !Contains(parts[0], "fps") {
      FpsPartsHead(parts[1..], i - 1);
      var k :| 0 <= k <= i - 1 && Contains(parts[1..][k], "fps") && FpsParts(parts[1..])[0] == Strip(parts[1..][k]);
      assert parts[k + 1] == parts[1..][k];
    }
  }

  /** A field that mentions `fps` keeps a non-whitespace character once stripped. */
  lemma StripKeepsF(p: string)
    requires Contains(p, "fps")
    ensures exists i :: 0 <= i < |Strip(p)| && !IsSpace(Strip(p)[i])
  {
    ContainsAt(p, "fps");
    var i :| 0 <= i < |p| && p[i] == "fps"[0];
    StripSlice(p);
    var k := LeadingSpaces(p);
    assert !IsSpace(p[i]);
    assert k <= i < k + |Strip(p)|;
    assert Strip(p)[i - k] == p[i];
  }

  /**
   * The frame rate is found exactly when some line of the report mentions `Stream`,
   * `Video` and `fps`; it is then a non-empty run without whitespace, taken from the
   * first such line, and the `IndexError` branch is never taken.
   */
  lemma ParseFpsSpec(stdout: string)
    ensures ParseFps(stdout).Ok? <==> exists j :: 0 <= j < |SplitLines(stdout)| && IsVideoStreamLine(SplitLines(stdout)[j])
    ensures ParseFps(stdout).Err? ==> ParseFps(stdout) == Err(NO_FRAMERATE)
    ensures ParseFps(stdout).Ok? ==>
      var fps := ParseFps(stdout).value;
      fps != [] && forall i :: 0 <= i < |fps| ==> !IsSpace(fps[i])
  {
    var lines := SplitLines(stdout);
    var m := FirstVideoLine(lines);
    if m.Some? {
      var l := lines[m.value];
      ContainsSomePart(l, "fps", ',');
      var parts := Split(l, ',');
      var i :| 0 <= i < |parts| && Contains(parts[i], "fps");
      FpsPartsHead(parts, i);
      var k :| 0 <= k <= i && Contains(parts[k], "fps") && FpsParts(parts)[0] == Strip(parts[k]);
      StripKeepsF(parts[k]);
    }
  }

  /** The frame rate comes from the first line that matches: the lines before it and after it do not count. */
  lemma ParseFpsFirstLine(stdout: string, j: nat)
    requires j < |SplitLines(stdout)| && IsVideoStreamLine(SplitLines(stdout)[j])
    requires forall k :: 0 <= k < j ==> !IsVideoStreamLine(SplitLines(stdout)[k])
    ensures ParseFps(stdout) == ParseFps(SplitLines(stdout)[j])
  {
    var line := SplitLines(stdout)[j];
    assert FirstVideoLine(SplitLines(stdout)) == Some(j);
    assert line != [] by {
      ContainsAt(line, "fps");
    }
    SplitLinesSingle(line);
  }
}
