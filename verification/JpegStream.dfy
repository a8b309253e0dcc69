/** The chunked JPEG splitter, and the bounded ring of frames it fills. */
module JpegStream {
  import opened Prelude

  type Byte = bv8

  /** What one call returns, and what it keeps for the next. */
  datatype Parsed = Parsed(frames: seq<seq<Byte>>, rest: seq<Byte>)

  predicate StartAt(b: seq<Byte>, i: nat) {
    i + 3 <= |b| && b[i] == 0xFF && b[i + 1] == 0xD8 && b[i + 2] == 0xFF
  }

  predicate EndAt(b: seq<Byte>, i: nat) {
    i + 2 <= |b| && b[i] == 0xFF && b[i + 1] == 0xD9
  }

  /** `find(FF D8 FF, from)` */
  function FindStart(b: seq<Byte>, from: nat): (r: int)
    ensures r >= 0 ==> from <= r && r + 3 <= |b|
    decreases |b| - from
  {
    if from + 3 > |b| then -1 else if StartAt(b, from) then from else FindStart(b, from + 1)
  }

  /** `find(FF D9, from)` */
  function FindEnd(b: seq<Byte>, from: nat): (r: int)
    ensures r >= 0 ==> from <= r && r + 2 <= |b|
    decreases |b| - from
  {
    if from + 2 > |b| then -1 else if EndAt(b, from) then from else FindEnd(b, from + 1)
  }

  lemma FindStartMeaning(b: seq<Byte>, from: nat)
    ensures FindStart(b, from) < 0 ==> forall i: nat :: from <= i ==> !StartAt(b, i)
    ensures FindStart(b, from) >= 0 ==>
              StartAt(b, FindStart(b, from)) && forall i: nat :: from <= i < FindStart(b, from) ==> !StartAt(b, i)
    decreases |b| - from
  {
    if from + 3 <= |b| && !StartAt(b, from) {
      FindStartMeaning(b, from + 1);
    }
  }

  lemma FindEndMeaning(b: seq<Byte>, from: nat)
    ensures FindEnd(b, from) < 0 ==> forall i: nat :: from <= i ==> !EndAt(b, i)
    ensures FindEnd(b, from) >= 0 ==>
              EndAt(b, FindEnd(b, from)) && forall i: nat :: from <= i < FindEnd(b, from) ==> !EndAt(b, i)
    decreases |b| - from
  {
    if from + 2 <= |b| && !EndAt(b, from) {
      FindEndMeaning(b, from + 1);
    }
  }

  /** Frames longer than the limit are cut out but not returned. */
  function Within(frame: seq<Byte>, max: int): seq<seq<Byte>> {
    if |frame| <= max then [frame] else []
  }

  /** Where the next frame of a buffer lies. */
  datatype Scan = NoStart | Unfinished(start: nat) | Complete(start: nat, stop: nat)

  function ScanNext(b: seq<Byte>): (s: Scan)
    ensures s.Unfinished? ==> s.start + 3 <= |b|
    ensures s.Complete? ==> s.start + 5 <= s.stop <= |b|
  {
    var start := FindStart(b, 0);
    if start < 0 then NoStart else
    var end := FindEnd(b, start + 3);
    if end < 0 then Unfinished(start) else Complete(start, end + 2)
  }

  /** The unfinished frame at the end of `b`, whatever its length. */
  function Partial(b: seq<Byte>): (p: seq<Byte>)
    ensures |p| <= |b|
    decreases |b|
  {
    match ScanNext(b)
    case NoStart => []
    case Unfinished(start) => b[start..]
    case Complete(_, stop) => Partial(b[stop..])
  }

  /** The complete frames of `b` that are within the limit. */
  function Cut(b: seq<Byte>, max: int): (frames: seq<seq<Byte>>)
    decreases |b|
  {
    match ScanNext(b)
    case NoStart => []
    case Unfinished(_) => []
    case Complete(start, stop) => Within(b[start..stop], max) + Cut(b[stop..], max)
  }

  /** One pass over a buffer: every complete frame, and the unfinished one unless it is too long. */
  function Split(b: seq<Byte>, max: int): Parsed {
    Parsed(Cut(b, max), if |Partial(b)| > max then [] else Partial(b))
  }

  function FeedOne(buffer: seq<Byte>, chunk: seq<Byte>, max: int): Parsed {
    if chunk == [] then Parsed([], buffer) else Split(buffer + chunk, max)
  }

  function FeedAll(buffer: seq<Byte>, chunks: seq<seq<Byte>>, max: int): Parsed
    decreases |chunks|
  {
    if chunks == [] then Parsed([], buffer) else
    var first := FeedOne(buffer, chunks[0], max);
    var others := FeedAll(first.rest, chunks[1..], max);
    Parsed(first.frames + others.frames, others.rest)
  }

  function Concat(chunks: seq<seq<Byte>>): seq<Byte> {
    if chunks == [] then [] else chunks[0] + Concat(chunks[1..])
  }

  class JpegStreamParser {
    const maxFrameBytes: int
    var buffer: seq<Byte>

    constructor (maxFrameBytes: int)
      ensures buffer == [] && this.maxFrameBytes == maxFrameBytes
    {
      this.maxFrameBytes := maxFrameBytes;
      buffer := [];
    }

    method Feed(chunk: seq<Byte>) returns (frames: seq<seq<Byte>>)
      modifies this
      ensures Parsed(frames, buffer) == FeedOne(old(buffer), chunk, maxFrameBytes)
    {
      frames := [];
      if chunk == [] {
        return;
      }
      buffer := buffer + chunk;
      ghost var whole := buffer;
      while buffer != []
        invariant Cut(whole, maxFrameBytes) == frames + Cut(buffer, maxFrameBytes)
        invariant Partial(whole) == Partial(buffer)
        decreases |buffer|
      {
        var start := FindStart(buffer, 0);
        if start < 0 {
          NoMoreFrames(buffer, maxFrameBytes);
          buffer := [];
          return;
        }
        FindStartMeaning(buffer, 0);
        CutShift(buffer, start, maxFrameBytes);
        buffer := buffer[start..];
        var end := FindEnd(buffer, 3);
        AtStart(buffer, maxFrameBytes);
        if end < 0 {
          if |buffer| > maxFrameBytes {
            buffer := [];
          }
          return;
        }
        end := end + 2;
        var frame := buffer[..end];
        buffer := buffer[end..];
        TakeFrame(frames, frame, Cut(buffer, maxFrameBytes), maxFrameBytes);
        if |frame| <= maxFrameBytes {
          frames := frames + [frame];
        }
      }
      NoMoreFrames([], maxFrameBytes);
    }
  }

  lemma TakeFrame(frames: seq<seq<Byte>>, frame: seq<Byte>, later: seq<seq<Byte>>, max: int)
    ensures frames + (Within(frame, max) + later) == (if |frame| <= max then frames + [frame] else frames) + later
  {
    Regroup(frames, Within(frame, max), later);
    if |frame| > max {
      assert frames + [] == frames;
    }
  }

  lemma NoMoreFrames(b: seq<Byte>, max: int)
    requires FindStart(b, 0) < 0
    ensures Cut(b, max) == [] && Partial(b) == []
  {
  }

  /** A buffer that begins with a start marker. */
  lemma AtStart(b: seq<Byte>, max: int)
    requires StartAt(b, 0)
    ensures var end := FindEnd(b, 3);
            if end < 0 then Cut(b, max) == [] && Partial(b) == b
            else Cut(b, max) == Within(b[..end + 2], max) + Cut(b[end + 2..], max)
                 && Partial(b) == Partial(b[end + 2..])
  {
    assert FindStart(b, 0) == 0;
    assert b[0..] == b;
    if FindEnd(b, 3) >= 0 {
      assert b[0..FindEnd(b, 3) + 2] == b[..FindEnd(b, 3) + 2];
    }
  }

  // ---- Chunk independence ---------------------------------------------------

  /** A start marker begins in `b` and ends in `y`. */
  ghost predicate Straddles(b: seq<Byte>, y: seq<Byte>) {
    exists i: nat :: i < |b| < i + 3 && StartAt(b + y, i)
  }

  lemma FindStartUnique(b: seq<Byte>, from: nat, r: nat)
    requires from <= r && StartAt(b, r) && forall i: nat :: from <= i < r ==> !StartAt(b, i)
    ensures FindStart(b, from) == r
  {
    FindStartMeaning(b, from);
  }

  lemma FindEndUnique(b: seq<Byte>, from: nat, r: nat)
    requires from <= r && EndAt(b, r) && forall i: nat :: from <= i < r ==> !EndAt(b, i)
    ensures FindEnd(b, from) == r
  {
    FindEndMeaning(b, from);
  }

  lemma {:induction false} FindStartShift(b: seq<Byte>, k: nat, from: nat)
    requires k <= |b|
    ensures FindStart(b, k + from) == if FindStart(b[k..], from) < 0 then -1 else k + FindStart(b[k..], from)
    decreases |b| - from
  {
    if k + from + 3 <= |b| && !StartAt(b, k + from) {
      FindStartShift(b, k, from + 1);
    }
  }

  lemma {:induction false} FindEndShift(b: seq<Byte>, k: nat, from: nat)
    requires k <= |b|
    ensures FindEnd(b, k + from) == if FindEnd(b[k..], from) < 0 then -1 else k + FindEnd(b[k..], from)
    decreases |b| - from
  {
    if k + from + 2 <= |b| && !EndAt(b, k + from) {
      FindEndShift(b, k, from + 1);
    }
  }

  lemma {:induction false} FindStartSkip(b: seq<Byte>, k: nat, from: nat)
    requires from <= k <= |b| && forall i: nat :: from <= i < k ==> !StartAt(b, i)
    ensures FindStart(b, from) == FindStart(b, k)
    decreases k - from
  {
    if from < k {
      assert !StartAt(b, from);
      if from + 3 <= |b| {
        FindStartSkip(b, k, from + 1);
      }
    }
  }

  lemma ScanShift(b: seq<Byte>, k: nat)
    requires k <= |b| && forall i: nat :: i < k ==> !StartAt(b, i)
    ensures ScanNext(b) == match ScanNext(b[k..])
                           case NoStart => NoStart
                           case Unfinished(start) => Unfinished(k + start)
                           case Complete(start, stop) => Complete(k + start, k + stop)
  {
    FindStartSkip(b, k, 0);
    FindStartShift(b, k, 0);
    var start := FindStart(b[k..], 0);
    if start >= 0 {
      FindEndShift(b, k, start + 3);
    }
  }

  /** Bytes before the first start marker can be deleted. */
  lemma {:induction false} CutShift(b: seq<Byte>, k: nat, max: int)
    requires k <= |b| && forall i: nat :: i < k ==> !StartAt(b, i)
    ensures Cut(b, max) == Cut(b[k..], max) && Partial(b) == Partial(b[k..])
  {
    ScanShift(b, k);
    match ScanNext(b[k..])
    case NoStart =>
    case Unfinished(at) => assert b[k + at..] == b[k..][at..];
    case Complete(at, stop) =>
      SuffixStretches(b, k, at, stop);
      CutIs(b, max, k + at, k + stop, b[k..][at..stop], b[k..][stop..]);
      CutIs(b[k..], max, at, stop, b[k..][at..stop], b[k..][stop..]);
  }

  lemma {:induction false} CutIs(b: seq<Byte>, max: int, start: nat, stop: nat, frame: seq<Byte>, rest: seq<Byte>)
    requires ScanNext(b) == Complete(start, stop) && b[start..stop] == frame && b[stop..] == rest
    ensures Cut(b, max) == Within(frame, max) + Cut(rest, max) && Partial(b) == Partial(rest)
  {
  }

  lemma SuffixStretches(b: seq<Byte>, k: nat, at: nat, stop: nat)
    requires k <= |b| && at <= stop <= |b| - k
    ensures b[k + at..k + stop] == b[k..][at..stop] && b[k + stop..] == b[k..][stop..]
  {
  }

  /** A frame that is complete stays so when more bytes arrive. */
  lemma CompleteInLonger(b: seq<Byte>, y: seq<Byte>)
    requires ScanNext(b).Complete?
    ensures ScanNext(b + y) == ScanNext(b)
  {
    var start := FindStart(b, 0);
    var end := FindEnd(b, start + 3);
    FindStartMeaning(b, 0);
    FindEndMeaning(b, start + 3);
    NoStartsInLonger(b, y, start);
    assert StartAt(b + y, start);
    FindStartUnique(b + y, 0, start);
    forall i: nat | start + 3 <= i < end
      ensures !EndAt(b + y, i)
    {
      assert !EndAt(b, i);
    }
    assert EndAt(b + y, end);
    FindEndUnique(b + y, start + 3, end);
  }

  lemma NoStartsInLonger(b: seq<Byte>, y: seq<Byte>, k: nat)
    requires forall i: nat :: i < k ==> !StartAt(b, i)
    requires k + 3 <= |b| || (k == |b| && !Straddles(b, y))
    ensures forall i: nat :: i < k ==> !StartAt(b + y, i)
  {
    forall i: nat | i < k
      ensures !StartAt(b + y, i)
    {
      assert !StartAt(b, i);
      if i + 3 <= |b| {
        assert (b + y)[i] == b[i] && (b + y)[i + 1] == b[i + 1] && (b + y)[i + 2] == b[i + 2];
      }
    }
  }

  lemma StraddlesSuffix(b: seq<Byte>, k: nat, y: seq<Byte>)
    requires k <= |b| && Straddles(b[k..], y)
    ensures Straddles(b, y)
  {
    var i: nat :| i < |b[k..]| < i + 3 && StartAt(b[k..] + y, i);
    assert b[k..] + y == (b + y)[k..];
    assert StartAt(b + y, k + i);
  }

  lemma CutPointNoStart(b: seq<Byte>, y: seq<Byte>, max: int)
    requires ScanNext(b).NoStart? && !Straddles(b, y)
    ensures Cut(b + y, max) == Cut(y, max) && Partial(b + y) == Partial(y)
  {
    FindStartMeaning(b, 0);
    NoStartsInLonger(b, y, |b|);
    assert (b + y)[|b|..] == y;
    CutShift(b + y, |b|, max);
  }

  lemma CutPointUnfinished(b: seq<Byte>, y: seq<Byte>, max: int)
    requires ScanNext(b).Unfinished?
    ensures Cut(b + y, max) == Cut(b[ScanNext(b).start..] + y, max)
    ensures Partial(b + y) == Partial(b[ScanNext(b).start..] + y)
  {
    var start := ScanNext(b).start;
    FindStartMeaning(b, 0);
    NoStartsInLonger(b, y, start);
    assert (b + y)[start..] == b[start..] + y;
    CutShift(b + y, start, max);
  }

  lemma {:induction false} CutComplete(b: seq<Byte>, max: int, start: nat, stop: nat)
    requires ScanNext(b) == Complete(start, stop)
    ensures Cut(b, max) == Within(b[start..stop], max) + Cut(b[stop..], max)
    ensures Partial(b) == Partial(b[stop..])
  {
  }

  lemma CutPointComplete(b: seq<Byte>, y: seq<Byte>, max: int)
    requires ScanNext(b).Complete?
    ensures var Complete(start, stop) := ScanNext(b);
            Cut(b + y, max) == Within(b[start..stop], max) + Cut(b[stop..] + y, max)
            && Partial(b + y) == Partial(b[stop..] + y)
  {
    var Complete(start, stop) := ScanNext(b);
    CompleteInLonger(b, y);
    CutComplete(b + y, max, start, stop);
    assert (b + y)[stop..] == b[stop..] + y && (b + y)[start..stop] == b[start..stop];
  }

  lemma Regroup<T>(w: seq<T>, a: seq<T>, c: seq<T>)
    ensures w + (a + c) == (w + a) + c
  {
  }

  /**
   Cutting a stream at one point changes nothing: the frames of the first piece followed by
   the frames of the carried part with the second piece are the frames of the whole, and the
   same bytes are kept. When nothing is carried, the cut must not fall inside a start marker.
   */
  lemma {:induction false} CutPointIrrelevant(b: seq<Byte>, y: seq<Byte>, max: int)
    requires Partial(b) == [] ==> !Straddles(b, y)
    ensures Cut(b + y, max) == Cut(b, max) + Cut(Partial(b) + y, max)
    ensures Partial(b + y) == Partial(Partial(b) + y)
    decreases |b|
  {
    match ScanNext(b)
    case NoStart =>
      CutPointNoStart(b, y, max);
      assert Partial(b) + y == y;
    case Unfinished(start) =>
      CutPointUnfinished(b, y, max);
    case Complete(start, stop) =>
      var after := b[stop..];
      CutComplete(b, max, start, stop);
      CutPointComplete(b, y, max);
      if Straddles(after, y) {
        StraddlesSuffix(b, stop, y);
      }
      CutPointIrrelevant(after, y, max);
      Regroup(Within(b[start..stop], max), Cut(after, max), Cut(Partial(after) + y, max));
  }

  /** Every chunk boundary is harmless: what is carried fits, and no start marker is split while nothing is carried. */
  ghost predicate Smooth(buffer: seq<Byte>, chunks: seq<seq<Byte>>, max: int)
    decreases |chunks|
  {
    |chunks| > 1 ==>
      && |Partial(buffer + chunks[0])| <= max
      && (Partial(buffer + chunks[0]) == [] ==> !Straddles(buffer + chunks[0], Concat(chunks[1..])))
      && Smooth(Partial(buffer + chunks[0]), chunks[1..], max)
  }

  /** Feeding the chunks one by one gives what feeding the whole stream at once gives. */
  lemma {:induction false} ChunkIndependence(buffer: seq<Byte>, chunks: seq<seq<Byte>>, max: int)
    requires chunks != [] && (forall c :: c in chunks ==> c != []) && Smooth(buffer, chunks, max)
    ensures FeedAll(buffer, chunks, max) == FeedOne(buffer, Concat(chunks), max)
    decreases |chunks|
  {
    var all := Concat(chunks);
    assert all == chunks[0] + Concat(chunks[1..]);
    assert chunks[0] in chunks;
    if |chunks| == 1 {
      assert Concat(chunks[1..]) == [] && all == chunks[0];
      assert FeedAll(Split(buffer + chunks[0], max).rest, chunks[1..], max).frames == [];
    } else {
      var later := Concat(chunks[1..]);
      assert chunks[1] == chunks[1..][0] && chunks[1] in chunks;
      assert later != [];
      forall c | c in chunks[1..]
        ensures c != []
      {
        assert c in chunks;
      }
      assert buffer + all == (buffer + chunks[0]) + later;
      CutPointIrrelevant(buffer + chunks[0], later, max);
      ChunkIndependence(Partial(buffer + chunks[0]), chunks[1..], max);
    }
  }

  lemma OneFrame(f: seq<Byte>, max: int)
    requires StartAt(f, 0) && 5 <= |f| && EndAt(f, |f| - 2) && forall i: nat :: 3 <= i < |f| - 2 ==> !EndAt(f, i)
    ensures Cut(f, max) == Within(f, max) && Partial(f) == []
  {
    FindEndUnique(f, 3, |f| - 2);
    AtStart(f, max);
    assert f[..|f|] == f && f[|f|..] == [];
    assert FindStart([], 0) < 0;
    NoMoreFrames([], max);
  }

  lemma {:induction false} FeedTwo(x: seq<Byte>, y: seq<Byte>, max: int)
    requires x != [] && y != []
    ensures FeedAll([], [x, y], max).frames == Cut(x, max) + Cut(Split(x, max).rest + y, max)
    ensures Concat([x, y]) == x + y && FeedOne([], x + y, max).frames == Cut(x + y, max)
  {
    assert [x, y][1..] == [y] && [y][1..] == [];
    assert Concat([y]) == y + [];
    assert [] + x == x && [] + (x + y) == x + y;
    var rest := Split(x, max).rest;
    assert FeedAll(rest, [y], max).frames == FeedOne(rest, y, max).frames + [];
  }

  /** A frame whose start marker is split, with no later start marker in it, is lost: no marker may be split. */
  lemma SplitMarkerLosesTheFrame(f: seq<Byte>, k: nat, max: int)
    requires IsFrame(f, max) && 1 <= k <= 2 && FindStart(f[k..], 0) < 0
    ensures FeedAll([], [f[..k], f[k..]], max).frames == []
    ensures FeedOne([], Concat([f[..k], f[k..]]), max).frames == [f]
  {
    assert f[..k] + f[k..] == f;
    FeedTwo(f[..k], f[k..], max);
    OneFrame(f, max);
    assert FindStart(f[..k], 0) < 0;
    NoMoreFrames(f[..k], max);
    NoMoreFrames(f[k..], max);
    assert [] + f[k..] == f[k..];
  }

  /** A partial frame dropped for its size lets a later start marker through: what is carried must fit. */
  lemma {:induction false} DroppedPartialChangesTheFrames(x: seq<Byte>, f: seq<Byte>, max: int)
    requires ScanNext(x) == Unfinished(0) && |x| > max && IsFrame(f, max) && !EndAt(f, 2)
    ensures FeedAll([], [x, f], max).frames == [f] && FeedOne([], Concat([x, f]), max).frames == []
  {
    FeedTwo(x, f, max);
    OneLongFrame(x, f, max);
    UnfinishedAtZero(x, max);
    assert [] + f == f;
    OneFrame(f, max);
  }

  lemma {:induction false} OneLongFrame(x: seq<Byte>, f: seq<Byte>, max: int)
    requires ScanNext(x) == Unfinished(0) && |x| > max && IsFrame(f, max) && !EndAt(f, 2)
    ensures Cut(x + f, max) == []
  {
    UnfinishedAtZero(x, max);
    EndsInSecond(x, f);
    OneFrame(x + f, max);
  }

  lemma UnfinishedAtZero(x: seq<Byte>, max: int)
    requires ScanNext(x) == Unfinished(0)
    ensures Cut(x, max) == [] && Partial(x) == x
    ensures StartAt(x, 0) && forall i: nat :: 3 <= i ==> !EndAt(x, i)
  {
    FindStartMeaning(x, 0);
    FindEndMeaning(x, 3);
    assert x[0..] == x;
  }

  lemma EndsInSecond(x: seq<Byte>, f: seq<Byte>)
    requires StartAt(x, 0) && StartAt(f, 0) && !EndAt(f, 2) && forall i: nat :: 3 <= i ==> !EndAt(x, i)
    requires 5 <= |f| && EndAt(f, |f| - 2) && forall i: nat :: 3 <= i < |f| - 2 ==> !EndAt(f, i)
    ensures StartAt(x + f, 0) && EndAt(x + f, |x + f| - 2)
    ensures forall i: nat :: 3 <= i < |x + f| - 2 ==> !EndAt(x + f, i)
  {
    var whole := x + f;
    forall i: nat | 3 <= i < |whole| - 2
      ensures !EndAt(whole, i)
    {
      if i + 2 <= |x| {
        assert !EndAt(x, i);
      } else if i >= |x| + 3 {
        assert !EndAt(f, i - |x|);
        assert whole[i] == f[i - |x|] && whole[i + 1] == f[i + 1 - |x|];
      } else {
        assert whole[|x|] == f[0] && whole[|x| + 1] == f[1] && whole[|x| + 2] == f[2] && whole[|x| + 3] == f[3];
      }
    }
    assert whole[|whole| - 2] == f[|f| - 2] && whole[|whole| - 1] == f[|f| - 1];
  }

  // ---- What comes out, with no assumption on the chunks ----------------------

  /** The frames are disjoint stretches of the stream, in order, from position `from` on, up to `end`. */
  ghost predicate Located(stream: seq<Byte>, frames: seq<seq<Byte>>, spans: seq<(nat, nat)>, from: nat, end: nat) {
    && |spans| == |frames| && from <= end <= |stream|
    && (forall i :: 0 <= i < |spans| ==>
                      from <= spans[i].0 < spans[i].1 <= end && frames[i] == stream[spans[i].0..spans[i].1])
    && (forall i, j :: 0 <= i < j < |spans| ==> spans[i].1 <= spans[j].0)
  }

  ghost predicate AllFrames(frames: seq<seq<Byte>>, max: int) {
    forall f :: f in frames ==> IsFrame(f, max)
  }

  /** A whole frame within the limit: it begins with a start marker and ends at its first end marker. */
  ghost predicate IsFrame(f: seq<Byte>, max: int) {
    && StartAt(f, 0) && 5 <= |f| <= max && EndAt(f, |f| - 2)
    && forall i: nat :: 3 <= i < |f| - 2 ==> !EndAt(f, i)
  }

  /** Frames of any length, each after a gap. */
  function Stream(gaps: seq<seq<Byte>>, frames: seq<seq<Byte>>): seq<Byte>
    requires |gaps| == |frames|
  {
    if frames == [] then [] else gaps[0] + (frames[0] + Stream(gaps[1..], frames[1..]))
  }

  /** No start marker begins in the gap. */
  ghost predicate IsGap(gap: seq<Byte>, frame: seq<Byte>) {
    forall i: nat :: i < |gap| ==> !StartAt(gap + frame, i)
  }

  lemma FrameThenRest(f: seq<Byte>, rest: seq<Byte>, max: int)
    requires IsFrame(f, |f|)
    ensures Cut(f + rest, max) == Within(f, max) + Cut(rest, max)
  {
    var b := f + rest;
    forall i: nat | 3 <= i < |f| - 2
      ensures !EndAt(b, i)
    {
      assert !EndAt(f, i);
    }
    FindEndUnique(b, 3, |f| - 2);
    AtStart(b, max);
    assert b[..|f|] == f && b[|f|..] == rest;
  }

  /** The parser returns every frame of a stream that is within the limit, in order, and nothing else. */
  lemma {:induction false} EveryFrameIsReturned(gaps: seq<seq<Byte>>, frames: seq<seq<Byte>>, max: int)
    requires |gaps| == |frames|
    requires forall k :: 0 <= k < |frames| ==> IsFrame(frames[k], |frames[k]|) && IsGap(gaps[k], frames[k])
    ensures Cut(Stream(gaps, frames), max) == Filter(frames, (f: seq<Byte>) => |f| <= max)
    decreases |frames|
  {
    if frames != [] {
      var gap, f, rest := gaps[0], frames[0], Stream(gaps[1..], frames[1..]);
      EveryFrameIsReturned(gaps[1..], frames[1..], max);
      FrameThenRest(f, rest, max);
      SkipsGap(gap, f, rest, max);
    }
  }

  lemma SkipsGap(gap: seq<Byte>, f: seq<Byte>, rest: seq<Byte>, max: int)
    requires IsGap(gap, f) && |f| >= 5
    ensures Cut(gap + (f + rest), max) == Cut(f + rest, max)
  {
    var b := gap + (f + rest);
    forall i: nat | i < |gap|
      ensures !StartAt(b, i)
    {
      assert !StartAt(gap + f, i);
      assert b[..|gap| + |f|] == gap + f;
      assert forall j :: 0 <= j < |gap| + |f| ==> b[j] == (gap + f)[j];
    }
    CutShift(b, |gap|, max);
    assert b[|gap|..] == f + rest;
  }

  lemma {:induction false} CutLocated(b: seq<Byte>, max: int) returns (spans: seq<(nat, nat)>)
    ensures Located(b, Cut(b, max), spans, 0, |b| - |Partial(b)|)
    ensures Partial(b) == b[|b| - |Partial(b)|..]
    ensures AllFrames(Cut(b, max), max)
    decreases |b|
  {
    spans := [];
    match ScanNext(b)
    case NoStart =>
    case Unfinished(_) =>
    case Complete(start, stop) =>
      var after := b[stop..];
      CutComplete(b, max, start, stop);
      var end := |after| - |Partial(after)|;
      var later := CutLocated(after, max);
      later := ShiftLocated(b, stop, Cut(after, max), later, end);
      if stop - start <= max {
        FrameShape(b, max);
      }
      spans := FirstLocated(b, max, start, stop, Cut(after, max), later, stop + end);
  }

  /** The first frame, if it is returned, and the stretches after it. */
  lemma FirstLocated(b: seq<Byte>, max: int, start: nat, stop: nat, frames: seq<seq<Byte>>, later: seq<(nat, nat)>,
                     end: nat)
    returns (spans: seq<(nat, nat)>)
    requires start < stop <= |b| && Located(b, frames, later, stop, end)
    ensures Located(b, Within(b[start..stop], max) + frames, spans, 0, end)
  {
    var here := if stop - start <= max then [(start, stop)] else [];
    assert Located(b, Within(b[start..stop], max), here, 0, stop);
    JoinLocated(b, Within(b[start..stop], max), here, 0, stop, frames, later, end);
    spans := here + later;
  }

  lemma FrameShape(b: seq<Byte>, max: int)
    requires ScanNext(b).Complete? && ScanNext(b).stop - ScanNext(b).start <= max
    ensures IsFrame(b[ScanNext(b).start..ScanNext(b).stop], max)
  {
    var Complete(start, stop) := ScanNext(b);
    FindStartMeaning(b, 0);
    FindEndMeaning(b, start + 3);
    var f := b[start..stop];
    forall i: nat | 3 <= i < |f| - 2
      ensures !EndAt(f, i)
    {
      assert !EndAt(b, start + i);
    }
  }

  /** Stretches of a suffix are stretches of the whole. */
  lemma ShiftLocated(all: seq<Byte>, off: nat, frames: seq<seq<Byte>>, spans: seq<(nat, nat)>, end: nat)
    returns (moved: seq<(nat, nat)>)
    requires off <= |all| && Located(all[off..], frames, spans, 0, end)
    ensures Located(all, frames, moved, off, off + end)
  {
    moved := seq(|spans|, i requires 0 <= i < |spans| => (spans[i].0 + off, spans[i].1 + off));
    forall i | 0 <= i < |spans|
      ensures frames[i] == all[moved[i].0..moved[i].1]
    {
      assert all[off..][spans[i].0..spans[i].1] == all[moved[i].0..moved[i].1];
    }
  }

  lemma JoinLocated(all: seq<Byte>, f: seq<seq<Byte>>, s: seq<(nat, nat)>, from: nat, mid: nat,
                    g: seq<seq<Byte>>, t: seq<(nat, nat)>, end: nat)
    requires Located(all, f, s, from, mid) && Located(all, g, t, mid, end)
    ensures Located(all, f + g, s + t, from, end)
  {
    forall i | 0 <= i < |s + t|
      ensures from <= (s + t)[i].0 < (s + t)[i].1 <= end && (f + g)[i] == all[(s + t)[i].0..(s + t)[i].1]
    {
      if i >= |s| {
        assert (s + t)[i] == t[i - |s|] && (f + g)[i] == g[i - |s|];
      }
    }
  }

  /** One call: where its frames and its kept bytes lie in everything received so far. */
  lemma FeedLocated(seen: seq<Byte>, buffer: seq<Byte>, chunk: seq<Byte>, max: nat) returns (spans: seq<(nat, nat)>)
    requires |buffer| <= |seen| && buffer == seen[|seen| - |buffer|..] && |buffer| <= max
    ensures var all := seen + chunk;
            var out := FeedOne(buffer, chunk, max);
            && |out.rest| <= max && |out.rest| <= |all| && out.rest == all[|all| - |out.rest|..]
            && Located(all, out.frames, spans, |seen| - |buffer|, |all| - |out.rest|)
            && AllFrames(out.frames, max)
  {
    var all, off := seen + chunk, |seen| - |buffer|;
    var joined := buffer + chunk;
    assert joined == all[off..];
    spans := [];
    if chunk == [] {
      assert all == seen;
    } else {
      var out := FeedOne(buffer, chunk, max);
      spans := CutLocated(joined, max);
      LocatedFurther(joined, out.frames, spans, |joined| - |Partial(joined)|, |joined| - |out.rest|);
      spans := ShiftLocated(all, off, out.frames, spans, |joined| - |out.rest|);
      SuffixOfSuffix(all, joined, off, out.rest);
    }
  }

  lemma SuffixOfSuffix(all: seq<Byte>, joined: seq<Byte>, off: nat, rest: seq<Byte>)
    requires off <= |all| && joined == all[off..] && |rest| <= |joined| && rest == joined[|joined| - |rest|..]
    ensures |rest| <= |all| && rest == all[|all| - |rest|..]
  {
  }

  lemma LocatedFurther(b: seq<Byte>, frames: seq<seq<Byte>>, spans: seq<(nat, nat)>, end: nat, later: nat)
    requires end <= later <= |b| && Located(b, frames, spans, 0, end)
    ensures Located(b, frames, spans, 0, later)
  {
  }

  /**
   Over any chunks: the frames returned are ordered, disjoint stretches of the bytes received,
   each a whole frame within the limit, and the kept buffer is a suffix of those bytes, within
   the limit and after the last frame. `seen` is what was received before, `buffer` its kept suffix.
   */
  lemma {:induction false} FramesAreStretches(seen: seq<Byte>, buffer: seq<Byte>, chunks: seq<seq<Byte>>, max: nat)
    returns (spans: seq<(nat, nat)>)
    requires |buffer| <= |seen| && buffer == seen[|seen| - |buffer|..] && |buffer| <= max
    ensures var all := seen + Concat(chunks);
            var out := FeedAll(buffer, chunks, max);
            && |out.rest| <= max && |out.rest| <= |all| && out.rest == all[|all| - |out.rest|..]
            && Located(all, out.frames, spans, |seen| - |buffer|, |all| - |out.rest|)
            && AllFrames(out.frames, max)
    decreases |chunks|
  {
    var all := seen + Concat(chunks);
    if chunks == [] {
      spans := [];
      assert all == seen;
    } else {
      var seen', later := seen + chunks[0], Concat(chunks[1..]);
      var first := FeedOne(buffer, chunks[0], max);
      assert all == seen' + later;
      var here := FeedLocated(seen, buffer, chunks[0], max);
      var mid := |seen'| - |first.rest|;
      StretchInLonger(seen', later, first.frames, here, |seen| - |buffer|, mid);
      var there := FramesAreStretches(seen', first.rest, chunks[1..], max);
      var out := FeedAll(first.rest, chunks[1..], max);
      JoinLocated(all, first.frames, here, |seen| - |buffer|, mid, out.frames, there, |all| - |out.rest|);
      spans := here + there;
    }
  }

  lemma StretchInLonger(b: seq<Byte>, y: seq<Byte>, frames: seq<seq<Byte>>, spans: seq<(nat, nat)>, from: nat, end: nat)
    requires Located(b, frames, spans, from, end)
    ensures Located(b + y, frames, spans, from, end)
  {
    forall i | 0 <= i < |spans|
      ensures frames[i] == (b + y)[spans[i].0..spans[i].1]
    {
      assert b[spans[i].0..spans[i].1] == (b + y)[spans[i].0..spans[i].1];
    }
  }

  // ---- The ring of decoded frames --------------------------------------------

  datatype Held = Held(capturedAt: real, digest: nat, frame: seq<Byte>)

  function TotalBytes(s: seq<Held>): nat {
    if s == [] then 0 else |s[0].frame| + TotalBytes(s[1..])
  }

  lemma TotalAppend(s: seq<Held>, h: Held)
    ensures TotalBytes(s + [h]) == TotalBytes(s) + |h.frame|
  {
    if s != [] {
      assert (s + [h])[1..] == s[1..] + [h];
      TotalAppend(s[1..], h);
    }
  }

  lemma TotalRemove(s: seq<Held>, k: nat)
    requires k < |s|
    ensures TotalBytes(s[..k] + s[k + 1..]) == TotalBytes(s) - |s[k].frame|
  {
    if k == 0 {
      assert s[..0] + s[1..] == s[1..];
    } else {
      assert (s[..k] + s[k + 1..])[1..] == s[1..][..k - 1] + s[1..][k..];
      TotalRemove(s[1..], k - 1);
    }
  }

  predicate TooBig(s: seq<Held>, maxFrames: nat, maxTotalBytes: nat) {
    |s| > maxFrames || TotalBytes(s) > maxTotalBytes
  }

  /** Drop the oldest frames until both bounds hold. */
  function Evict(s: seq<Held>, maxFrames: nat, maxTotalBytes: nat): (r: seq<Held>)
    ensures !TooBig(r, maxFrames, maxTotalBytes)
  {
    if s != [] && TooBig(s, maxFrames, maxTotalBytes) then Evict(s[1..], maxFrames, maxTotalBytes) else s
  }

  /** Eviction drops a prefix, no frame more than the bounds ask for, and never the newest frame. */
  lemma {:induction false} EvictIsLeast(s: seq<Held>, maxFrames: nat, maxTotalBytes: nat) returns (gone: nat)
    requires s != [] && maxFrames >= 1 && |s[|s| - 1].frame| <= maxTotalBytes
    ensures gone < |s| && Evict(s, maxFrames, maxTotalBytes) == s[gone..]
    ensures gone > 0 ==> TooBig(s[gone - 1..], maxFrames, maxTotalBytes)
  {
    gone := 0;
    assert s[0..] == s;
    assert |s| == 1 ==> TotalBytes(s) == |s[0].frame| + TotalBytes([]);
    if TooBig(s, maxFrames, maxTotalBytes) {
      gone := EvictIsLeast(s[1..], maxFrames, maxTotalBytes);
      assert s[1..][gone..] == s[gone + 1..];
      if gone > 0 {
        assert s[1..][gone - 1..] == s[gone..];
      }
      gone := gone + 1;
    }
  }

  ghost predicate Distinct(s: seq<Held>) {
    forall i, j :: 0 <= i < j < |s| ==> s[i].digest != s[j].digest
  }

  lemma DropOldest(s: seq<Held>)
    requires s != []
    ensures TotalBytes(s[1..]) == TotalBytes(s) - |s[0].frame|
    ensures Distinct(s) ==> Distinct(s[1..])
  {
  }

  lemma AddNewest(s: seq<Held>, h: Held)
    requires Distinct(s) && forall i :: 0 <= i < |s| ==> s[i].digest != h.digest
    ensures TotalBytes(s + [h]) == TotalBytes(s) + |h.frame| && Distinct(s + [h])
  {
    TotalAppend(s, h);
  }

  /** Frame `k` moved to the newest end with a new time. */
  function Renewed(s: seq<Held>, k: nat, capturedAt: real): seq<Held>
    requires k < |s|
  {
    s[..k] + s[k + 1..] + [s[k].(capturedAt := capturedAt)]
  }

  lemma RenewedKeeps(s: seq<Held>, k: nat, capturedAt: real)
    requires k < |s| && Distinct(s)
    ensures var r := Renewed(s, k, capturedAt);
            && |r| == |s| && TotalBytes(r) == TotalBytes(s)
            && Distinct(r)
  {
    TotalRemove(s, k);
    TotalAppend(s[..k] + s[k + 1..], s[k].(capturedAt := capturedAt));
    var r := Renewed(s, k, capturedAt);
    assert forall i :: 0 <= i < |r| ==> r[i].digest == s[if i < k then i else if i < |s| - 1 then i + 1 else k].digest;
  }

  class HotFrameRing {
    const maxFrames: nat
    const maxFrameBytes: nat
    const maxTotalBytes: nat
    var frames: seq<Held>
    var totalBytes: int

    ghost predicate Valid()
      reads this
    {
      && maxFrames >= 1 && maxFrameBytes <= maxTotalBytes
      && totalBytes == TotalBytes(frames) <= maxTotalBytes && |frames| <= maxFrames
      && Distinct(frames)
    }

    constructor (maxFrames: nat, maxFrameBytes: nat, maxTotalBytes: nat)
      requires maxFrames >= 1 && maxFrameBytes <= maxTotalBytes
      ensures Valid() && frames == []
    {
      this.maxFrames, this.maxFrameBytes, this.maxTotalBytes := maxFrames, maxFrameBytes, maxTotalBytes;
      frames, totalBytes := [], 0;
    }

    /**
     `add`: a frame already held is only moved to the newest end; a new one is appended and
     the oldest frames are evicted, no more than the two bounds ask for. `decodable` and
     `digest` stand for the JPEG check and SHA-256.
     */
    method Add(frame: seq<Byte>, digest: nat, decodable: bool, capturedAt: real) returns (added: bool)
      requires Valid()
      modifies this
      ensures Valid()
      ensures added == (0 < |frame| <= maxFrameBytes && decodable && forall h :: h in old(frames) ==>
                                                                                   h.digest != digest)
      ensures !(0 < |frame| <= maxFrameBytes && decodable) ==> frames == old(frames)
      ensures added ==> frames == Evict(old(frames) + [Held(capturedAt, digest, frame)], maxFrames, maxTotalBytes)
      ensures 0 < |frame| <= maxFrameBytes && decodable && !added ==>
                exists k: nat :: k < |old(frames)| && old(frames)[k].digest == digest
                                 && frames == Renewed(old(frames), k, capturedAt)
    {
      if !(0 < |frame| <= maxFrameBytes && decodable) {
        return false;
      }
      for k := 0 to |frames|
        invariant frames == old(frames) && totalBytes == old(totalBytes)
        invariant forall i :: 0 <= i < k ==> frames[i].digest != digest
      {
        if frames[k].digest == digest {
          RenewedKeeps(frames, k, capturedAt);
          frames := Renewed(frames, k, capturedAt);
          return false;
        }
      }
      ghost var all := frames + [Held(capturedAt, digest, frame)];
      AddNewest(frames, Held(capturedAt, digest, frame));
      frames := frames + [Held(capturedAt, digest, frame)];
      totalBytes := totalBytes + |frame|;
      while |frames| > maxFrames || totalBytes > maxTotalBytes  // never empty here: one frame fits
        invariant Evict(frames, maxFrames, maxTotalBytes) == Evict(all, maxFrames, maxTotalBytes)
        invariant totalBytes == TotalBytes(frames)
        invariant Distinct(frames)
        decreases |frames|
      {
        DropOldest(frames);
        totalBytes := totalBytes - |frames[0].frame|;
        frames := frames[1..];
      }
      return true;
    }

    /** `select`: scan from the newest frame to the oldest, keep the recent ones, and of these the first `count`. */
    method Select(count: nat, now: real, maxAge: real) returns (picked: seq<seq<Byte>>, ghost at: seq<nat>)
      requires Valid()
      ensures Selected(frames, at, picked, count, now, maxAge)
    {
      picked, at := [], [];
      var i := |frames|;
      while i > 0
        invariant 0 <= i <= |frames| && RecentOnes(frames, at, picked, i, now, maxAge)
      {
        i := i - 1;
        if IsRecent(frames[i], now, maxAge) {
          picked, at := picked + [frames[i].frame], at + [i];
        }
      }
      SelectNewest(frames, at, picked, count, now, maxAge);
      picked, at := Take(picked, count), Take(at, count);
    }
  }

  predicate IsRecent(h: Held, now: real, maxAge: real) {
    0.0 <= now - h.capturedAt <= maxAge
  }

  /** `picked` are the recent frames at or after position `from`, newest first; `at` says where they stand. */
  ghost predicate RecentOnes(s: seq<Held>, at: seq<nat>, picked: seq<seq<Byte>>, from: nat, now: real, maxAge: real) {
    && |at| == |picked| && (forall i, j :: 0 <= i < j < |at| ==> at[j] < at[i])
    && (forall i :: 0 <= i < |at| ==> from <= at[i] < |s| && IsRecent(s[at[i]], now, maxAge)
                                      && picked[i] == s[at[i]].frame)
    && (forall k :: from <= k < |s| && IsRecent(s[k], now, maxAge) ==> k in at)
  }

  /**
   `picked` are recent frames, newest first; a recent frame that is left out is older than all of
   them, and they are `count`.
   */
  ghost predicate Selected(s: seq<Held>, at: seq<nat>, picked: seq<seq<Byte>>, count: nat, now: real, maxAge: real) {
    && |at| == |picked| <= count && (forall i, j :: 0 <= i < j < |at| ==> at[j] < at[i])
    && (forall i :: 0 <= i < |at| ==> at[i] < |s| && IsRecent(s[at[i]], now, maxAge) && picked[i] == s[at[i]].frame)
    && (forall k :: 0 <= k < |s| && IsRecent(s[k], now, maxAge) && k !in at ==>
                      |picked| == count && forall i :: 0 <= i < |at| ==> k < at[i])
  }

  lemma SelectNewest(s: seq<Held>, at: seq<nat>, picked: seq<seq<Byte>>, count: nat, now: real, maxAge: real)
    requires RecentOnes(s, at, picked, 0, now, maxAge)
    ensures Selected(s, Take(at, count), Take(picked, count), count, now, maxAge)
  {
    var kept := Take(at, count);
    assert forall j :: 0 <= j < |kept| ==> kept[j] == at[j];
    forall k | 0 <= k < |s| && IsRecent(s[k], now, maxAge) && k !in kept
      ensures |kept| == count && forall i :: 0 <= i < |kept| ==> k < kept[i]
    {
      var j :| 0 <= j < |at| && at[j] == k;
    }
  }
}
