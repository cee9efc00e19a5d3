/**
 The cancel-safe line reader: a reader task cuts the source into lines and sends them through a
 channel; `poll_read` serves them into buffers of any size.
 */
module LineReader {
  import opened Collections

  const NEWLINE: Byte := 10
  const MAX_LINE_SIZE: nat := 64 * 1024 * 1024

  /** How the source ends once its chunks are used up. */
  datatype End = Eof | Fails

  /** What the reader task sends. */
  datatype Frame = Line(bytes: Bytes) | TooLong | ReadError

  predicate NoNewline(b: Bytes) { forall i :: 0 <= i < |b| ==> b[i] != NEWLINE }

  function FirstNewline(b: Bytes): (r: Option<nat>)
    ensures r.None? <==> NoNewline(b)
    ensures r.Some? ==> r.value < |b| && b[r.value] == NEWLINE && NoNewline(b[..r.value])
  {
    if b == [] then None
    else if b[0] == NEWLINE then Some(0)
    else match FirstNewline(b[1..])
      case None => None
      case Some(i) => assert b[..i + 1] == [b[0]] + b[1..][..i]; Some(i + 1)
  }

  /** The frames of a byte stream, however it is cut into chunks. */
  function Frames(b: Bytes, end: End): seq<Frame>
    decreases |b|
  {
    match FirstNewline(b)
    case Some(i) =>
      if i + 1 > MAX_LINE_SIZE then [TooLong] else [Line(b[..i + 1])] + Frames(b[i + 1..], end)
    case None =>
      if |b| > MAX_LINE_SIZE then [TooLong]
      else if end.Fails? then [ReadError]
      else if b == [] then [] else [Line(b)]
  }

  function LinesOf(fs: seq<Frame>): Bytes {
    if fs == [] then []
    else (match fs[0] case Line(b) => b case _ => []) + LinesOf(fs[1..])
  }

  // ---------- the frames against the bytes ----------

  /** A line that is over the limit starts at `i`. */
  predicate OversizedAt(b: Bytes, i: nat) {
    && i + MAX_LINE_SIZE < |b|
    && (i == 0 || b[i - 1] == NEWLINE)
    && NoNewline(b[i..i + MAX_LINE_SIZE])
  }

  ghost predicate FirstOversized(b: Bytes, i: nat) {
    OversizedAt(b, i) && forall j: nat :: j < i ==> !OversizedAt(b, j)
  }

  ghost predicate Oversized(b: Bytes) { exists i: nat :: OversizedAt(b, i) }

  lemma {:induction false} LinesAppend(a: seq<Frame>, b: seq<Frame>)
    ensures LinesOf(a + b) == LinesOf(a) + LinesOf(b)
  {
    if a == [] {
      assert a + b == b;
    } else {
      assert (a + b)[1..] == a[1..] + b;
      LinesAppend(a[1..], b);
    }
  }

  /** A first line within the limit hides nothing: the oversized lines of the rest are those of the whole. */
  lemma OversizedShift(b: Bytes, n: nat, i: nat)
    requires 0 < n <= |b| && n <= MAX_LINE_SIZE && b[n - 1] == NEWLINE && NoNewline(b[..n - 1])
    ensures i < n ==> !OversizedAt(b, i)
    ensures OversizedAt(b, n + i) <==> OversizedAt(b[n..], i)
  {
    if i < n {
      if i == 0 && MAX_LINE_SIZE < |b| {
        assert b[0..MAX_LINE_SIZE][n - 1] == NEWLINE;
      } else if i > 0 {
        assert b[i - 1] == b[..n - 1][i - 1];
      }
    }
    if n + i + MAX_LINE_SIZE < |b| {
      assert b[n..][i..i + MAX_LINE_SIZE] == b[n + i..n + i + MAX_LINE_SIZE];
    }
  }

  lemma LinesCons(line: Bytes, fs: seq<Frame>)
    ensures LinesOf([Line(line)] + fs) == line + LinesOf(fs)
  {
    assert ([Line(line)] + fs)[1..] == fs;
  }

  predicate AllLines(fs: seq<Frame>) { forall i :: 0 <= i < |fs| ==> fs[i].Line? }

  /** All frames are lines but the last, which is the error `e`. */
  predicate EndsWith(fs: seq<Frame>, e: Frame) { fs != [] && fs[|fs| - 1] == e && AllLines(fs[..|fs| - 1]) }

  lemma EndsWithCons(line: Bytes, fs: seq<Frame>, e: Frame)
    requires EndsWith(fs, e)
    ensures EndsWith([Line(line)] + fs, e)
  {
    var all := [Line(line)] + fs;
    assert all[..|all| - 1] == [Line(line)] + fs[..|fs| - 1];
  }

  lemma OversizedNow(b: Bytes)
    requires FirstNewline(b).Some? ==> FirstNewline(b).value >= MAX_LINE_SIZE
    requires FirstNewline(b).None? ==> |b| > MAX_LINE_SIZE
    ensures OversizedAt(b, 0)
  {
    if FirstNewline(b).Some? {
      var i := FirstNewline(b).value;
      assert b[0..MAX_LINE_SIZE] == b[..i][..MAX_LINE_SIZE];
    }
  }

  lemma RestOversized(b: Bytes, n: nat)
    requires 0 < n <= |b| && n <= MAX_LINE_SIZE && b[n - 1] == NEWLINE && NoNewline(b[..n - 1])
    ensures Oversized(b) <==> Oversized(b[n..])
  {
    if i: nat :| OversizedAt(b, i) {
      OversizedLater(b, n, i);
    }
    if i: nat :| OversizedAt(b[n..], i) {
      OversizedShift(b, n, i);
    }
  }

  lemma OversizedLater(b: Bytes, n: nat, i: nat)
    requires 0 < n <= |b| && n <= MAX_LINE_SIZE && b[n - 1] == NEWLINE && NoNewline(b[..n - 1])
    requires OversizedAt(b, i)
    ensures n <= i && OversizedAt(b[n..], i - n)
  {
    OversizedShift(b, n, i);
    OversizedShift(b, n, i - n);
  }

  lemma RestFirstOversized(b: Bytes, n: nat, i: nat)
    requires 0 < n <= |b| && n <= MAX_LINE_SIZE && b[n - 1] == NEWLINE && NoNewline(b[..n - 1])
    requires FirstOversized(b, i)
    ensures n <= i && FirstOversized(b[n..], i - n)
  {
    OversizedLater(b, n, i);
    forall j: nat | j < i - n ensures !OversizedAt(b[n..], j) {
      OversizedShift(b, n, j);
    }
  }

  lemma OneMoreLine(b: Bytes, n: nat)
    requires FirstNewline(b) == Some(n - 1) && 0 < n <= MAX_LINE_SIZE
    requires LinesOf(Frames(b[n..], Eof)) == b[n..] && AllLines(Frames(b[n..], Eof))
    ensures LinesOf(Frames(b, Eof)) == b && AllLines(Frames(b, Eof))
  {
    var rest := Frames(b[n..], Eof);
    LineFirst(b, n - 1, Eof);
    LinesCons(b[..n], rest);
    assert b[..n] + b[n..] == b;
    AllLinesCons(b[..n], rest);
  }

  lemma LineFirst(b: Bytes, i: nat, end: End)
    requires FirstNewline(b) == Some(i) && i < MAX_LINE_SIZE
    ensures Frames(b, end) == [Line(b[..i + 1])] + Frames(b[i + 1..], end)
  {
  }

  lemma AllLinesCons(line: Bytes, fs: seq<Frame>)
    requires AllLines(fs)
    ensures AllLines([Line(line)] + fs)
  {
  }

  /** Without an oversized line every byte is framed exactly once. */
  lemma {:induction false} FramesAreTheSource(b: Bytes)
    requires !Oversized(b)
    ensures LinesOf(Frames(b, Eof)) == b && AllLines(Frames(b, Eof))
    decreases |b|
  {
    var found := FirstNewline(b);
    if found.Some? && found.value < MAX_LINE_SIZE {
      var n := found.value + 1;
      RestOversized(b, n);
      FramesAreTheSource(b[n..]);
      OneMoreLine(b, n);
    } else if found.Some? || |b| > MAX_LINE_SIZE {
      OversizedNow(b);
    } else if b != [] {
      LinesCons(b, []);
      assert [Line(b)] + [] == [Line(b)];
    }
  }

  /** One line: within the limit, not empty, and with a newline at most at its end. */
  predicate IsLine(line: Bytes) { 0 < |line| <= MAX_LINE_SIZE && NoNewline(line[..|line| - 1]) }

  predicate Terminated(line: Bytes) { line != [] && line[|line| - 1] == NEWLINE }

  /** Every frame but an error is one line, and only the last of all may lack its newline. */
  predicate LineByLine(fs: seq<Frame>) {
    forall k :: 0 <= k < |fs| && fs[k].Line? ==> IsLine(fs[k].bytes) && (Terminated(fs[k].bytes) || k == |fs| - 1)
  }

  lemma LineByLineCons(line: Bytes, fs: seq<Frame>)
    requires IsLine(line) && Terminated(line) && LineByLine(fs)
    ensures LineByLine([Line(line)] + fs)
  {
  }

  lemma FirstIsLine(b: Bytes, i: nat)
    requires FirstNewline(b) == Some(i) && i < MAX_LINE_SIZE
    ensures IsLine(b[..i + 1]) && Terminated(b[..i + 1])
  {
    assert b[..i + 1][..i] == b[..i];
  }

  lemma {:induction false} FramesAreLines(b: Bytes, end: End)
    ensures LineByLine(Frames(b, end))
    decreases |b|
  {
    match FirstNewline(b)
    case Some(i) =>
      if i < MAX_LINE_SIZE {
        FirstIsLine(b, i);
        FramesAreLines(b[i + 1..], end);
        LineByLineCons(b[..i + 1], Frames(b[i + 1..], end));
      }
    case None =>
  }

  lemma OversizedFirst(b: Bytes, end: End, i: nat)
    requires FirstOversized(b, i)
    requires FirstNewline(b).Some? ==> FirstNewline(b).value >= MAX_LINE_SIZE
    ensures i == 0 && Frames(b, end) == [TooLong] && LinesOf([TooLong]) == []
  {
    OversizedNow(b);
    assert [TooLong][1..] == [];
  }

  lemma StopsAfterLine(b: Bytes, n: nat, i: nat, fs: seq<Frame>)
    requires n <= i <= |b| && LinesOf(fs) == b[n..][..i - n] && EndsWith(fs, TooLong)
    ensures LinesOf([Line(b[..n])] + fs) == b[..i] && EndsWith([Line(b[..n])] + fs, TooLong)
  {
    LinesCons(b[..n], fs);
    EndsWithCons(b[..n], fs, TooLong);
    assert b[..i] == b[..n] + b[n..][..i - n];
  }

  /** With one, the frames are exactly the lines before the first of them, and then the error. */
  lemma {:induction false} FramesStopAtOversized(b: Bytes, end: End, i: nat)
    requires FirstOversized(b, i)
    ensures LinesOf(Frames(b, end)) == b[..i] && EndsWith(Frames(b, end), TooLong)
    decreases |b|
  {
    var found := FirstNewline(b);
    if found.Some? && found.value < MAX_LINE_SIZE {
      var n := found.value + 1;
      RestFirstOversized(b, n, i);
      FramesStopAtOversized(b[n..], end, i - n);
      StopsAfterLine(b, n, i, Frames(b[n..], end));
    } else {
      OversizedFirst(b, end, i);
    }
  }

  lemma LineThenPrefix(b: Bytes, n: nat, rest: Bytes)
    requires n <= |b| && rest <= b[n..] && NoNewline(b[n..][|rest|..])
    ensures b[..n] + rest <= b && NoNewline(b[|b[..n] + rest|..])
  {
    assert b == b[..n] + b[n..];
    assert b[n + |rest|..] == b[n..][|rest|..];
  }

  /** A source that fails loses only its unfinished last line. */
  lemma {:induction false} FramesOfFailingSource(b: Bytes)
    requires !Oversized(b)
    ensures EndsWith(Frames(b, Fails), ReadError) && LinesOf(Frames(b, Fails)) <= b
    ensures NoNewline(b[|LinesOf(Frames(b, Fails))|..])
    decreases |b|
  {
    var found := FirstNewline(b);
    if found.Some? && found.value < MAX_LINE_SIZE {
      var n := found.value + 1;
      RestOversized(b, n);
      FramesOfFailingSource(b[n..]);
      LinesCons(b[..n], Frames(b[n..], Fails));
      EndsWithCons(b[..n], Frames(b[n..], Fails), ReadError);
      LineThenPrefix(b, n, LinesOf(Frames(b[n..], Fails)));
    } else if found.Some? || |b| > MAX_LINE_SIZE {
      OversizedNow(b);
    }
  }

  // ---------- the reader task ----------

  lemma FirstNewlineIs(b: Bytes, i: nat)
    requires i < |b| && b[i] == NEWLINE && NoNewline(b[..i])
    ensures FirstNewline(b) == Some(i)
  {
    var v := FirstNewline(b).value;
    assert forall k :: 0 <= k < i ==> b[k] == b[..i][k];
    assert forall k :: 0 <= k < v ==> b[k] == b[..v][k];
  }

  /** A line that has grown beyond the limit is an error, whatever comes next. */
  lemma GrownTooLong(b: Bytes, n: nat, end: End)
    requires MAX_LINE_SIZE < n <= |b| && NoNewline(b[..n])
    ensures Frames(b, end) == [TooLong]
  {
    var found := FirstNewline(b);
    assert forall k :: 0 <= k < n ==> b[k] == b[..n][k];
  }

  datatype LineResult = Got(line: Bytes) | Failed(error: Frame)

  class ChunkedSource {
    /** The chunks not yet consumed; the first is what the buffered reader holds. */
    var chunks: seq<Bytes>
    const end: End

    ghost predicate Valid()
      reads this
    {
      forall i :: 0 <= i < |chunks| ==> chunks[i] != []
    }

    constructor (chunks: seq<Bytes>, end: End)
      requires forall i :: 0 <= i < |chunks| ==> chunks[i] != []
      ensures Valid() && this.chunks == chunks && this.end == end
    {
      this.chunks, this.end := chunks, end;
    }

    method Consume(n: nat)
      requires Valid() && chunks != [] && 0 < n <= |chunks[0]|
      modifies this
      ensures Valid() && old(Flat(chunks)) == old(chunks[0])[..n] + Flat(chunks)
      ensures |Flat(chunks)| < |old(Flat(chunks))|
    {
      var first, rest := chunks[0], chunks[1..];
      assert first == first[..n] + first[n..];
      if n == |first| {
        chunks := rest;
        assert first[..n] == first;
      } else {
        chunks := [first[n..]] + rest;
        assert chunks[1..] == rest;
        assert first + Flat(rest) == first[..n] + (first[n..] + Flat(rest));
      }
    }

    /** `read_line_capped`: the next frame of the stream, and what is left of it. */
    method ReadLineCapped() returns (r: LineResult)
      requires Valid()
      modifies this
      ensures Valid() && IsNext(old(Flat(chunks)), end, r, Flat(chunks))
    {
      var buf: Bytes := [];
      ghost var whole := Flat(chunks);
      while true
        invariant Valid() && buf + Flat(chunks) == whole && NoNewline(buf) && |buf| <= MAX_LINE_SIZE
        decreases |Flat(chunks)|
      {
        if chunks == [] {
          assert whole == buf;
          return if end.Fails? then Failed(ReadError) else Got(buf);
        }
        var available := chunks[0];
        var found := FirstNewline(available);
        var take := if found.Some? then found.value + 1 else |available|;
        ghost var before := buf;
        Consume(take);
        buf := buf + available[..take];
        assert whole == buf + Flat(chunks);
        if found.Some? {
          LineFound(before, available, found.value, Flat(chunks), end);
        } else {
          StillGrowing(buf, Flat(chunks), end);
        }
        if |buf| > MAX_LINE_SIZE {
          return Failed(TooLong);
        }
        if found.Some? {
          return Got(buf);
        }
      }
    }
  }

  /** `r` is the first frame of `whole`, and `rest` follows it. */
  ghost predicate IsNext(whole: Bytes, end: End, r: LineResult, rest: Bytes) {
    match r
    case Got(line) =>
      if line == [] then Frames(whole, end) == []
      else whole == line + rest && Frames(whole, end) == [Line(line)] + Frames(rest, end)
    case Failed(error) => !error.Line? && Frames(whole, end) == [error]
  }

  lemma LineFound(before: Bytes, available: Bytes, p: nat, rest: Bytes, end: End)
    requires NoNewline(before) && p < |available| && available[p] == NEWLINE && NoNewline(available[..p])
    ensures
      var line := before + available[..p + 1];
      IsNext(line + rest, end, if |line| > MAX_LINE_SIZE then Failed(TooLong) else Got(line), rest)
  {
    var line := before + available[..p + 1];
    var whole, n := line + rest, |before| + p;
    assert whole[n] == NEWLINE;
    assert whole[..n] == before + available[..p];
    FirstNewlineIs(whole, n);
    assert whole[..n + 1] == line && whole[n + 1..] == rest;
  }

  lemma StillGrowing(buf: Bytes, rest: Bytes, end: End)
    requires NoNewline(buf)
    ensures |buf| > MAX_LINE_SIZE ==> IsNext(buf + rest, end, Failed(TooLong), rest)
  {
    if |buf| > MAX_LINE_SIZE {
      assert (buf + rest)[..|buf|] == buf;
      GrownTooLong(buf + rest, |buf|, end);
    }
  }

  // ---------- the consumer ----------

  /** `Ready([])` is also how the end of the stream is reported. */
  datatype Poll = Ready(bytes: Bytes) | Error(frame: Frame) | Pending

  datatype Mover = Reader | Consumer(room: nat)

  lemma ServedMore(served: Bytes, buf: Bytes, pos: nat, n: nat)
    requires pos + n <= |buf|
    ensures (served + buf[pos..pos + n]) + buf[pos + n..] == served + buf[pos..]
    ensures pos + n == |buf| ==> (served + buf[pos..pos + n]) + [] == served + buf[pos..]
  {
    assert buf[pos..] == buf[pos..pos + n] + buf[pos + n..];
  }

  class LineBufferedRead {
    /** The current line and the read cursor within it. */
    var buf: Bytes
    var pos: nat
    /** What the reader task has sent and nobody has received; `closed` when the task has ended. */
    var rx: seq<Frame>
    var closed: bool
    const source: ChunkedSource
    /** All frames of the stream, those received so far, and the bytes served so far. */
    ghost const whole: seq<Frame>
    ghost var taken: seq<Frame>
    ghost var served: Bytes

    /** Nothing is lost, repeated or reordered between the source and the reader's client. */
    ghost predicate Valid()
      reads this, source
    {
      && source.Valid()
      && (pos < |buf| || (pos == 0 && buf == []))
      && taken + rx + (if closed then [] else Frames(Flat(source.chunks), source.end)) == whole
      && served + buf[pos..] == LinesOf(taken)
      && forall i :: 0 <= i < |rx| ==> rx[i] != Line([])
    }

    constructor (source: ChunkedSource)
      requires source.Valid()
      ensures Valid() && this.source == source && served == [] && !closed && taken == []
      ensures whole == Frames(Flat(source.chunks), source.end)
    {
      this.source := source;
      buf, pos, rx, closed := [], 0, [], false;
      taken, served, whole := [], [], Frames(Flat(source.chunks), source.end);
    }

    /** One turn of the reader task's loop. */
    method ReaderTurn()
      requires Valid() && !closed
      modifies this`rx, this`closed, source
      ensures Valid() && old(rx) <= rx
      ensures closed || |Flat(source.chunks)| < |old(Flat(source.chunks))|
    {
      var r := source.ReadLineCapped();
      match r {
        case Failed(error) =>
          rx, closed := rx + [error], true;
        case Got(line) =>
          if line == [] {
            closed := true;
          } else {
            rx := rx + [Line(line)];
          }
      }
    }

    /** Serve from the current line. */
    method ServeBuffered(room: nat) returns (bytes: Bytes)
      requires Valid() && pos < |buf|
      modifies this`buf, this`pos, this`served
      ensures Valid() && served == old(served) + bytes
      ensures |bytes| <= room && (room > 0 ==> bytes != [])
    {
      var n := if |buf| - pos < room then |buf| - pos else room;
      bytes := buf[pos..pos + n];
      ServedMore(served, buf, pos, n);
      served := served + bytes;
      pos := pos + n;
      if pos >= |buf| {
        buf, pos := [], 0;
      }
    }

    /** Receive the next frame; what of a line does not fit is stashed. */
    method Receive(room: nat) returns (r: Poll)
      requires Valid() && pos >= |buf| && rx != []
      modifies this`buf, this`pos, this`rx, this`taken, this`served
      ensures Valid()
      ensures r.Ready? ==> |r.bytes| <= room && served == old(served) + r.bytes && (room > 0 ==> r.bytes != [])
      ensures r.Error? ==> !r.frame.Line? && served == old(served) == LinesOf(taken) && taken == old(taken) + [r.frame]
      ensures !r.Pending? && (r.Ready? && AllLines(old(taken)) ==> AllLines(taken))
    {
      var frame := rx[0];
      Taking(taken, rx, if closed then [] else Frames(Flat(source.chunks), source.end));
      assert served + buf[pos..] == served;
      ghost var before := taken;
      rx, taken := rx[1..], taken + [frame];
      if !frame.Line? {
        ServedPart(served, before, frame, 0);
        return Error(frame);
      }
      var line := frame.bytes;
      var n := if |line| < room then |line| else room;
      ServedPart(served, before, frame, n);
      r := Ready(line[..n]);
      served := served + line[..n];
      if n < |line| {
        buf, pos := line, n;
      }
    }

    /** `poll_read` into a buffer of `room` bytes.  Pending is only reported between lines, when
        no part of a line is buffered; with room in the buffer, an empty read means that everything
        the stream can deliver has been served. */
    method PollRead(room: nat) returns (r: Poll)
      requires Valid()
      modifies this`buf, this`pos, this`rx, this`taken, this`served
      ensures Valid()
      ensures r.Ready? ==> |r.bytes| <= room && served == old(served) + r.bytes
      ensures r.Ready? && r.bytes == [] && room > 0 ==> closed && served == LinesOf(whole) && taken == whole
      ensures r.Error? ==> !r.frame.Line? && served == old(served) == LinesOf(taken) && taken == old(taken) + [r.frame]
      ensures r.Pending? ==> unchanged(this) && !closed && buf == [] && rx == [] && served == LinesOf(taken)
      ensures !r.Error? && AllLines(old(taken)) ==> AllLines(taken)
    {
      if pos < |buf| {
        var bytes := ServeBuffered(room);
        return Ready(bytes);
      }
      if rx == [] {
        assert served + buf[pos..] == served;
        if !closed {
          return Pending;
        }
        assert taken + rx + [] == taken;
        return Ready([]);
      }
      r := Receive(room);
    }

    /** The two sides take turns in any order, the client with buffers of any size. */
    method Run(turns: seq<Mover>)
      requires Valid()
      modifies this, source
      ensures Valid() && served <= LinesOf(whole)
    {
      for i := 0 to |turns|
        invariant Valid()
      {
        match turns[i] {
          case Reader =>
            if !closed {
              ReaderTurn();
            }
          case Consumer(room) =>
            var _ := PollRead(room);
        }
      }
      ServedIsPrefix();
    }

    lemma ServedIsPrefix()
      requires Valid()
      ensures served <= LinesOf(whole) && taken <= whole
    {
      PrefixServed(taken, rx, if closed then [] else Frames(Flat(source.chunks), source.end), served, buf[pos..]);
    }

    /** One turn of the whole: the reader task runs ahead if it is its turn; else the client polls and,
        when nothing is ready, sleeps until the reader task has had a turn. */
    method Turn(ahead: bool, room: nat) returns (r: Poll)
      requires Valid() && room > 0 && AllLines(taken)
      modifies this, source
      ensures Valid() && old(served) <= served <= LinesOf(whole) && taken <= whole
      ensures r.Ready? ==> served == old(served) + r.bytes && AllLines(taken)
      ensures r.Ready? && r.bytes == [] ==> taken == whole && served == LinesOf(whole)
      ensures r.Error? ==> served == old(served) == LinesOf(taken)
      ensures r.Error? ==> taken != [] && taken[|taken| - 1] == r.frame && !r.frame.Line?
      ensures r.Pending? ==> served == old(served) && AllLines(taken) && !old(closed)
      ensures r.Pending? ==> closed || |Flat(source.chunks)| < |old(Flat(source.chunks))|
    {
      r := Pending;
      if closed || !ahead {
        r := PollRead(room);
      }
      if r.Pending? {
        ReaderTurn();
      }
      ServedIsPrefix();
    }

    /** Turn after turn, until the end of the stream or an error. */
    method ReadOn(room: nat -> nat, ahead: nat -> bool) returns (all: Bytes, error: Option<Frame>)
      requires Valid() && taken == [] && served == [] && forall k :: room(k) > 0
      modifies this, source
      ensures Valid() && taken <= whole && all == LinesOf(taken)
      ensures error.None? ==> taken == whole && AllLines(taken)
      ensures error.Some? ==> taken != [] && !taken[|taken| - 1].Line? && error.value == taken[|taken| - 1]
    {
      all, error := [], None;
      var k := 0;
      ghost var total := |LinesOf(whole)|;
      while true
        invariant Valid() && total == |LinesOf(whole)|
        invariant all == served && |all| <= total && AllLines(taken)
        decreases total - |all|, if closed then 0 else 1, |Flat(source.chunks)|
      {
        var r := Turn(ahead(k), room(k));
        k := k + 1;
        match r {
          case Ready(bytes) =>
            all := all + bytes;
            if bytes == [] {
              return;
            }
          case Error(frame) => return all, Some(frame);
          case Pending =>
        }
      }
    }
  }

  lemma PrefixServed(taken: seq<Frame>, rx: seq<Frame>, later: seq<Frame>, served: Bytes, rest: Bytes)
    requires served + rest == LinesOf(taken)
    ensures served <= LinesOf(taken + rx + later) && taken <= taken + rx + later
  {
    assert taken + rx + later == taken + (rx + later);
    LinesAppend(taken, rx + later);
  }

  lemma Taking(taken: seq<Frame>, rx: seq<Frame>, later: seq<Frame>)
    requires rx != []
    ensures taken + [rx[0]] + rx[1..] + later == taken + rx + later
  {
  }

  lemma ServedPart(served: Bytes, taken: seq<Frame>, f: Frame, n: nat)
    requires served == LinesOf(taken) && (f.Line? ==> n <= |f.bytes|)
    ensures f.Line? ==> served + f.bytes[..n] + f.bytes[n..] == LinesOf(taken + [f])
    ensures !f.Line? ==> served == LinesOf(taken + [f])
  {
    LinesAppend(taken, [f]);
    LinesOne(f);
    if f.Line? {
      assert f.bytes == f.bytes[..n] + f.bytes[n..];
    }
  }

  lemma LinesOne(f: Frame)
    ensures LinesOf([f]) == if f.Line? then f.bytes else []
  {
    assert [f][1..] == [];
  }

  lemma ErrorIsLast(whole: seq<Frame>, taken: seq<Frame>, rest: seq<Frame>, e: Frame)
    requires whole == taken + rest && taken != [] && !taken[|taken| - 1].Line?
    requires AllLines(whole) || EndsWith(whole, e)
    ensures taken == whole && taken[|taken| - 1] == e
  {
    var n := |taken| - 1;
    assert whole[n] == taken[n];
    assert forall k :: 0 <= k < |whole| - 1 ==> whole[k] == whole[..|whole| - 1][k];
    assert taken + [] == taken;
  }

  /** What a client gets of the bytes `b`: all of them, or those before the first oversized line and
      an error, or -- from a failing source -- its complete lines and an error. */
  ghost predicate Delivered(b: Bytes, end: End, all: Bytes, error: Option<Frame>) {
    && (!Oversized(b) && end.Eof? ==> error == None && all == b)
    && (forall i: nat :: FirstOversized(b, i) ==> error == Some(TooLong) && all == b[..i])
    && (!Oversized(b) && end.Fails? ==> error == Some(ReadError) && all <= b && NoNewline(b[|all|..]))
  }

  lemma DeliveredAtEnd(b: Bytes, end: End, taken: seq<Frame>, rest: seq<Frame>, error: Option<Frame>)
    requires Frames(b, end) == taken + rest
    requires error.None? ==> rest == [] && AllLines(taken)
    requires error.Some? ==> taken != [] && !taken[|taken| - 1].Line? && error.value == taken[|taken| - 1]
    ensures Delivered(b, end, LinesOf(taken), error)
  {
    var whole := Frames(b, end);
    assert taken + [] == taken;
    forall i: nat | FirstOversized(b, i) ensures error == Some(TooLong) && LinesOf(taken) == b[..i] {
      FramesStopAtOversized(b, end, i);
      LastOf(whole, TooLong);
      if error.Some? {
        ErrorIsLast(whole, taken, rest, TooLong);
      }
    }
    if !Oversized(b) {
      if end.Eof? {
        FramesAreTheSource(b);
        assert forall k :: 0 <= k < |taken| ==> whole[k] == taken[k];
      } else {
        FramesOfFailingSource(b);
        LastOf(whole, ReadError);
        if error.Some? {
          ErrorIsLast(whole, taken, rest, ReadError);
        }
      }
    }
  }

  lemma DeliveredBy(b: Bytes, end: End, whole: seq<Frame>, taken: seq<Frame>, error: Option<Frame>)
    requires whole == Frames(b, end) && taken <= whole
    requires error.None? ==> taken == whole && AllLines(taken)
    requires error.Some? ==> taken != [] && !taken[|taken| - 1].Line? && error.value == taken[|taken| - 1]
    ensures Delivered(b, end, LinesOf(taken), error)
  {
    DeliveredAtEnd(b, end, taken, whole[|taken|..], error);
  }

  lemma LastOf(fs: seq<Frame>, e: Frame)
    requires EndsWith(fs, e) && !e.Line?
    ensures !AllLines(fs)
  {
    assert fs[|fs| - 1] == e;
  }

  /** Reading to the end: whatever the chunks, the sizes of the client's buffers and the turns at which
      the reader task runs ahead, the client gets exactly what the bytes of the source call for. */
  method ReadToEnd(chunks: seq<Bytes>, end: End, room: nat -> nat, ahead: nat -> bool)
    returns (all: Bytes, error: Option<Frame>)
    requires forall i :: 0 <= i < |chunks| ==> chunks[i] != []
    requires forall k :: room(k) > 0
    ensures Delivered(Flat(chunks), end, all, error)
  {
    var source := new ChunkedSource(chunks, end);
    var reader := new LineBufferedRead(source);
    all, error := reader.ReadOn(room, ahead);
    DeliveredBy(Flat(chunks), end, reader.whole, reader.taken, error);
  }
}
