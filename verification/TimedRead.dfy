/** Reading a frame from a peer whose bytes arrive over time, under the idle deadline
    of codec/frame.go. */
module TimedRead {
  import opened Prelude
  import opened Frames

  /** Everything a peer will ever send, when each byte becomes readable, and when the
      peer closes or resets. `deadlines` says whether the reader has SetReadDeadline. */
  datatype WireData = WireData(bytes: seq<Byte>, arrives: seq<int>, closes: int, deadlines: bool)

  type Wire = w: WireData | |w.arrives| == |w.bytes| witness WireData([], [], 0, false)

  /** Bytes arrive in order and before the end. */
  ghost predicate Orderly(w: Wire) {
    && (forall i, j | 0 <= i <= j < |w.arrives| :: w.arrives[i] <= w.arrives[j])
    && (forall i | 0 <= i < |w.arrives| :: w.arrives[i] <= w.closes)
  }

  /** How far the stream has been read, the time, and the deadline in force. */
  datatype Cursor = Cursor(pos: nat, now: int, deadline: Option<int>)

  /** armRead */
  function Arm(w: Wire, c: Cursor, idle: int): Cursor {
    if idle <= 0 || !w.deadlines then c else c.(deadline := Some(c.now + idle))
  }

  /** How many of the bytes from `from` up to `upto` are readable by t. */
  function Arrived(w: Wire, from: nat, upto: nat, t: int): (k: nat)
    requires from <= upto <= |w.bytes|
    ensures from + k <= upto
    decreases upto - from
  {
    if from == upto || w.arrives[from] > t then 0 else 1 + Arrived(w, from + 1, upto, t)
  }

  lemma {:induction false} AllArrived(w: Wire, from: nat, upto: nat, t: int)
    requires Orderly(w) && from <= upto <= |w.bytes| && w.closes <= t
    ensures from + Arrived(w, from, upto, t) == upto
    decreases upto - from
  {
    if from == upto {
    } else {
      AllArrived(w, from + 1, upto, t);
    }
  }

  /** When k more bytes are available, if they ever are. */
  function Due(w: Wire, c: Cursor, k: nat): int
    requires 0 < k && c.pos + k <= |w.bytes|
  {
    Max(c.now, w.arrives[c.pos + k - 1])
  }

  /** io.ReadFull of k bytes on a reader that honours its deadline. */
  function ReadFull(w: Wire, c: Cursor, k: nat): (r: (bool, Cursor))
    requires c.pos <= |w.bytes|
    ensures r.1.pos <= |w.bytes| && c.now <= r.1.now && r.1.deadline == c.deadline
    ensures r.0 ==> r.1.pos == c.pos + k
  {
    if k == 0 then
      (true, c)
    else if c.pos + k <= |w.bytes| && (c.deadline.None? || Due(w, c, k) <= c.deadline.value) then
      (true, c.(pos := c.pos + k, now := Due(w, c, k)))
    else
      var end := Max(c.now, w.closes);
      var t := if c.deadline.None? then end else Max(c.now, Min(end, c.deadline.value));
      (false, c.(pos := c.pos + Arrived(w, c.pos, Min(c.pos + k, |w.bytes|), t), now := t))
  }

  /** The chunk loop shared by readBodyInto and readLargeBody. */
  function ReadBody(w: Wire, c: Cursor, left: nat, idle: int): (r: (bool, Cursor))
    requires c.pos <= |w.bytes|
    ensures r.1.pos <= |w.bytes| && c.now <= r.1.now
    ensures r.0 ==> r.1.pos == c.pos + left
    decreases left
  {
    if left == 0 then (true, c)
    else
      var k := Min(CHUNK, left);
      var (ok, c') := ReadFull(w, Arm(w, c, idle), k);
      if ok then ReadBody(w, c', left - k, idle) else (false, c')
  }

  datatype Outcome =
    | Got(payload: seq<Byte>, at: Cursor)
    | Lost(error: ReadError, at: Cursor)

  /** readFrameLength */
  datatype Length = Length(n: nat, at: Cursor) | NoLength(error: ReadError, at: Cursor)

  function ReadLength(w: Wire, c: Cursor, idle: int): (r: Length)
    requires c.pos <= |w.bytes|
    ensures r.at.pos <= |w.bytes|
    ensures r.Length? ==> 1 <= r.n <= MAX_FRAME && r.at.pos == c.pos + PREFIX
  {
    var (ok, c') := ReadFull(w, Arm(w, c, idle), PREFIX);
    if !ok then NoLength(ShortPrefix, c')
    else
      var n := Uint32(w.bytes[c.pos..c.pos + PREFIX]);
      if n == 0 then NoLength(EmptyFrame, c')
      else if n > MAX_FRAME then NoLength(FrameTooLarge, c')
      else Length(n, c')
  }

  /** ReadFrameWithTimeout */
  function ReadFrame(w: Wire, c: Cursor, idle: int): (r: Outcome)
    requires c.pos <= |w.bytes|
    ensures r.at.pos <= |w.bytes|
  {
    match ReadLength(w, c, idle)
    case NoLength(e, c') => Lost(e, c')
    case Length(n, c') =>
      var (ok, c'') := ReadBody(w, c', n, idle);
      if ok then Got(w.bytes[c'.pos..c'.pos + n], c'') else Lost(ShortBody, c'')
  }

  // ---------------------------------------------------------------------------
  // Agreement with the untimed format

  /** Whatever the timing, a frame that is read is the frame the bytes spell, and the
      cursor stands right behind it. */
  lemma TimedReadIsSound(w: Wire, c: Cursor, idle: int)
    requires c.pos <= |w.bytes|
    requires ReadFrame(w, c, idle).Got?
    ensures var r := ReadFrame(w, c, idle);
            ReadOne(w.bytes[c.pos..]) == Frame(r.payload, r.at.pos - c.pos)
  {
    var s := w.bytes[c.pos..];
    var n := ReadLength(w, c, idle).n;
    SubSlice(w.bytes, c.pos, 0, PREFIX);
    SubSlice(w.bytes, c.pos, PREFIX, PREFIX + n);
  }

  /** Without a deadline the body is read in full or everything there is, is consumed. */
  lemma {:induction false} UntimedBody(w: Wire, c: Cursor, left: nat, idle: int)
    requires Orderly(w) && c.pos <= |w.bytes| && c.deadline.None? && (idle <= 0 || !w.deadlines)
    ensures var (ok, c') := ReadBody(w, c, left, idle);
            && (ok <==> c.pos + left <= |w.bytes|)
            && (!ok ==> c'.pos == |w.bytes|)
    decreases left
  {
    if left == 0 {
    } else {
      var k := Min(CHUNK, left);
      var (ok, c') := ReadFull(w, c, k);
      if ok { UntimedBody(w, c', left - k, idle); } else { AllArrived(w, c.pos, |w.bytes|, Max(c.now, w.closes)); }
    }
  }

  /** Without a deadline, reading is exactly parsing: same frame or same error, same
      bytes consumed, however the bytes are spread over time. */
  lemma UntimedReadIsExact(w: Wire, c: Cursor, idle: int)
    requires Orderly(w) && c.pos <= |w.bytes| && c.deadline.None? && (idle <= 0 || !w.deadlines)
    ensures match ReadFrame(w, c, idle)
            case Got(p, at) => ReadOne(w.bytes[c.pos..]) == Frame(p, at.pos - c.pos)
            case Lost(e, at) => c.pos <= at.pos && ReadOne(w.bytes[c.pos..]) == Failed(e, at.pos - c.pos)
  {
    if c.pos + PREFIX <= |w.bytes| {
      SubSlice(w.bytes, c.pos, 0, PREFIX);
      var len := ReadLength(w, c, idle);
      if len.Length? { UntimedRest(w, c, len.n, len.at, idle); }
    } else {
      AllArrived(w, c.pos, |w.bytes|, Max(c.now, w.closes));
    }
  }

  /** The body of a frame of n bytes whose prefix is at c. */
  lemma {:induction false} UntimedRest(w: Wire, c: Cursor, n: nat, c': Cursor, idle: int)
    requires Orderly(w) && c.pos + PREFIX <= |w.bytes| && (idle <= 0 || !w.deadlines)
    requires c'.pos == c.pos + PREFIX && c'.deadline.None?
    ensures var (ok, at) := ReadBody(w, c', n, idle);
            && (ok <==> PREFIX + n <= |w.bytes[c.pos..]|)
            && (ok ==> w.bytes[c.pos..][PREFIX..PREFIX + n] == w.bytes[c'.pos..c'.pos + n])
            && (!ok ==> at.pos == |w.bytes|)
  {
    UntimedBody(w, c', n, idle);
    if c'.pos + n <= |w.bytes| { SubSlice(w.bytes, c.pos, PREFIX, PREFIX + n); }
  }

  // ---------------------------------------------------------------------------
  // How a read fails

  lemma {:induction false} ArrivedExactly(w: Wire, from: nat, upto: nat, t: int)
    requires Orderly(w) && from <= upto <= |w.bytes|
    ensures forall i | from <= i < upto :: i < from + Arrived(w, from, upto, t) <==> w.arrives[i] <= t
    decreases upto - from
  {
    if from == upto {
    } else {
      ArrivedExactly(w, from + 1, upto, t);
    }
  }

  /** A read that fails gives up when the stream ends or its deadline passes, not before and
      not after, and has then consumed exactly the bytes asked for that had arrived. */
  lemma {:induction false} FailedRead(w: Wire, c: Cursor, k: nat)
    requires Orderly(w) && c.pos <= |w.bytes| && !ReadFull(w, c, k).0
    ensures var at := ReadFull(w, c, k).1;
            && (forall i | c.pos <= i < Min(c.pos + k, |w.bytes|) :: i < at.pos <==> w.arrives[i] <= at.now)
            && c.pos <= at.pos <= c.pos + k
            && (at.now == c.now || at.now == w.closes || c.deadline == Some(at.now))
            && (w.closes <= at.now || (c.deadline.Some? && c.deadline.value <= at.now))
            && (c.deadline.Some? ==> at.now <= Max(c.now, c.deadline.value))
  {
    ArrivedExactly(w, c.pos, Min(c.pos + k, |w.bytes|), ReadFull(w, c, k).1.now);
  }

  // ---------------------------------------------------------------------------
  // Idle-time bound

  /** How many chunks a body of n bytes is read in: n / CHUNK, rounded up. */
  function Chunks(n: nat): (k: nat)
    ensures CHUNK * (k - 1) < n <= CHUNK * k || n == k == 0
  {
    if n == 0 then 0 else 1 + Chunks(n - Min(CHUNK, n))
  }

  lemma {:induction false} BodyTime(w: Wire, c: Cursor, left: nat, idle: Pos)
    requires c.pos <= |w.bytes| && w.deadlines
    ensures ReadBody(w, c, left, idle).1.now <= c.now + idle * Chunks(left)
    decreases left
  {
    if left == 0 {
    } else {
      var k := Min(CHUNK, left);
      var (ok, c') := ReadFull(w, Arm(w, c, idle), k);
      ArmedTime(w, c, k, idle);
      OneMore(idle, Chunks(left - k));
      if ok { BodyTime(w, c', left - k, idle); }
    }
  }

  /** One armed read takes at most idle. */
  lemma ArmedTime(w: Wire, c: Cursor, k: nat, idle: Pos)
    requires c.pos <= |w.bytes| && w.deadlines
    ensures ReadFull(w, Arm(w, c, idle), k).1.now <= c.now + idle
  {}

  lemma OneMore(idle: Pos, k: nat)
    ensures idle * (1 + k) == idle + idle * k && 0 <= idle * k
  {}

  lemma ChunkCount(n: Pos)
    ensures 65_536 * (Chunks(n) - 1) < n <= 65_536 * Chunks(n)
  {}

  /** Under a positive idle timeout, on a reader that has deadlines, a read ends within
      idle for the prefix and idle for each 64 KiB chunk of the declared length, whether
      it succeeds or fails; so within 161 idle intervals in every case. */
  lemma {:induction false} IdleTimeBound(w: Wire, c: Cursor, idle: Pos)
    requires c.pos <= |w.bytes| && w.deadlines
    ensures var r, len := ReadFrame(w, c, idle), ReadLength(w, c, idle);
            && r.at.now <= c.now + idle * (1 + if len.Length? then Chunks(len.n) else 0)
            && r.at.now <= c.now + 161 * idle
  {
    match ReadLength(w, c, idle)
    case NoLength(_, _) => ArmedTime(w, c, PREFIX, idle);
    case Length(n, c') =>
      ArmedTime(w, c, PREFIX, idle);
      BodyTime(w, c', n, idle);
      IntervalCount(idle, Chunks(n));
  }

  lemma IntervalCount(idle: Pos, k: nat)
    requires k <= 160
    ensures idle * (1 + k) == idle + idle * k <= 161 * idle
  {}

  // ---------------------------------------------------------------------------
  // A slow but live peer is served

  /** The position just behind chunk j of a body of `left` bytes at `from`. */
  function ChunkEnd(from: nat, left: nat, j: nat): nat { from + Min(CHUNK * (j + 1), left) }

  /** Chunk j is there within idle of its deadline being armed, which happens when the
      chunk before it is complete. */
  predicate OnTime(w: Wire, start: int, from: nat, left: nat, idle: int, j: nat)
    requires from + left <= |w.bytes| && j < Chunks(left)
  {
    w.arrives[ChunkEnd(from, left, j) - 1] <=
    idle + if j == 0 then start else Max(start, w.arrives[ChunkEnd(from, left, j - 1) - 1])
  }

  ghost predicate Punctual(w: Wire, start: int, from: nat, left: nat, idle: int)
    requires from + left <= |w.bytes|
  {
    forall j | 0 <= j < Chunks(left) :: OnTime(w, start, from, left, idle, j)
  }

  lemma OnTimeShift(w: Wire, start: int, from: nat, left: nat, idle: int, j: nat)
    requires Orderly(w) && CHUNK < left && from + left <= |w.bytes| && j < Chunks(left - CHUNK)
    ensures j + 1 < Chunks(left)
    ensures OnTime(w, start, from, left, idle, j + 1) <==>
            OnTime(w, Max(start, w.arrives[from + CHUNK - 1]), from + CHUNK, left - CHUNK, idle, j)
  {}

  lemma OnTimeFirst(w: Wire, start: int, from: nat, left: nat, idle: int)
    requires CHUNK <= left && from + left <= |w.bytes|
    ensures 0 < Chunks(left)
    ensures OnTime(w, start, from, left, idle, 0) <==> w.arrives[from + CHUNK - 1] <= start + idle
  {}

  lemma {:induction false} PunctualStep(w: Wire, start: int, from: nat, left: nat, idle: int)
    requires Orderly(w) && CHUNK < left && from + left <= |w.bytes|
    ensures Punctual(w, start, from, left, idle) <==>
            && w.arrives[from + CHUNK - 1] <= start + idle
            && Punctual(w, Max(start, w.arrives[from + CHUNK - 1]), from + CHUNK, left - CHUNK, idle)
  {
    var start' := Max(start, w.arrives[from + CHUNK - 1]);
    OnTimeFirst(w, start, from, left, idle);
    if Punctual(w, start, from, left, idle) {
      PunctualTail(w, start, from, left, idle);
    }
    if Punctual(w, start', from + CHUNK, left - CHUNK, idle) && w.arrives[from + CHUNK - 1] <= start + idle {
      PunctualCons(w, start, from, left, idle);
    }
  }

  lemma {:induction false} PunctualTail(w: Wire, start: int, from: nat, left: nat, idle: int)
    requires Orderly(w) && CHUNK < left && from + left <= |w.bytes| && Punctual(w, start, from, left, idle)
    ensures Punctual(w, Max(start, w.arrives[from + CHUNK - 1]), from + CHUNK, left - CHUNK, idle)
  {
    var start', from', left' := Max(start, w.arrives[from + CHUNK - 1]), from + CHUNK, left - CHUNK;
    forall j | 0 <= j < Chunks(left') ensures OnTime(w, start', from', left', idle, j) {
      OnTimeShift(w, start, from, left, idle, j);
    }
  }

  lemma {:induction false} PunctualCons(w: Wire, start: int, from: nat, left: nat, idle: int)
    requires Orderly(w) && CHUNK < left && from + left <= |w.bytes|
    requires w.arrives[from + CHUNK - 1] <= start + idle
    requires Punctual(w, Max(start, w.arrives[from + CHUNK - 1]), from + CHUNK, left - CHUNK, idle)
    ensures Punctual(w, start, from, left, idle)
  {
    OnTimeFirst(w, start, from, left, idle);
    forall j | 0 <= j < Chunks(left) ensures OnTime(w, start, from, left, idle, j) {
      if j > 0 { OnTimeShift(w, start, from, left, idle, j - 1); }
    }
  }

  lemma LastChunk(w: Wire, start: int, from: nat, left: Pos, idle: int)
    requires left <= CHUNK && from + left <= |w.bytes|
    ensures Punctual(w, start, from, left, idle) <==> w.arrives[from + left - 1] <= start + idle
  {
    assert Chunks(left) == 1 && ChunkEnd(from, left, 0) == from + left;
    assert OnTime(w, start, from, left, idle, 0) <==> w.arrives[from + left - 1] <= start + idle;
  }

  /** The chunk loop succeeds exactly when its first chunk is on time and the rest of the
      loop, started when that chunk is complete, succeeds. */
  lemma {:induction false} BodyStep(w: Wire, c: Cursor, left: Pos, idle: Pos)
    requires c.pos + left <= |w.bytes| && w.deadlines
    ensures var k := Min(CHUNK, left);
            var due := w.arrives[c.pos + k - 1];
            ReadBody(w, c, left, idle).0 <==>
            && due <= c.now + idle
            && ReadBody(w, AfterChunk(w, c, k, idle), left - k, idle).0
  {}

  /** The cursor when the first chunk has been read. */
  function AfterChunk(w: Wire, c: Cursor, k: Pos, idle: int): Cursor
    requires c.pos + k <= |w.bytes|
  {
    Cursor(c.pos + k, Max(c.now, w.arrives[c.pos + k - 1]), Some(c.now + idle))
  }

  lemma {:induction false} OneChunkBody(w: Wire, c: Cursor, left: Pos, idle: Pos)
    requires left <= CHUNK && c.pos + left <= |w.bytes| && w.deadlines
    ensures ReadBody(w, c, left, idle).0 <==> Punctual(w, c.now, c.pos, left, idle)
  {
    BodyStep(w, c, left, idle);
    LastChunk(w, c.now, c.pos, left, idle);
  }

  lemma {:induction false} LongerBody(w: Wire, c: Cursor, left: nat, idle: Pos)
    requires Orderly(w) && CHUNK < left && c.pos + left <= |w.bytes| && w.deadlines
    requires var c' := AfterChunk(w, c, CHUNK, idle);
             ReadBody(w, c', left - CHUNK, idle).0 <==> Punctual(w, c'.now, c'.pos, left - CHUNK, idle)
    ensures ReadBody(w, c, left, idle).0 <==> Punctual(w, c.now, c.pos, left, idle)
  {
    BodyStep(w, c, left, idle);
    PunctualAfter(w, c, left, idle);
  }

  lemma {:induction false} PunctualAfter(w: Wire, c: Cursor, left: nat, idle: Pos)
    requires Orderly(w) && CHUNK < left && c.pos + left <= |w.bytes|
    ensures var c' := AfterChunk(w, c, CHUNK, idle);
            Punctual(w, c.now, c.pos, left, idle) <==>
            w.arrives[c.pos + CHUNK - 1] <= c.now + idle && Punctual(w, c'.now, c'.pos, left - CHUNK, idle)
  {
    PunctualStep(w, c.now, c.pos, left, idle);
  }

  lemma {:induction false} BodyIffPunctual(w: Wire, c: Cursor, left: nat, idle: Pos)
    requires Orderly(w) && c.pos + left <= |w.bytes| && w.deadlines
    ensures ReadBody(w, c, left, idle).0 <==> Punctual(w, c.now, c.pos, left, idle)
    decreases left
  {
    if left == 0 {
    } else if left <= CHUNK {
      OneChunkBody(w, c, left, idle);
    } else {
      BodyIffPunctual(w, AfterChunk(w, c, CHUNK, idle), left - CHUNK, idle);
      LongerBody(w, c, left, idle);
    }
  }

  /** With an idle timeout a frame is read exactly when the bytes spell a frame, its
      prefix arrives within idle, and each chunk arrives within idle of the one before
      it: slow but live peers are served however long the whole takes, others are not. */
  lemma ServedIffPunctual(w: Wire, c: Cursor, idle: Pos)
    requires Orderly(w) && c.pos <= |w.bytes| && w.deadlines
    ensures ReadFrame(w, c, idle).Got? <==>
            && ReadOne(w.bytes[c.pos..]).Frame?
            && w.arrives[c.pos + PREFIX - 1] <= c.now + idle
            && Punctual(w, Max(c.now, w.arrives[c.pos + PREFIX - 1]), c.pos + PREFIX,
                        |ReadOne(w.bytes[c.pos..]).payload|, idle)
  {
    if c.pos + PREFIX <= |w.bytes| {
      var len := ReadLength(w, c, idle);
      FrameIffDeclared(w, c);
      LengthIffOnTime(w, c, idle);
      if len.Length? && len.at.pos + len.n <= |w.bytes| { BodyIffPunctual(w, len.at, len.n, idle); }
    }
  }

  /** The bytes at the cursor spell a frame exactly when they declare an acceptable length
      and there are that many of them. */
  lemma FrameIffDeclared(w: Wire, c: Cursor)
    requires c.pos + PREFIX <= |w.bytes|
    ensures var r, n := ReadOne(w.bytes[c.pos..]), Uint32(w.bytes[c.pos..c.pos + PREFIX]);
            && (r.Frame? <==> 1 <= n <= MAX_FRAME && c.pos + PREFIX + n <= |w.bytes|)
            && (r.Frame? ==> |r.payload| == n)
  {
    SubSlice(w.bytes, c.pos, 0, PREFIX);
  }

  /** The declared length is read exactly when it is acceptable and its prefix on time. */
  lemma LengthIffOnTime(w: Wire, c: Cursor, idle: Pos)
    requires c.pos + PREFIX <= |w.bytes| && w.deadlines
    ensures var len, due := ReadLength(w, c, idle), w.arrives[c.pos + PREFIX - 1];
            var n := Uint32(w.bytes[c.pos..c.pos + PREFIX]);
            && (len.Length? <==> 1 <= n <= MAX_FRAME && due <= c.now + idle)
            && (len.Length? ==> len.n == n && len.at.now == Max(c.now, due))
  {}
}
