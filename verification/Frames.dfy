/** The wire format of codec/frame.go on whole byte strings: a four-byte big-endian
    length and the payload. */
module Frames {
  import opened Prelude

  type Byte = b: int | 0 <= b < 256

  const PREFIX := 4
  const MAX_FRAME := 10 * 1024 * 1024
  const CHUNK := 65536

  /** binary.BigEndian.PutUint32 */
  function PutUint32(n: nat): (s: seq<Byte>)
    requires n < 0x1_0000_0000
    ensures |s| == PREFIX
  {
    [n / 0x100_0000, n / 0x1_0000 % 256, n / 0x100 % 256, n % 256]
  }

  /** binary.BigEndian.Uint32 */
  function Uint32(s: seq<Byte>): (n: nat)
    requires |s| == PREFIX
    ensures n < 0x1_0000_0000
  {
    (s[0] as int) * 0x100_0000 + (s[1] as int) * 0x1_0000 + (s[2] as int) * 0x100 + s[3]
  }

  lemma Uint32RoundTrip(n: nat)
    requires n < 0x1_0000_0000
    ensures Uint32(PutUint32(n)) == n
  {
    assert n / 0x1_0000 == n / 0x100_0000 * 256 + n / 0x1_0000 % 256;
    assert n / 0x100 == n / 0x1_0000 * 256 + n / 0x100 % 256;
  }

  lemma PutUint32RoundTrip(s: seq<Byte>)
    requires |s| == PREFIX
    ensures PutUint32(Uint32(s)) == s
  {
    Digits(s[0], s[1], s[2], s[3]);
  }

  lemma Digits(a: Byte, b: Byte, c: Byte, d: Byte)
    ensures var n := a * 0x100_0000 + b * 0x1_0000 + c * 0x100 + d;
            n / 0x100_0000 == a && n / 0x1_0000 % 256 == b && n / 0x100 % 256 == c && n % 256 == d
  {
    var n := a * 0x100_0000 + b * 0x1_0000 + c * 0x100 + d;
    assert n / 0x100 == a * 0x1_0000 + b * 0x100 + c;
    assert n / 0x1_0000 == a * 0x100 + b;
  }

  /** The number a string of digits in base 256 denotes, the first digit weighing most. */
  function Denotes(s: seq<Byte>): nat {
    if s == [] then 0 else Denotes(s[..|s| - 1]) * 256 + s[|s| - 1]
  }

  lemma {:induction false} DenotesAppend(s: seq<Byte>, b: Byte)
    ensures Denotes(s + [b]) == Denotes(s) * 256 + b
  {
    assert (s + [b])[..|s|] == s;
  }

  /** The length is read big-endian: as the number its bytes denote. */
  lemma {:induction false} Uint32Denotes(s: seq<Byte>)
    requires |s| == PREFIX
    ensures Uint32(s) == Denotes(s)
  {
    DenotesAppend([], s[0]);
    DenotesAppend([s[0]], s[1]);
    DenotesAppend([s[0], s[1]], s[2]);
    DenotesAppend([s[0], s[1], s[2]], s[3]);
    assert [] + [s[0]] == [s[0]] && [s[0]] + [s[1]] == [s[0], s[1]];
    assert [s[0], s[1]] + [s[2]] == [s[0], s[1], s[2]] && [s[0], s[1], s[2]] + [s[3]] == s;
  }

  /** a comes before b in the order of their first difference. */
  predicate LexLess(a: seq<Byte>, b: seq<Byte>)
    requires |a| == |b|
  {
    exists i | 0 <= i < |a| :: a[..i] == b[..i] && a[i] < b[i]
  }

  lemma DigitOrder(a: Byte, b: Byte, c: Byte, d: Byte, a': Byte, b': Byte, c': Byte, d': Byte)
    requires a * 0x100_0000 + b * 0x1_0000 + c * 0x100 + d < a' * 0x100_0000 + b' * 0x1_0000 + c' * 0x100 + d'
    ensures a < a' || (a == a' && (b < b' || (b == b' && (c < c' || (c == c' && d < d')))))
  {}

  /** Longer payloads have lexicographically greater prefixes, as only big-endian has it. */
  lemma {:induction false} PutUint32Ordered(m: nat, n: nat)
    requires m < n < 0x1_0000_0000
    ensures LexLess(PutUint32(m), PutUint32(n))
  {
    var s, t := PutUint32(m), PutUint32(n);
    Uint32RoundTrip(m);
    Uint32RoundTrip(n);
    DigitOrder(s[0], s[1], s[2], s[3], t[0], t[1], t[2], t[3]);
    var i := if s[0] != t[0] then 0 else if s[1] != t[1] then 1 else if s[2] != t[2] then 2 else 3;
    assert s[..i] == t[..i] && s[i] < t[i];
  }

  /** A payload the writer accepts. */
  predicate Writable(p: seq<Byte>) { |p| <= MAX_FRAME }

  /** A payload the reader accepts as well. */
  predicate Readable(p: seq<Byte>) { p != [] && Writable(p) }

  predicate AllWritable(ps: seq<seq<Byte>>) { forall i | 0 <= i < |ps| :: Writable(ps[i]) }

  predicate AllReadable(ps: seq<seq<Byte>>) { forall i | 0 <= i < |ps| :: Readable(ps[i]) }

  function Encode(p: seq<Byte>): seq<Byte>
    requires Writable(p)
  {
    PutUint32(|p|) + p
  }

  function EncodeAll(ps: seq<seq<Byte>>): seq<Byte>
    requires AllWritable(ps)
  {
    if ps == [] then [] else Encode(ps[0]) + EncodeAll(ps[1..])
  }

  datatype ReadError = ShortPrefix | EmptyFrame | FrameTooLarge | ShortBody

  datatype Read =
    | Frame(payload: seq<Byte>, used: nat)
    | Failed(error: ReadError, used: nat)

  /** Reading one frame from a stream that holds s and then ends. */
  function ReadOne(s: seq<Byte>): (r: Read)
    ensures r.used <= |s|
    ensures r.Frame? ==> PREFIX < r.used
  {
    if |s| < PREFIX then Failed(ShortPrefix, |s|)
    else
      var n := Uint32(s[..PREFIX]);
      if n == 0 then Failed(EmptyFrame, PREFIX)
      else if n > MAX_FRAME then Failed(FrameTooLarge, PREFIX)
      else if |s| - PREFIX < n then Failed(ShortBody, |s|)
      else Frame(s[PREFIX..PREFIX + n], PREFIX + n)
  }

  /** Reading frames until the first error, which the end of a stream always brings. */
  datatype Transcript = Transcript(frames: seq<seq<Byte>>, error: ReadError)

  function ReadAll(s: seq<Byte>): Transcript
    decreases |s|
  {
    match ReadOne(s)
    case Failed(e, _) => Transcript([], e)
    case Frame(p, used) =>
      var rest := ReadAll(s[used..]);
      Transcript([p] + rest.frames, rest.error)
  }

  // ---------------------------------------------------------------------------
  // One frame

  /** On the wire a payload of at most 10 MiB is four bytes that denote its length, the
      first weighing most, and then the payload itself. */
  lemma {:induction false} FrameLayout(p: seq<Byte>)
    ensures Writable(p) <==> |p| <= 10_485_760
    ensures Writable(p) ==> |Encode(p)| == 4 + |p| && Denotes(Encode(p)[..4]) == |p| && Encode(p)[4..] == p
  {
    if Writable(p) {
      Uint32RoundTrip(|p|);
      Uint32Denotes(PutUint32(|p|));
      assert Encode(p)[..4] == PutUint32(|p|);
    }
  }

  /** What is written is read back, whatever follows it, unless it is empty: the writer
      accepts a zero-length payload and the reader refuses it. */
  lemma FrameRoundTrip(p: seq<Byte>, rest: seq<Byte>)
    requires Writable(p)
    ensures ReadOne(Encode(p) + rest) ==
            if p == [] then Failed(EmptyFrame, PREFIX) else Frame(p, |Encode(p)|)
  {
    var s := Encode(p) + rest;
    assert s[..PREFIX] == PutUint32(|p|);
    Uint32RoundTrip(|p|);
    assert s[PREFIX..PREFIX + |p|] == p;
  }

  /** The bytes a successful read consumed are the encoding of what it returned. */
  lemma ReadIsInverse(s: seq<Byte>)
    requires ReadOne(s).Frame?
    ensures Readable(ReadOne(s).payload)
    ensures s[..ReadOne(s).used] == Encode(ReadOne(s).payload)
  {
    PutUint32RoundTrip(s[..PREFIX]);
  }

  /** A stream starts with a frame that can be read. */
  ghost predicate StartsWithFrame(s: seq<Byte>, p: seq<Byte>) {
    Readable(p) && Encode(p) <= s
  }

  /** A stream is a frame that can be read, cut behind its prefix. */
  ghost predicate CutOf(s: seq<Byte>, p: seq<Byte>) {
    Readable(p) && PREFIX <= |s| && s < Encode(p)
  }

  /** A stream declares a length the reader refuses. */
  ghost predicate Declares(s: seq<Byte>, n: nat) {
    n < 0x1_0000_0000 && PutUint32(n) <= s
  }

  /** What a read yields, for every stream: the frame it starts with, if there is one;
      otherwise the error that says why there is none. */
  lemma {:induction false} ReadClassifies(s: seq<Byte>)
    ensures match ReadOne(s)
            case Frame(p, used) => StartsWithFrame(s, p) && used == |Encode(p)|
            case Failed(ShortPrefix, used) => |s| < PREFIX && used == |s|
            case Failed(EmptyFrame, used) => Declares(s, 0) && used == PREFIX
            case Failed(FrameTooLarge, used) => (exists n | MAX_FRAME < n :: Declares(s, n)) && used == PREFIX
            case Failed(ShortBody, used) => (exists p :: CutOf(s, p)) && used == |s|
  {
    if PREFIX <= |s| {
      var n := Uint32(s[..PREFIX]);
      PutUint32RoundTrip(s[..PREFIX]);
      assert Declares(s, n);
      if 0 < n <= MAX_FRAME {
        if |s| - PREFIX < n {
          var p := s[PREFIX..] + Repeat(0, n - (|s| - PREFIX));
          assert Encode(p)[..|s|] == s;
          assert CutOf(s, p);
        } else {
          ReadIsInverse(s);
        }
      }
    }
  }

  /** No stream has two of these descriptions, so each outcome is had exactly when its
      description fits. */
  lemma {:induction false} ReadIsDetermined(s: seq<Byte>, p: seq<Byte>, n: nat)
    ensures StartsWithFrame(s, p) ==> ReadOne(s) == Frame(p, |Encode(p)|)
    ensures CutOf(s, p) ==> ReadOne(s) == Failed(ShortBody, |s|)
    ensures Declares(s, n) && n == 0 ==> ReadOne(s) == Failed(EmptyFrame, PREFIX)
    ensures Declares(s, n) && MAX_FRAME < n ==> ReadOne(s) == Failed(FrameTooLarge, PREFIX)
  {
    if StartsWithFrame(s, p) {
      FrameRoundTrip(p, s[|Encode(p)|..]);
      assert s == Encode(p) + s[|Encode(p)|..];
    }
    if CutOf(s, p) {
      assert s == Encode(p)[..|s|];
      CutFrame(p, |s|);
    }
    if Declares(s, n) {
      assert s[..PREFIX] == PutUint32(n);
      Uint32RoundTrip(n);
    }
  }

  /** A frame cut short yields no frame at all. */
  lemma CutFrame(p: seq<Byte>, k: nat)
    requires Readable(p) && k < |Encode(p)|
    ensures ReadOne(Encode(p)[..k]) == Failed(if k < PREFIX then ShortPrefix else ShortBody, k)
  {
    if PREFIX <= k {
      assert Encode(p)[..k][..PREFIX] == PutUint32(|p|);
      Uint32RoundTrip(|p|);
    }
  }

  // ---------------------------------------------------------------------------
  // Streams of frames

  lemma {:induction false} ReadAllStep(s: seq<Byte>, p: seq<Byte>, rest: seq<Byte>)
    requires Readable(p) && s == Encode(p) + rest
    ensures ReadAll(s) == Transcript([p] + ReadAll(rest).frames, ReadAll(rest).error)
  {
    FrameRoundTrip(p, rest);
    assert s[|Encode(p)|..] == rest;
  }

  lemma EncodeAllCons(ps: seq<seq<Byte>>, rest: seq<Byte>)
    requires AllWritable(ps) && ps != []
    ensures EncodeAll(ps) + rest == Encode(ps[0]) + (EncodeAll(ps[1..]) + rest)
  {}

  lemma AppendCons<T>(a: seq<T>, b: seq<T>)
    requires a != []
    ensures a + b == [a[0]] + (a[1..] + b)
  {}

  /** Reading past a list of readable frames continues with what follows them. */
  lemma {:induction false} ReadAllAppend(ps: seq<seq<Byte>>, rest: seq<Byte>)
    requires AllReadable(ps)
    ensures ReadAll(EncodeAll(ps) + rest) == Transcript(ps + ReadAll(rest).frames, ReadAll(rest).error)
  {
    if ps == [] {
      assert EncodeAll(ps) + rest == rest;
    } else {
      ReadAllAppend(ps[1..], rest);
      EncodeAllCons(ps, rest);
      ReadAllStep(EncodeAll(ps) + rest, ps[0], EncodeAll(ps[1..]) + rest);
      AppendCons(ps, ReadAll(rest).frames);
    }
  }

  lemma {:induction false} EncodeAllAppend(ps: seq<seq<Byte>>, qs: seq<seq<Byte>>)
    requires AllWritable(ps) && AllWritable(qs)
    ensures EncodeAll(ps + qs) == EncodeAll(ps) + EncodeAll(qs)
  {
    if ps == [] {
      assert ps + qs == qs;
    } else {
      assert (ps + qs)[1..] == ps[1..] + qs;
      EncodeAllAppend(ps[1..], qs);
    }
  }

  /** Any list of payloads written in sequence is read back up to the first empty one:
      all of it exactly when none is empty. */
  lemma {:induction false} StreamRoundTrip(ps: seq<seq<Byte>>) returns (e: nat)
    requires AllWritable(ps)
    ensures e <= |ps| && (forall i | 0 <= i < e :: ps[i] != []) && (e < |ps| ==> ps[e] == [])
    ensures ReadAll(EncodeAll(ps)) == Transcript(ps[..e], if e < |ps| then EmptyFrame else ShortPrefix)
    ensures ReadAll(EncodeAll(ps)).frames == ps <==> [] !in ps
  {
    e := FirstEmpty(ps);
    var rest := EncodeAll(ps[e..]);
    assert ps == ps[..e] + ps[e..];
    EncodeAllAppend(ps[..e], ps[e..]);
    ReadAllAppend(ps[..e], rest);
    if e < |ps| {
      FrameRoundTrip(ps[e], EncodeAll(ps[e..][1..]));
    }
  }

  function FirstEmpty(ps: seq<seq<Byte>>): (e: nat)
    ensures e <= |ps| && (forall i | 0 <= i < e :: ps[i] != []) && (e < |ps| ==> ps[e] == [])
  {
    if ps == [] || ps[0] == [] then 0 else 1 + FirstEmpty(ps[1..])
  }

  /** The first m frames are wholly inside the first k bytes, and the next one is not. */
  ghost predicate WhollyInside(ps: seq<seq<Byte>>, k: nat, m: nat)
    requires AllWritable(ps)
  {
    && m <= |ps| && |EncodeAll(ps[..m])| <= k
    && (m < |ps| ==> k < |EncodeAll(ps[..m + 1])|)
  }

  /** The stream is cut behind the prefix of frame m. */
  ghost predicate InsideBody(ps: seq<seq<Byte>>, k: nat, m: nat)
    requires AllWritable(ps) && m <= |ps|
  {
    m < |ps| && |EncodeAll(ps[..m])| + PREFIX <= k
  }

  /** What a reader makes of a stream cut after k bytes, with m frames wholly inside. */
  ghost function CutTranscript(ps: seq<seq<Byte>>, k: nat, m: nat): Transcript
    requires AllWritable(ps) && m <= |ps|
  {
    Transcript(ps[..m], if InsideBody(ps, k, m) then ShortBody else ShortPrefix)
  }

  /** Cutting a stream of readable frames after k bytes yields exactly the frames that
      are wholly inside the cut and then an end-of-stream error, never another frame. */
  lemma {:induction false} TruncatedStream(ps: seq<seq<Byte>>, k: nat) returns (m: nat)
    requires AllReadable(ps) && k <= |EncodeAll(ps)|
    ensures WhollyInside(ps, k, m) && ReadAll(EncodeAll(ps)[..k]) == CutTranscript(ps, k, m)
  {
    if ps == [] {
      m := 0;
    } else if k < |Encode(ps[0])| {
      m := 0;
      CutFirst(ps, k);
    } else {
      var r := TruncatedStream(ps[1..], k - |Encode(ps[0])|);
      m := r + 1;
      CutLater(ps, k, r);
    }
  }

  /** Frame r of the tail is frame r + 1 of the whole. */
  lemma {:induction false} InsideCons(ps: seq<seq<Byte>>, k: nat, r: nat)
    requires AllWritable(ps) && ps != [] && |Encode(ps[0])| <= k && r < |ps|
    ensures [ps[0]] + ps[1..][..r] == ps[..r + 1]
    ensures WhollyInside(ps[1..], k - |Encode(ps[0])|, r) ==> WhollyInside(ps, k, r + 1)
    ensures InsideBody(ps[1..], k - |Encode(ps[0])|, r) <==> InsideBody(ps, k, r + 1)
  {
    PrefixCons(ps, r + 1);
    if r + 1 < |ps| { PrefixCons(ps, r + 2); }
  }

  lemma {:induction false} CutFirst(ps: seq<seq<Byte>>, k: nat)
    requires AllReadable(ps) && ps != [] && k < |Encode(ps[0])|
    ensures WhollyInside(ps, k, 0) && ReadAll(EncodeAll(ps)[..k]) == CutTranscript(ps, k, 0)
  {
    assert EncodeAll(ps)[..k] == Encode(ps[0])[..k];
    CutFrame(ps[0], k);
    assert ps[..1][1..] == [] && ps[..0] == [];
  }

  lemma {:induction false} CutLater(ps: seq<seq<Byte>>, k: nat, r: nat)
    requires AllReadable(ps) && ps != [] && |Encode(ps[0])| <= k <= |EncodeAll(ps)|
    requires var k' := k - |Encode(ps[0])|;
             WhollyInside(ps[1..], k', r) && ReadAll(EncodeAll(ps[1..])[..k']) == CutTranscript(ps[1..], k', r)
    ensures WhollyInside(ps, k, r + 1) && ReadAll(EncodeAll(ps)[..k]) == CutTranscript(ps, k, r + 1)
  {
    ReadPastFirst(ps, k);
    InsideCons(ps, k, r);
  }

  lemma {:induction false} ReadPastFirst(ps: seq<seq<Byte>>, k: nat)
    requires AllReadable(ps) && ps != [] && |Encode(ps[0])| <= k <= |EncodeAll(ps)|
    ensures var t := ReadAll(EncodeAll(ps[1..])[..k - |Encode(ps[0])|]);
            ReadAll(EncodeAll(ps)[..k]) == Transcript([ps[0]] + t.frames, t.error)
  {
    var rest := EncodeAll(ps[1..])[..k - |Encode(ps[0])|];
    assert EncodeAll(ps)[..k] == Encode(ps[0]) + rest;
    ReadAllStep(EncodeAll(ps)[..k], ps[0], rest);
  }

  lemma {:induction false} PrefixCons(ps: seq<seq<Byte>>, m: nat)
    requires AllWritable(ps) && 1 <= m <= |ps|
    ensures ps[..m] == [ps[0]] + ps[1..][..m - 1]
    ensures |EncodeAll(ps[..m])| == |Encode(ps[0])| + |EncodeAll(ps[1..][..m - 1])|
  {}
}
