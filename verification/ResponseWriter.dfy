/** Writing responses: WriteFrameWithTimeout, SliceIterator and both paths of
    ResponseWriterMiddleware. */
module ResponseWriter {
  import opened Prelude
  import opened Frames

  /** A stream that accepts `budget` more bytes and then fails. A write that does not fit
      sends what fits and reports an error; nothing is written after the first error. */
  class Writer {
    var sent: seq<Byte>
    var budget: nat

    constructor (budget: nat)
      ensures sent == [] && this.budget == budget
    {
      this.sent, this.budget := [], budget;
    }

    method Write(data: seq<Byte>) returns (ok: bool)
      modifies this
      ensures ok == (|data| <= old(budget))
      ensures sent == old(sent) + data[..Min(|data|, old(budget))]
      ensures budget == old(budget) - Min(|data|, old(budget))
    {
      var k := Min(|data|, budget);
      sent, budget, ok := sent + data[..k], budget - k, |data| <= budget;
    }

    /** WriteFrameWithTimeout: the prefix, then the payload in chunks. An oversized payload
        sends nothing; otherwise the bytes sent are the longest prefix of the encoding
        that the stream accepts, and the write succeeds if that is all of it. */
    method WriteFrame(data: seq<Byte>) returns (ok: bool)
      modifies this
      ensures !Writable(data) ==> !ok && sent == old(sent) && budget == old(budget)
      ensures Writable(data) ==>
                && ok == (|Encode(data)| <= old(budget))
                && sent == old(sent) + Encode(data)[..Min(|Encode(data)|, old(budget))]
                && budget == old(budget) - Min(|Encode(data)|, old(budget))
    {
      if |data| > MAX_FRAME { return false; }
      ghost var wire := Encode(data);
      ok := Write(PutUint32(|data|));
      if !ok {
        assert wire[..old(budget)] == PutUint32(|data|)[..old(budget)];
        return;
      }
      var off := 0;
      ghost var done := 0;
      while off < |data|
        invariant done == Min(off, |data|)
        invariant PREFIX + done <= old(budget) && budget == old(budget) - PREFIX - done
        invariant sent == old(sent) + wire[..PREFIX + done]
        decreases |data| - off
      {
        var end := Min(off + CHUNK, |data|);
        ghost var had := budget;
        ok := Write(data[off..end]);
        ghost var k := Min(end - off, had);
        ChunkOfWire(data, off, end, k);
        if !ok { return; }
        off, done := off + CHUNK, end;
      }
      assert wire[..PREFIX + |data|] == wire;
      return true;
    }
  }

  lemma ChunkOfWire(data: seq<Byte>, off: nat, end: nat, k: nat)
    requires Writable(data) && off <= end <= |data| && k <= end - off
    ensures Encode(data)[..PREFIX + off + k] == Encode(data)[..PREFIX + off] + data[off..end][..k]
  {}

  /** What one call of an iterator's Next yields besides the end. */
  datatype Produced = Data(bytes: seq<Byte>) | Broken

  /** SliceIterator: items marshalled one per call. Any iterator that yields finitely many
      results is one of these, with the results themselves as items. */
  class SliceIterator<T> {
    const marshal: T -> Produced
    const items: seq<T>
    var idx: nat

    ghost predicate Valid()
      reads this
    {
      idx <= |items|
    }

    /** The results still to come. */
    ghost function Pending(): seq<Produced>
      requires Valid()
      reads this
    {
      Script(marshal, items[idx..])
    }

    constructor (marshal: T -> Produced, items: seq<T>)
      ensures Valid() && Pending() == Script(marshal, items)
    {
      this.marshal, this.items, this.idx := marshal, items, 0;
      new;
      assert items[0..] == items;
    }

    /** None is io.EOF. An item that fails to marshal is consumed all the same. */
    method Next() returns (r: Option<Produced>)
      requires Valid()
      modifies this
      ensures Valid()
      ensures old(idx) == |items| ==> r.None? && idx == old(idx)
      ensures old(idx) < |items| ==> r == Some(marshal(items[old(idx)])) && idx == old(idx) + 1
      ensures old(Pending()) == [] ==> r.None? && Pending() == []
      ensures old(Pending()) != [] ==> r == Some(old(Pending())[0]) && Pending() == old(Pending())[1..]
    {
      if idx >= |items| { return None; }
      r := Some(marshal(items[idx]));
      assert items[idx..][1..] == items[idx + 1..];
      idx := idx + 1;
    }
  }

  function Script<T>(marshal: T -> Produced, items: seq<T>): (s: seq<Produced>)
    ensures |s| == |items|
  {
    if items == [] then [] else [marshal(items[0])] + Script(marshal, items[1..])
  }

  /** The iterator's results are its items, marshalled one by one and in order. */
  lemma {:induction false} ScriptItems<T>(marshal: T -> Produced, items: seq<T>)
    ensures forall i | 0 <= i < |items| :: Script(marshal, items)[i] == marshal(items[i])
  {
    if items == [] {
    } else {
      ScriptItems(marshal, items[1..]);
      forall i | 0 <= i < |items| ensures Script(marshal, items)[i] == marshal(items[i]) {
        if i > 0 { assert items[1..][i - 1] == items[i]; }
      }
    }
  }

  /** sc.Err after the response: unset, "produce frame" or "write frame". */
  datatype ResponseError = NoError | ProduceFailed | WriteFailed

  /** What a script puts on a stream with the given budget, and the error it leaves. */
  function Respond(script: seq<Produced>, budget: nat): (seq<Byte>, ResponseError) {
    if script == [] then ([], NoError)
    else if script[0].Broken? then ([], ProduceFailed)
    else if !Writable(script[0].bytes) then ([], WriteFailed)
    else
      var wire := Encode(script[0].bytes);
      if |wire| > budget then (wire[..budget], WriteFailed)
      else
        var (rest, err) := Respond(script[1..], budget - |wire|);
        (wire + rest, err)
  }

  /** The multi-frame path of ResponseWriterMiddleware. */
  method WriteResponse<T>(iter: SliceIterator<T>, w: Writer) returns (err: ResponseError)
    requires iter.Valid()
    modifies iter, w
    ensures iter.Valid()
    ensures err == Respond(old(iter.Pending()), old(w.budget)).1
    ensures w.sent == old(w.sent) + Respond(old(iter.Pending()), old(w.budget)).0
    ensures |w.sent| + w.budget == old(|w.sent| + w.budget)
  {
    ghost var script, budget := iter.Pending(), w.budget;
    while true
      invariant iter.Valid()
      invariant Respond(script, budget).1 == Respond(iter.Pending(), w.budget).1
      invariant old(w.sent) + Respond(script, budget).0 == w.sent + Respond(iter.Pending(), w.budget).0
      invariant |w.sent| + w.budget == old(|w.sent| + w.budget)
      decreases |iter.Pending()|
    {
      ghost var pending, left, sent := iter.Pending(), w.budget, w.sent;
      var r := iter.Next();
      if r.None? { return NoError; }
      if r.value.Broken? { return ProduceFailed; }
      var ok := w.WriteFrame(r.value.bytes);
      if !ok { return WriteFailed; }
      ghost var wire := Encode(r.value.bytes);
      assert wire[..|wire|] == wire;
      assert sent + (wire + Respond(pending[1..], w.budget).0) == sent + wire + Respond(pending[1..], w.budget).0;
    }
  }

  /** The single-frame path sends what a one-result script would, but a result that fails
      to marshal or to be written in full is only logged: Err stays unset. */
  method WriteSingle(result: Produced, w: Writer) returns (err: ResponseError)
    modifies w
    ensures err == NoError
    ensures w.sent == old(w.sent) + Respond([result], old(w.budget)).0
    ensures |w.sent| + w.budget == old(|w.sent| + w.budget)
  {
    err := NoError;
    if result.Broken? { return; }
    var ok := w.WriteFrame(result.bytes);
    assert [result][1..] == [] && Respond([], w.budget) == ([], NoError);
  }

  // ---------------------------------------------------------------------------
  // What the client sees

  /** The payloads of a script's results, up to the first that is broken or too large. */
  ghost predicate Good(script: seq<Produced>, m: nat) {
    m <= |script| && forall i | 0 <= i < m :: script[i].Data? && Writable(script[i].bytes)
  }

  ghost function Payloads(script: seq<Produced>, m: nat): (ps: seq<seq<Byte>>)
    requires Good(script, m)
    ensures |ps| == m && AllWritable(ps) && forall i | 0 <= i < m :: ps[i] == script[i].bytes
  {
    seq(m, i requires 0 <= i < m => script[i].bytes)
  }

  /** Frame m of the script is the one the stream failed in, after `tail` of it. */
  ghost predicate CutIn(script: seq<Produced>, budget: nat, m: nat, tail: seq<Byte>)
    requires Good(script, m) && m < |script| && script[m].Data? && Writable(script[m].bytes)
  {
    tail < Encode(script[m].bytes) && |EncodeAll(Payloads(script, m))| + |tail| == budget
  }

  /** The script got through its first m results, and why it ended there: it was over, it
      broke, or result m could not be written, being too large or cut by the stream. */
  ghost predicate EndsAt(script: seq<Produced>, budget: nat, err: ResponseError, m: nat, tail: seq<Byte>)
    requires Good(script, m)
  {
    && |EncodeAll(Payloads(script, m))| <= budget
    && match err
       case NoError => m == |script| && tail == []
       case ProduceFailed => m < |script| && script[m].Broken? && tail == []
       case WriteFailed =>
         && m < |script| && script[m].Data?
         && if Writable(script[m].bytes) then CutIn(script, budget, m, tail) else tail == []
  }

  /** The bytes sent are the encodings of the first m payloads and then, only if the
      stream failed in the middle of the next frame, a proper prefix of that frame; m is
      where the script ended, broke, offered an oversized frame or exhausted the stream. */
  lemma {:induction false} ResponseWire(script: seq<Produced>, budget: nat) returns (m: nat, tail: seq<Byte>)
    ensures Good(script, m) && Respond(script, budget).0 == EncodeAll(Payloads(script, m)) + tail
    ensures EndsAt(script, budget, Respond(script, budget).1, m, tail)
  {
    if script == [] || script[0].Broken? || !Writable(script[0].bytes) {
      m, tail := 0, [];
    } else {
      var wire := Encode(script[0].bytes);
      if |wire| > budget {
        m, tail := 0, wire[..budget];
      } else {
        var k: nat;
        k, tail := ResponseWire(script[1..], budget - |wire|);
        m := k + 1;
        OneMoreSent(script, budget, k, tail);
      }
    }
  }

  lemma {:induction false} OneMoreSent(script: seq<Produced>, budget: nat, k: nat, tail: seq<Byte>)
    requires script != [] && script[0].Data? && Writable(script[0].bytes) && |Encode(script[0].bytes)| <= budget
    requires var left := budget - |Encode(script[0].bytes)|;
             && Good(script[1..], k)
             && Respond(script[1..], left).0 == EncodeAll(Payloads(script[1..], k)) + tail
             && EndsAt(script[1..], left, Respond(script[1..], left).1, k, tail)
    ensures Good(script, k + 1) && Respond(script, budget).0 == EncodeAll(Payloads(script, k + 1)) + tail
    ensures EndsAt(script, budget, Respond(script, budget).1, k + 1, tail)
  {
    assert Good(script, k + 1);
    PayloadsCons(script, k + 1);
    var left := budget - |Encode(script[0].bytes)|;
    ShiftEnd(script, budget, Respond(script[1..], left).1, k, tail);
  }

  lemma {:induction false} ShiftEnd(script: seq<Produced>, budget: nat, err: ResponseError, k: nat, tail: seq<Byte>)
    requires Good(script, k + 1) && |Encode(script[0].bytes)| <= budget && Good(script[1..], k)
    requires EndsAt(script[1..], budget - |Encode(script[0].bytes)|, err, k, tail)
    ensures EndsAt(script, budget, err, k + 1, tail)
  {
    PayloadsCons(script, k + 1);
    if k + 1 < |script| { assert script[1..][k] == script[k + 1]; }
  }

  lemma PayloadsCons(script: seq<Produced>, m: nat)
    requires 0 < m && Good(script, m) && Good(script[1..], m - 1)
    ensures Payloads(script, m) == [script[0].bytes] + Payloads(script[1..], m - 1)
    ensures EncodeAll(Payloads(script, m)) == Encode(script[0].bytes) + EncodeAll(Payloads(script[1..], m - 1))
  {}

  /** A client that reads frames until the first error gets, in order, exactly the payloads
      sent in full before the first empty one, whatever the iterator and wherever the
      stream failed. */
  lemma {:induction false} ScriptDecodes(script: seq<Produced>, budget: nat) returns (m: nat, e: nat)
    ensures Good(script, m) && e == FirstEmpty(Payloads(script, m))
    ensures ReadAll(Respond(script, budget).0).frames == Payloads(script, m)[..e]
    ensures Respond(script, budget).1 == NoError <==> m == |script|
    ensures m < |script| ==> script[m].Broken? || !Writable(script[m].bytes) ||
                             budget < |EncodeAll(Payloads(script, m))| + |Encode(script[m].bytes)|
  {
    var tail: seq<Byte>;
    m, tail := ResponseWire(script, budget);
    var ps := Payloads(script, m);
    e := FirstEmpty(ps);
    DecodeWithTail(ps, e, tail, if m < |script| && script[m].Data? then script[m].bytes else []);
  }

  /** The first m items marshal to payloads that can be written. */
  ghost predicate Sendable<T>(marshal: T -> Produced, items: seq<T>, m: nat) {
    m <= |items| && forall i | 0 <= i < m :: marshal(items[i]).Data? && Writable(marshal(items[i]).bytes)
  }

  ghost function Marshalled<T>(marshal: T -> Produced, items: seq<T>, m: nat): (ps: seq<seq<Byte>>)
    requires Sendable(marshal, items, m)
    ensures |ps| == m && AllWritable(ps) && forall i | 0 <= i < m :: ps[i] == marshal(items[i]).bytes
  {
    seq(m, i requires 0 <= i < m => marshal(items[i]).bytes)
  }

  /** Of a list of items a client gets exactly the marshalled payloads of the first m, up
      to the first empty one. The response ends there because the list does, or item m
      fails to marshal, is too large, or no longer fits what the stream accepts. */
  lemma {:induction false} ClientDecodes<T>(marshal: T -> Produced, items: seq<T>, budget: nat) returns (m: nat, e: nat)
    ensures Sendable(marshal, items, m) && e == FirstEmpty(Marshalled(marshal, items, m))
    ensures var (sent, err) := Respond(Script(marshal, items), budget);
            && ReadAll(sent).frames == Marshalled(marshal, items, m)[..e]
            && (err == NoError <==> m == |items|)
    ensures m < |items| ==>
              || marshal(items[m]).Broken? || !Writable(marshal(items[m]).bytes)
              || budget < |EncodeAll(Marshalled(marshal, items, m))| + |Encode(marshal(items[m]).bytes)|
  {
    var script := Script(marshal, items);
    ScriptItems(marshal, items);
    m, e := ScriptDecodes(script, budget);
    assert Sendable(marshal, items, m);
    assert Payloads(script, m) == Marshalled(marshal, items, m);
  }

  /** Payloads up to the first empty one, then anything; or all payloads and a cut frame. */
  lemma {:induction false} DecodeWithTail(ps: seq<seq<Byte>>, e: nat, tail: seq<Byte>, next: seq<Byte>)
    requires AllWritable(ps) && e == FirstEmpty(ps)
    requires tail == [] || (Writable(next) && tail < Encode(next))
    ensures ReadAll(EncodeAll(ps) + tail).frames == ps[..e]
  {
    var rest := EncodeAll(ps[e..]) + tail;
    StopsAt(ps[e..], tail, next);
    ReadAllAppend(ps[..e], rest);
    SplitAt(ps, e, tail);
  }

  lemma {:induction false} SplitAt(ps: seq<seq<Byte>>, e: nat, tail: seq<Byte>)
    requires AllWritable(ps) && e <= |ps|
    ensures EncodeAll(ps) + tail == EncodeAll(ps[..e]) + (EncodeAll(ps[e..]) + tail)
  {
    assert ps == ps[..e] + ps[e..];
    EncodeAllAppend(ps[..e], ps[e..]);
  }

  /** No frame is read from an empty payload's encoding, nor from a cut frame. */
  lemma {:induction false} StopsAt(ps: seq<seq<Byte>>, tail: seq<Byte>, next: seq<Byte>)
    requires AllWritable(ps) && (ps != [] ==> ps[0] == [])
    requires tail == [] || (Writable(next) && tail < Encode(next))
    ensures ReadAll(EncodeAll(ps) + tail).frames == []
  {
    if ps != [] {
      EncodeAllCons(ps, tail);
      FrameRoundTrip([], EncodeAll(ps[1..]) + tail);
    } else {
      assert EncodeAll(ps) + tail == tail;
      if PREFIX <= |tail| {
        assert next != [] && tail == Encode(next)[..|tail|];
        CutFrame(next, |tail|);
      }
    }
  }
}
