/**
 The buffering response writer of the request-timeout middleware.

 `RealWriter` is the connection's writer: it remembers every status line it was asked to send, with
 the headers in force at that moment, so "two statuses on the wire" is a state one can talk about.
 `TimeoutWriter` is the class the handler writes to; each of its methods holds the mutex for its
 whole body, so one method is one atomic step. The pure functions `Perform`, `Flushed`, `Delivered`,
 `Expired` and `Refused` say what the methods do; TimeoutProtocol interleaves them.
 */
module TimeoutWriter {
  type Header = map<string, seq<string>>

  const STATUS_OK := 200
  const STATUS_GATEWAY_TIMEOUT := 504
  const CONTENT_TYPE := "Content-Type"
  const JSON_TYPE := "application/json; charset=utf-8"

  /** What a handler may do to its writer. The three header operations act on the map `Header()` returns. */
  datatype Op =
    | Write(data: string)
    | WriteHeader(status: int)
    | SetHeader(key: string, value: string)
    | AddHeader(key: string, value: string)
    | DelHeader(key: string)

  datatype Buffered = Buffered(buffer: string, headers: Header, status: int, timedOut: bool, flushed: bool)

  const FRESH := Buffered("", map[], STATUS_OK, false, false)

  datatype Head = Head(status: int, headers: Header)
  datatype Wire = Wire(headers: Header, heads: seq<Head>, body: string)

  function Values(h: Header, key: string): seq<string> {
    if key in h then h[key] else []
  }

  /** The effect of one handler operation on the buffer. */
  function Perform(w: Buffered, op: Op): Buffered {
    match op
    case Write(data) => if w.timedOut then w else w.(buffer := w.buffer + data)
    case WriteHeader(status) => if w.timedOut then w else w.(status := status)
    case SetHeader(key, value) => w.(headers := w.headers[key := [value]])
    case AddHeader(key, value) => w.(headers := w.headers[key := Values(w.headers, key) + [value]])
    case DelHeader(key) => w.(headers := w.headers - {key})
  }

  function PerformAll(w: Buffered, ops: seq<Op>): Buffered {
    if ops == [] then w else Perform(PerformAll(w, ops[..|ops| - 1]), ops[|ops| - 1])
  }

  /** Adding every value of `extra` to `h`; a key with no values adds nothing. */
  function Merged(h: Header, extra: Header): Header {
    map key | key in h.Keys + extra.Keys && (key in h || extra[key] != []) :: Values(h, key) + Values(extra, key)
  }

  lemma MergedNothing(h: Header, key: string)
    ensures Merged(h, map[]) == h && Merged(h, map[key := []]) == h
  {
    var left, right := Merged(h, map[]), Merged(h, map[key := []]);
    assert left.Keys == h.Keys == right.Keys;
    assert forall k :: k in h ==> left[k] == h[k] + [] == right[k] == h[k];
  }

  /** One `Add` call extends a merge by one value. */
  lemma MergedAdd(h: Header, key: string, values: seq<string>, value: string)
    ensures var m := Merged(h, map[key := values]);
            m[key := Values(m, key) + [value]] == Merged(h, map[key := values + [value]])
  {
    var m := Merged(h, map[key := values]);
    var left, right := m[key := Values(m, key) + [value]], Merged(h, map[key := values + [value]]);
    assert left.Keys == h.Keys + {key} == right.Keys;
    assert left[key] == right[key];
  }

  /** Merging one more key into what has been walked so far. */
  lemma MergedOneMore(h: Header, walked: Header, key: string, values: seq<string>)
    requires key !in walked
    ensures Merged(Merged(h, walked), map[key := values]) == Merged(h, walked[key := values])
  {
    var middle := Merged(h, walked);
    var left, right := Merged(middle, map[key := values]), Merged(h, walked[key := values]);
    assert Values(walked, key) == [];
    forall k
      ensures (k in left <==> k in right) && (k in left ==> left[k] == right[k])
    {
      if k == key {
        assert Values(middle, k) == Values(h, k) + [] == Values(h, k);
      } else {
        assert Values(map[key := values], k) == [];
        assert k in left ==> left[k] == middle[k] + [] == middle[k];
      }
    }
  }

  /** What `Written` answers; TimeoutProtocol.WrittenMeans says what that tells a caller. */
  predicate ReportsWritten(w: Buffered) {
    w.flushed || w.buffer != ""
  }

  /** `flush`, on the buffer and on the wire. */
  function Flushed(w: Buffered): Buffered {
    if w.timedOut || w.flushed then w else w.(flushed := true)
  }

  function Delivered(wire: Wire, w: Buffered): Wire {
    if w.timedOut || w.flushed then wire
    else
      var headers := Merged(wire.headers, w.headers);
      Wire(headers, wire.heads + [Head(w.status, headers)], wire.body + w.buffer)
  }

  /** `timeout`: its locked half on the buffer, and the three writes that follow the unlock. */
  function Expired(w: Buffered): Buffered {
    if w.flushed then w else w.(timedOut := true, buffer := "", status := STATUS_GATEWAY_TIMEOUT)
  }

  function WithJsonType(wire: Wire): Wire {
    wire.(headers := wire.headers[CONTENT_TYPE := [JSON_TYPE]])
  }

  function WithStatus(wire: Wire, status: int): Wire {
    wire.(heads := wire.heads + [Head(status, wire.headers)])
  }

  function WithBody(wire: Wire, body: string): Wire {
    wire.(body := wire.body + body)
  }

  function Refused(wire: Wire, body: string): Wire {
    WithBody(WithStatus(WithJsonType(wire), STATUS_GATEWAY_TIMEOUT), body)
  }

  // ----- What the handler meant, read off its operations alone ---------------------------------

  function LastStatus(ops: seq<Op>): int {
    if ops == [] then 200
    else if ops[|ops| - 1].WriteHeader? then ops[|ops| - 1].status
    else LastStatus(ops[..|ops| - 1])
  }

  function AllWrites(ops: seq<Op>): string {
    if ops == [] then ""
    else if ops[0].Write? then ops[0].data + AllWrites(ops[1..])
    else AllWrites(ops[1..])
  }

  /** The values of one header: everything added since the last Set or Del of that key. */
  function HeaderValues(ops: seq<Op>, key: string): seq<string> {
    if ops == [] then []
    else
      var front := ops[..|ops| - 1];
      match ops[|ops| - 1]
      case SetHeader(k, v) => if k == key then [v] else HeaderValues(front, key)
      case AddHeader(k, v) => if k == key then HeaderValues(front, key) + [v] else HeaderValues(front, key)
      case DelHeader(k) => if k == key then [] else HeaderValues(front, key)
      case _ => HeaderValues(front, key)
  }

  lemma {:induction false} AllWritesSnoc(ops: seq<Op>, op: Op)
    ensures AllWrites(ops + [op]) == AllWrites(ops) + (if op.Write? then op.data else "")
  {
    if ops == [] {
      assert ops + [op] == [op];
      assert AllWrites([op][1..]) == "";
    } else {
      assert (ops + [op])[1..] == ops[1..] + [op];
      AllWritesSnoc(ops[1..], op);
    }
  }

  /** The step-by-step buffer holds exactly the last status, every write in order, and every header. */
  lemma {:induction false} BufferHoldsWholeResponse(ops: seq<Op>)
    ensures var w := PerformAll(FRESH, ops);
            && w.status == LastStatus(ops) && w.buffer == AllWrites(ops)
            && !w.timedOut && !w.flushed
            && (forall key :: key in w.headers <==> HeaderValues(ops, key) != [])
            && (forall key :: key in w.headers ==> w.headers[key] == HeaderValues(ops, key))
  {
    if ops != [] {
      var front, op := ops[..|ops| - 1], ops[|ops| - 1];
      BufferHoldsWholeResponse(front);
      AllWritesSnoc(front, op);
      assert front + [op] == ops;
    }
  }

  /** Once timed out, no operation changes what `Status`, `Size` or a later flush would see. */
  lemma {:induction false} TimedOutBufferIsInert(w: Buffered, ops: seq<Op>)
    requires w.timedOut
    ensures var w' := PerformAll(w, ops);
            w'.timedOut && w'.buffer == w.buffer && w'.status == w.status && w'.flushed == w.flushed
  {
    if ops != [] {
      TimedOutBufferIsInert(w, ops[..|ops| - 1]);
    }
  }

  // ----- The classes ---------------------------------------------------------------------------

  class RealWriter {
    var headers: Header
    var heads: seq<Head>
    var body: string

    function State(): Wire
      reads this
    {
      Wire(headers, heads, body)
    }

    constructor ()
      ensures State() == Wire(map[], [], "")
    {
      headers, heads, body := map[], [], "";
    }

    method Add(key: string, value: string)
      modifies this
      ensures State() == old(State()).(headers := old(headers)[key := Values(old(headers), key) + [value]])
    {
      headers := headers[key := Values(headers, key) + [value]];
    }

    method Set(key: string, value: string)
      modifies this
      ensures State() == old(State()).(headers := old(headers)[key := [value]])
    {
      headers := headers[key := [value]];
    }

    method WriteHeader(status: int)
      modifies this
      ensures State() == WithStatus(old(State()), status)
    {
      heads := heads + [Head(status, headers)];
    }

    method Write(data: string)
      modifies this
      ensures State() == WithBody(old(State()), data)
    {
      body := body + data;
    }
  }

  class TimeoutWriter {
    const original: RealWriter
    var buffer: string
    var headers: Header
    var status: int
    var timedOut: bool
    var flushed: bool

    function State(): Buffered
      reads this
    {
      Buffered(buffer, headers, status, timedOut, flushed)
    }

    constructor (original: RealWriter)
      ensures this.original == original && State() == FRESH
    {
      this.original := original;
      buffer, headers, status, timedOut, flushed := "", map[], STATUS_OK, false, false;
    }

    method Write(data: string) returns (n: nat)
      modifies this
      ensures State() == Perform(old(State()), Op.Write(data)) && n == |data|
    {
      n := |data|;
      if timedOut {
        return;
      }
      buffer := buffer + data;
    }

    method WriteHeader(status: int)
      modifies this
      ensures State() == Perform(old(State()), Op.WriteHeader(status))
    {
      if timedOut {
        return;
      }
      this.status := status;
    }

    method Status() returns (s: int)
      ensures s == status
    {
      s := status;
    }

    method Written() returns (b: bool)
      ensures b == ReportsWritten(State())
    {
      b := flushed || |buffer| > 0;
    }

    /** Copies the buffer onto the real writer. */
    method Flush()
      modifies this, original
      ensures State() == Flushed(old(State()))
      ensures original.State() == Delivered(old(original.State()), old(State()))
    {
      if timedOut || flushed {
        return;
      }
      flushed := true;
      CopyHeaders();
      original.WriteHeader(status);
      if |buffer| > 0 {
        original.Write(buffer);
      }
    }

    /** The outer loop of `Flush`: whatever order the header map is walked in, every value is added. */
    method CopyHeaders()
      modifies original
      ensures original.State() == old(original.State()).(headers := Merged(old(original.headers), headers))
    {
      ghost var start := original.headers;
      ghost var walked: Header := map[];
      MergedNothing(start, CONTENT_TYPE);
      var keys := headers.Keys;
      hide Merged, Values;
      while keys != {}
        invariant keys <= headers.Keys
        invariant walked.Keys == headers.Keys - keys
        invariant forall key :: key in walked ==> walked[key] == headers[key]
        invariant original.State() == old(original.State()).(headers := Merged(start, walked))
        decreases keys
      {
        var key :| key in keys;
        MergedOneMore(start, walked, key, headers[key]);
        AddValues(key, headers[key]);
        keys := keys - {key};
        walked := walked[key := headers[key]];
      }
      assert walked == headers;
    }

    /** The inner loop: one `Add` per value. */
    method AddValues(key: string, values: seq<string>)
      modifies original
      ensures original.State() == old(original.State()).(headers := Merged(old(original.headers), map[key := values]))
    {
      var i := 0;
      MergedNothing(original.headers, key);
      while i < |values|
        invariant 0 <= i <= |values|
        invariant original.State()
                  == old(original.State()).(headers := Merged(old(original.headers), map[key := values[..i]]))
      {
        MergedAdd(old(original.headers), key, values[..i], values[i]);
        original.Add(key, values[i]);
        assert values[..i + 1] == values[..i] + [values[i]];
        i := i + 1;
      }
      assert values[..i] == values;
    }

    /** Discards the buffer and answers 504, unless a flush came first. */
    method Timeout(body: string)
      modifies this, original
      ensures State() == Expired(old(State()))
      ensures original.State() == if old(flushed) then old(original.State()) else Refused(old(original.State()), body)
    {
      if flushed {
        return;
      }
      timedOut := true;
      buffer := "";
      status := STATUS_GATEWAY_TIMEOUT;
      original.Set(CONTENT_TYPE, JSON_TYPE);
      original.WriteHeader(STATUS_GATEWAY_TIMEOUT);
      original.Write(body);
    }
  }
}
