// The Telnet client's incremental decoder: whatever chunks arrive and whatever mix of reads is
// made, what is handed out is one decoding of the whole stream, by the "TELNET COMMAND STRUCTURE"
// section of RFC 854 and the subnegotiation bracket of RFC 855.
module Telnet {
  import opened Wrappers

  type Byte = b: int | 0 <= b < 256

  const IAC: Byte := 255
  const DONT: Byte := 254
  const DO: Byte := 253
  const WONT: Byte := 252
  const WILL: Byte := 251
  const SB: Byte := 250
  const SE: Byte := 240

  // ------------------------------------------------------------------ the whole-stream decoding

  // Where a byte stream stands: between commands, or inside one.
  datatype Mode = Data | Command | Option(verb: Byte) | Sub | SubCommand

  // What has been decoded: the mode, the data bytes, and the options asked for.
  datatype Decoded = Decoded(mode: Mode, data: seq<Byte>, options: seq<(Byte, Byte)>)

  predicate IsVerb(b: Byte) { b == DO || b == DONT || b == WILL || b == WONT }

  function Feed(d: Decoded, b: Byte): Decoded {
    match d.mode
    case Data => if b == IAC then d.(mode := Command) else d.(data := d.data + [b])
    case Command =>
      if b == IAC then d.(mode := Data, data := d.data + [IAC])
      else if IsVerb(b) then d.(mode := Option(b))
      else if b == SB then d.(mode := Sub)
      else d.(mode := Data)
    case Option(verb) => d.(mode := Data, options := d.options + [(verb, b)])
    case Sub => if b == IAC then d.(mode := SubCommand) else d
    case SubCommand => d.(mode := if b == SE then Data else Sub)
  }

  function Decode(s: seq<Byte>): Decoded {
    if s == [] then Decoded(Data, [], []) else Feed(Decode(s[..|s| - 1]), s[|s| - 1])
  }

  function DecodeFrom(d: Decoded, s: seq<Byte>): Decoded
    decreases |s|
  {
    if s == [] then d else DecodeFrom(Feed(d, s[0]), s[1..])
  }

  lemma {:induction false} DecodeAppend(s: seq<Byte>, t: seq<Byte>)
    ensures Decode(s + t) == DecodeFrom(Decode(s), t)
    decreases |t|
  {
    if t == [] {
      assert s + t == s;
    } else {
      assert s + t == (s + [t[0]]) + t[1..];
      assert (s + [t[0]])[..|s|] == s;
      DecodeAppend(s + [t[0]], t[1..]);
    }
  }

  lemma {:induction false} DecodeSnoc(s: seq<Byte>, b: Byte)
    ensures Decode(s + [b]) == Feed(Decode(s), b)
  {
    assert (s + [b])[..|s|] == s;
  }

  // More bytes never take a data byte back.
  lemma {:induction false} DataGrows(d: Decoded, t: seq<Byte>)
    ensures d.data <= DecodeFrom(d, t).data && d.options <= DecodeFrom(d, t).options
    decreases |t|
  {
    if t != [] {
      DataGrows(Feed(d, t[0]), t[1..]);
    }
  }

  // So what has been handed out at any moment begins the decoding of the whole stream.
  lemma {:induction false} DecodedSoFarIsAPrefix(received: seq<Byte>, rest: seq<Byte>)
    ensures Decode(received).data <= Decode(received + rest).data
    ensures Decode(received).options <= Decode(received + rest).options
  {
    DecodeAppend(received, rest);
    DataGrows(Decode(received), rest);
  }

  // ------------------------------------------------------------------ what a sender may send

  // The items of a stream, in the numbers of RFC 854. A subnegotiation's payload is sent with every 255
  // doubled.
  datatype Item =
    | Text(b: Byte)
    | Negotiate(verb: Byte, option: Byte)
    | Plain(command: Byte)
    | Subnegotiate(payload: seq<Byte>)

  predicate Sendable(i: Item) {
    match i
    case Text(_) => true
    case Negotiate(verb, _) => 251 <= verb <= 254
    case Plain(command) => command < 250
    case Subnegotiate(_) => true
  }

  function Doubled(s: seq<Byte>): seq<Byte> {
    if s == [] then []
    else (if s[0] == 255 then [255, 255] else [s[0]]) + Doubled(s[1..])
  }

  function Send(i: Item): seq<Byte> {
    match i
    case Text(b) => Doubled([b])
    case Negotiate(verb, option) => [255, verb, option]
    case Plain(command) => [255, command]
    case Subnegotiate(payload) => [255, 250] + Doubled(payload) + [255, 240]
  }

  function SendAll(items: seq<Item>): seq<Byte> {
    if items == [] then [] else SendAll(items[..|items| - 1]) + Send(items[|items| - 1])
  }

  function TextOf(items: seq<Item>): seq<Byte> {
    if items == [] then []
    else TextOf(items[..|items| - 1]) + if items[|items| - 1].Text? then [items[|items| - 1].b] else []
  }

  function OptionsOf(items: seq<Item>): seq<(Byte, Byte)> {
    if items == [] then []
    else OptionsOf(items[..|items| - 1])
         + if items[|items| - 1].Negotiate? then [(items[|items| - 1].verb, items[|items| - 1].option)] else []
  }

  lemma {:induction false} FromOne(d: Decoded, b: Byte, rest: seq<Byte>)
    ensures DecodeFrom(d, [b] + rest) == DecodeFrom(Feed(d, b), rest)
  {
    assert ([b] + rest)[1..] == rest;
  }

  lemma {:induction false} FromTwo(d: Decoded, a: Byte, b: Byte, rest: seq<Byte>)
    ensures DecodeFrom(d, [a, b] + rest) == DecodeFrom(Feed(Feed(d, a), b), rest)
  {
    assert [a, b] + rest == [a] + ([b] + rest);
    FromOne(d, a, [b] + rest);
    FromOne(Feed(d, a), b, rest);
  }

  // One byte as it is sent, read inside data and inside a subnegotiation.
  lemma {:induction false} SentByte(d: Decoded, b: Byte, rest: seq<Byte>)
    ensures d.mode == Data ==>
              DecodeFrom(d, Doubled([b]) + rest) == DecodeFrom(d.(data := d.data + [b]), rest)
    ensures d.mode == Sub ==> DecodeFrom(d, Doubled([b]) + rest) == DecodeFrom(d, rest)
  {
    assert [b][1..] == [];
    assert Doubled([b]) == if b == IAC then [IAC, IAC] else [b];
    FromTwo(d, IAC, IAC, rest);
    FromOne(d, b, rest);
  }

  lemma {:induction false} DoubledHead(s: seq<Byte>)
    requires s != []
    ensures Doubled(s) == Doubled([s[0]]) + Doubled(s[1..])
  {
    assert [s[0]][1..] == [];
  }

  lemma {:induction false} PayloadSkipped(d: Decoded, payload: seq<Byte>, rest: seq<Byte>)
    requires d.mode == Sub
    ensures DecodeFrom(d, Doubled(payload) + rest) == DecodeFrom(d, rest)
    decreases |payload|
  {
    if payload == [] {
      assert Doubled(payload) + rest == rest;
    } else {
      PayloadSkipped(d, payload[1..], rest);
      DoubledHead(payload);
      var first, more := Doubled([payload[0]]), Doubled(payload[1..]);
      assert first + more + rest == first + (more + rest);
      SentByte(d, payload[0], more + rest);
    }
  }

  lemma {:induction false} BracketSkipped(d: Decoded, payload: seq<Byte>)
    requires d.mode == Data
    ensures DecodeFrom(d, Send(Subnegotiate(payload))) == d
  {
    var u := Feed(Feed(d, IAC), SB);
    assert Send(Subnegotiate(payload)) == [IAC, SB] + (Doubled(payload) + [IAC, SE]);
    FromTwo(d, IAC, SB, Doubled(payload) + [IAC, SE]);
    PayloadSkipped(u, payload, [IAC, SE]);
    FromTwo(u, IAC, SE, []);
    assert [IAC, SE] + [] == [IAC, SE];
  }

  lemma {:induction false} ItemDecoded(d: Decoded, i: Item)
    requires d.mode == Data && Sendable(i)
    ensures DecodeFrom(d, Send(i)) == Decoded(Data, d.data + (if i.Text? then [i.b] else []),
                                              d.options + (if i.Negotiate? then [(i.verb, i.option)] else []))
  {
    assert Send(i) + [] == Send(i) && d.data + [] == d.data && d.options + [] == d.options;
    match i
    case Text(b) => SentByte(d, b, []);
    case Negotiate(verb, option) =>
      FromTwo(d, IAC, verb, [option]);
      FromOne(Feed(Feed(d, IAC), verb), option, []);
      assert Send(i) == [IAC, verb] + [option];
    case Plain(command) => FromTwo(d, IAC, command, []);
    case Subnegotiate(payload) => BracketSkipped(d, payload);
  }

  // Decoding undoes sending: for every list of items, data comes back whole and in order, each
  // option is seen, and nothing of a command or a subnegotiation leaks into the data.
  lemma {:induction false} DecodeUndoesSend(items: seq<Item>)
    requires forall k :: 0 <= k < |items| ==> Sendable(items[k])
    ensures Decode(SendAll(items)) == Decoded(Data, TextOf(items), OptionsOf(items))
  {
    if items != [] {
      DecodeUndoesSend(items[..|items| - 1]);
      DecodeAppend(SendAll(items[..|items| - 1]), Send(items[|items| - 1]));
      ItemDecoded(Decode(SendAll(items[..|items| - 1])), items[|items| - 1]);
    }
  }

  // In particular, decoding undoes the doubling of 255 in plain data.
  lemma {:induction false} DecodeUndoesDoubling(s: seq<Byte>)
    ensures Decode(Doubled(s)) == Decoded(Data, s, [])
  {
    UndoesDoubling(Decoded(Data, [], []), s);
    DecodeAppend([], Doubled(s));
    assert [] + Doubled(s) == Doubled(s);
  }

  lemma {:induction false} Regroup(a: seq<Byte>, s: seq<Byte>)
    requires s != []
    ensures (a + [s[0]]) + s[1..] == a + s
  {
  }

  lemma {:induction false} UndoesDoubling(d: Decoded, s: seq<Byte>)
    requires d.mode == Data
    ensures DecodeFrom(d, Doubled(s)) == d.(data := d.data + s)
    decreases |s|
  {
    if s == [] {
      assert d.data + s == d.data;
    } else {
      UndoesDoubling(d.(data := d.data + [s[0]]), s[1..]);
      DoubledHead(s);
      SentByte(d, s[0], Doubled(s[1..]));
      Regroup(d.data, s);
    }
  }

  // ------------------------------------------------------------------ the client

  // Where a byte string first occurs, as `bytes.find` says it.
  predicate OccursAt(s: seq<Byte>, needle: seq<Byte>, i: nat) {
    i + |needle| <= |s| && s[i..i + |needle|] == needle
  }

  // `buf` is cut from what was queued at the end of the first occurrence there.
  predicate EndsWithFirst(buf: seq<Byte>, rest: seq<Byte>, needle: seq<Byte>) {
    && |needle| <= |buf|
    && OccursAt(buf + rest, needle, |buf| - |needle|)
    && forall i :: 0 <= i < |buf| - |needle| ==> !OccursAt(buf + rest, needle, i)
  }

  method Find(s: seq<Byte>, needle: seq<Byte>) returns (at: Option<nat>)
    ensures at.Some? ==> OccursAt(s, needle, at.value) && forall i :: 0 <= i < at.value ==> !OccursAt(s, needle, i)
    ensures at.None? ==> forall i :: 0 <= i <= |s| ==> !OccursAt(s, needle, i)
  {
    var i := 0;
    while i + |needle| <= |s|
      invariant forall k :: 0 <= k < i ==> !OccursAt(s, needle, k)
    {
      if s[i..i + |needle|] == needle {
        return Some(i);
      }
      i := i + 1;
    }
    return None;
  }

  function Joined(chunks: seq<seq<Byte>>): seq<Byte> {
    if chunks == [] then [] else chunks[0] + Joined(chunks[1..])
  }

  lemma {:induction false} JoinedNext(received: seq<Byte>, chunks: seq<seq<Byte>>)
    requires chunks != []
    ensures received + Joined(chunks) == received + chunks[0] + Joined(chunks[1..])
  {
  }

  class Client {
    var rawq: seq<Byte>
    var irawq: nat
    var cookedq: seq<Byte>
    var eof: bool
    // The option callback's calls, when one is set.
    const listening: bool
    var heard: seq<(Byte, Byte)>
    // The chunks the socket has yet to return; with none left it returns the empty one for ever.
    var incoming: seq<seq<Byte>>

    // All the peer sends; what of it was received, taken from the raw queue, and handed out;
    // and what decoding the bytes taken gives.
    ghost const stream: seq<Byte>
    ghost var received: seq<Byte>
    ghost var taken: seq<Byte>
    ghost var stage: Decoded
    ghost var handed: seq<Byte>

    ghost predicate Wired()
      reads this
    {
      && irawq <= |rawq| && (rawq == [] <==> irawq == |rawq|)
      && received == taken + rawq[irawq..]
      && received + Joined(incoming) == stream
      && (forall i :: 0 <= i < |incoming| ==> incoming[i] != [])
      && (eof ==> incoming == [])
      && stage == Decode(taken)
    }

    // Between calls the client stands between commands, unless the stream ended inside one.
    ghost predicate Valid()
      reads this
    {
      && Wired()
      && handed + cookedq == stage.data
      && heard == Heard()
      && (stage.mode != Data ==> eof && rawq == [])
    }

    ghost function Heard(): seq<(Byte, Byte)>
      reads this
    {
      if listening then stage.options else []
    }

    constructor (chunks: seq<seq<Byte>>, listening: bool)
      requires forall i :: 0 <= i < |chunks| ==> chunks[i] != []
      ensures Valid() && incoming == chunks && handed == [] && rawq == [] && !eof
      ensures stream == Joined(chunks) && this.listening == listening
    {
      rawq, irawq, cookedq, eof := [], 0, [], false;
      this.listening := listening;
      heard, incoming, stream := [], chunks, Joined(chunks);
      received, taken, handed := [], [], [];
      stage := Decoded(Data, [], []);
    }

    method FillRawq()
      requires Wired()
      modifies `rawq, `irawq, `eof, `incoming, `received
      ensures Wired()
      ensures eof <==> old(incoming) == []
      ensures old(incoming) != [] ==> incoming == old(incoming)[1..] && rawq != []
      ensures old(incoming) == [] ==> incoming == [] && received == old(received)
                                      && rawq == old(rawq) && irawq == old(irawq)
    {
      if irawq >= |rawq| {
        rawq, irawq := [], 0;
      }
      var buf: seq<Byte> := [];
      if incoming != [] {
        JoinedNext(received, incoming);
        buf, incoming := incoming[0], incoming[1..];
      }
      eof := buf == [];
      rawq := rawq + buf;
      received := received + buf;
    }

    // The next raw byte, or none where the source raises EOFError.
    method RawqGetchar() returns (c: Option<Byte>)
      requires Wired()
      modifies `rawq, `irawq, `eof, `incoming, `received, `taken, `stage
      ensures Wired() && (old(eof) ==> eof)
      ensures c.Some? ==> stage == Feed(old(stage), c.value)
      ensures c.None? ==> old(rawq) == [] && rawq == [] && eof && stage == old(stage)
      ensures c.Some? ==> |incoming| < |old(incoming)|
                          || (incoming == old(incoming) && |rawq| - irawq < |old(rawq)| - old(irawq))
    {
      if rawq == [] {
        FillRawq();
        if eof {
          return None;
        }
      }
      var b := rawq[irawq];
      DecodeSnoc(taken, b);
      taken, stage := taken + [b], Feed(stage, b);
      irawq := irawq + 1;
      if irawq >= |rawq| {
        rawq, irawq := [], 0;
      }
      return Some(b);
    }

    // Skips a subnegotiation to its end; false when the stream ends first.
    method SkipSubnegotiation() returns (closed: bool)
      requires Wired() && stage.mode == Sub
      modifies `rawq, `irawq, `eof, `incoming, `received, `taken, `stage
      ensures Wired() && (old(eof) ==> eof)
      ensures stage.data == old(stage).data && stage.options == old(stage).options
      ensures if closed then stage.mode == Data else eof && rawq == []
      ensures |incoming| <= |old(incoming)|
      ensures closed && |incoming| == |old(incoming)| ==> |rawq| - irawq < |old(rawq)| - old(irawq)
    {
      while true
        invariant Wired() && stage == old(stage) && (old(eof) ==> eof)
        invariant |incoming| < |old(incoming)|
                  || (incoming == old(incoming) && |rawq| - irawq <= |old(rawq)| - old(irawq))
        decreases |incoming|, |rawq| - irawq
      {
        var c3 := RawqGetchar();
        if c3.None? {
          return false;
        }
        if c3.value == IAC {
          var c4 := RawqGetchar();
          if c4.None? {
            return false;
          }
          if c4.value == SE {
            return true;
          }
        }
      }
    }

    // What follows an IAC: the data byte it stands for, if it stands for one; `more` is false
    // when the stream ends inside the command, and nothing of it is kept.
    method AfterIac() returns (more: bool, out: seq<Byte>)
      requires Wired() && stage.mode == Command && heard == Heard()
      modifies `rawq, `irawq, `eof, `incoming, `received, `taken, `stage, `heard
      ensures Wired() && (old(eof) ==> eof)
      ensures stage.data == old(stage).data + out && heard == Heard()
      ensures if more then stage.mode == Data else eof && rawq == []
      ensures |incoming| <= |old(incoming)|
      ensures more && |incoming| == |old(incoming)| ==> |rawq| - irawq < |old(rawq)| - old(irawq)
    {
      more, out := true, [];
      var c2 := RawqGetchar();
      if c2.None? {
        return false, [];
      }
      if c2.value == IAC {
        out := [IAC];
      } else if IsVerb(c2.value) {
        var opt := RawqGetchar();
        if opt.None? {
          return false, [];
        }
        if listening {
          heard := heard + [(c2.value, opt.value)];
        }
      } else if c2.value == SB {
        more := SkipSubnegotiation();
      }
    }

    // Moves what it can from the raw queue to the cooked one.
    method ProcessRawq()
      requires Valid()
      modifies `rawq, `irawq, `eof, `incoming, `received, `taken, `stage, `heard, `cookedq
      ensures Valid() && rawq == [] && |incoming| <= |old(incoming)| && (old(eof) ==> eof)
      ensures old(rawq) == [] ==> incoming == old(incoming) && eof == old(eof) && cookedq == old(cookedq)
    {
      var buf: seq<Byte> := [];
      ghost var start := stage.data;
      while rawq != []
        invariant Wired() && stage.data == start + buf && heard == Heard()
        invariant stage.mode == Data || (eof && rawq == [])
        invariant |incoming| <= |old(incoming)| && (old(eof) ==> eof) && cookedq == old(cookedq)
        invariant old(rawq) == [] ==> incoming == old(incoming) && eof == old(eof) && rawq == [] && buf == []
        decreases |incoming|, |rawq| - irawq
      {
        var c := RawqGetchar();
        if c.value == IAC {
          var more, out := AfterIac();
          buf := buf + out;
          if !more {
            break;
          }
        } else {
          buf := buf + [c.value];
        }
      }
      cookedq := cookedq + buf;
    }

    // ---------------------------------------------------------------- the reads

    // What every read waits with: one chunk or the end, and all of the raw queue processed.
    method Refill()
      requires Valid()
      modifies `rawq, `irawq, `eof, `incoming, `received, `taken, `stage, `heard, `cookedq
      ensures Valid() && rawq == []
      ensures |incoming| + 1 <= |old(incoming)| + if eof then 1 else 0
    {
      FillRawq();
      ProcessRawq();
    }

    // What is left in the cooked queue.
    method ReadVeryLazy() returns (buf: seq<Byte>)
      requires Valid()
      modifies `cookedq, `handed
      ensures Valid() && buf == old(cookedq) && cookedq == [] && handed == old(handed) + buf
    {
      buf := cookedq;
      cookedq := [];
      handed := handed + buf;
    }

    // The first `n` bytes of the cooked queue.
    method CutCooked(n: nat) returns (buf: seq<Byte>)
      requires Valid() && n <= |cookedq|
      modifies `cookedq, `handed
      ensures Valid() && |buf| == n && buf + cookedq == old(cookedq) && handed == old(handed) + buf
    {
      buf, cookedq := cookedq[..n], cookedq[n..];
      handed := handed + buf;
    }

    // Until the end of the stream: with what was handed out before, the decoding of all of it.
    method ReadAll() returns (buf: seq<Byte>)
      requires Valid()
      modifies this
      ensures Valid() && eof && cookedq == []
      ensures handed == old(handed) + buf == Decode(stream).data
    {
      ProcessRawq();
      while !eof
        invariant Valid() && rawq == [] && handed == old(handed)
        decreases |incoming|, !eof
      {
        Refill();
      }
      assert taken == received == stream;
      buf := ReadVeryLazy();
    }

    // At least one byte, unless the stream ends; where there is one already, nothing is waited for.
    method ReadSome() returns (buf: seq<Byte>)
      requires Valid()
      modifies this
      ensures Valid() && rawq == [] && cookedq == []
      ensures handed == old(handed) + buf == Decode(received).data
      ensures buf != [] || eof
      ensures old(rawq) == [] && old(cookedq) != [] ==> incoming == old(incoming) && buf == old(cookedq)
    {
      ProcessRawq();
      while cookedq == [] && !eof
        invariant Valid() && rawq == [] && handed == old(handed)
        invariant old(rawq) == [] && old(cookedq) != [] ==> incoming == old(incoming) && cookedq == old(cookedq)
        decreases |incoming|, !eof
      {
        Refill();
      }
      assert taken == received;
      buf := ReadVeryLazy();
    }

    // Up to and with the first `needle`, or all there is at the end of the stream or of the
    // patience: how many times the queue may be filled before the deadline has passed. `fills` is how
    // many times it was, each with a chunk of its own but for one that finds the stream ended.
    method ReadUntil(needle: seq<Byte>, patience: Option<nat>) returns (buf: seq<Byte>, ghost fills: nat)
      requires Valid()
      modifies this
      ensures Valid() && (old(rawq) == [] ==> rawq == [])
      ensures handed == old(handed) + buf
      ensures EndsWithFirst(buf, cookedq, needle)
              || (cookedq == [] && (eof || patience.Some?) && forall i :: 0 <= i <= |buf| ==> !OccursAt(buf, needle, i))
      // It gives up only at the end of the stream or of the patience, and never waits past either.
      ensures !EndsWithFirst(buf, cookedq, needle) && !eof ==> patience == Some(fills)
      ensures patience.Some? ==> fills <= patience.value
      ensures |incoming| + fills <= |old(incoming)| + if eof then 1 else 0
      // What is there already is not waited for.
      ensures (exists i :: 0 <= i <= |old(cookedq)| && OccursAt(old(cookedq), needle, i)) ==>
                fills == 0 && incoming == old(incoming) && rawq == old(rawq) && buf + cookedq == old(cookedq)
    {
      var left := patience;
      fills := 0;
      while true
        invariant Valid() && handed == old(handed)
        invariant old(rawq) == [] ==> rawq == []
        invariant left == if patience.None? then None else Some(patience.value - fills)
        invariant patience.Some? ==> fills <= patience.value
        invariant |incoming| + fills <= |old(incoming)| + if eof then 1 else 0
        invariant fills == 0 ==> incoming == old(incoming) && rawq == old(rawq) && cookedq == old(cookedq)
        invariant fills > 0 ==> forall i :: 0 <= i <= |old(cookedq)| ==> !OccursAt(old(cookedq), needle, i)
        decreases |incoming|, !eof
      {
        var at := Find(cookedq, needle);
        if at.Some? {
          buf := CutCooked(at.value + |needle|);
          return;
        }
        if eof || left == Some(0) {
          break;
        }
        left := if left.Some? then Some(left.value - 1) else None;
        fills := fills + 1;
        Refill();
      }
      buf := ReadVeryLazy();
    }
  }
}
