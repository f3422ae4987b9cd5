/** Batching on the agent's side of a WebSocket, and its undoing on the app's. */
module Framing {
  import opened Text
  import opened Wrappers

  /** What JSON decoding makes of a line; a line that is no JSON object decodes to nothing. */
  datatype Envelope = Envelope(channel: Option<string>, payload: string)
  type Decoder = string -> Option<Envelope>

  /** A message that survives framing. */
  predicate Clean(m: string) { m != [] && '\n' !in m }

  predicate AllClean(ms: seq<string>) { forall i | 0 <= i < |ms| :: Clean(ms[i]) }

  function NonEmpty(lines: seq<string>): seq<string> {
    if lines == [] then []
    else (if lines[0] == [] then [] else [lines[0]]) + NonEmpty(lines[1..])
  }

  /** The lines the app looks at in one frame. */
  function Lines(frame: string): seq<string> { NonEmpty(Split(frame, '\n')) }

  function AllLines(frames: seq<string>): seq<string> {
    if frames == [] then [] else Lines(frames[0]) + AllLines(frames[1..])
  }

  function Flat(batches: seq<seq<string>>): seq<string> {
    if batches == [] then [] else batches[0] + Flat(batches[1..])
  }

  function Frames(batches: seq<seq<string>>): (r: seq<string>)
    ensures |r| == |batches|
  {
    if batches == [] then [] else [Join(batches[0], '\n')] + Frames(batches[1..])
  }

  // ----- The write pump -----

  class WritePump {
    /** The client's send channel: what is in its buffer. Others only ever append to it. */
    var send: seq<string>
    /** Frames written to the connection. */
    var written: seq<string>
    /** Everything ever queued, and everything drained, in order. */
    ghost var queued: seq<string>
    ghost var batches: seq<seq<string>>

    ghost predicate Valid()
      reads this
    {
      && queued == Flat(batches) + send
      && written == Frames(batches)
      && forall i | 0 <= i < |batches| :: batches[i] != []
    }

    constructor ()
      ensures Valid() && send == [] && written == []
    {
      send, written, queued, batches := [], [], [], [];
    }

    /** The hub and the read pump queue more messages. */
    method OthersQueue() returns (ghost more: seq<string>)
      modifies this`send, this`queued
      ensures send == old(send) + more && queued == old(queued) + more
    {
      var some: seq<string> := *;
      more := some;
      send := send + some;
      queued := queued + some;
    }

    /** `<-c.send`: with an empty buffer it would wait, so it may not be called with one. */
    method Receive() returns (m: string)
      requires send != []
      modifies this`send
      ensures m == old(send)[0] && send == old(send)[1..]
    {
      m := send[0];
      send := send[1..];
    }

    /** One frame: a message and whatever was queued behind it. More may be queued at any moment,
        but as nobody else receives, the drain loop never finds the buffer empty. */
    method WriteFrame()
      requires Valid() && send != []
      modifies this
      ensures Valid()
      ensures |batches| == |old(batches)| + 1 && batches[..|old(batches)|] == old(batches)
      ensures |batches[|old(batches)|]| >= |old(send)|
    {
      ghost var b0, q0 := batches, queued;
      var message := Receive();
      var frame := message;
      ghost var batch := [message];
      ghost var more := OthersQueue();
      var n := |send|;
      for i := 0 to n
        invariant |send| >= n - i && batch != [] && |batch| == 1 + i
        invariant frame == Join(batch, '\n')
        invariant queued == Flat(batches) + batch + send
        invariant batches == b0 && written == Frames(b0)
      {
        more := OthersQueue();
        frame := frame + ['\n'];
        message := Receive();
        frame := frame + message;
        JoinAppend(batch, [message], '\n');
        batch := batch + [message];
      }
      written := written + [frame];
      FramesNext(batches, batch);
      batches := batches + [batch];
    }
  }

  lemma {:induction false} FramesNext(batches: seq<seq<string>>, batch: seq<string>)
    ensures Frames(batches + [batch]) == Frames(batches) + [Join(batch, '\n')]
    ensures Flat(batches + [batch]) == Flat(batches) + batch
  {
    if batches == [] {
    } else {
      FramesNext(batches[1..], batch);
      assert (batches + [batch])[1..] == batches[1..] + [batch];
    }
  }

  // ----- The app -----

  function Deliver(cs: map<string, seq<string>>, lines: seq<string>, decode: Decoder): map<string, seq<string>> {
    if lines == [] then cs
    else
      var n := |lines| - 1;
      DeliverOne(Deliver(cs, lines[..n], decode), lines[n], decode)
  }

  function DeliverOne(cs: map<string, seq<string>>, line: string, decode: Decoder): map<string, seq<string>> {
    var e := decode(line);
    if e.Some? && e.value.channel.Some? && e.value.channel.value in cs
    then cs[e.value.channel.value := cs[e.value.channel.value] + [e.value.payload]]
    else cs
  }

  /** What the socket hands over: text frames hold messages, binary ones go to everybody. */
  datatype Frame = Text(text: string) | Binary(bytes: string)

  function DeliverFrame(cs: map<string, seq<string>>, f: Frame, decode: Decoder): map<string, seq<string>> {
    match f
    case Text(text) => Deliver(cs, Lines(text), decode)
    case Binary(bytes) => map ch | ch in cs :: cs[ch] + [bytes]
  }

  class WebSocketClient {
    const decode: Decoder
    /** What each channel's controller has been given. */
    var channels: map<string, seq<string>>

    constructor (decode: Decoder, names: set<string>)
      ensures this.decode == decode && channels == map n | n in names :: []
    {
      this.decode := decode;
      channels := map n | n in names :: [];
    }

    method OnMessage(message: Frame)
      modifies this
      ensures channels == DeliverFrame(old(channels), message, decode)
    {
      match message
      case Text(text) => OnText(text);
      case Binary(bytes) => OnBinary(bytes);
    }

    method OnBinary(bytes: string)
      modifies this
      ensures channels.Keys == old(channels).Keys
      ensures forall ch | ch in channels :: channels[ch] == old(channels)[ch] + [bytes]
      ensures channels == DeliverFrame(old(channels), Binary(bytes), decode)
    {
      ghost var was := channels;
      var todo := channels.Keys;
      while todo != {}
        invariant todo <= was.Keys == channels.Keys
        invariant forall ch | ch in was :: channels[ch] == if ch in todo then was[ch] else was[ch] + [bytes]
        decreases todo
      {
        var ch :| ch in todo;
        todo := todo - {ch};
        channels := channels[ch := channels[ch] + [bytes]];
      }
    }

    method OnText(message: string)
      modifies this
      ensures channels == Deliver(old(channels), Lines(message), decode)
    {
      var lines := Split(message, '\n');
      ghost var was := channels;
      ghost var seen: seq<string> := [];
      for i := 0 to |lines|
        invariant channels == Deliver(was, seen, decode)
        invariant NonEmpty(lines) == seen + NonEmpty(lines[i..])
      {
        var line := lines[i];
        SkimNext(lines, i, seen);
        if line == [] {
          continue;
        }
        DeliverNext(was, seen, line, decode);
        seen := seen + [line];
        var data := decode(line);
        if data.Some? {
          var channel := data.value.channel;
          if channel.Some? && channel.value in channels {
            channels := channels[channel.value := channels[channel.value] + [data.value.payload]];
          }
        }
      }
      SkimEnd(lines, seen);
    }
  }

  lemma SkimNext(lines: seq<string>, i: nat, seen: seq<string>)
    requires i < |lines|
    ensures seen + NonEmpty(lines[i..])
         == (if lines[i] == [] then seen else seen + [lines[i]]) + NonEmpty(lines[i + 1..])
  {
    assert lines[i..][1..] == lines[i + 1..];
  }

  lemma SkimEnd(lines: seq<string>, seen: seq<string>)
    ensures seen + NonEmpty(lines[|lines|..]) == seen
  {
  }

  lemma DeliverNext(cs: map<string, seq<string>>, seen: seq<string>, line: string, decode: Decoder)
    ensures Deliver(cs, seen + [line], decode) == DeliverOne(Deliver(cs, seen, decode), line, decode)
  {
    assert (seen + [line])[..|seen|] == seen;
  }

  // ----- Framing is undone -----

  lemma {:induction false} NothingEmpty(ms: seq<string>)
    requires AllClean(ms)
    ensures NonEmpty(ms) == ms
  {
    if ms == [] {
    } else {
      NothingEmpty(ms[1..]);
    }
  }

  lemma {:induction false} NonEmptyClean(lines: seq<string>)
    requires forall i | 0 <= i < |lines| :: '\n' !in lines[i]
    ensures AllClean(NonEmpty(lines))
  {
    if lines == [] {
    } else {
      NonEmptyClean(lines[1..]);
    }
  }

  lemma {:induction false} LinesClean(frames: seq<string>)
    ensures AllClean(AllLines(frames))
  {
    if frames == [] {
    } else {
      LinesClean(frames[1..]);
      PiecesPlain(frames[0], '\n');
      NonEmptyClean(Split(frames[0], '\n'));
    }
  }

  lemma {:induction false} UndoBatches(batches: seq<seq<string>>)
    requires forall i | 0 <= i < |batches| :: batches[i] != []
    requires AllClean(Flat(batches))
    ensures AllLines(Frames(batches)) == Flat(batches)
  {
    if batches == [] {
    } else {
      var b, rest := batches[0], Flat(batches[1..]);
      assert AllClean(b) by { assert forall i | 0 <= i < |b| :: Flat(batches)[i] == b[i]; }
      assert AllClean(rest) by { assert forall i | 0 <= i < |rest| :: Flat(batches)[|b| + i] == rest[i]; }
      UndoBatches(batches[1..]);
      SplitJoin(b, '\n');
      NothingEmpty(b);
    }
  }

  /** However the pump batches its queue, the app's lines are the queued messages, each once and
      in order, exactly when every message is non-empty and free of raw newlines. */
  lemma UndoneExactly(batches: seq<seq<string>>)
    requires forall i | 0 <= i < |batches| :: batches[i] != []
    ensures AllLines(Frames(batches)) == Flat(batches) <==> AllClean(Flat(batches))
  {
    LinesClean(Frames(batches));
    if AllClean(Flat(batches)) { UndoBatches(batches); }
  }

  /** The payloads of one channel, in order. */
  function Payloads(ms: seq<string>, channel: string, decode: Decoder): seq<string> {
    if ms == [] then []
    else
      var n := |ms| - 1;
      var e := decode(ms[n]);
      Payloads(ms[..n], channel, decode) + if e.Some? && e.value.channel == Some(channel) then [e.value.payload] else []
  }

  lemma {:induction false} DeliverPayloads(cs: map<string, seq<string>>, ms: seq<string>, decode: Decoder)
    ensures Deliver(cs, ms, decode).Keys == cs.Keys
    ensures forall ch | ch in cs :: Deliver(cs, ms, decode)[ch] == cs[ch] + Payloads(ms, ch, decode)
  {
    if ms == [] {
    } else {
      DeliverPayloads(cs, ms[..|ms| - 1], decode);
    }
  }

  lemma {:induction false} DeliverAppend(cs: map<string, seq<string>>, a: seq<string>, b: seq<string>, decode: Decoder)
    ensures Deliver(cs, a + b, decode) == Deliver(Deliver(cs, a, decode), b, decode)
  {
    if b == [] {
      assert a + b == a;
    } else {
      var n := |b| - 1;
      DeliverAppend(cs, a, b[..n], decode);
      assert (a + b)[..|a + b| - 1] == a + b[..n];
    }
  }

  /** The app's state after receiving some text frames, one `_onMessage` each. */
  function ReceiveAll(cs: map<string, seq<string>>, frames: seq<string>, decode: Decoder): map<string, seq<string>>
    decreases |frames|
  {
    if frames == [] then cs else ReceiveAll(DeliverFrame(cs, Text(frames[0]), decode), frames[1..], decode)
  }

  lemma {:induction false} ReceiveLines(cs: map<string, seq<string>>, frames: seq<string>, decode: Decoder)
    ensures ReceiveAll(cs, frames, decode) == Deliver(cs, AllLines(frames), decode)
    decreases |frames|
  {
    if frames == [] {
    } else {
      ReceiveLines(Deliver(cs, Lines(frames[0]), decode), frames[1..], decode);
      DeliverAppend(cs, Lines(frames[0]), AllLines(frames[1..]), decode);
    }
  }

  /** From the pump's queue to the app's streams: every channel gets exactly the payloads that
      were queued for it, whatever the batches. */
  lemma EndToEnd(cs: map<string, seq<string>>, batches: seq<seq<string>>, decode: Decoder, ch: string)
    requires forall i | 0 <= i < |batches| :: batches[i] != []
    requires AllClean(Flat(batches)) && ch in cs
    ensures var after := ReceiveAll(cs, Frames(batches), decode);
      ch in after && after[ch] == cs[ch] + Payloads(Flat(batches), ch, decode)
  {
    UndoBatches(batches);
    ReceiveLines(cs, Frames(batches), decode);
    DeliverPayloads(cs, Flat(batches), decode);
  }
}
