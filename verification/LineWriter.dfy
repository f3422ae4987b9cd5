/** Container log streaming: chunks of bytes in, numbered complete lines out. */
module LineWriter {
  import opened Text

  datatype LogLine = LogLine(stream: string, line: string, seqNo: nat)

  /** `uint64`: sequence numbers wrap around. */
  const U64 := 0x1_0000_0000_0000_0000

  type Uint64 = n: nat | n < U64

  class Counter {
    var n: Uint64
    constructor () ensures n == 0 { n := 0; }
  }

  /** What the callback has received so far. */
  class Sink {
    var lines: seq<LogLine>
    constructor () ensures lines == [] { lines := []; }
  }

  lemma WrapAdd(a: nat, b: nat)
    ensures (a % U64 + b) % U64 == (a + b) % U64
  {
  }

  /** Length of `s[..n]` without its trailing carriage returns. */
  function TrimLen(s: string, n: nat): (m: nat)
    requires n <= |s|
    ensures m <= n && (m > 0 ==> s[m - 1] != '\r')
    ensures forall i | m <= i < n :: s[i] == '\r'
  {
    if n > 0 && s[n - 1] == '\r' then TrimLen(s, n - 1) else n
  }

  /** `strings.TrimRight(s, "\r")`: a prefix, with nothing but carriage returns cut off, and all of
      them. */
  function TrimCR(s: string): (t: string)
    ensures t <= s && (t == "" || t[|t| - 1] != '\r')
    ensures forall i | |t| <= i < |s| :: s[i] == '\r'
  {
    s[..TrimLen(s, |s|)]
  }

  /** The text after the last newline of `s`. */
  function Rest(s: string): string {
    var p := Split(s, '\n');
    p[|p| - 1]
  }

  /** The newline-terminated pieces of `s`. */
  function Complete(s: string): seq<string> {
    var p := Split(s, '\n');
    p[..|p| - 1]
  }

  /** Lines and rest are the one way to take a text apart at its newlines. */
  lemma LinesAreText(s: string, lines: seq<string>, rest: string)
    requires '\n' !in rest && forall i | 0 <= i < |lines| :: '\n' !in lines[i]
    ensures Complete(s) == lines && Rest(s) == rest <==> Join(lines + [rest], '\n') == s
  {
    SplitIff(s, lines + [rest], '\n');
    LastApart(Split(s, '\n'), lines, rest);
  }

  lemma LastApart(p: seq<string>, lines: seq<string>, rest: string)
    requires |p| > 0
    ensures p[..|p| - 1] == lines && p[|p| - 1] == rest <==> p == lines + [rest]
  {
  }

  /** The lines a stream amounts to. */
  function Trimmed(p: seq<string>): (r: seq<string>) {
    seq(|p|, i requires 0 <= i < |p| => TrimCR(p[i]))
  }

  /** Log lines for `pieces`, counted on from `n`. */
  function Number(stream: string, pieces: seq<string>, n: nat): (r: seq<LogLine>)
    ensures |r| == |pieces|
  {
    seq(|pieces|, i requires 0 <= i < |pieces| => LogLine(stream, TrimCR(pieces[i]), (n + 1 + i) % U64))
  }

  lemma TrimmedAppend(a: seq<string>, b: seq<string>)
    ensures Trimmed(a + b) == Trimmed(a) + Trimmed(b)
  {
  }

  lemma NumberNext(stream: string, pieces: seq<string>, p: string, n: nat)
    ensures Number(stream, pieces + [p], n)
         == Number(stream, pieces, n) + [LogLine(stream, TrimCR(p), (n + 1 + |pieces|) % U64)]
  {
  }

  /** `done` are the lines cut off `all`, and `buf` is what is left of it. */
  ghost predicate CutTo(all: string, done: seq<string>, buf: string) {
    Complete(all) == done + Complete(buf) && Rest(all) == Rest(buf)
  }

  lemma FirstLine(s: string, idx: nat)
    requires idx == IndexOf(s, '\n') < |s|
    ensures Complete(s) == [s[..idx]] + Complete(s[idx + 1..])
    ensures Rest(s) == Rest(s[idx + 1..])
  {
    SplitFirst(s, '\n');
    AllButLast(s[..idx], Split(s[idx + 1..], '\n'));
  }

  lemma AllButLast(head: string, x: seq<string>)
    requires |x| > 0
    ensures var y := [head] + x; y[..|y| - 1] == [head] + x[..|x| - 1] && y[|y| - 1] == x[|x| - 1]
  {
  }

  lemma CutOne(all: string, done: seq<string>, buf: string, idx: nat)
    requires CutTo(all, done, buf) && idx == IndexOf(buf, '\n') < |buf|
    ensures CutTo(all, done + [buf[..idx]], buf[idx + 1..])
  {
    FirstLine(buf, idx);
  }

  lemma CutEnd(all: string, done: seq<string>, buf: string)
    requires CutTo(all, done, buf) && IndexOf(buf, '\n') == |buf|
    ensures Complete(all) == done && Rest(all) == buf
  {
    assert buf[..|buf|] == buf;
    SplitPlain(buf, '\n');
  }

  /** The state of sink and counter once `done` is emitted on top of `log` and `n0`. */
  ghost predicate Emitted(log: seq<LogLine>, n0: nat, stream: string, done: seq<string>,
                          lines: seq<LogLine>, n: nat) {
    lines == log + Number(stream, done, n0) && n == (n0 + |done|) % U64
  }

  lemma EmitOne(log: seq<LogLine>, n0: nat, stream: string, done: seq<string>, piece: string,
                lines: seq<LogLine>, n: nat)
    requires Emitted(log, n0, stream, done, lines, n)
    ensures var m := (n + 1) % U64;
      Emitted(log, n0, stream, done + [piece], lines + [LogLine(stream, TrimCR(piece), m)], m)
  {
    NumberNext(stream, done, piece, n0);
    WrapAdd(n0 + |done|, 1);
  }

  /** What one `Write` makes of buffer, emitted lines and counter. */
  function Written(stream: string, buf: string, log: seq<LogLine>, n: Uint64, bytes: string)
    : (string, seq<LogLine>, Uint64)
  {
    var text := buf + bytes;
    (Rest(text), log + Number(stream, Complete(text), n), (n + |Complete(text)|) % U64)
  }

  lemma WriteEnds(all: string, done: seq<string>, log: seq<LogLine>, n0: Uint64, stream: string,
                  lines: seq<LogLine>, n: nat)
    requires Complete(all) == done && Emitted(log, n0, stream, done, lines, n)
    ensures log + Number(stream, Complete(all), n0) == lines && (n0 + |Complete(all)|) % U64 == n
  {
  }

  class LineWriter {
    const stream: string
    const counter: Counter
    const sink: Sink
    var buf: string

    constructor (stream: string, counter: Counter, sink: Sink)
      ensures this.stream == stream && this.counter == counter && this.sink == sink && buf == ""
    {
      this.stream, this.counter, this.sink, buf := stream, counter, sink, "";
    }

    method Write(p: string) returns (n: nat)
      modifies this, counter, sink
      ensures n == |p|
      ensures var w := Written(stream, old(buf), old(sink.lines), old(counter.n), p);
        buf == w.0 && sink.lines == w.1 && counter.n == w.2
    {
      buf := buf + p;
      ghost var all, n0, log := buf, counter.n, sink.lines;
      ghost var done: seq<string> := [];
      while true
        invariant CutTo(all, done, buf)
        invariant Emitted(log, n0, stream, done, sink.lines, counter.n)
        decreases |buf|
      {
        var idx := IndexOf(buf, '\n');
        if idx == |buf| {
          CutEnd(all, done, buf);
          WriteEnds(all, done, log, n0, stream, sink.lines, counter.n);
          break;
        }
        var piece := buf[..idx];
        var line := TrimCR(piece);
        CutOne(all, done, buf, idx);
        EmitOne(log, n0, stream, done, piece, sink.lines, counter.n);
        buf := buf[idx + 1..];
        counter.n := (counter.n + 1) % U64;
        sink.lines := sink.lines + [LogLine(stream, line, counter.n)];
        done := done + [piece];
      }
      n := |p|;
    }
  }

  // ----- Runs of two writers over one counter and one sink -----

  /** A chunk written by the stderr writer (`err`) or the stdout writer. */
  datatype Chunk = Chunk(err: bool, bytes: string)

  datatype State = State(outBuf: string, errBuf: string, log: seq<LogLine>, n: Uint64)

  function Stream(err: bool): string { if err then "stderr" else "stdout" }

  /** `LineWriter.Write` on the state two writers share. */
  function Feed(s: State, c: Chunk): State {
    var (buf, log, n) := Written(Stream(c.err), if c.err then s.errBuf else s.outBuf, s.log, s.n, c.bytes);
    if c.err then State(s.outBuf, buf, log, n) else State(buf, s.errBuf, log, n)
  }

  function Run(cs: seq<Chunk>): State {
    if cs == [] then State("", "", [], 0) else Feed(Run(cs[..|cs| - 1]), cs[|cs| - 1])
  }

  /** Everything one of the streams carried, however it was cut. */
  function Carried(cs: seq<Chunk>, err: bool): string {
    if cs == [] then ""
    else
      var c := cs[|cs| - 1];
      Carried(cs[..|cs| - 1], err) + if c.err == err then c.bytes else ""
  }

  function Texts(log: seq<LogLine>, stream: string): seq<string> {
    if log == [] then []
    else
      var l := log[|log| - 1];
      Texts(log[..|log| - 1], stream) + if l.stream == stream then [l.line] else []
  }

  /** What a longer stream completes: the lines of the prefix, then those finished later. */
  lemma Extend(a: string, b: string)
    ensures Complete(a + b) == Complete(a) + Complete(Rest(a) + b)
    ensures Rest(a + b) == Rest(Rest(a) + b)
  {
    SplitTail(a, b, '\n');
  }

  lemma {:induction false} TextsAppend(log: seq<LogLine>, more: seq<LogLine>, stream: string)
    ensures Texts(log + more, stream) == Texts(log, stream) + Texts(more, stream)
  {
    if more == [] {
      assert log + more == log;
    } else {
      TextsAppend(log, more[..|more| - 1], stream);
      assert (log + more)[..|log + more| - 1] == log + more[..|more| - 1];
    }
  }

  lemma {:induction false} TextsNumbered(p: seq<string>, s: string, stream: string, n: nat)
    ensures Texts(Number(s, p, n), stream) == if s == stream then Trimmed(p) else []
  {
    if p == [] {
    } else {
      var k := |p| - 1;
      TextsNumbered(p[..k], s, stream, n);
      assert p == p[..k] + [p[k]];
      NumberNext(s, p[..k], p[k], n);
      TrimmedAppend(p[..k], [p[k]]);
      var l := LogLine(s, TrimCR(p[k]), (n + 1 + k) % U64);
      TextsAppend(Number(s, p[..k], n), [l], stream);
      assert Texts([l], stream) == if s == stream then [l.line] else [];
    }
  }

  /** Nothing is lost or invented, in either stream. */
  ghost predicate Faithful(s: State, cs: seq<Chunk>, err: bool) {
    && (if err then s.errBuf else s.outBuf) == Rest(Carried(cs, err))
    && Texts(s.log, Stream(err)) == Trimmed(Complete(Carried(cs, err)))
  }

  lemma FeedFaithful(s: State, cs: seq<Chunk>, c: Chunk, err: bool)
    requires Faithful(s, cs, err)
    ensures Faithful(Feed(s, c), cs + [c], err)
  {
    var b := (if c.err then s.errBuf else s.outBuf) + c.bytes;
    TextsAppend(s.log, Number(Stream(c.err), Complete(b), s.n), Stream(err));
    TextsNumbered(Complete(b), Stream(c.err), Stream(err), s.n);
    assert (cs + [c])[..|cs|] == cs;
    var before := Carried(cs, err);
    if c.err == err {
      assert Carried(cs + [c], err) == before + c.bytes;
      Extend(before, c.bytes);
      TrimmedAppend(Complete(before), Complete(b));
    } else {
      assert Carried(cs + [c], err) == before + "" == before;
    }
  }

  lemma NothingCarried(err: bool)
    ensures Faithful(State("", "", [], 0), [], err)
  {
    assert Split("", '\n') == [[]];
    assert Complete("") == [];
  }

  lemma {:induction false} RunFaithful(cs: seq<Chunk>, err: bool)
    ensures Faithful(Run(cs), cs, err)
  {
    if cs == [] {
      NothingCarried(err);
    } else {
      var c, before := cs[|cs| - 1], cs[..|cs| - 1];
      RunFaithful(before, err);
      FeedFaithful(Run(before), before, c, err);
      assert cs == before + [c];
    }
  }

  /** The log is numbered 1, 2, 3, ... and the counter stands at the last number. */
  ghost predicate Numbered(s: State) {
    s.n == |s.log| % U64 && forall i | 0 <= i < |s.log| :: s.log[i].seqNo == (i + 1) % U64
  }

  lemma {:induction false} RunNumbered(cs: seq<Chunk>)
    ensures Numbered(Run(cs))
  {
    if cs == [] {
    } else {
      RunNumbered(cs[..|cs| - 1]);
      NumbersContinue(Run(cs[..|cs| - 1]), cs[|cs| - 1]);
    }
  }

  /** However the two streams are cut and interleaved, each yields exactly the lines of the
      whole stream and keeps exactly its unfinished tail, and the lines of both together are
      numbered 1, 2, 3, ... (modulo the width of the counter). */
  lemma CutsDoNotMatter(cs: seq<Chunk>)
    ensures Faithful(Run(cs), cs, false) && Faithful(Run(cs), cs, true) && Numbered(Run(cs))
  {
    RunFaithful(cs, false);
    RunFaithful(cs, true);
    RunNumbered(cs);
  }

  lemma NumbersContinue(s: State, c: Chunk)
    requires Numbered(s)
    ensures Numbered(Feed(s, c))
  {
    var b := (if c.err then s.errBuf else s.outBuf) + c.bytes;
    var k, log := |s.log|, Feed(s, c).log;
    WrapAdd(k, |Complete(b)|);
    forall i | k <= i < |log| ensures log[i].seqNo == (i + 1) % U64 {
      assert log[i] == Number(Stream(c.err), Complete(b), s.n)[i - k];
      WrapAdd(k, 1 + i - k);
    }
  }
}
