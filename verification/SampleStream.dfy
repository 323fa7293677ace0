/** The receive buffer of freedv_datac0c1_rx.c: fixed blocks of samples go in, chunks of
    the size the modem asks for come out. The modem is an oracle: its k-th request is
    nin(k), its k-th answer bytes(k). */
module SampleStream {

  const NBUF := 160

  // ----- The mathematical form: cutting a stream

  /** The chunks run_receiver's loop takes off a stream whose next request is the k-th, and
      what is left: it goes on while more than the request is there. */
  function Cut(nin: nat -> nat, k: nat, s: seq<int>): (seq<seq<int>>, seq<int>)
    requires forall i: nat :: nin(i) > 0
    decreases |s|
  {
    if |s| <= nin(k) then ([], s)
    else
      var (chunks, rest) := Cut(nin, k + 1, s[nin(k)..]);
      ([s[..nin(k)]] + chunks, rest)
  }

  function Concat(chunks: seq<seq<int>>): seq<int> {
    if chunks == [] then [] else chunks[0] + Concat(chunks[1..])
  }

  lemma {:induction false} ConcatAppend(a: seq<seq<int>>, b: seq<seq<int>>)
    ensures Concat(a + b) == Concat(a) + Concat(b)
  {
    if a == [] {
      assert a + b == b;
    } else {
      assert (a + b)[1..] == a[1..] + b;
      ConcatAppend(a[1..], b);
    }
  }

  /** Cutting loses, repeats and reorders nothing; each chunk has the size requested and
      what is left is at most one request. */
  lemma {:induction false} CutConserves(nin: nat -> nat, k: nat, s: seq<int>)
    requires forall i: nat :: nin(i) > 0
    ensures var (chunks, rest) := Cut(nin, k, s);
      && Concat(chunks) + rest == s
      && |rest| <= nin(k + |chunks|)
      && forall i :: 0 <= i < |chunks| ==> |chunks[i]| == nin(k + i)
    decreases |s|
  {
    if |s| > nin(k) {
      CutConserves(nin, k + 1, s[nin(k)..]);
      var (chunks, rest) := Cut(nin, k + 1, s[nin(k)..]);
      assert s == s[..nin(k)] + (Concat(chunks) + rest);
      assert ([s[..nin(k)]] + chunks)[1..] == chunks;
    }
  }

  /** Cutting a stream in two goes is cutting it at once: the chunks do not depend on how
      the stream was divided into blocks. */
  lemma {:induction false} CutAppend(nin: nat -> nat, k: nat, a: seq<int>, b: seq<int>)
    requires forall i: nat :: nin(i) > 0
    ensures Cut(nin, k, a + b) == CutTwice(nin, k, a, b)
    decreases |a|
  {
    if |a| > nin(k) {
      var n := nin(k);
      CutAppend(nin, k + 1, a[n..], b);
      assert (a + b)[n..] == a[n..] + b && (a + b)[..n] == a[..n];
      Reassociate([a[..n]], Cut(nin, k + 1, a[n..]).0, CutTwice(nin, k + 1, a[n..], b).0);
    } else {
      assert [] + Cut(nin, k, a + b).0 == Cut(nin, k, a + b).0;
    }
  }

  function CutTwice(nin: nat -> nat, k: nat, a: seq<int>, b: seq<int>): (seq<seq<int>>, seq<int>)
    requires forall i: nat :: nin(i) > 0
  {
    var (ca, ra) := Cut(nin, k, a);
    var (cb, rb) := Cut(nin, k + |ca|, ra + b);
    (ca + cb, rb)
  }

  lemma Reassociate(head: seq<seq<int>>, a: seq<seq<int>>, ab: seq<seq<int>>)
    ensures forall b :: ab == a + b ==> (head + a) + b == head + ab
  {}

  // ----- The receiver

  /** A modem with the chunks it has been given. */
  class Modem {
    const nin: nat -> nat
    const bytes: nat -> nat
    ghost var heard: seq<seq<int>>
    var calls: nat

    ghost predicate Valid()
      reads this
    {
      calls == |heard| && forall i: nat :: nin(i) > 0
    }

    constructor (nin: nat -> nat, bytes: nat -> nat)
      requires forall i: nat :: nin(i) > 0
      ensures this.nin == nin && this.bytes == bytes && Valid() && heard == []
    {
      this.nin, this.bytes := nin, bytes;
      heard, calls := [], 0;
    }

    method Nin() returns (n: nat)
      ensures n == nin(calls)
    {
      n := nin(calls);
    }

    /** freedv_rawdatarx: reads the requested samples from the front of the buffer. */
    method RawDataRx(demodIn: array<int>) returns (nbytes: nat)
      requires Valid() && nin(calls) <= demodIn.Length
      modifies this
      ensures Valid() && heard == old(heard) + [demodIn[..nin(old(calls))]]
      ensures nbytes == bytes(old(calls))
    {
      heard := heard + [demodIn[..nin(calls)]];
      nbytes := bytes(calls);
      calls := calls + 1;
    }
  }

  /** memcpy of a block to the end of the n samples held. */
  method Append(demodIn: array<int>, n: nat, buf: array<int>)
    requires buf != demodIn && n + buf.Length <= demodIn.Length
    modifies demodIn
    ensures demodIn[..n + buf.Length] == old(demodIn[..n]) + buf[..]
  {
    forall i | 0 <= i < buf.Length {
      demodIn[n + i] := buf[i];
    }
  }

  /** memmove of n samples to the front. */
  method Shift(demodIn: array<int>, nin: nat, n: nat)
    requires nin + n <= demodIn.Length
    modifies demodIn
    ensures demodIn[..n] == old(demodIn[nin..nin + n])
  {
    forall i | 0 <= i < n {
      demodIn[i] := demodIn[nin + i];
    }
  }

  /** One turn of run_receiver's loop. */
  method TakeChunk(modem: Modem, demodIn: array<int>, n: nat, nin: nat) returns (nbytesOut: nat)
    requires modem.Valid() && nin == modem.nin(modem.calls) < n <= demodIn.Length
    modifies modem, demodIn
    ensures modem.Valid() && modem.calls == old(modem.calls) + 1
    ensures modem.heard == old(modem.heard) + [old(demodIn[..n])[..nin]]
    ensures demodIn[..n - nin] == old(demodIn[..n])[nin..]
    ensures nbytesOut == modem.bytes(old(modem.calls))
  {
    assert demodIn[..n][..nin] == demodIn[..nin] && demodIn[..n][nin..] == demodIn[nin..n];
    nbytesOut := modem.RawDataRx(demodIn);
    Shift(demodIn, nin, n - nin);
  }

  /** run_receiver's loop. */
  method TakeChunks(modem: Modem, demodIn: array<int>, n0: nat) returns (nbytesOut: nat, n: nat)
    requires modem.Valid() && n0 <= demodIn.Length
    modifies modem, demodIn
    ensures modem.Valid() && n <= demodIn.Length
    ensures var (chunks, rest) := Cut(modem.nin, old(modem.calls), old(demodIn[..n0]));
      && modem.heard == old(modem.heard) + chunks && demodIn[..n] == rest
      && nbytesOut == if chunks == [] then 0 else modem.bytes(modem.calls - 1)
  {
    n := n0;
    nbytesOut := 0;
    var nin := modem.Nin();
    ghost var taken: seq<seq<int>> := [];
    ghost var goal := Cut(modem.nin, modem.calls, demodIn[..n]);
    assert [] + goal.0 == goal.0;
    while n > nin
      invariant modem.Valid() && n <= demodIn.Length && nin == modem.nin(modem.calls)
      invariant modem.heard == old(modem.heard) + taken
      invariant StillToCut(modem.nin, modem.calls, taken, demodIn[..n], goal)
      invariant nbytesOut == if taken == [] then 0 else modem.bytes(modem.calls - 1)
      decreases n
    {
      ghost var before := demodIn[..n];
      CutNext(modem.nin, modem.calls, taken, before, goal, nin);
      nbytesOut := TakeChunk(modem, demodIn, n, nin);
      taken := taken + [before[..nin]];
      n := n - nin;
      nin := modem.Nin();
    }
    assert taken + [] == taken;
  }

  /** run_receiver: the caller keeps room for a whole block in the buffer. The new chunks
      and the new buffer contents are the cut of the old contents followed by the block,
      and the result is the last answer of the calls made, 0 when there were none. */
  method RunReceiver(modem: Modem, buf: array<int>, demodIn: array<int>, n0: nat) returns (nbytesOut: nat, n: nat)
    requires modem.Valid() && buf.Length == NBUF && buf != demodIn
    requires n0 + NBUF <= demodIn.Length
    modifies modem, demodIn
    ensures modem.Valid() && n <= demodIn.Length
    ensures var (chunks, rest) := Cut(modem.nin, old(modem.calls), old(demodIn[..n0]) + old(buf[..]));
      && modem.heard == old(modem.heard) + chunks && demodIn[..n] == rest
      && nbytesOut == if chunks == [] then 0 else modem.bytes(modem.calls - 1)
  {
    Append(demodIn, n0, buf);
    nbytesOut, n := TakeChunks(modem, demodIn, n0 + NBUF);
  }

  /** taken, and what is still to be cut from s, make up the goal. */
  ghost predicate StillToCut(nin: nat -> nat, k: nat, taken: seq<seq<int>>, s: seq<int>, goal: (seq<seq<int>>,
                             seq<int>))
    requires forall i: nat :: nin(i) > 0
  {
    goal == (taken + Cut(nin, k, s).0, Cut(nin, k, s).1)
  }

  lemma CutNext(nin: nat -> nat, k: nat, taken: seq<seq<int>>, s: seq<int>, goal: (seq<seq<int>>, seq<int>),
                request: nat)
    requires forall i: nat :: nin(i) > 0
    requires |s| > request == nin(k) && StillToCut(nin, k, taken, s, goal)
    ensures StillToCut(nin, k + 1, taken + [s[..request]], s[request..], goal)
  {
    var more := Cut(nin, k + 1, s[nin(k)..]).0;
    assert taken + ([s[..nin(k)]] + more) == (taken + [s[..nin(k)]]) + more;
  }

  // ----- No answer is lost

  /** The buffer holds any request and a block. */
  ghost predicate Roomy(nin: nat -> nat, size: nat) {
    forall k: nat :: nin(k) > 0 && nin(k) + NBUF <= size
  }

  /** The modem's requests are never smaller than a block. */
  ghost predicate AtLeastBlocks(nin: nat -> nat) {
    forall k: nat :: NBUF <= nin(k)
  }

  /** One call makes at most one read, so that no answer is overwritten, exactly when the
      samples at hand are no more than the next two requests. */
  lemma OneChunkExactly(nin: nat -> nat, k: nat, s: seq<int>)
    requires forall i: nat :: nin(i) > 0
    ensures |Cut(nin, k, s).0| <= 1 <==> |s| <= nin(k) + nin(k + 1)
  {}

  /** How many of the modem's first k answers were not empty. */
  function Answered(bytes: nat -> nat, k: nat): nat {
    if k == 0 then 0 else Answered(bytes, k - 1) + if bytes(k - 1) > 0 then 1 else 0
  }

  lemma {:induction false} AnsweredGrows(bytes: nat -> nat, j: nat, k: nat)
    requires j < k
    ensures Answered(bytes, j) + (if bytes(k - 1) > 0 then 1 else 0) <= Answered(bytes, k)
  {
    if j < k - 1 { AnsweredGrows(bytes, j, k - 1); }
  }

  /** The modem has heard the cut of the stream so far and the buffer holds the rest. */
  ghost predicate Fed(modem: Modem, demodIn: array<int>, n: nat, soFar: seq<int>)
    reads modem, demodIn
  {
    modem.Valid() && n <= demodIn.Length && (modem.heard, demodIn[..n]) == Cut(modem.nin, 0, soFar)
  }

  /** frames counts non-empty answers: at most all of them, and all of them when every
      request is at least a block. */
  ghost predicate Counted(nin: nat -> nat, bytes: nat -> nat, calls: nat, frames: nat) {
    frames <= Answered(bytes, calls) && (AtLeastBlocks(nin) ==> frames == Answered(bytes, calls))
  }

  /** What the main loop keeps for one modem. */
  ghost predicate Served(modem: Modem, demodIn: array<int>, n: nat, frames: nat, soFar: seq<int>)
    reads modem, demodIn
  {
    && Fed(modem, demodIn, n, soFar) && Roomy(modem.nin, demodIn.Length)
    && Counted(modem.nin, modem.bytes, modem.calls, frames)
  }

  /** One turn of the main loop for one modem: a frame is counted when run_receiver's result
      is not zero. */
  method FeedBlock(modem: Modem, buf: array<int>, demodIn: array<int>, n0: nat, frames0: nat, ghost soFar: seq<int>)
    returns (frames: nat, n: nat)
    requires buf.Length == NBUF && buf != demodIn && Served(modem, demodIn, n0, frames0, soFar)
    modifies modem, demodIn
    ensures Served(modem, demodIn, n, frames, soFar + old(buf[..]))
  {
    NextBlock(modem.nin, soFar, buf[..]);
    CutConserves(modem.nin, 0, soFar);
    assert modem.nin(modem.calls) + NBUF <= demodIn.Length;
    ghost var chunks := Cut(modem.nin, modem.calls, demodIn[..n0] + buf[..]).0;
    CountNext(modem.nin, modem.bytes, modem.calls, frames0, |chunks|);
    frames := frames0;
    var nbytes;
    nbytes, n := RunReceiver(modem, buf, demodIn, n0);
    if nbytes != 0 {
      frames := frames + 1;
    }
  }

  /** The count after a call that made some reads and returned the last answer. */
  lemma CountNext(nin: nat -> nat, bytes: nat -> nat, calls: nat, frames: nat, taken: nat)
    requires Counted(nin, bytes, calls, frames) && (AtLeastBlocks(nin) ==> taken <= 1)
    ensures taken == 0 ==> Counted(nin, bytes, calls + taken, frames)
    ensures taken > 0 ==> Counted(nin, bytes, calls + taken, frames + if bytes(calls + taken - 1) > 0 then 1 else 0)
  {
    if taken > 0 { AnsweredGrows(bytes, calls, calls + taken); }
  }

  /** fread of a whole block. */
  method ReadBlock(input: seq<int>, pos: nat, buf: array<int>)
    requires buf.Length == NBUF && pos + NBUF <= |input|
    modifies buf
    ensures buf[..] == input[pos..pos + NBUF]
  {
    forall i | 0 <= i < NBUF {
      buf[i] := input[pos + i];
    }
  }

  /** One turn of the main loop: the next block to both modems. */
  method FeedBoth(input: seq<int>, pos: nat, buf: array<int>, c0: Modem, c1: Modem, demod0: array<int>,
                  demod1: array<int>,
                  n0: nat, n1: nat, frames0: nat, frames1: nat)
    returns (f0: nat, m0: nat, f1: nat, m1: nat)
    requires c0 != c1 && demod0 != demod1 && buf != demod0 && buf != demod1 && buf.Length == NBUF
    requires pos + NBUF <= |input|
    requires Served(c0, demod0, n0, frames0, input[..pos]) && Served(c1, demod1, n1, frames1, input[..pos])
    modifies c0, c1, demod0, demod1, buf
    ensures Served(c0, demod0, m0, f0, input[..pos + NBUF]) && Served(c1, demod1, m1, f1, input[..pos + NBUF])
  {
    ReadBlock(input, pos, buf);
    ghost var block := buf[..];
    OneMoreBlock(input, pos, block);
    f0, m0 := FeedBlock(c0, buf, demod0, n0, frames0, input[..pos]);
    assert buf[..] == block;
    f1, m1 := FeedBlock(c1, buf, demod1, n1, frames1, input[..pos]);
  }

  /** The main loop feeding one stream to two modems block by block; a short last block is
      dropped. Each modem hears exactly the cut of the whole blocks for its own requests;
      the frames counted are non-empty answers, all of them when every request is at least
      a block. */
  method FeedReceivers(input: seq<int>, c0: Modem, c1: Modem, size0: nat, size1: nat)
    returns (frames0: nat, frames1: nat)
    requires c0 != c1 && c0.Valid() && c1.Valid() && c0.heard == c1.heard == []
    requires Roomy(c0.nin, size0) && Roomy(c1.nin, size1)
    modifies c0, c1
    ensures c0.heard == Cut(c0.nin, 0, WholeBlocks(input)).0
    ensures c1.heard == Cut(c1.nin, 0, WholeBlocks(input)).0
    ensures Counted(c0.nin, c0.bytes, |c0.heard|, frames0) && Counted(c1.nin, c1.bytes, |c1.heard|, frames1)
  {
    var demod0, demod1, buf := new int[size0], new int[size1], new int[NBUF];
    var n0: nat, n1: nat := 0, 0;
    frames0, frames1 := 0, 0;
    var pos := 0;
    ghost var blocks := 0;
    StartServed(c0, demod0, input[..0]);
    StartServed(c1, demod1, input[..0]);
    while pos + NBUF <= |input|
      invariant 0 <= pos == blocks * NBUF <= |input|
      invariant Served(c0, demod0, n0, frames0, input[..pos])
      invariant Served(c1, demod1, n1, frames1, input[..pos])
    {
      frames0, n0, frames1, n1 := FeedBoth(input, pos, buf, c0, c1, demod0, demod1, n0, n1, frames0, frames1);
      pos := pos + NBUF;
      blocks := blocks + 1;
    }
    WholeLength(|input|, blocks);
  }

  lemma WholeLength(length: nat, blocks: nat)
    requires blocks * NBUF <= length < (blocks + 1) * NBUF
    ensures length / NBUF == blocks
  {}

  lemma StartServed(modem: Modem, demodIn: array<int>, soFar: seq<int>)
    requires modem.Valid() && modem.heard == [] && Roomy(modem.nin, demodIn.Length) && soFar == []
    ensures Served(modem, demodIn, 0, 0, soFar)
  {}

  lemma OneMoreBlock(input: seq<int>, pos: nat, block: seq<int>)
    requires pos + NBUF <= |input| && block == input[pos..pos + NBUF]
    ensures input[..pos + NBUF] == input[..pos] + block
  {}

  /** The part of the input that fread delivers in whole blocks. */
  function WholeBlocks(input: seq<int>): seq<int> { input[..|input| / NBUF * NBUF] }

  /** One more block extends the cut by the cut of what was left and the block: by at most
      one chunk when every request is at least a block. */
  lemma NextBlock(nin: nat -> nat, s: seq<int>, block: seq<int>)
    requires |block| == NBUF && forall k: nat :: nin(k) > 0
    ensures Cut(nin, 0, s + block) == CutTwice(nin, 0, s, block)
    ensures AtLeastBlocks(nin) ==> |Cut(nin, |Cut(nin, 0, s).0|, Cut(nin, 0, s).1 + block).0| <= 1
  {
    CutAppend(nin, 0, s, block);
    CutConserves(nin, 0, s);
    var (chunks, rest) := Cut(nin, 0, s);
    OneChunkExactly(nin, |chunks|, rest + block);
  }

  /** What is fed are the whole blocks of 160 samples; fewer than 160 are dropped. */
  lemma BlocksOf160(input: seq<int>)
    ensures |WholeBlocks(input)| == |input| - |input| % 160 && WholeBlocks(input) <= input
  {}
}
