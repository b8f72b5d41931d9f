/** The audio capture side of the speech-recognition feed (`AudioEngine`): the
    PortAudio callback appends each captured buffer to a FIFO chunk queue, and a
    generator hands the recogniser one buffer per pull, made by taking one queued
    chunk and then every chunk already waiting behind it. A `None` in the queue
    is the end-of-stream sentinel that teardown puts there. */
module Audio {
  import opened Host

  type Bytes = seq<bv8>

  /** A queue entry: a captured buffer, or the sentinel `None`. */
  type QueueItem = Option<Bytes>

  /** What one `next()` on the chunk generator gives: a coalesced buffer, the end
      of the stream (the generator has returned), or nothing yet because
      `get(block=True)` would wait for the callback. */
  datatype Pulled = Chunk(data: Bytes) | End | WouldBlock

  /** The three PortAudio callback return codes. */
  datatype CallbackFlag = PaContinue | PaComplete | PaAbort

  datatype StreamState = Active | Stopped | Closed

  /** The steps of teardown that call into PyAudio and may raise. */
  datatype ReleaseStep = StopStream | CloseStream | TerminateInterface

  /** The position of the first sentinel in `q`, or `|q|` when there is none. */
  function SentinelIndex(q: seq<QueueItem>): (k: nat)
    ensures k <= |q|
    ensures forall i :: 0 <= i < k ==> q[i].Some?
    ensures k < |q| ==> q[k].None?
  {
    if q == [] || q[0].None? then 0 else 1 + SentinelIndex(q[1..])
  }

  /** A sentinel with only buffers before it is the first one. */
  lemma {:induction false} FirstSentinel(q: seq<QueueItem>, k: nat)
    requires k < |q| && q[k].None?
    requires forall i :: 0 <= i < k ==> q[i].Some?
    ensures SentinelIndex(q) == k
  {
    if k > 0 {
      FirstSentinel(q[1..], k - 1);
    }
  }

  /** The buffers carried by the entries of `q`, in queue order (a sentinel carries none). */
  function Buffers(q: seq<QueueItem>): (bs: seq<Bytes>)
    ensures (forall i :: 0 <= i < |q| ==> q[i].Some?) ==>
              |bs| == |q| && forall i :: 0 <= i < |q| ==> bs[i] == q[i].value
  {
    if q == [] then []
    else
      var last := q[|q| - 1];
      Buffers(q[..|q| - 1]) + (if last.Some? then [last.value] else [])
  }

  /** `b"".join(bs)`. */
  function Join(bs: seq<Bytes>): (r: Bytes)
    ensures |bs| == 1 ==> r == bs[0]
  {
    if bs == [] then [] else Join(bs[..|bs| - 1]) + bs[|bs| - 1]
  }

  function TotalLength(bs: seq<Bytes>): nat
  {
    if bs == [] then 0 else |bs[0]| + TotalLength(bs[1..])
  }

  /** Joining two runs of buffers is joining each and concatenating. */
  lemma {:induction false} JoinAppend(a: seq<Bytes>, b: seq<Bytes>)
    ensures Join(a + b) == Join(a) + Join(b)
  {
    if b == [] {
      assert a + b == a;
    } else {
      var b' := b[..|b| - 1];
      assert (a + b)[..|a + b| - 1] == a + b';
      JoinAppend(a, b');
    }
  }

  /** The joined buffer is exactly as long as all the buffers together. */
  lemma {:induction false} JoinLength(bs: seq<Bytes>)
    ensures |Join(bs)| == TotalLength(bs)
  {
    if bs != [] {
      JoinLength(bs[1..]);
      JoinAppend([bs[0]], bs[1..]);
      assert [bs[0]] + bs[1..] == bs;
      assert Join([bs[0]]) == Join([]) + bs[0];
    }
  }

  /** Teardown puts the sentinel behind whatever is still queued, so however many
      buffers wait ahead of it, the next pull meets it and ends the stream. */
  lemma SentinelBehindBuffers(q: seq<QueueItem>)
    requires forall i :: 0 <= i < |q| ==> q[i].Some?
    ensures SentinelIndex(q + [None]) == |q|
  {
    var s := q + [None];
    assert s[|q|].None?;
    assert forall i :: 0 <= i < |q| ==> s[i] == q[i];
  }

  class AudioEngine {
    const sampleRate: nat
    const chunkSize: nat
    /** `__chunkQueue`: FIFO, head first. */
    var chunkQueue: seq<QueueItem>
    /** The chunk generator has returned; every later `next()` ends at once. */
    var exhausted: bool
    var stream: StreamState
    var interfaceLive: bool

    /** `__init__` / `__openAudioStream`: an empty queue, a fresh generator and a
        started input stream. */
    constructor (sampleRate: nat, chunkSize: nat)
      ensures this.sampleRate == sampleRate && this.chunkSize == chunkSize
      ensures chunkQueue == [] && !exhausted && stream == Active && interfaceLive
    {
      this.sampleRate := sampleRate;
      this.chunkSize := chunkSize;
      chunkQueue := [];
      exhausted := false;
      stream := Active;
      interfaceLive := true;
    }

    /** One `next()` on `__chunkGenerator`. It takes the head; if that is the
        sentinel the generator returns. Otherwise it keeps taking entries without
        blocking until the queue is empty, and yields the join of what it took.
        Meeting the sentinel while draining also returns, and the buffers taken
        in this pull are dropped. */
    method Pull() returns (r: Pulled)
      modifies this`chunkQueue, this`exhausted
      ensures old(exhausted) ==> r == End && exhausted && chunkQueue == old(chunkQueue)
      ensures !old(exhausted) && old(chunkQueue) == [] ==>
                r == WouldBlock && !exhausted && chunkQueue == []
      ensures !old(exhausted) && old(chunkQueue) != [] ==>
                var q := old(chunkQueue);
                var k := SentinelIndex(q);
                if k < |q| then r == End && exhausted && chunkQueue == q[k + 1..]
                else r == Chunk(Join(Buffers(q))) && !exhausted && chunkQueue == []
    {
      if exhausted {
        return End;
      }
      if chunkQueue == [] {
        return WouldBlock;
      }
      ghost var q := chunkQueue;
      var chunk := chunkQueue[0];
      chunkQueue := chunkQueue[1..];
      if chunk.None? {
        exhausted := true;
        return End;
      }
      var data := [chunk.value];
      ghost var taken := 1;
      assert q[..1] == [q[0]];
      while chunkQueue != []
        invariant 1 <= taken <= |q| && chunkQueue == q[taken..]
        invariant forall i :: 0 <= i < taken ==> q[i].Some?
        invariant data == Buffers(q[..taken])
        invariant !exhausted
        decreases |chunkQueue|
      {
        chunk := chunkQueue[0];
        chunkQueue := chunkQueue[1..];
        assert chunk == q[taken] && chunkQueue == q[taken + 1..];
        if chunk.None? {
          FirstSentinel(q, taken);
          exhausted := true;
          return End;
        }
        assert q[..taken + 1][..taken] == q[..taken];
        data := data + [chunk.value];
        taken := taken + 1;
      }
      assert q[..taken] == q;
      r := Chunk(Join(data));
    }

    /** `__fillChunkBuffer`, the PortAudio stream callback: puts the captured
        buffer at the tail of the queue and asks PortAudio to continue. */
    method Fill(inData: Bytes) returns (flag: CallbackFlag)
      modifies this`chunkQueue
      ensures chunkQueue == old(chunkQueue) + [Some(inData)]
      ensures flag == PaContinue
    {
      chunkQueue := chunkQueue + [Some(inData)];
      flag := PaContinue;
    }

    /** `__del__`: stop the stream, close it, enqueue the sentinel, terminate the
        PyAudio interface; each step is tried on its own and an exception in one
        (a step in `failing`) is swallowed. Putting into the unbounded queue does
        not raise, so the sentinel is always enqueued. */
    method Teardown(failing: set<ReleaseStep>)
      modifies this`stream, this`chunkQueue, this`interfaceLive
      ensures stream == (if CloseStream !in failing then Closed
                         else if StopStream !in failing && old(stream) != Closed then Stopped
                         else old(stream))
      ensures chunkQueue == old(chunkQueue) + [None]
      ensures interfaceLive == (old(interfaceLive) && TerminateInterface in failing)
    {
      if StopStream !in failing && stream != Closed {
        stream := Stopped;
      }
      if CloseStream !in failing {
        stream := Closed;
      }
      chunkQueue := chunkQueue + [None];
      if TerminateInterface !in failing {
        interfaceLive := false;
      }
    }
  }

  /** Buffers captured between two pulls come out of the second pull as one
      buffer: their join, in capture order, and the queue is left empty. */
  method CaptureThenPull(engine: AudioEngine, captured: seq<Bytes>) returns (r: Pulled)
    requires !engine.exhausted && engine.chunkQueue == [] && captured != []
    modifies engine`chunkQueue, engine`exhausted
    ensures r == Chunk(Join(captured)) && engine.chunkQueue == [] && !engine.exhausted
    ensures engine.stream == old(engine.stream) && engine.interfaceLive == old(engine.interfaceLive)
  {
    var i := 0;
    while i < |captured|
      invariant 0 <= i <= |captured|
      invariant |engine.chunkQueue| == i && !engine.exhausted
      invariant forall j :: 0 <= j < i ==> engine.chunkQueue[j] == Some(captured[j])
      invariant engine.stream == old(engine.stream) && engine.interfaceLive == old(engine.interfaceLive)
    {
      var _ := engine.Fill(captured[i]);
      i := i + 1;
    }
    CapturedQueue(engine.chunkQueue, captured);
    r := engine.Pull();
  }

  /** A queue holding exactly the captured buffers has no sentinel and carries them all. */
  lemma CapturedQueue(q: seq<QueueItem>, captured: seq<Bytes>)
    requires |q| == |captured|
    requires forall j :: 0 <= j < |q| ==> q[j] == Some(captured[j])
    ensures SentinelIndex(q) == |q| && Buffers(q) == captured
  {
  }

  /** However many buffers are queued when teardown runs, the next pull ends
      the stream and yields none of them. */
  method TeardownThenPull(engine: AudioEngine, failing: set<ReleaseStep>) returns (r: Pulled)
    requires !engine.exhausted
    requires forall i :: 0 <= i < |engine.chunkQueue| ==> engine.chunkQueue[i].Some?
    modifies engine`stream, engine`chunkQueue, engine`interfaceLive, engine`exhausted
    ensures r == End && engine.exhausted && engine.chunkQueue == []
    ensures engine.stream == (if CloseStream !in failing then Closed
                              else if StopStream !in failing && old(engine.stream) != Closed then Stopped
                              else old(engine.stream))
    ensures engine.interfaceLive == (old(engine.interfaceLive) && TerminateInterface in failing)
  {
    ghost var q := engine.chunkQueue;
    engine.Teardown(failing);
    SentinelBehindBuffers(q);
    r := engine.Pull();
  }
}
