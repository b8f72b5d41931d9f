/** The receiving end of the pipe Excel writes commands into (`PipeClient`).
    The host calls `ReadFromExcel` periodically. A background read thread fills
    `incomingText`. Once the host sees that the thread has finished, it splits the
    text on "\r\n", hands every piece to the message handler in order, and starts
    the next read. The thread is modelled as the `readThread` field, and its body
    as the separate step `CompleteRead`. */
module Pipe {
  import opened Host
  import Strings

  /** The message separator, "\r\n", is found at index `i` of `s`. */
  predicate SeparatorAt(s: string, i: int)
  {
    0 <= i < |s| - 1 && s[i] == '\r' && s[i + 1] == '\n'
  }

  /** `'\r\n' in s`: the separator is found at some index. */
  function HasSeparator(s: string): (b: bool)
    ensures b <==> exists i :: SeparatorAt(s, i)
  {
    SeparatorFound(s);
    Strings.Contains(s, "\r\n")
  }

  /** `'\r\n' in s` holds exactly when the separator is found at some index. */
  lemma SeparatorFound(s: string)
    ensures Strings.Contains(s, "\r\n") <==> exists i :: SeparatorAt(s, i)
  {
    if Strings.Contains(s, "\r\n") {
      var i: nat :| i <= |s| && Strings.OccursAt(s, "\r\n", i);
      assert s[i..i + 2][0] == s[i] && s[i..i + 2][1] == s[i + 1];
      assert SeparatorAt(s, i);
    }
    if exists i :: SeparatorAt(s, i) {
      var i :| SeparatorAt(s, i);
      assert s[i..i + 2] == "\r\n";
      assert Strings.OccursAt(s, "\r\n", i);
    }
  }

  /** `s.split('\r\n')`: the pieces between separators, found left to right.
      There is always at least one piece, so empty text gives `[""]`, and a
      trailing separator gives a trailing empty piece. */
  function Split(s: string): (parts: seq<string>)
    ensures |parts| >= 1
    ensures parts[0] <= s
    decreases |s|
  {
    if |s| < 2 then [s]
    else if s[0] == '\r' && s[1] == '\n' then [""] + Split(s[2..])
    else
      var rest := Split(s[1..]);
      [[s[0]] + rest[0]] + rest[1..]
  }

  /** `'\r\n'.join(parts)`. */
  function JoinLines(parts: seq<string>): string
    requires |parts| >= 1
  {
    if |parts| == 1 then parts[0] else parts[0] + "\r\n" + JoinLines(parts[1..])
  }

  /** `message.replace('\r\n', '')`: separators are deleted left to right. */
  function RemoveSeparators(s: string): (r: string)
    ensures |r| <= |s|
  {
    if |s| < 2 then s
    else if s[0] == '\r' && s[1] == '\n' then RemoveSeparators(s[2..])
    else [s[0]] + RemoveSeparators(s[1..])
  }

  /** A string that holds no separator is not changed by `replace('\r\n', '')`. */
  lemma {:induction false} RemoveSeparatorsAbsent(s: string)
    requires !HasSeparator(s)
    ensures RemoveSeparators(s) == s
  {
    if |s| >= 2 {
      assert !SeparatorAt(s, 0);
      assert !HasSeparator(s[1..]) by {
        forall i | SeparatorAt(s[1..], i) ensures SeparatorAt(s, i + 1) { }
      }
      RemoveSeparatorsAbsent(s[1..]);
      assert s == [s[0]] + s[1..];
    }
  }

  /** No piece of a split holds a separator, so the `replace` applied to each
      piece before dispatch deletes nothing. */
  lemma {:induction false} SplitPartsHaveNoSeparator(s: string)
    ensures forall j :: 0 <= j < |Split(s)| ==> !HasSeparator(Split(s)[j])
    decreases |s|
  {
    if |s| >= 2 {
      if s[0] == '\r' && s[1] == '\n' {
        SplitPartsHaveNoSeparator(s[2..]);
        assert forall j :: 1 <= j < |Split(s)| ==> Split(s)[j] == Split(s[2..])[j - 1];
        assert !SeparatorAt(Split(s)[0], 0);
      } else {
        var rest := Split(s[1..]);
        SplitPartsHaveNoSeparator(s[1..]);
        var head := [s[0]] + rest[0];
        assert Split(s) == [head] + rest[1..];
        assert forall j :: 1 <= j < |Split(s)| ==> Split(s)[j] == rest[j];
        assert |rest[0]| >= 1 ==> rest[0][0] == s[1];
        ConsNoSeparator(s[0], rest[0]);
      }
    }
  }

  /** Putting `c` in front of a piece without a separator makes none, unless
      `c` is '\r' and the piece starts with '\n'. */
  lemma ConsNoSeparator(c: char, t: string)
    requires !HasSeparator(t) && !(c == '\r' && |t| >= 1 && t[0] == '\n')
    ensures !HasSeparator([c] + t)
  {
    var head := [c] + t;
    forall i | 0 <= i < |head| - 1 ensures !SeparatorAt(head, i) {
      if i == 0 {
        assert head[1] == t[0];
      } else {
        assert !SeparatorAt(t, i - 1);
        assert head[i] == t[i - 1] && head[i + 1] == t[i];
      }
    }
  }

  /** Joining the pieces again with "\r\n" gives back the payload. */
  lemma {:induction false} JoinSplit(s: string)
    ensures JoinLines(Split(s)) == s
    decreases |s|
  {
    if |s| >= 2 {
      if s[0] == '\r' && s[1] == '\n' {
        JoinSplit(s[2..]);
        assert s == "\r\n" + s[2..];
      } else {
        var rest := Split(s[1..]);
        JoinSplit(s[1..]);
        var head := [s[0]] + rest[0];
        assert Split(s) == [head] + rest[1..];
        if |rest| == 1 {
          assert JoinLines(Split(s)) == head;
        } else {
          assert ([head] + rest[1..])[1..] == rest[1..];
          assert JoinLines(Split(s)) == head + "\r\n" + JoinLines(rest[1..]);
          assert JoinLines(rest) == rest[0] + "\r\n" + JoinLines(rest[1..]);
        }
        assert s == [s[0]] + s[1..];
      }
    }
  }

  /** Splitting text joined from separator-free pieces gives back exactly those
      pieces: the split loses nothing and invents nothing. */
  lemma {:induction false} SplitJoin(parts: seq<string>)
    requires |parts| >= 1
    requires forall j :: 0 <= j < |parts| ==> !HasSeparator(parts[j])
    ensures Split(JoinLines(parts)) == parts
    decreases |JoinLines(parts)|
  {
    var p := parts[0];
    var s := JoinLines(parts);
    if |parts| == 1 {
      if |p| >= 2 {
        assert !SeparatorAt(p, 0);
        TailNoSeparator(p);
        SplitJoin([p[1..]]);
        assert p == [p[0]] + p[1..];
      }
    } else if p == [] {
      assert s == "\r\n" + JoinLines(parts[1..]);
      assert s[2..] == JoinLines(parts[1..]);
      SplitJoin(parts[1..]);
      assert parts == [""] + parts[1..];
    } else {
      var tail := [p[1..]] + parts[1..];
      TailNoSeparator(p);
      assert forall j :: 1 <= j < |tail| ==> tail[j] == parts[j];
      assert tail[1..] == parts[1..];
      assert s[1..] == JoinLines(tail);
      SplitJoin(tail);
      assert |p| >= 2 ==> !SeparatorAt(p, 0);
      assert s[0] == p[0] && !(s[0] == '\r' && s[1] == '\n');
      assert Split(s) == [[p[0]] + p[1..]] + parts[1..];
      assert [p[0]] + p[1..] == p;
    }
  }

  /** Dropping the first character of a piece without a separator leaves none. */
  lemma TailNoSeparator(p: string)
    requires p != [] && !HasSeparator(p)
    ensures !HasSeparator(p[1..])
  {
    forall i | SeparatorAt(p[1..], i) ensures SeparatorAt(p, i + 1) { }
  }

  /** The pieces "hello", "world" and "" come out of "hello\r\nworld\r\n", in that order. */
  lemma SplitTrailingSeparator()
    ensures Split("hello\r\nworld\r\n") == ["hello", "world", ""]
  {
    var parts := ["hello", "world", ""];
    assert parts[1..] == ["world", ""] && parts[1..][1..] == [""];
    assert JoinLines(["world", ""]) == "world\r\n";
    assert JoinLines(parts) == "hello\r\nworld\r\n";
    SplitJoin(parts);
  }

  /** An opaque pipe handle returned by `CreateFile`. */
  datatype Handle = Handle(id: nat)

  /** What the read thread's `ReadFile(handle, 10240, None)` did: it returned a
      result code and the text (already decoded from UTF-16), or it raised, which
      ends the thread before it assigns `incomingText`. */
  datatype ReadReply = Received(code: int, text: string) | Raised

  /** One `CreateFile` call in `openPipe`: it returned a handle, raised a
      `pywintypes.error` with argument tuple (code, function, message), or raised
      some other exception. */
  datatype Attempt = Created(handle: Handle) | WinError(code: int, origin: string, message: string) | OtherException

  datatype OpenResult = Connected | TimeoutError

  const NOT_FOUND_MESSAGE := "The system cannot find the file specified."

  /** The only error `openPipe` sleeps 0.1 s after: the exact argument tuple
      `(2, 'CreateFile', 'The system cannot find the file specified.')`. */
  predicate IsFileNotFound(a: Attempt)
  {
    a == WinError(2, "CreateFile", NOT_FOUND_MESSAGE)
  }

  /** The first attempt that ends the retry loop: one that returned a handle or
      raised something other than a `pywintypes.error`. `|attempts|` if none. */
  function FirstDecisive(attempts: seq<Attempt>): (k: nat)
    ensures k <= |attempts|
    ensures forall i :: 0 <= i < k ==> attempts[i].WinError?
    ensures k < |attempts| ==> !attempts[k].WinError?
  {
    if attempts == [] || !attempts[0].WinError? then 0 else 1 + FirstDecisive(attempts[1..])
  }

  /** How many of `attempts` are the not-found error. */
  function NotFoundCount(attempts: seq<Attempt>): (n: nat)
    ensures n <= |attempts|
  {
    if attempts == [] then 0
    else NotFoundCount(attempts[..|attempts| - 1]) + (if IsFileNotFound(attempts[|attempts| - 1]) then 1 else 0)
  }

  class PipeClient {
    const pipeName: string
    const timeOut: int
    var pipeHandle: Option<Handle>
    var incomingText: Option<string>
    var readThread: Worker
    /** The arguments of every `processIncomingMessages` call, in call order. */
    var dispatched: seq<string>
    /** The calls into the host's exception hook. */
    var events: seq<HostEvent>
    ghost var readsStarted: nat
    ghost var readsFinished: nat

    /** At most one read is in flight: every started read but the running one
        has finished, and a thread exists once the first read was started. */
    ghost predicate Valid()
      reads this
    {
      && readsStarted == readsFinished + (if readThread == Running then 1 else 0)
      && (readThread == NoWorker <==> readsStarted == 0)
    }

    constructor (pipeName: string, timeOut: int)
      ensures Valid()
      ensures this.pipeName == pipeName && this.timeOut == timeOut
      ensures pipeHandle == None && incomingText == None && readThread == NoWorker
      ensures dispatched == [] && events == []
    {
      this.pipeName := pipeName;
      this.timeOut := timeOut;
      pipeHandle := None;
      incomingText := None;
      readThread := NoWorker;
      dispatched := [];
      events := [];
      readsStarted := 0;
      readsFinished := 0;
    }

    /** `openPipe`: call `CreateFile` until it returns a handle. After the
        not-found error it sleeps 0.1 s, after any other `pywintypes.error` it
        retries at once. `attempts` are the outcomes of the calls that start
        before the deadline `timeOut` seconds ahead. Another kind of exception
        goes to the exception hook and ends the loop. Without a handle, the
        handle is reset to `None` and `RuntimeError('Timeout error opening pipe')`
        is raised. */
    method OpenPipe(attempts: seq<Attempt>) returns (result: OpenResult, sleeps: nat)
      modifies this`pipeHandle, this`events
      ensures var k := FirstDecisive(attempts);
              && sleeps == NotFoundCount(attempts[..k])
              && if k < |attempts| && attempts[k].Created? then
                   result == Connected && pipeHandle == Some(attempts[k].handle) && events == old(events)
                 else
                   && result == TimeoutError && pipeHandle == None
                   && events == old(events) + (if k < |attempts| then [ExceptionHook] else [])
    {
      var success := false;
      sleeps := 0;
      var i := 0;
      while i < |attempts|
        invariant 0 <= i <= FirstDecisive(attempts)
        invariant sleeps == NotFoundCount(attempts[..i])
        invariant events == old(events)
        decreases |attempts| - i
      {
        match attempts[i] {
          case Created(h) =>
            pipeHandle := Some(h);
            success := true;
            break;
          case WinError(_, _, _) =>
            if IsFileNotFound(attempts[i]) {
              sleeps := sleeps + 1;
            }
          case OtherException =>
            events := events + [ExceptionHook];
            break;
        }
        assert attempts[..i + 1][..i] == attempts[..i];
        i := i + 1;
      }
      if success {
        result := Connected;
      } else {
        pipeHandle := None;
        result := TimeoutError;
      }
    }

    /** The body of the read thread, `__readFromPipe`. Without a handle, or when
        `ReadFile` reports a non-zero code, the text becomes `None`. A `ReadFile`
        that raises ends the thread and leaves the previous text in place. */
    method CompleteRead(reply: ReadReply)
      requires Valid() && readThread == Running
      modifies this`incomingText, this`readThread, this`readsFinished
      ensures Valid() && readThread == Finished && readsFinished == old(readsFinished) + 1
      ensures pipeHandle.None? ==> incomingText == None
      ensures pipeHandle.Some? && reply.Received? ==>
                incomingText == (if reply.code == 0 then Some(reply.text) else None)
      ensures pipeHandle.Some? && reply.Raised? ==> incomingText == old(incomingText)
    {
      if pipeHandle.Some? {
        match reply
        case Received(code, text) =>
          incomingText := if code == 0 then Some(text) else None;
        case Raised =>
      } else {
        incomingText := None;
      }
      readThread := Finished;
      readsFinished := readsFinished + 1;
    }

    /** `readFromExcel`, called by the host at a regular cadence. With no thread
        yet it starts the first read. While the read is alive it does nothing.
        Once the read has finished it dispatches every piece of the text in
        payload order, empty pieces included, and starts exactly one new read,
        whether or not text arrived. */
    method ReadFromExcel()
      requires Valid()
      modifies this`readThread, this`dispatched, this`readsStarted
      ensures Valid() && readThread == Running
      ensures old(readThread) == NoWorker ==>
                dispatched == old(dispatched) && readsStarted == old(readsStarted) + 1
      ensures old(readThread) == Running ==>
                dispatched == old(dispatched) && readsStarted == old(readsStarted)
      ensures old(readThread) == Finished ==>
                && readsStarted == old(readsStarted) + 1
                && dispatched == old(dispatched) + (if incomingText.Some? then Split(incomingText.value) else [])
    {
      if readThread == NoWorker {
        readThread := Running;
        readsStarted := readsStarted + 1;
      } else if readThread == Finished {
        var messages := incomingText;
        if messages.Some? {
          var pieces := Split(messages.value);
          SplitPartsHaveNoSeparator(messages.value);
          for i := 0 to |pieces|
            invariant dispatched == old(dispatched) + pieces[..i]
            invariant readThread == Finished && readsStarted == old(readsStarted)
          {
            var message := RemoveSeparators(pieces[i]);
            RemoveSeparatorsAbsent(pieces[i]);
            dispatched := dispatched + [message];
            assert pieces[..i + 1] == pieces[..i] + [pieces[i]];
          }
          assert pieces[..|pieces|] == pieces;
        }
        readThread := Running;
        readsStarted := readsStarted + 1;
      }
    }

    /** One whole read cycle: the running read completes with `reply`, then the
        next poll dispatches. A good reply dispatches its pieces. A missing
        handle or a non-zero code dispatches nothing. A read that raised
        dispatches the previous payload again. */
    method ReadCycle(reply: ReadReply)
      requires Valid() && readThread == Running
      modifies this`incomingText, this`readThread, this`readsFinished, this`dispatched, this`readsStarted
      ensures Valid() && readThread == Running && readsStarted == old(readsStarted) + 1
      ensures pipeHandle.None? ==> incomingText == None
      ensures pipeHandle.Some? && reply.Received? ==>
                incomingText == (if reply.code == 0 then Some(reply.text) else None)
      ensures pipeHandle.Some? && reply.Raised? ==> incomingText == old(incomingText)
      ensures pipeHandle.None? || (reply.Received? && reply.code != 0) ==> dispatched == old(dispatched)
      ensures pipeHandle.Some? && reply.Received? && reply.code == 0 ==>
                dispatched == old(dispatched) + Split(reply.text)
      ensures pipeHandle.Some? && reply.Raised? ==>
                dispatched == old(dispatched) +
                              (if old(incomingText).Some? then Split(old(incomingText).value) else [])
    {
      CompleteRead(reply);
      ReadFromExcel();
    }
  }
}
