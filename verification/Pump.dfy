/** read_write_child of lib/src/utils/execution.cc: the select loop that feeds a child's stdin
    and hands its stdout and stderr to the framer, against any behaviour of the kernel, the
    child and the user's callbacks. */
module Pump {
  import opened Text
  import opened Framer
  import opened Framing

  const BUFFER_SIZE := 4096

  /** Why the loop returned. */
  datatype Exit = AllClosed | SelectFailed | IoFailed | CallbackStopped

  /** select(): which descriptors are ready and whether the call fails is open; so is the
      (finite) number of timeouts. */
  class Kernel {
    var timeouts: nat             // how often select may still time out
    ghost var readyRounds: nat    // how often it has reported a ready descriptor
    ghost var failed: bool        // whether a call has returned a negative number

    constructor (patience: nat)
      ensures readyRounds == 0 && !failed
    {
      timeouts, readyRounds, failed := patience, 0, false;
    }

    method Select(count: int, readSet: set<int>, writeSet: set<int>) returns (result: int, ready: set<int>)
      requires readSet + writeSet != {} && forall fd | fd in readSet + writeSet :: 0 <= fd < count
      modifies this
      ensures result > 0 ==> {} < ready <= readSet + writeSet && readyRounds == old(readyRounds) + 1
      ensures result <= 0 ==> readyRounds == old(readyRounds)
      ensures result == 0 ==> timeouts < old(timeouts)
      ensures result != 0 ==> timeouts == old(timeouts)
      ensures failed == (old(failed) || result < 0)
    {
      ready := {};
      if * {
        failed := true;
        return -1, {};
      }
      if 0 < timeouts {
        if * {
          timeouts := timeouts - 1;
          return 0, {};
        }
      }
      assert {} < readSet + writeSet;
      ready :| {} < ready <= readSet + writeSet;
      result := |ready|;
      readyRounds := readyRounds + 1;
    }
  }

  lemma OneMoreChunk(chunks: seq<string>, chunk: string)
    ensures Concat(chunks + [chunk]) == Concat(chunks) + chunk
  {
    assert (chunks + [chunk])[..|chunks|] == chunks;
  }

  lemma ReadStep(moved: string, unread: string, chunks: seq<string>, count: nat)
    requires count <= |unread|
    ensures moved + unread[..count] + unread[count..] == moved + unread
    ensures Concat(chunks + [unread[..count]]) == Concat(chunks) + unread[..count]
  {
    Halves(unread, count);
    Associative(moved, unread[..count], unread[count..]);
    OneMoreChunk(chunks, unread[..count]);
  }

  /** struct descriptor (lib/include/utils/execution.hpp) with the pipe behind it. For a read
      end, `lines` is the buffer its callback captures, `unread` what the child has yet to
      deliver, `moved` what read() has handed out and `chunks` what the callback was handed;
      for the write end, `moved` is what write() has accepted. `all` is the whole text. */
  class Descriptor {
    const channel: Channel
    const read: bool
    const lines: LineBuffer
    var fd: int
    var buffer: string
    var unread: string
    ghost const all: string
    ghost var moved: string
    ghost var chunks: seq<string>
    ghost var failed: bool        // whether a read or write here has returned a negative number

    constructor Reader(fd: int, channel: Channel, lines: LineBuffer, output: string)
      requires 0 <= fd
      ensures this.fd == fd && this.channel == channel && read && this.lines == lines
      ensures all == output && chunks == [] && !failed && Intact() && Work() <= |output| + 1
    {
      this.fd, this.channel, read, this.lines := fd, channel, true, lines;
      buffer, unread, all, moved, chunks, failed := [], output, output, [], [], false;
    }

    constructor Writer(fd: int, buffer: string, lines: LineBuffer)
      requires fd < 0 ==> buffer == []
      ensures this.fd == fd && channel == Stdin && !read
      ensures all == buffer && !failed && Intact() && Work() <= |buffer| + 1
    {
      this.fd, channel, read, this.lines := fd, Stdin, false, lines;
      this.buffer, unread, all, moved, chunks, failed := buffer, [], buffer, [], [], false;
    }

    /** No byte is lost, repeated or reordered: what a read end handed out is what its callback
        was handed, and with what is still to come it is all the child writes; what a write end
        accepted and what is left in the buffer make up the input. A read end is closed only at
        end of file, the write end only when its buffer is empty. */
    ghost predicate Intact()
      reads this
    {
      Consistent(chunks)
    }

    ghost predicate Consistent(chunks: seq<string>)
      reads this
    {
      && moved + Left() == all
      && (read ==> Concat(chunks) == moved)
      && (fd < 0 ==> Left() == [])
    }

    ghost function Left(): string
      reads this
    {
      if read then unread else buffer
    }

    /** What still can happen here: bytes to move, and the closing. */
    ghost function Work(): nat
      reads this
    {
      |Left()| + if fd < 0 then 0 else 1
    }

    ghost function OpenFd(): set<int>
      reads this`fd
    {
      if fd < 0 then {} else {fd}
    }

    method Release()
      modifies this`fd
      ensures fd == -1
    {
      fd := -1;
    }

    /** d.buffer.resize(4096) and read() into it: any positive number of bytes, end of file only
        when nothing is left, or a failure. */
    method Read() returns (count: int)
      requires read && 0 <= fd && Intact()
      modifies this`buffer, this`unread, this`moved, this`failed
      ensures failed == (old(failed) || count < 0)
      ensures count <= 0 ==> Intact() && Work() == old(Work())
      ensures count == 0 ==> Left() == []
      ensures count > 0 ==> count == |buffer| <= 4096 && Consistent(chunks + [buffer]) && Work() < old(Work())
    {
      buffer := seq(BUFFER_SIZE, _ => '\0');
      if * {
        failed := true;
        return -1;
      }
      if unread == [] {
        return 0;
      }
      count :| 1 <= count <= |unread| && count <= |buffer|;
      buffer := unread[..count];
      ReadStep(moved, unread, chunks, count);
      moved, unread := moved + buffer, unread[count..];
    }

    /** write() of the buffer: any positive number of bytes, 0 for none, or a failure. */
    method Write() returns (count: int)
      requires !read && 0 <= fd && Intact()
      modifies this`moved, this`failed
      ensures failed == (old(failed) || count < 0)
      ensures 0 <= count ==> count <= |buffer| && moved == old(moved) + buffer[..count]
      ensures count < 0 ==> moved == old(moved)
      ensures count == 0 ==> buffer == []
    {
      if * {
        failed := true;
        return -1;
      }
      if buffer == [] {
        return 0;
      }
      count :| 1 <= count <= |buffer|;
      moved := moved + buffer[..count];
    }
  }

  // ---------------------------------------------------------------- what every step keeps

  /** The callback of one stream has seen exactly the lines its own chunks complete, or the
      first part of them that ends with the line it refused. */
  ghost predicate StreamFramed(log: seq<Call>, channel: Channel, chunks: seq<string>) {
    if Stopped(log) && log[|log| - 1].channel == channel
    then LinesTo(log, channel) <= Delivery(chunks)
    else LinesTo(log, channel) == Delivery(chunks)
  }

  lemma {:induction false} LinesOfCalls(log: seq<Call>, calls: seq<Call>, channel: Channel, lines: seq<string>, c: Channel)
    requires |calls| == |lines|
    requires forall i | 0 <= i < |calls| :: calls[i].channel == channel && calls[i].line == lines[i]
    ensures LinesTo(log + calls, c) == LinesTo(log, c) + if c == channel then lines else []
  {
    if calls == [] {
      assert log + calls == log && lines == [];
    } else {
      var n := |calls| - 1;
      var before, call := log + calls[..n], calls[n];
      assert log + calls == before + [call];
      LogGrows(before, call);
      LinesOfCalls(log, calls[..n], channel, lines[..n], c);
      Associative(LinesTo(log, c), lines[..n], [lines[n]]);
      assert lines[..n] + [lines[n]] == lines;
    }
  }

  /** The calls for one chunk, appended to a log that had not stopped. */
  lemma CallsExtendLog(log: seq<Call>, calls: seq<Call>, channel: Channel, lines: seq<string>, more: bool)
    requires StopsAtFirstRefusal(log) && !Stopped(log) && Delivered(calls, channel, lines, more)
    ensures StopsAtFirstRefusal(log + calls) && (Stopped(log + calls) <==> !more)
    ensures !more ==> (log + calls)[|log + calls| - 1].channel == channel
    ensures LinesTo(log + calls, channel) == LinesTo(log, channel) + lines[..|calls|]
    ensures forall c | c != channel :: LinesTo(log + calls, c) == LinesTo(log, c)
  {
    LinesOfCalls(log, calls, channel, lines[..|calls|], channel);
    forall c | c != channel ensures LinesTo(log + calls, c) == LinesTo(log, c) {
      LinesOfCalls(log, calls, channel, lines[..|calls|], c);
      assert LinesTo(log, c) + [] == LinesTo(log, c);
    }
    assert calls == [] ==> log + calls == log;
  }

  /** Feeding a chunk keeps its stream framed and does not touch the other one. */
  lemma ChunkKeepsFraming(log: seq<Call>, calls: seq<Call>, channel: Channel, chunks: seq<string>, data: string, more: bool,
                          other: Channel, otherChunks: seq<string>)
    requires other != channel && StreamFramed(log, other, otherChunks)
    requires StopsAtFirstRefusal(log) && !Stopped(log) && StreamFramed(log, channel, chunks)
    requires Delivered(calls, channel, CompletedLines(PendingAfter([], KeptText(chunks)), Kept(data)), more)
    ensures StopsAtFirstRefusal(log + calls) && (Stopped(log + calls) <==> !more)
    ensures StreamFramed(log + calls, channel, chunks + [data])
    ensures StreamFramed(log + calls, other, otherChunks)
    ensures PendingAfter([], KeptText(chunks + [data])) == PendingAfter(PendingAfter([], KeptText(chunks)), Kept(data))
  {
    var lines := CompletedLines(PendingAfter([], KeptText(chunks)), Kept(data));
    CallsExtendLog(log, calls, channel, lines, more);
    DeliveryGrows(chunks, data);
    PrefixOfMore(LinesTo(log, channel), lines, |calls|);
  }

  lemma PrefixOfMore<T>(before: seq<T>, more: seq<T>, n: nat)
    requires n <= |more|
    ensures before + more[..n] <= before + more && (n == |more| ==> before + more[..n] == before + more)
  {
    assert n == |more| ==> more[..n] == more;
  }

  predicate IsReady(fd: int, ready: set<int>) {
    0 <= fd && fd in ready
  }

  lemma SomeReady(a: int, b: int, c: int, ready: set<int>)
    requires {} < ready <= (if a < 0 then {} else {a}) + (if b < 0 then {} else {b}) + (if c < 0 then {} else {c})
    ensures IsReady(a, ready) || IsReady(b, ready) || IsReady(c, ready)
  {
    EmptyOrNot(ready);
    var fd :| fd in ready;
  }

  /** A chunk of one stream goes to process_line with the stream's buffer. */
  method Feed(d: Descriptor, client: Client, data: string, ghost other: Channel, ghost otherChunks: seq<string>)
    returns (more: bool)
    requires other != d.channel && StopsAtFirstRefusal(client.log) && !Stopped(client.log)
    requires StreamFramed(client.log, d.channel, d.chunks) && StreamFramed(client.log, other, otherChunks)
    requires d.lines.text == PendingAfter([], KeptText(d.chunks))
    modifies d`chunks, d.lines, client
    ensures StopsAtFirstRefusal(client.log) && (Stopped(client.log) <==> !more)
    ensures StreamFramed(client.log, d.channel, d.chunks) && StreamFramed(client.log, other, otherChunks)
    ensures more ==> d.lines.text == PendingAfter([], KeptText(d.chunks))
    ensures d.chunks == old(d.chunks) + [data]
  {
    ghost var log, calls := client.log, [];
    more, calls := ProcessLine(data, d.lines, client, d.channel);
    ChunkKeepsFraming(log, calls, d.channel, d.chunks, data, more, other, otherChunks);
    d.chunks := d.chunks + [data];
  }

  // ---------------------------------------------------------------- one call of for_each_line

  /** The state of execute and for_each_line: three descriptors with the line buffers their
      callbacks capture, the user's callbacks, and the kernel. */
  class Session {
    const kernel: Kernel
    const client: Client
    const out: Descriptor
    const err: Descriptor
    const inp: Descriptor

    /** The array of three descriptors the loops range over. */
    function Fds(): seq<Descriptor> {
      [out, err, inp]
    }

    ghost predicate Wired()
      reads out`fd, err`fd, inp`fd
    {
      && out != err && out != inp && err != inp && out.lines != err.lines
      && out.read && out.channel == Stdout
      && err.read && err.channel == Stderr
      && !inp.read
      && -1 <= out.fd && -1 <= err.fd && -1 <= inp.fd
      && (0 <= out.fd ==> out.fd != err.fd && out.fd != inp.fd)
      && (0 <= err.fd ==> err.fd != inp.fd)
    }

    ghost predicate Conserved()
      reads out, err, inp
    {
      out.Intact() && err.Intact() && inp.Intact()
    }

    ghost predicate Framed()
      reads client, out`chunks, err`chunks
    {
      && StopsAtFirstRefusal(client.log)
      && StreamFramed(client.log, Stdout, out.chunks)
      && StreamFramed(client.log, Stderr, err.chunks)
    }

    ghost predicate Pending()
      reads client, out`chunks, err`chunks, out.lines, err.lines
    {
      && !Stopped(client.log)
      && out.lines.text == PendingAfter([], KeptText(out.chunks))
      && err.lines.text == PendingAfter([], KeptText(err.chunks))
    }

    /** A read or write has failed. */
    ghost predicate Broken()
      reads out`failed, err`failed, inp`failed
    {
      out.failed || err.failed || inp.failed
    }

    ghost function OpenFds(): set<int>
      reads out`fd, err`fd, inp`fd
    {
      out.OpenFd() + err.OpenFd() + inp.OpenFd()
    }

    ghost function Work(): nat
      reads out, err, inp
    {
      out.Work() + err.Work() + inp.Work()
    }

    /** execute: three pipes and, when there is no input, a closed stdin. */
    constructor (outFd: int, output: string, errFd: int, errors: string, inFd: int, input: Option<string>, patience: nat)
      requires 0 <= outFd && 0 <= errFd && 0 <= inFd && outFd != errFd && inFd !in {outFd, errFd}
      ensures fresh(kernel) && fresh(client) && fresh(out) && fresh(err) && fresh(inp)
      ensures fresh(out.lines) && fresh(err.lines)
      ensures out.all == output && err.all == errors && inp.all == Input(input)
      ensures Wired() && Conserved() && Framed() && Pending()
      ensures client.log == [] && kernel.readyRounds == 0 && !kernel.failed && !Broken()
      ensures Work() <= |output| + |errors| + |inp.all| + 3
    {
      kernel := new Kernel(patience);
      client := new Client();
      var outLines := new LineBuffer();
      var errLines := new LineBuffer();
      out := new Descriptor.Reader(outFd, Stdout, outLines, output);
      err := new Descriptor.Reader(errFd, Stderr, errLines, errors);
      if input.Some? {
        inp := new Descriptor.Writer(inFd, input.value, outLines);
      } else {
        inp := new Descriptor.Writer(-1, [], outLines);
      }
    }

    /** new_stdout_cb and new_stderr_cb: the chunk goes to process_line with the stream's buffer. */
    method Callback(d: Descriptor, data: string) returns (more: bool)
      requires d in {out, err}
      requires Wired() && Framed() && Pending()
      modifies d`chunks, d.lines, client
      ensures Framed()
      ensures if more then Pending() else Stopped(client.log)
      ensures d.chunks == old(d.chunks) + [data]
    {
      if d == out {
        more := Feed(out, client, data, Stderr, err.chunks);
      } else {
        more := Feed(err, client, data, Stdout, out.chunks);
      }
    }

    /** The body of the inner loop for a ready descriptor. */
    method Service(d: Descriptor) returns (exit: Option<Exit>)
      requires d in {out, err, inp} && 0 <= d.fd
      requires Wired() && Conserved() && Framed() && Pending()
      modifies d, out.lines, err.lines, client
      ensures Wired() && Conserved() && Framed()
      ensures if exit == Some(CallbackStopped) then Stopped(client.log) else Pending()
      ensures exit in {None, Some(IoFailed), Some(CallbackStopped)}
      ensures Broken() <==> old(Broken()) || exit == Some(IoFailed)
      ensures exit.None? ==> Work() < old(Work())
    {
      if d.read {
        exit := ServiceRead(d);
      } else {
        exit := ServiceWrite();
      }
    }

    method ServiceRead(d: Descriptor) returns (exit: Option<Exit>)
      requires d in {out, err} && 0 <= d.fd
      requires Wired() && d.Intact() && Framed() && Pending()
      modifies d, d.lines, client
      ensures Wired() && d.Intact() && Framed()
      ensures if exit == Some(CallbackStopped) then Stopped(client.log) else Pending()
      ensures exit in {None, Some(IoFailed), Some(CallbackStopped)}
      ensures d.failed <==> old(d.failed) || exit == Some(IoFailed)
      ensures exit.None? ==> d.Work() < old(d.Work())
    {
      var count := d.Read();
      if count < 0 {
        return Some(IoFailed);
      }
      if count == 0 {
        d.Release();
        return None;
      }
      exit := HandOver(d);
    }

    /** Lines 226-229: the chunk that was read goes to the callback. */
    method HandOver(d: Descriptor) returns (exit: Option<Exit>)
      requires d in {out, err}
      requires Wired() && Framed() && Pending() && d.Consistent(d.chunks + [d.buffer])
      modifies d`chunks, d.lines, client
      ensures d.Intact() && Framed()
      ensures exit in {None, Some(CallbackStopped)}
      ensures if exit.Some? then Stopped(client.log) else Pending()
    {
      var more := Callback(d, d.buffer);
      exit := if more then None else Some(CallbackStopped);
    }

    method ServiceWrite() returns (exit: Option<Exit>)
      requires 0 <= inp.fd
      requires Wired() && inp.Intact()
      modifies inp
      ensures Wired() && inp.Intact()
      ensures exit in {None, Some(IoFailed)}
      ensures inp.failed <==> old(inp.failed) || exit == Some(IoFailed)
      ensures exit.None? ==> inp.Work() < old(inp.Work())
    {
      var count := inp.Write();
      if count < 0 {
        return Some(IoFailed);
      }
      if count == 0 {
        inp.Release();
        return None;
      }
      inp.buffer := inp.buffer[count..];
      exit := None;
    }

    /** Lines 171-186: the sets for select and the largest open descriptor, -1 when all are closed. */
    method Watch() returns (readSet: set<int>, writeSet: set<int>, ndfs: int)
      requires Wired()
      ensures readSet == out.OpenFd() + err.OpenFd() && writeSet == inp.OpenFd()
      ensures readSet + writeSet == OpenFds() && (ndfs == -1 <==> OpenFds() == {})
      ensures ndfs == -1 || ndfs in OpenFds()
      ensures forall fd | fd in OpenFds() :: 0 <= fd <= ndfs
    {
      readSet, writeSet, ndfs := {}, {}, -1;
      for i := 0 to 3
        invariant readSet == (if 0 < i then out.OpenFd() else {}) + (if 1 < i then err.OpenFd() else {})
        invariant writeSet == if 2 < i then inp.OpenFd() else {}
        invariant ndfs == -1 || ndfs in readSet + writeSet
        invariant forall fd | fd in readSet + writeSet :: 0 <= fd <= ndfs
      {
        var d := Fds()[i];
        assert d == if i == 0 then out else if i == 1 then err else inp;
        if d.fd < 0 {
          assert d.OpenFd() == {};
          continue;
        }
        if d.read {
          readSet := readSet + {d.fd};
        } else {
          writeSet := writeSet + {d.fd};
        }
        assert d.OpenFd() == {d.fd};
        if d.fd > ndfs {
          ndfs := d.fd;
        }
      }
      EmptyOrNot(OpenFds());
    }

    /** Lines 204-206: a descriptor that is closed or not ready is passed over. */
    method Visit(d: Descriptor, ready: set<int>) returns (exit: Option<Exit>)
      requires d in {out, err, inp}
      requires Wired() && Conserved() && Framed() && Pending()
      modifies d, out.lines, err.lines, client
      ensures Wired() && Conserved() && Framed()
      ensures if exit == Some(CallbackStopped) then Stopped(client.log) else Pending()
      ensures exit in {None, Some(IoFailed), Some(CallbackStopped)}
      ensures Broken() <==> old(Broken()) || exit == Some(IoFailed)
      ensures exit.None? && IsReady(old(d.fd), ready) ==> Work() < old(Work())
      ensures !IsReady(old(d.fd), ready) ==> exit.None? && Work() == old(Work()) && client.log == old(client.log)
    {
      if d.fd == -1 || d.fd !in ready {
        return None;
      }
      exit := Service(d);
    }

    /** Lines 203-235: the range-for over the array of three, after select reported some ready. */
    method ServiceReady(ready: set<int>) returns (exit: Option<Exit>)
      requires {} < ready <= OpenFds()
      requires Wired() && Conserved() && Framed() && Pending()
      modifies out, err, inp, out.lines, err.lines, client
      ensures Wired() && Conserved() && Framed()
      ensures if exit == Some(CallbackStopped) then Stopped(client.log) else Pending()
      ensures exit in {None, Some(IoFailed), Some(CallbackStopped)}
      ensures Broken() <==> old(Broken()) || exit == Some(IoFailed)
      ensures exit.None? ==> Work() < old(Work())
    {
      SomeReady(out.fd, err.fd, inp.fd, ready);
      ghost var outReady, errReady, work := IsReady(out.fd, ready), IsReady(err.fd, ready), Work();
      exit := Visit(out, ready);
      if exit.Some? {
        return;
      }
      assert Work() <= work && (outReady ==> Work() < work);
      exit := Visit(err, ready);
      if exit.Some? {
        return;
      }
      assert Work() <= work && (outReady || errReady ==> Work() < work);
      exit := Visit(inp, ready);
    }

    /** The body of the outer loop: one call of select and what follows. */
    method Round() returns (exit: Option<Exit>)
      requires Wired() && Conserved() && Framed() && Pending()
      modifies kernel, out, err, inp, out.lines, err.lines, client
      ensures Wired() && Conserved() && Framed()
      ensures if exit == Some(CallbackStopped) then Stopped(client.log) else Pending()
      ensures exit == Some(AllClosed) ==> OpenFds() == {}
      ensures kernel.failed <==> old(kernel.failed) || exit == Some(SelectFailed)
      ensures Broken() <==> old(Broken()) || exit == Some(IoFailed)
      ensures exit.None? ==> kernel.timeouts + Work() < old(kernel.timeouts + Work())
      ensures exit.None? ==> kernel.readyRounds + Work() <= old(kernel.readyRounds + Work())
      ensures exit.Some? ==> kernel.readyRounds <= old(kernel.readyRounds + Work())
    {
      var readSet, writeSet, ndfs := Watch();
      if ndfs == -1 {
        return Some(AllClosed);
      }
      var result, ready := kernel.Select(ndfs + 1, readSet, writeSet);
      if result < 0 {
        return Some(SelectFailed);
      } else if result == 0 {
        return None;
      }
      exit := ServiceReady(ready);
    }

    /** read_write_child. */
    method ReadWriteChild() returns (exit: Exit)
      requires Wired() && Conserved() && Framed() && Pending()
      modifies kernel, out, err, inp, out.lines, err.lines, client
      ensures Wired() && Conserved() && Framed()
      ensures if exit == CallbackStopped then Stopped(client.log) else Pending()
      ensures exit == AllClosed ==> OpenFds() == {}
      ensures kernel.failed <==> old(kernel.failed) || exit == SelectFailed
      ensures Broken() <==> old(Broken()) || exit == IoFailed
      ensures kernel.readyRounds <= old(kernel.readyRounds) + old(Work())
    {
      while true
        invariant Wired() && Conserved() && Framed() && Pending()
        invariant kernel.failed == old(kernel.failed) && Broken() == old(Broken())
        invariant kernel.readyRounds + Work() <= old(kernel.readyRounds + Work())
        decreases kernel.timeouts + Work()
      {
        var stop := Round();
        if stop.Some? {
          return stop.value;
        }
      }
    }
  }

  /** The four-callback for_each_line (lines 312-338), for every child output, every input, every
      behaviour of the kernel and every answer of the callbacks. */
  method ForEachLine(outFd: int, errFd: int, inFd: int, output: string, errors: string, input: Option<string>, patience: nat)
    returns (exit: Exit, log: seq<Call>,
             ghost outChunks: seq<string>, ghost errChunks: seq<string>, ghost accepted: string, ghost rounds: nat,
             ghost selectFailed: bool, ghost ioFailed: bool)
    requires 0 <= outFd && 0 <= errFd && 0 <= inFd && outFd != errFd && inFd !in {outFd, errFd}
    ensures StopsAtFirstRefusal(log) && (exit == CallbackStopped <==> Stopped(log))
    ensures (exit == SelectFailed <==> selectFailed) && (exit == IoFailed <==> ioFailed)
    ensures exit == AllClosed <==> !selectFailed && !ioFailed && !Stopped(log)
    ensures StreamFramed(log, Stdout, outChunks) && StreamFramed(log, Stderr, errChunks)
    ensures Concat(outChunks) <= output && Concat(errChunks) <= errors && accepted <= Input(input)
    ensures exit == AllClosed ==> Concat(outChunks) == output && Concat(errChunks) == errors && accepted == Input(input)
    ensures exit == AllClosed ==> (LinesTo(log, Stdout) == CompletedLines([], output) <==> NothingLost(outChunks))
    ensures exit == AllClosed ==> (LinesTo(log, Stderr) == CompletedLines([], errors) <==> NothingLost(errChunks))
    ensures exit == AllClosed && LaterLines(output) == [] ==> LinesTo(log, Stdout) == CompletedLines([], output)
    ensures exit == AllClosed && LaterLines(errors) == [] ==> LinesTo(log, Stderr) == CompletedLines([], errors)
    ensures rounds <= |output| + |errors| + |Input(input)| + 3
  {
    var run := new Session(outFd, output, errFd, errors, inFd, input, patience);
    exit := run.ReadWriteChild();
    log, outChunks, errChunks := run.client.log, run.out.chunks, run.err.chunks;
    accepted, rounds := run.inp.moved, run.kernel.readyRounds;
    selectFailed, ioFailed := run.kernel.failed, run.Broken();
    MovedPart(output, Concat(outChunks), run.out.Left());
    MovedPart(errors, Concat(errChunks), run.err.Left());
    MovedPart(Input(input), accepted, run.inp.Left());
    if exit == AllClosed {
      WholeOutputIff(log, Stdout, outChunks, output);
      WholeOutputIff(log, Stderr, errChunks, errors);
    }
  }

  lemma MovedPart(all: string, moved: string, left: string)
    requires moved + left == all
    ensures moved <= all && (left == [] ==> moved == all)
  {
    assert left == [] ==> moved + left == moved;
  }

  /** A run that no callback stopped delivers the lines of everything the child wrote if and only
      if the reads lost nothing, which is certain when only blank lines follow the first newline. */
  lemma WholeOutputIff(log: seq<Call>, channel: Channel, chunks: seq<string>, output: string)
    requires !Stopped(log) && StreamFramed(log, channel, chunks) && Concat(chunks) == output
    ensures LinesTo(log, channel) == CompletedLines([], output) <==> NothingLost(chunks)
    ensures LaterLines(output) == [] ==> LinesTo(log, channel) == CompletedLines([], output)
  {
    DeliversWholeTextIff(chunks);
    if LaterLines(output) == [] {
      HarmlessCut(chunks);
    }
  }

  function Input(input: Option<string>): string {
    if input.Some? then input.value else []
  }
}
