/** Session::handleWriting as a function of what its sendfile calls return, over any number
    of calls: the transfer of a slice of a file through a connection that takes bytes in
    whatever amounts it likes. */
module Transfers {
  import opened Bytes
  import Download

  datatype Status = READING | WRITING | END

  /** What a sendfile call comes back with: a positive count, EAGAIN, another error, or 0. */
  datatype SendResult = Moved(n: nat) | WouldBlock | Failure | Closed

  /** The session during a transfer: the file and its position, fileProcess->rest, and
      everything written to the connection. */
  datatype Transfer = Transfer(file: seq<byte>, pos: nat, rest: nat, status: Status, out: seq<byte>)

  /** Can these be the results of the sendfile calls of one handleWriting with `rest` bytes
      to go? */
  predicate Answers(rest: nat, results: seq<SendResult>)
    decreases |results|
  {
    if rest == 0 then results == []
    else
      results != [] &&
      match results[0]
      case Moved(n) => 1 <= n <= rest && Answers(rest - n, results[1..])
      case _ => |results| == 1
  }

  /** The loop; fileProcess->rest is only written back when the transfer has to wait. */
  function SendLoop(t: Transfer, rest: nat, results: seq<SendResult>): Transfer
    requires t.pos + rest <= |t.file| && Answers(rest, results)
    decreases |results|
  {
    if rest == 0 then t.(status := READING)
    else
      match results[0]
      case Moved(n) =>
        SendLoop(t.(pos := t.pos + n, out := t.out + t.file[t.pos..t.pos + n]), rest - n, results[1..])
      case WouldBlock => t.(rest := rest)
      case _ => t.(status := END)
  }

  function HandleWriting(t: Transfer, results: seq<SendResult>): Transfer
    requires t.pos + t.rest <= |t.file| && Answers(t.rest, results)
  {
    SendLoop(t, t.rest, results)
  }

  /** Successful sendfile calls that bring the bytes to go from `rest` down to `left`. */
  ghost predicate Moving(rest: nat, results: seq<SendResult>, left: nat)
    decreases |results|
  {
    if results == [] then left == rest
    else results[0].Moved? && 1 <= results[0].n <= rest && Moving(rest - results[0].n, results[1..], left)
  }

  lemma {:induction false} MovingMore(rest: nat, results: seq<SendResult>, left: nat, n: nat)
    requires Moving(rest, results, left) && 1 <= n <= left
    ensures Moving(rest, results + [Moved(n)], left - n)
    decreases |results|
  {
    if results == [] {
      assert (results + [Moved(n)])[1..] == [];
    } else {
      MovingMore(rest - results[0].n, results[1..], left, n);
      assert (results + [Moved(n)])[1..] == results[1..] + [Moved(n)];
    }
  }

  function Advanced(t: Transfer, n: nat): Transfer
    requires t.pos + n <= |t.file|
  {
    t.(pos := t.pos + n, out := t.out + t.file[t.pos..t.pos + n])
  }

  lemma {:induction false} MovingThen(t: Transfer, rest: nat, results: seq<SendResult>, left: nat,
                                      tail: seq<SendResult>)
    requires t.pos + rest <= |t.file| && Moving(rest, results, left) && Answers(left, tail)
    ensures left <= rest && Answers(rest, results + tail)
    ensures SendLoop(t, rest, results + tail) == SendLoop(Advanced(t, rest - left), left, tail)
    decreases |results|
  {
    if results == [] {
      assert results + tail == tail;
      assert t.out + t.file[t.pos..t.pos] == t.out;
    } else {
      var n := results[0].n;
      MovingThen(Advanced(t, n), rest - n, results[1..], left, tail);
      assert (results + tail)[1..] == results[1..] + tail;
      AdvancedMore(t, n, rest - n - left);
    }
  }

  lemma MovingNone(t: Transfer, rest: nat)
    requires t.pos <= |t.file|
    ensures Moving(rest, [], rest) && Advanced(t, 0) == t
  {
    assert t.out + t.file[t.pos..t.pos] == t.out;
  }

  lemma AdvancedMore(t: Transfer, n: nat, m: nat)
    requires t.pos + n + m <= |t.file|
    ensures Advanced(Advanced(t, n), m) == Advanced(t, n + m)
  {
    assert t.file[t.pos..t.pos + n] + t.file[t.pos + n..t.pos + n + m] == t.file[t.pos..t.pos + n + m];
  }

  /** A handleWriting whose last sendfile does not transfer anything. */
  lemma Ends(t: Transfer, results: seq<SendResult>, left: nat, last: SendResult)
    requires t.pos + t.rest <= |t.file| && Moving(t.rest, results, left) && left > 0 && !last.Moved?
    ensures left <= t.rest && Answers(t.rest, results + [last])
    ensures HandleWriting(t, results + [last])
         == var t' := Advanced(t, t.rest - left); if last.WouldBlock? then t'.(rest := left) else t'.(status := END)
  {
    MovingThen(t, t.rest, results, left, [last]);
  }

  lemma Completes(t: Transfer, results: seq<SendResult>)
    requires t.pos + t.rest <= |t.file| && Moving(t.rest, results, 0)
    ensures Answers(t.rest, results)
    ensures HandleWriting(t, results) == Advanced(t, t.rest).(status := READING)
  {
    MovingThen(t, t.rest, results, 0, []);
    assert results + [] == results;
  }

  /** handleWriting in its loop, with `rest` bytes to go: what it has sent since `start`. */
  ghost predicate Underway(start: Transfer, now: Transfer, rest: nat, results: seq<SendResult>) {
    && rest <= start.rest && start.pos + start.rest <= |start.file|
    && Moving(start.rest, results, rest) && now == Advanced(start, start.rest - rest)
  }

  lemma UnderwayStart(t: Transfer)
    requires t.pos + t.rest <= |t.file|
    ensures Underway(t, t, t.rest, [])
  {
    MovingNone(t, t.rest);
  }

  lemma UnderwayMore(start: Transfer, now: Transfer, rest: nat, results: seq<SendResult>, n: nat)
    requires Underway(start, now, rest, results) && 1 <= n <= rest && now.pos + n <= |now.file|
    ensures Underway(start, now.(pos := now.pos + n, out := now.out + now.file[now.pos..now.pos + n]),
                     rest - n, results + [Moved(n)])
  {
    MovingMore(start.rest, results, rest, n);
    AdvancedMore(start, start.rest - rest, n);
  }

  lemma UnderwayEnds(start: Transfer, now: Transfer, rest: nat, results: seq<SendResult>, last: SendResult)
    requires Underway(start, now, rest, results) && rest > 0 && !last.Moved?
    ensures start.pos + start.rest <= |start.file| && Answers(start.rest, results + [last])
    ensures HandleWriting(start, results + [last])
         == if last.WouldBlock? then now.(rest := rest) else now.(status := END)
  {
    Ends(start, results, rest, last);
  }

  lemma UnderwayDone(start: Transfer, now: Transfer, results: seq<SendResult>)
    requires Underway(start, now, 0, results)
    ensures start.pos + start.rest <= |start.file| && Answers(start.rest, results)
    ensures HandleWriting(start, results) == now.(status := READING)
  {
    Completes(start, results);
  }

  /** There is always as much left in the file as is to go. */
  lemma UnderwayFits(start: Transfer, now: Transfer, rest: nat, results: seq<SendResult>)
    requires Underway(start, now, rest, results)
    ensures now.pos + rest <= |now.file|
  {
  }

  /** Some number of handle calls in a row, each made while the session is WRITING. */
  ghost predicate Calls(t: Transfer, calls: seq<seq<SendResult>>)
    decreases |calls|
  {
    calls == [] ||
    (t.status == WRITING && t.pos + t.rest <= |t.file| && Answers(t.rest, calls[0])
     && Calls(HandleWriting(t, calls[0]), calls[1..]))
  }

  ghost function AfterCalls(t: Transfer, calls: seq<seq<SendResult>>): Transfer
    requires Calls(t, calls)
    decreases |calls|
  {
    if calls == [] then t else AfterCalls(HandleWriting(t, calls[0]), calls[1..])
  }

  function Total(results: seq<SendResult>): nat {
    if results == [] then 0 else (if results[0].Moved? then results[0].n else 0) + Total(results[1..])
  }

  predicate Broken(results: seq<SendResult>) {
    results != [] && (results[|results| - 1].Failure? || results[|results| - 1].Closed?)
  }

  lemma BrokenTail(results: seq<SendResult>)
    ensures results == [] ==> !Broken(results)
    ensures results != [] && results[0].Moved? ==> (Broken(results) <==> Broken(results[1..]))
  {
    if |results| > 1 {
      assert results[1..][|results[1..]| - 1] == results[|results| - 1];
    } else if |results| == 1 {
      assert results[1..] == [];
    }
  }

  lemma BrokenLast(r: SendResult)
    ensures Broken([r]) <==> r.Failure? || r.Closed?
  {
  }

  /** One call sends the next Total(results) bytes of the slice. */
  lemma {:induction false} OneCall(t: Transfer, rest: nat, results: seq<SendResult>)
    requires t.status == WRITING && t.pos + rest <= |t.file| && Answers(rest, results)
    ensures var n := Total(results);
            var t' := SendLoop(t, rest, results);
            && n <= rest && t'.file == t.file && t'.pos == t.pos + n
            && t'.out == t.out + t.file[t.pos..t.pos + n]
            && t'.status == (if n == rest then READING else if Broken(results) then END else WRITING)
            && t'.rest == (if t'.status == WRITING then rest - n else t.rest)
            && (n == rest ==> !Broken(results))
    decreases |results|
  {
    hide Broken;
    if rest > 0 && results[0].Moved? {
      var n := results[0].n;
      OneCall(Advanced(t, n), rest - n, results[1..]);
      AdvancedMore(t, n, Total(results[1..]));
      BrokenTail(results);
    } else if rest > 0 {
      assert results[1..] == [];
      BrokenLast(results[0]);
      assert results == [results[0]];
    } else {
      assert t.out + t.file[t.pos..t.pos] == t.out;
      BrokenTail(results);
    }
  }

  /** Slice transfer: whatever the sendfile results, over any number of handle calls, the
      bytes sent after what was sent before are a prefix of file[offset..offset + size);
      while WRITING they and fileProcess->rest add up to size; and after at least one call
      the session is READING again exactly when the whole slice is sent, ENDed exactly when
      the last call met a closed or failing connection before that. */
  lemma {:induction false} SliceTransfer(t: Transfer, head: seq<byte>, offset: nat, size: nat,
                                         calls: seq<seq<SendResult>>)
    requires offset + size <= |t.file| && Calls(t, calls)
    requires t.status == WRITING && offset <= t.pos && t.pos + t.rest == offset + size
    requires t.out == head + t.file[offset..t.pos]
    ensures var t' := AfterCalls(t, calls);
            && offset <= t'.pos <= offset + size
            && t'.out == head + t.file[offset..t'.pos]
            && (t'.status == WRITING ==> t'.pos + t'.rest == offset + size)
            && (calls != [] ==> (t'.status == READING <==> t'.pos == offset + size))
            && (t'.status == END <==> calls != [] && Broken(calls[|calls| - 1]))
    decreases |calls|
  {
    if calls != [] {
      OneCall(t, t.rest, calls[0]);
      var t1 := HandleWriting(t, calls[0]);
      assert t1.out == head + t.file[offset..t1.pos] by {
        assert t.file[offset..t.pos] + t.file[t.pos..t1.pos] == t.file[offset..t1.pos];
      }
      if calls[1..] == [] {
        assert AfterCalls(t, calls) == t1;
      } else {
        assert t1.status == WRITING;
        hide HandleWriting, Answers, SendLoop;
        SliceTransfer(t1, head, offset, size, calls[1..]);
      }
    }
  }

  /** However the transfer was chunked, a session that is READING again has sent the same. */
  lemma ChunkingIsInvisible(t: Transfer, xs: seq<seq<SendResult>>, ys: seq<seq<SendResult>>)
    requires t.status == WRITING && t.pos + t.rest <= |t.file| && Calls(t, xs) && Calls(t, ys)
    requires AfterCalls(t, xs).status == READING && AfterCalls(t, ys).status == READING
    ensures AfterCalls(t, xs).out == AfterCalls(t, ys).out == t.out + t.file[t.pos..t.pos + t.rest]
  {
    assert t.out == t.out + t.file[t.pos..t.pos];
    SliceTransfer(t, t.out, t.pos, t.rest, xs);
    SliceTransfer(t, t.out, t.pos, t.rest, ys);
  }

  // The same transfer as seen by the client's connection

  /** Every positive sendfile result as one Send step of the download machine. */
  ghost predicate Carried(l: Download.Link, src: seq<byte>, results: seq<SendResult>, l': Download.Link)
    decreases |results|
  {
    if results == [] || !results[0].Moved? then l' == l
    else
      var n := results[0].n;
      && l.LiveLink? && l.server.Sending? && 1 <= n <= l.server.rest && l.server.pos + n <= |src|
      && Carried(Download.Transmit(l, src, n), src, results[1..], l')
  }

  /** The connection of a transfer: the bytes sent, and what the session still has to send. */
  function LinkOf(t: Transfer, up: seq<byte>): Download.Link {
    Download.LiveLink(up, t.out,
      if t.status == WRITING && t.rest > 0 then Download.Sending(t.pos, t.rest) else Download.Reading)
  }

  /** One handleWriting that does not break the connection is a series of Send steps of the
      download machine between the corresponding connections. */
  lemma {:induction false} CallIsSends(t: Transfer, rest: nat, results: seq<SendResult>, up: seq<byte>)
    requires t.status == WRITING && 0 < rest && t.pos + rest <= |t.file| && Answers(rest, results) && !Broken(results)
    ensures Carried(LinkOf(t.(rest := rest), up), t.file, results, LinkOf(SendLoop(t, rest, results), up))
    decreases |results|
  {
    if results[0].Moved? {
      var n := results[0].n;
      var sent := t.(pos := t.pos + n, out := t.out + t.file[t.pos..t.pos + n]);
      if rest > n {
        assert results[1..] != [] && results[1..][|results[1..]| - 1] == results[|results| - 1];
        CallIsSends(sent, rest - n, results[1..], up);
      }
    }
  }
}
