/**
 Feeding a frame reader from chunks: a coroutine that asks for bytes, and the compacting, doubling buffer
 that answers it. The buffer is a byte queue, and a reader of exact requests cannot tell how its bytes
 were cut.
 */
module FrameStream {
  import opened Wrappers

  newtype Byte = i: int | 0 <= i < 256

  type Bytes = seq<Byte>

  const MAX_SAFE: int := 0x1F_FFFF_FFFF_FFFF

  datatype Refusal = TrailingBytes | Truncated | NotAByteCount | ByReader(code: nat)

  /** What a reader does when resumed: ask for bytes (a positive number exactly, a negative one between one and its size, or zero),
      return, or throw. */
  datatype Step<S, T> = Ask(n: int, state: S) | Return(value: T) | Throw(code: nat)

  /** A reader. `quiet` bounds how often it asks for nothing before it asks for something or ends. */
  datatype Reader<!S, !T> = Reader(next: (S, Bytes) -> Step<S, T>, quiet: S -> nat)

  ghost predicate Settles<S(!new), T(!new)>(reader: Reader<S, T>) {
    forall s, t :: reader.next(s, []) == Ask(0, t) ==> reader.quiet(t) < reader.quiet(s)
  }

  predicate Safe(n: int) {
    -MAX_SAFE <= n <= MAX_SAFE
  }

  // ----- The byte queue

  datatype Phase<S, T> = Waiting(state: S, need: int) | Done(value: T) | Failed(error: Refusal)

  /** Where a step leads, through requests for nothing. */
  ghost function Settled<S(!new), T(!new)>(reader: Reader<S, T>, step: Step<S, T>): (phase: Phase<S, T>)
    requires Settles(reader)
    ensures phase.Waiting? ==> phase.need != 0
    decreases if step.Ask? && step.n == 0 then reader.quiet(step.state) + 1 else 0
  {
    match step
    case Return(value) => Done(value)
    case Throw(code) => Failed(ByReader(code))
    case Ask(n, state) =>
      if !Safe(n) then Failed(NotAByteCount)
      else if n != 0 then Waiting(state, n)
      else Settled(reader, reader.next(state, []))
  }

  ghost function Resumed<S(!new), T(!new)>(reader: Reader<S, T>, state: S, bytes: Bytes): (phase: Phase<S, T>)
    requires Settles(reader)
    ensures phase.Waiting? ==> phase.need != 0
  {
    Settled(reader, reader.next(state, bytes))
  }

  /** How many held bytes answer a request, if it can be answered. */
  function Taken(need: int, held: nat): (take: Option<nat>)
    ensures take.Some? && need != 0 ==> 0 < take.value <= held
  {
    if need > 0 then if held < need then None else Some(need)
    else if held == 0 then None
    else Some(if -need < held then -need else held)
  }

  /** A phase and the queue it leaves. */
  datatype Rest<S, T> = Rest(phase: Phase<S, T>, queue: Bytes)

  ghost predicate Answerable<S, T>(rest: Rest<S, T>) {
    rest.phase.Waiting? && rest.phase.need != 0 && Taken(rest.phase.need, |rest.queue|).Some?
  }

  /** Every request the queue can answer, answered from its front. */
  ghost function Drained<S(!new), T(!new)>(reader: Reader<S, T>, rest: Rest<S, T>): (after: Rest<S, T>)
    requires Settles(reader)
    ensures !Answerable(after) && (after.phase.Waiting? && rest.phase.Waiting? && rest.phase.need != 0 ==> after.phase.need != 0)
    decreases |rest.queue|
  {
    if !Answerable(rest) then rest
    else
      var take := Taken(rest.phase.need, |rest.queue|).value;
      Drained(reader, Rest(Resumed(reader, rest.phase.state, rest.queue[..take]), rest.queue[take..]))
  }

  /** The bytes handed to the reader meanwhile. */
  ghost function Handed<S(!new), T(!new)>(reader: Reader<S, T>, rest: Rest<S, T>): Bytes
    requires Settles(reader)
    decreases |rest.queue|
  {
    if !Answerable(rest) then []
    else
      var take := Taken(rest.phase.need, |rest.queue|).value;
      rest.queue[..take] + Handed(reader, Rest(Resumed(reader, rest.phase.state, rest.queue[..take]), rest.queue[take..]))
  }

  /** What is handed over and what stays held are the queue, in order. */
  lemma {:induction false} HandedInOrder<S(!new), T(!new)>(reader: Reader<S, T>, rest: Rest<S, T>)
    requires Settles(reader)
    ensures Handed(reader, rest) + Drained(reader, rest).queue == rest.queue
    decreases |rest.queue|
  {
    if Answerable(rest) {
      var take := Taken(rest.phase.need, |rest.queue|).value;
      var next := Rest(Resumed(reader, rest.phase.state, rest.queue[..take]), rest.queue[take..]);
      hide Resumed, Settles;
      HandedInOrder(reader, next);
      var front, handed, left := rest.queue[..take], Handed(reader, next), Drained(reader, next).queue;
      hide Drained, Handed;
      assert front + (handed + left) == (front + handed) + left;
      assert rest.queue == front + rest.queue[take..];
    }
  }

  // ----- Whole frames

  /** `feed`, of a phase and its queue. */
  ghost function Fed<S(!new), T(!new)>(reader: Reader<S, T>, rest: Rest<S, T>, chunk: Bytes): Result<Rest<S, T>, Refusal>
    requires Settles(reader)
  {
    if chunk == [] then Ok(rest)
    else if rest.phase.Done? then Err(TrailingBytes)
    else
      var after := Drained(reader, Rest(rest.phase, rest.queue + chunk));
      if after.phase.Failed? then Err(after.phase.error)
      else if after.phase.Done? && after.queue != [] then Err(TrailingBytes)
      else Ok(after)
  }

  /** `end`. */
  function Ended<S, T>(phase: Phase<S, T>): Result<T, Refusal> {
    if phase.Done? then Ok(phase.value) else Err(Truncated)
  }

  /** The outcome of feeding chunks and ending. */
  ghost function FedAll<S(!new), T(!new)>(reader: Reader<S, T>, rest: Rest<S, T>, chunks: seq<Bytes>): Result<T, Refusal>
    requires Settles(reader)
    decreases |chunks|
  {
    if chunks == [] then Ended(rest.phase)
    else
      var after := Fed(reader, rest, chunks[0]);
      if after.Err? then Err(after.error) else FedAll(reader, after.value, chunks[1..])
  }

  function Joined(chunks: seq<Bytes>): Bytes {
    if chunks == [] then [] else chunks[0] + Joined(chunks[1..])
  }

  /** The outcome of reading bytes already in memory. */
  ghost function Read<S(!new), T(!new)>(reader: Reader<S, T>, phase: Phase<S, T>, bytes: Bytes): Result<T, Refusal>
    requires Settles(reader)
  {
    var after := Drained(reader, Rest(phase, bytes));
    match after.phase
    case Failed(error) => Err(error)
    case Done(value) => if after.queue == [] then Ok(value) else Err(TrailingBytes)
    case Waiting(_, _) => Err(Truncated)
  }

  /** Every request is for an exact number of bytes, or none. */
  ghost predicate Exact<S(!new), T(!new)>(reader: Reader<S, T>) {
    forall s, bytes, n, t :: reader.next(s, bytes) == Ask(n, t) ==> n >= 0
  }

  ghost predicate AsksExactly<S, T>(phase: Phase<S, T>) {
    phase.Waiting? ==> phase.need > 0
  }

  lemma {:induction false} SettlesExactly<S(!new), T(!new)>(reader: Reader<S, T>, step: Step<S, T>)
    requires Settles(reader) && Exact(reader) && (step.Ask? ==> step.n >= 0)
    ensures AsksExactly(Settled(reader, step))
    decreases if step.Ask? && step.n == 0 then reader.quiet(step.state) + 1 else 0
  {
    if step.Ask? && step.n == 0 {
      SettlesExactly(reader, reader.next(step.state, []));
    }
  }

  lemma ResumesExactly<S(!new), T(!new)>(reader: Reader<S, T>, state: S, bytes: Bytes)
    requires Settles(reader) && Exact(reader)
    ensures AsksExactly(Resumed(reader, state, bytes))
  {
    SettlesExactly(reader, reader.next(state, bytes));
  }

  /** Draining early and again with more is draining once. */
  lemma {:induction false} DrainsOnce<S(!new), T(!new)>(reader: Reader<S, T>, rest: Rest<S, T>, more: Bytes)
    requires Settles(reader) && Exact(reader) && AsksExactly(rest.phase)
    ensures var early := Drained(reader, rest);
      && AsksExactly(early.phase)
      && Drained(reader, Rest(early.phase, early.queue + more)) == Drained(reader, Rest(rest.phase, rest.queue + more))
    decreases |rest.queue|
  {
    if Answerable(rest) {
      hide Resumed, Settles, Exact;
      var take := Taken(rest.phase.need, |rest.queue|).value;
      ResumesExactly(reader, rest.phase.state, rest.queue[..take]);
      var next := Rest(Resumed(reader, rest.phase.state, rest.queue[..take]), rest.queue[take..]);
      DrainsOnce(reader, next, more);
      assert (rest.queue + more)[..take] == rest.queue[..take];
      assert (rest.queue + more)[take..] == rest.queue[take..] + more;
    }
  }

  /** A reader of exact requests reads the same frame, or is refused the same way, however its bytes are
      cut into chunks. */
  lemma {:induction false} ChunksDoNotMatter<S(!new), T(!new)>(reader: Reader<S, T>, rest: Rest<S, T>, chunks: seq<Bytes>)
    requires Settles(reader) && Exact(reader) && AsksExactly(rest.phase) && !Answerable(rest)
    requires !rest.phase.Failed? && (rest.phase.Done? ==> rest.queue == [])
    ensures FedAll(reader, rest, chunks) == Read(reader, rest.phase, rest.queue + Joined(chunks))
    decreases |chunks|
  {
    hide Settles, Exact;
    if chunks == [] {
      assert rest.queue + Joined(chunks) == rest.queue;
    } else {
      var chunk, others := chunks[0], chunks[1..];
      assert (rest.queue + chunk) + Joined(others) == rest.queue + Joined(chunks);
      if chunk == [] {
        assert rest.queue + chunk == rest.queue;
        ChunksDoNotMatter(reader, rest, others);
      } else {
        var fed := Rest(rest.phase, rest.queue + chunk);
        DrainsOnce(reader, fed, Joined(others));
        if Fed(reader, rest, chunk).Ok? {
          ChunksDoNotMatter(reader, Drained(reader, fed), others);
        }
      }
    }
  }

  /** A reader that takes what there is does depend on it: this one returns how many bytes its one request
      was given. */
  function Counting(): Reader<bool, nat> {
    Reader((asked: bool, bytes: Bytes) => if asked then Return(|bytes|) else Ask(-2, true), asked => 0)
  }

  lemma InexactDepends()
    ensures Settles(Counting()) && !Exact(Counting())
    ensures var start := Rest(Resumed(Counting(), false, []), []);
      FedAll(Counting(), start, [[1, 2]]) == Ok(2) && FedAll(Counting(), start, [[1], [2]]) == Err(TrailingBytes)
  {
    assert Counting().next(false, []) == Ask(-2, true);
    var two, one: Bytes := [1, 2], [1];
    assert two[..2] == two && two[2..] == [];
    assert one[..1] == one && one[1..] == [];
    var start := Rest(Resumed(Counting(), false, []), []);
    assert start.phase == Waiting(true, -2);
    assert [] + two == two && [] + one == one;
    assert Drained(Counting(), Rest(start.phase, two)) == Rest(Done(2), []);
    assert Drained(Counting(), Rest(start.phase, one)) == Rest(Done(1), []);
    var after: Rest<bool, nat> := Rest(Done(1), []);
    assert [[1], [2]][1..] == [[2]];
    assert FedAll(Counting(), after, [[2]]) == Err(TrailingBytes);
    assert [[1, 2]][1..] == [];
  }

  // ----- The feed

  class FrameFeed<S(!new), T(!new)> {
    const reader: Reader<S, T>
    var state: S
    /** Held bytes are those from `start` to `end`. */
    var buffer: array<Byte>
    var start: nat
    var end: nat
    var need: int
    var done: bool
    var result: Option<T>

    ghost predicate Bounded()
      reads this
    {
      start <= end <= buffer.Length && Settles(reader)
    }

    ghost predicate Valid()
      reads this
    {
      Bounded() && if done then result.Some? else need != 0
    }

    ghost function Contents(): Bytes
      reads this, buffer
      requires Bounded()
    {
      buffer[start..end]
    }

    ghost function Phase(): Phase<S, T>
      reads this
      requires Valid()
    {
      if done then Done(result.value) else Waiting(state, need)
    }

    ghost function View(): Rest<S, T>
      reads this, buffer
      requires Valid()
    {
      Rest(Phase(), Contents())
    }

    constructor Blank(reader: Reader<S, T>, state: S)
      requires Settles(reader)
      ensures Bounded() && fresh(buffer) && !done && Contents() == [] && this.state == state && this.reader == reader
    {
      this.reader, this.state := reader, state;
      buffer := new Byte[0];
      start, end, need, done, result := 0, 0, 0, false, None;
    }

    /** The constructor: the reader runs to its first request. */
    static method Create(reader: Reader<S, T>, state: S) returns (created: Result<FrameFeed<S, T>, Refusal>)
      requires Settles(reader)
      ensures match created
        case Err(error) => Resumed(reader, state, []) == Failed(error)
        case Ok(feed) => fresh(feed) && fresh(feed.buffer) && feed.Valid() && feed.reader == reader
                         && feed.View() == Rest(Resumed(reader, state, []), [])
    {
      var feed := new FrameFeed<S, T>.Blank(reader, state);
      var outcome := feed.Resume([]);
      if outcome.Fail? {
        return Err(outcome.error);
      }
      return Ok(feed);
    }

    /** `#resume`. */
    method Resume(bytes: Bytes) returns (outcome: Outcome<Refusal>)
      requires Bounded() && !done
      modifies this`state, this`need, this`done, this`result
      ensures Bounded()
      ensures match Resumed(reader, old(state), bytes)
        case Failed(error) => outcome == Fail(error)
        case Waiting(s, n) => outcome == Pass && Valid() && Phase() == Waiting(s, n)
        case Done(value) => outcome == Pass && Valid() && Phase() == Done(value)
    {
      var step := reader.next(state, bytes);
      while true
        invariant Bounded() && !done && Settled(reader, step) == Resumed(reader, old(state), bytes)
        decreases if step.Ask? && step.n == 0 then reader.quiet(step.state) + 1 else 0
      {
        match step {
          case Return(value) =>
            done, result := true, Some(value);
            return Pass;
          case Throw(code) =>
            return Fail(ByReader(code));
          case Ask(n, suspended) =>
            state := suspended;
            if !Safe(n) {
              return Fail(NotAByteCount);
            }
            if n != 0 {
              need := n;
              return Pass;
            }
        }
        step := reader.next(state, []);
      }
    }

    /** `copyWithin(0, start, end)`. */
    method MoveToFront()
      requires Bounded()
      modifies buffer
      ensures buffer[..end - start] == old(Contents())
    {
      var held := end - start;
      for i := 0 to held
        invariant forall k :: 0 <= k < i ==> buffer[k] == old(buffer[start + k])
        invariant forall k :: start + i <= k < end ==> buffer[k] == old(buffer[k])
      {
        buffer[i] := buffer[start + i];
      }
    }

    /** `set`. */
    static method CopyInto(target: array<Byte>, at: nat, bytes: Bytes)
      requires at + |bytes| <= target.Length
      modifies target
      ensures forall k :: 0 <= k < at ==> target[k] == old(target[k])
      ensures forall k :: at <= k < at + |bytes| ==> target[k] == bytes[k - at]
    {
      for i := 0 to |bytes|
        invariant forall k :: 0 <= k < at ==> target[k] == old(target[k])
        invariant forall k :: at <= k < at + i ==> target[k] == bytes[k - at]
      {
        target[at + i] := bytes[i];
      }
    }

    /** Where the buffer is full after the held bytes, they move to the front or the buffer doubles. */
    method MakeRoom(more: nat)
      requires Bounded()
      modifies this`buffer, this`start, this`end, buffer
      ensures Bounded() && Contents() == old(Contents()) && end + more <= buffer.Length && (buffer == old(buffer) || fresh(buffer))
    {
      var held := end - start;
      if end + more > buffer.Length {
        if held + more <= buffer.Length {
          MoveToFront();
        } else {
          var grown := new Byte[if 2 * buffer.Length < held + more then held + more else 2 * buffer.Length];
          CopyInto(grown, 0, buffer[start..end]);
          buffer := grown;
        }
        start, end := 0, held;
      }
    }

    /** `#hold`: append after the held bytes. */
    method Hold(bytes: Bytes)
      requires Bounded()
      modifies this`buffer, this`start, this`end, buffer
      ensures Bounded() && Contents() == old(Contents()) + bytes && (buffer == old(buffer) || fresh(buffer))
    {
      MakeRoom(|bytes|);
      ghost var held := Contents();
      CopyInto(buffer, end, bytes);
      assert buffer[start..end] == held;
      assert buffer[end..end + |bytes|] == bytes;
      end := end + |bytes|;
      hide Settles;
      assert Contents() == held + bytes;
    }

    /** One request answered. */
    method Answer() returns (outcome: Outcome<Refusal>)
      requires Valid() && Answerable(View())
      modifies this`state, this`need, this`done, this`result, this`start
      ensures Bounded()
      ensures var was, take := old(View()), Taken(old(need), |old(Contents())|).value;
        match Resumed(reader, old(state), was.queue[..take])
        case Failed(error) => outcome == Fail(error)
        case phase => outcome == Pass && Valid() && View() == Rest(phase, was.queue[take..])
    {
      var n, held := need, end - start;
      var take := if n > 0 then n else if -n < held then -n else held;
      var bytes := buffer[start..start + take];
      assert bytes == Contents()[..take];
      start := start + take;
      assert Contents() == old(Contents())[take..];
      outcome := Resume(bytes);
    }

    /** `feed`: what it holds and asks for next, or how it refuses, is what the byte queue gives. */
    method Feed(chunk: Bytes) returns (outcome: Outcome<Refusal>)
      requires Valid() && (done ==> Contents() == [])
      modifies this`state, this`need, this`done, this`result, this`buffer, this`start, this`end, buffer
      ensures buffer == old(buffer) || fresh(buffer)
      ensures match Fed(reader, old(View()), chunk)
        case Err(error) => outcome == Fail(error)
        case Ok(after) => outcome == Pass && Valid() && View() == after
    {
      hide Resumed, Settles;
      if chunk == [] {
        return Pass;
      }
      if done {
        return Fail(TrailingBytes);
      }
      ghost var all := Rest(Phase(), Contents() + chunk);
      Hold(chunk);
      assert View() == all;
      while !done
        invariant Valid() && Drained(reader, View()) == Drained(reader, all)
        invariant buffer == old(buffer) || fresh(buffer)
        decreases |Contents()|, !done
      {
        var n, held := need, end - start;
        if if n > 0 then held < n else held == 0 {
          return Pass;
        }
        outcome := Answer();
        if outcome.Fail? {
          return;
        }
      }
      return if end > start then Fail(TrailingBytes) else Pass;
    }

    /** `end`. */
    method End() returns (frame: Result<T, Refusal>)
      requires Valid()
      ensures frame == Ended(Phase())
    {
      return if done then Ok(result.value) else Err(Truncated);
    }
  }

  /** A whole run: create, feed each chunk until one is refused, end. */
  method FeedChunks<S(!new), T(!new)>(reader: Reader<S, T>, state: S, chunks: seq<Bytes>) returns (frame: Result<T, Refusal>)
    requires Settles(reader)
    ensures Resumed(reader, state, []).Failed? ==> frame == Err(Resumed(reader, state, []).error)
    ensures !Resumed(reader, state, []).Failed? ==> frame == FedAll(reader, Rest(Resumed(reader, state, []), []), chunks)
  {
    var created := FrameFeed.Create(reader, state);
    if created.Err? {
      return Err(created.error);
    }
    var feed := created.value;
    for i := 0 to |chunks|
      invariant feed.Valid() && feed.reader == reader && (feed.done ==> feed.Contents() == [])
      invariant fresh(feed) && fresh(feed.buffer)
      invariant FedAll(reader, feed.View(), chunks[i..]) == FedAll(reader, Rest(Resumed(reader, state, []), []), chunks)
    {
      assert chunks[i..][1..] == chunks[i + 1..];
      var outcome := feed.Feed(chunks[i]);
      if outcome.Fail? {
        return Err(outcome.error);
      }
    }
    frame := feed.End();
  }
}
