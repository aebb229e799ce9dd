/** Uploading a file: a sender with a window of unacknowledged bytes, a reader that cuts its chunks into
    blocks, and a waiter that acks and the close of the channel wake up. */
module Upload {
  import opened Options

  const BLOCK_SIZE: nat := 16384

  const FLOW_WINDOW: nat := 2097152

  function Concat(chunks: seq<seq<int>>): seq<int> {
    if chunks == [] then [] else chunks[0] + Concat(chunks[1..])
  }

  /** How many blocks a chunk is cut into; the last one may be empty. */
  function Blocks(chunk: seq<int>): nat {
    |chunk| / BLOCK_SIZE + 1
  }

  function AllBlocks(chunks: seq<seq<int>>): nat {
    if chunks == [] then 0 else Blocks(chunks[0]) + AllBlocks(chunks[1..])
  }

  /** The reader for browsers that do not let the caller choose the size of what is read: `chunks` is what
      the stream will still deliver. */
  class BlockReader {
    var chunks: seq<seq<int>>
    var buffer: Option<seq<int>>

    constructor (chunks: seq<seq<int>>)
      ensures Rest() == Concat(chunks) && BlocksLeft() == AllBlocks(chunks)
    {
      this.chunks, buffer := chunks, None;
    }

    /** What has not been returned yet. */
    ghost function Rest(): seq<int>
      reads this
    {
      (if buffer.Some? then buffer.value else []) + Concat(chunks)
    }

    ghost function BlocksLeft(): nat
      reads this
    {
      (if buffer.Some? then Blocks(buffer.value) else 0) + AllBlocks(chunks)
    }

    method Read() returns (done: bool, value: seq<int>)
      modifies this
      ensures done <==> old(BlocksLeft()) == 0
      ensures done ==> old(Rest()) == [] && Rest() == [] && BlocksLeft() == 0
      ensures !done ==> |value| <= BLOCK_SIZE && old(Rest()) == value + Rest()
      ensures !done ==> BlocksLeft() == old(BlocksLeft()) - 1
    {
      if buffer == None {
        if chunks == [] {
          return true, [];
        }
        buffer, chunks := Some(chunks[0]), chunks[1..];
      }
      done := false;
      if |buffer.value| < BLOCK_SIZE {
        value := buffer.value;
        buffer := None;
      } else {
        value := buffer.value[..BLOCK_SIZE];
        buffer := Some(buffer.value[BLOCK_SIZE..]);
      }
    }
  }

  lemma {:induction false} ConcatAppend(chunks: seq<seq<int>>, chunk: seq<int>)
    ensures Concat(chunks + [chunk]) == Concat(chunks) + chunk
  {
    if chunks == [] {
      assert [] + [chunk] == [chunk] && [chunk][1..] == [];
    } else {
      assert (chunks + [chunk])[1..] == chunks[1..] + [chunk];
      ConcatAppend(chunks[1..], chunk);
    }
  }

  /** However the stream is chunked, reading to the end gives its bytes back in blocks of limited size. */
  method ReadAll(chunks: seq<seq<int>>) returns (blocks: seq<seq<int>>)
    ensures Concat(blocks) == Concat(chunks)
    ensures |blocks| == AllBlocks(chunks) && forall i | 0 <= i < |blocks| :: |blocks[i]| <= BLOCK_SIZE
  {
    var reader := new BlockReader(chunks);
    blocks := [];
    while true
      invariant fresh(reader)
      invariant Concat(blocks) + reader.Rest() == Concat(chunks)
      invariant |blocks| + reader.BlocksLeft() == AllBlocks(chunks)
      invariant forall i | 0 <= i < |blocks| :: |blocks[i]| <= BLOCK_SIZE
      decreases reader.BlocksLeft()
    {
      ghost var rest := reader.Rest();
      var done, value := reader.Read();
      if done {
        return;
      }
      ConcatAppend(blocks, value);
      assert Concat(blocks) + (value + reader.Rest()) == Concat(blocks) + value + reader.Rest();
      blocks := blocks + [value];
    }
  }

  // ----- The sender as a state machine

  /** The message of a closed channel: a problem, or the tag of the file. */
  datatype Close = Problem(problem: string) | Tag(tag: string) | NoTag

  datatype Result = Uploaded(tag: string) | Failed(problem: string) | Untagged | Aborted | Unreadable

  /** Where the loop is: about to test its condition, waiting for a block, waiting for the waiter, woken up by
      it, or done. */
  datatype Place = Loop | Reading | Asleep | Woken | Over(result: Result)

  /** The sender's variables, and the peer's side of it: what was sent, how much of it was acknowledged, how
      often "done" was sent, and what of the file has not been read. */
  datatype State = State(
    place: Place, outstanding: int, delivered: int, eof: bool, closeMessage: Option<Close>, aborted: bool,
    sent: seq<int>, acked: nat, dones: nat, unread: seq<int>)

  datatype Event =
    | Iterate                       // test the condition of the loop and go on
    | Block(value: seq<int>)        // the reader delivered a block
    | EndOfFile                     // the reader is at the end
    | ReadFails
    | Resume                        // the loop runs after being woken up
    | Ack(bytes: nat)
    | Closed(message: Close)
    | Abort

  function Init(file: seq<int>): State {
    State(Loop, 0, 0, false, None, false, [], 0, 0, file)
  }

  /** When events can happen. A peer only acknowledges what it was sent, and a channel closes once. */
  predicate Enabled(s: State, e: Event) {
    match e
    case Iterate => s.place == Loop
    case Block(value) => s.place == Reading && |value| <= BLOCK_SIZE && value <= s.unread
    case EndOfFile => s.place == Reading && s.unread == []
    case ReadFails => s.place == Reading
    case Resume => s.place == Woken
    case Ack(bytes) => s.acked + bytes <= |s.sent|
    case Closed(_) => s.closeMessage == None
    case Abort => true
  }

  /** What acks and the close of the channel do to a loop that sleeps. */
  function WokenBy(p: Place): Place { if p == Asleep then Woken else p }

  function AfterAwait(s: State): Place { if s.aborted then Over(Aborted) else Loop }

  function Finish(m: Close): Result {
    match m
    case Problem(problem) => Failed(problem)
    case Tag(tag) => Uploaded(tag)
    case NoTag => Untagged
  }

  function Next(s: State, e: Event): State {
    match e
    case Iterate =>
      if s.closeMessage.Some? then s.(place := Over(Finish(s.closeMessage.value)))
      else if !s.eof && s.outstanding < FLOW_WINDOW then s.(place := Reading)
      else s.(place := Asleep)
    case Block(value) =>
      if value <= s.unread then
        s.(sent := s.sent + value, unread := s.unread[|value|..], outstanding := s.outstanding + |value|,
           place := AfterAwait(s))
      else s
    case EndOfFile => s.(dones := s.dones + 1, eof := true, place := AfterAwait(s))
    case ReadFails => s.(place := Over(Unreadable))
    case Resume => s.(place := AfterAwait(s))
    case Ack(bytes) =>
      s.(acked := s.acked + bytes, delivered := s.delivered + bytes, outstanding := s.outstanding - bytes,
         place := WokenBy(s.place))
    case Closed(m) => s.(closeMessage := Some(m), place := WokenBy(s.place))
    case Abort => s.(aborted := true)
  }

  ghost predicate Inv(file: seq<int>, s: State) {
    && s.acked <= |s.sent|
    && s.outstanding == |s.sent| - s.acked && s.delivered == s.acked
    && 0 <= s.outstanding < FLOW_WINDOW + BLOCK_SIZE
    && s.sent + s.unread == file
    && s.dones == (if s.eof then 1 else 0)
    && (s.eof ==> s.unread == [])
    && (s.place == Reading ==> !s.eof && s.outstanding < FLOW_WINDOW)
    && (s.place == Asleep ==> s.closeMessage == None && (s.eof || FLOW_WINDOW <= s.outstanding))
    && (forall tag :: s.place == Over(Uploaded(tag)) ==> s.closeMessage == Some(Tag(tag)))
  }

  lemma StepInv(file: seq<int>, s: State, e: Event)
    requires Inv(file, s) && Enabled(s, e)
    ensures Inv(file, Next(s, e))
  {
  }

  predicate Runs(s: State, events: seq<Event>)
    decreases |events|
  {
    events == [] || (Enabled(s, events[0]) && Runs(Next(s, events[0]), events[1..]))
  }

  function Run(s: State, events: seq<Event>): State
    decreases |events|
  {
    if events == [] then s else Run(Next(s, events[0]), events[1..])
  }

  lemma {:induction false} RunInv(file: seq<int>, s: State, events: seq<Event>)
    requires Inv(file, s) && Runs(s, events)
    ensures Inv(file, Run(s, events))
    decreases |events|
  {
    if events != [] {
      StepInv(file, s, events[0]);
      RunInv(file, Next(s, events[0]), events[1..]);
    }
  }

  /** In every run: the window holds, what was sent is a prefix of the file, "done" follows the whole file and
      comes at most once; and a sleeping loop still has its reason to sleep, so once everything is
      acknowledged all that it waits for is the close of the channel. */
  lemma UploadIsSafe(file: seq<int>, events: seq<Event>)
    requires Runs(Init(file), events)
    ensures var s := Run(Init(file), events);
      && s.outstanding == |s.sent| - s.acked && 0 <= s.outstanding < FLOW_WINDOW + BLOCK_SIZE
      && s.delivered == s.acked
      && s.sent <= file
      && s.dones <= 1 && (s.dones == 1 ==> s.sent == file)
      && (s.place == Asleep ==> s.closeMessage == None && (s.eof || FLOW_WINDOW <= s.outstanding))
      && (s.place == Asleep && s.acked == |s.sent| ==> s.sent == file && s.dones == 1)
  {
    RunInv(file, Init(file), events);
  }

  // ----- The code

  /** The variables of one upload and its handlers; `place` is where the loop is suspended. */
  class Uploader {
    const reader: BlockReader
    var place: Place
    var outstanding: int
    var delivered: int
    var eof: bool
    var closeMessage: Option<Close>
    var aborted: bool

    /** What went through the channel. */
    ghost var sent: seq<int>
    ghost var acked: nat
    ghost var dones: nat

    ghost function Snapshot(): State
      reads this, reader
    {
      State(place, outstanding, delivered, eof, closeMessage, aborted, sent, acked, dones, reader.Rest())
    }

    constructor (chunks: seq<seq<int>>)
      ensures Snapshot() == Init(Concat(chunks)) && fresh(reader)
    {
      reader := new BlockReader(chunks);
      place, outstanding, delivered, eof, closeMessage, aborted := Loop, 0, 0, false, None, false;
      sent, acked, dones := [], 0, 0;
    }

    method OnAck(bytes: nat)
      modifies this
      ensures Snapshot() == Next(old(Snapshot()), Ack(bytes))
    {
      delivered := delivered + bytes;
      outstanding := outstanding - bytes;
      acked := acked + bytes;
      Unblock();
    }

    method OnClose(message: Close)
      modifies this
      ensures Snapshot() == Next(old(Snapshot()), Closed(message))
    {
      closeMessage := Some(message);
      Unblock();
    }

    /** Resolve the promise that the loop is waiting for, if it is. */
    method Unblock()
      modifies `place
      ensures place == WokenBy(old(place))
    {
      if place == Asleep {
        place := Woken;
      }
    }

    /** From the test of the loop's condition to what it awaits next. Nothing can happen in between. */
    method RunLoop()
      requires place == Loop
      modifies `place
      ensures Snapshot() == Next(old(Snapshot()), Iterate)
    {
      if closeMessage.Some? {
        place := Over(Finish(closeMessage.value));
      } else if !eof && outstanding < FLOW_WINDOW {
        place := Reading;
      } else {
        place := Asleep;
      }
    }

    /** The reader is done with a block, or with the file. */
    method OnRead() returns (ghost e: Event)
      requires place == Reading
      modifies this, reader
      ensures Enabled(old(Snapshot()), e) && Snapshot() == Next(old(Snapshot()), e)
      ensures e.EndOfFile? || (e.Block? && reader.BlocksLeft() < old(reader.BlocksLeft()))
    {
      var done, value := reader.Read();
      if done {
        dones := dones + 1;
        eof := true;
        e := EndOfFile;
      } else {
        sent := sent + value;
        outstanding := outstanding + |value|;
        e := Block(value);
        assert old(reader.Rest())[|value|..] == reader.Rest();
      }
      CheckAbort();
    }

    method OnWake()
      requires place == Woken
      modifies `place
      ensures Snapshot() == Next(old(Snapshot()), Resume)
    {
      CheckAbort();
    }

    method CheckAbort()
      modifies `place
      ensures place == if aborted then Over(Aborted) else Loop
    {
      if aborted {
        place := Over(Aborted);
      } else {
        place := Loop;
      }
    }
  }
}
