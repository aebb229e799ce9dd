/** The data messages of a metrics channel. Frames are expanded in place, and a slot that was left out
    shares the instance list of the frame before. */
module Metrics {
  import opened Frames
  import opened Options

  /** The values of a metric's instances: an array that frames may share. */
  class Instances {
    var values: seq<Scalar>

    /** Fill the nulls and the missing end from `last`. */
    method FillFrom(last: seq<Scalar>)
      modifies this
      ensures values == FillIn(old(values), last)
    {
      ghost var was := values;
      var n := |values|;
      var k := 0;
      while k < n
        invariant 0 <= k <= n == |was| == |values|
        invariant forall i | 0 <= i < n :: values[i] == if i < k then Filled(was, last, i) else was[i]
      {
        if values[k] == Null {
          values := values[k := At(last, k)];
        }
        k := k + 1;
      }
      while k < |last|
        invariant n <= k && |values| == k && (k <= |last| || k == n)
        invariant forall i | 0 <= i < k :: values[i] == Filled(was, last, i)
      {
        values := values + [last[k]];
        k := k + 1;
      }
    }
  }

  datatype Slot = Single(scalar: Scalar) | List(cells: Instances)

  ghost function Show(s: Slot): Shown
    reads if s.List? then {s.cells} else {}
  {
    match s
    case Single(x) => One(x)
    case List(cells) => Many(cells.values)
  }

  ghost function Lists(slots: seq<Slot>): set<Instances> {
    set s | s in slots && s.List? :: s.cells
  }

  ghost function ShowAll(slots: seq<Slot>): (r: seq<Shown>)
    reads Lists(slots)
    ensures |r| == |slots| && forall j | 0 <= j < |slots| :: r[j] == Show(slots[j])
  {
    if slots == [] then [] else ShowAll(slots[..|slots| - 1]) + [Show(slots[|slots| - 1])]
  }

  /** No two slots have the same list, as in an array that was just parsed. */
  ghost predicate Unshared(slots: seq<Slot>) {
    forall i, j | 0 <= i < j < |slots| && slots[i].List? && slots[j].List? :: slots[i].cells != slots[j].cells
  }

  /** The list in slot `j`, if there is one. */
  ghost function ListAt(slots: seq<Slot>, j: nat): set<Instances> {
    if j < |slots| && slots[j].List? then {slots[j].cells} else {}
  }

  lemma ListsAt(slots: seq<Slot>)
    ensures forall j: nat :: ListAt(slots, j) <= Lists(slots)
    ensures forall j | 0 <= j < |slots| && slots[j].List? :: slots[j].cells in Lists(slots)
  {
  }

  class Frame {
    var slots: seq<Slot>

    /** Slot `j` against the last frame. */
    method ExpandSlotFrom(last: Frame, j: nat) returns (thrown: bool)
      requires this != last && j < |last.slots| && j <= |slots|
      modifies this, ListAt(slots, j)
      ensures thrown <==> ExpandSlot(old(ShowAll(slots)), old(ShowAll(last.slots)), j).Throws?
      ensures thrown ==> slots == old(slots)
      ensures !thrown ==>
        && |slots| == (if j < |old(slots)| then |old(slots)| else j + 1)
        && (forall i | 0 <= i < |old(slots)| && i != j :: slots[i] == old(slots[i]))
        && (slots[j] == last.slots[j] || (j < |old(slots)| && slots[j] == old(slots)[j]))
      ensures !thrown && ListAt(old(slots), j) !! Lists(last.slots) ==>
        Show(slots[j]) == ExpandSlot(old(ShowAll(slots)), old(ShowAll(last.slots)), j).value
    {
      if j >= |slots| {
        slots := slots + [last.slots[j]];
        return false;
      }
      match slots[j]
      case Single(x) =>
        if x == Null || x == Undefined {
          slots := slots[j := last.slots[j]];
        }
        return false;
      case List(cells) =>
        match last.slots[j]
        case List(from) =>
          cells.FillFrom(from.values);
          return false;
        case Single(Number(_)) =>
          cells.FillFrom([]);
          return false;
        case Single(_) =>
          return true;
    }

    /** Every slot of the last frame in turn. */
    method ExpandFrom(last: Frame) returns (thrown: bool)
      requires this != last && Unshared(slots) && Lists(slots) !! Lists(last.slots)
      modifies this, Lists(slots)
      ensures thrown <==> Expand(old(ShowAll(slots)), old(ShowAll(last.slots))).Throws?
      ensures !thrown ==> ShowAll(slots) == Expand(old(ShowAll(slots)), old(ShowAll(last.slots))).value
      ensures Lists(slots) <= old(Lists(slots)) + Lists(last.slots)
    {
      hide Expand, ExpandSlot, ShowAll;
      ghost var own, was, from := slots, ShowAll(slots), ShowAll(last.slots);
      var j := 0;
      while j < |last.slots|
        invariant 0 <= j <= |last.slots| && j <= |slots|
        invariant |slots| == if j < |own| then |own| else j
        invariant forall i | j <= i < |own| :: slots[i] == own[i] && Show(slots[i]) == was[i]
        invariant forall i | 0 <= i < j ::
          (slots[i] == last.slots[i] || (i < |own| && slots[i] == own[i])) && ExpandSlot(was, from, i) == Is(Show(slots[i]))
      {
        assert ShowAll(last.slots) == from;
        SameSlot(ShowAll(slots), was, from, j);
        ListsAt(own);
        ListsAt(last.slots);
        ghost var mine := ListAt(slots, j);
        assert forall i | 0 <= i < j && slots[i].List? :: slots[i].cells !in mine;
        label before:
        thrown := ExpandSlotFrom(last, j);
        if thrown {
          ExpandThrows(was, from, j);
          return;
        }
        assert forall i | 0 <= i < j :: Show(slots[i]) == old@before(Show(slots[i]));
        j := j + 1;
      }
      thrown := false;
      ExpandIs(was, from, ShowAll(slots));
    }
  }

  /** Division by a positive number rounds down. */
  lemma BlockOf(t: int, interval: int)
    requires interval > 0
    ensures InBlock(t, interval, t / interval)
  {
    assert t == t / interval * interval + t % interval;
    assert (t / interval + 1) * interval == t / interval * interval + interval;
  }

  /** A time is in this block of so many milliseconds. */
  predicate InBlock(t: int, interval: int, block: int) {
    block * interval <= t < (block + 1) * interval
  }

  lemma BlocksLater(t: int, interval: int, block: int, n: nat)
    requires InBlock(t, interval, block)
    ensures InBlock(t + interval * n, interval, block + n)
  {
    assert (block + n) * interval == block * interval + interval * n;
    assert (block + n + 1) * interval == (block + 1) * interval + interval * n;
  }

  /** A call of the channel's callback: the timestamp of the first frame, and the frames. */
  datatype Delivery = Delivery(beg: int, frames: seq<Frame>)

  /** What a meta message says of time; a zero counts as nothing. */
  datatype Meta = Meta(now: Option<int>, timestamp: Option<int>) {
    predicate Timed() {
      now.Some? && now.value != 0 && timestamp.Some? && timestamp.value != 0
    }

    /** The timestamp by the clock of this side. */
    function ByClock(clock: int): int {
      if Timed() then timestamp.value + (clock - now.value) else 0
    }
  }

  /** A call of the callback with a meta message: its time, and how many deliveries there had been. */
  datatype MetaCall = MetaCall(beg: int, after: nat)

  class MetricsChannel {
    const interval: int
    var meta: bool
    var last: Frame?
    var beg: int
    var delivered: seq<Delivery>
    var metas: seq<MetaCall>

    /** The timestamp of the meta message, which moves on with the frames. */
    var stamp: Option<int>

    /** By how much the clocks differ, after a meta message that says it. */
    ghost var offset: Option<int>

    /** The frames that came in so far and the lists that they may refer to. */
    ghost var frames: set<Frame>
    ghost var lists: set<Instances>

    /** How many deliveries there had been at the last meta message. */
    ghost var since: nat

    /** Since then each delivery begins where the one before it ended, and the next one will too. */
    ghost predicate Contiguous()
      reads `since, `delivered, `beg
    {
      && since <= |delivered|
      && (forall k | since <= k < |delivered| - 1 :: delivered[k + 1].beg == delivered[k].beg + |delivered[k].frames|)
      && (since < |delivered| ==> beg == delivered[|delivered| - 1].beg + |delivered[|delivered| - 1].frames|)
    }

    /** The time of the next frame is that of the timestamp. */
    ghost predicate InStep()
      reads `offset, `stamp, `beg
    {
      offset.Some? ==> stamp.Some? && InBlock(stamp.value + offset.value, interval, beg)
    }

    ghost predicate Valid()
      reads this, frames
    {
      && interval > 0
      && (last != null ==> last in frames)
      && (forall f | f in frames :: Lists(f.slots) <= lists)
      && (forall d, f | d in delivered && f in d.frames :: f in frames)
    }

    constructor (interval: int)
      requires interval > 0
      ensures Valid() && !meta && last == null && delivered == [] && frames == {} && lists == {}
      ensures Contiguous() && InStep() && metas == [] && this.interval == interval
    {
      this.interval := interval;
      meta, last, beg, delivered, metas, stamp, offset := false, null, 0, [], [], None, None;
      frames, lists, since := {}, {}, 0;
    }

    /** A meta message: frames go on at the block of its timestamp, and the callback hears of it. The last frame
        stays. */
    method OnMeta(message: Meta, clock: int)
      requires Valid()
      modifies `meta, `beg, `since, `metas, `stamp, `offset
      ensures Valid() && meta && Contiguous() && InStep()
      ensures InBlock(message.ByClock(clock), interval, beg)
      ensures metas == old(metas) + [MetaCall(beg, |delivered|)]
      ensures stamp == message.timestamp && (offset.Some? <==> message.Timed())
    {
      var timestamp := if message.Timed() then message.timestamp.value + (clock - message.now.value) else 0;
      meta, since := true, |delivered|;
      beg := timestamp / interval;
      stamp, offset := message.timestamp, if message.Timed() then Some(clock - message.now.value) else None;
      BlockOf(timestamp, interval);
      metas := metas + [MetaCall(beg, |delivered|)];
    }

    ghost function LastShown(): Expanded<seq<Shown>>
      reads this, last, if last != null then Lists(last.slots) else {}
    {
      if last == null then Throws else Is(ShowAll(last.slots))
    }

    /** A frame that was just parsed: it shares nothing with the frames before it. */
    ghost predicate IsNew(data: Frame)
      reads this, data
    {
      data !in frames && Unshared(data.slots) && Lists(data.slots) !! lists
    }

    /** Expand one frame in place. No earlier frame changes. */
    method ExpandNext(data: Frame) returns (thrown: bool)
      requires Valid() && IsNew(data)
      modifies `last, `frames, `lists, data, Lists(data.slots)
      ensures Valid() && frames == old(frames) + {data} && lists == old(lists) + old(Lists(data.slots))
      ensures var first := if old(LastShown()).Is? then Expand(old(ShowAll(data.slots)), old(LastShown()).value)
        else Is(old(ShowAll(data.slots)));
        if thrown then first.Throws? && last == old(last) else last == data && first == Is(ShowAll(data.slots))
      ensures forall f | f in old(frames) :: f.slots == old(f.slots) && ShowAll(f.slots) == old(ShowAll(f.slots))
    {
      hide Expand, ShowAll, Unshared;
      ghost var own := Lists(data.slots);
      thrown := false;
      if last != null {
        thrown := data.ExpandFrom(last);
      }
      frames, lists := frames + {data}, lists + own;
      if !thrown {
        last := data;
      }
    }

    /** A data message: expand its frames in turn, hand it to the callback, and move on in time. Before the
        first meta message it is ignored; if reading a frame throws it is not handed on. Frames of earlier
        messages do not change. */
    method OnData(message: seq<Frame>) returns (thrown: bool)
      requires Valid() && Ahead(message, 0, SlotsOf(message), Shows(message))
      modifies `last, `frames, `lists, `beg, `delivered, `stamp, message, AllLists(message)
      ensures Valid() && old(frames) <= frames
      ensures !meta ==> !thrown && delivered == old(delivered) && beg == old(beg) && last == old(last)
      ensures meta ==> thrown == ExpandAll(old(Shows(message)), old(LastShown())).thrown
      ensures thrown ==> delivered == old(delivered) && beg == old(beg)
      ensures meta && !thrown ==>
        && Shows(message) == ExpandAll(old(Shows(message)), old(LastShown())).done
        && last == (if message == [] then old(last) else message[|message| - 1])
        && delivered == old(delivered) + [Delivery(old(beg), message)] && beg == old(beg) + |message|
      ensures (old(Contiguous()) ==> Contiguous()) && (old(InStep()) ==> InStep())
      ensures forall f | f in old(frames) :: f.slots == old(f.slots) && ShowAll(f.slots) == old(ShowAll(f.slots))
    {
      hide Expand, ExpandAll, ShowAll, Lists, AllLists, Unshared, LastShown, Ahead, Shows, SlotsOf, Contiguous, InStep;
      thrown := false;
      if meta {
        thrown := ExpandFrames(message);
        if !thrown {
          HandOn(message);
        }
      }
    }

    /** Hand a message to the callback. */
    method HandOn(message: seq<Frame>)
      requires Valid() && forall f | f in message :: f in frames
      modifies `delivered, `beg, `stamp
      ensures Valid() && delivered == old(delivered) + [Delivery(old(beg), message)] && beg == old(beg) + |message|
      ensures stamp == if old(stamp).Some? then Some(old(stamp).value + interval * |message|) else None
      ensures (old(Contiguous()) ==> Contiguous()) && (old(InStep()) ==> InStep())
    {
      hide InBlock;
      delivered := delivered + [Delivery(beg, message)];
      beg := beg + |message|;
      if stamp.Some? && offset.Some? && InBlock(stamp.value + offset.value, interval, beg - |message|) {
        BlocksLater(stamp.value + offset.value, interval, beg - |message|, |message|);
      }
      if stamp.Some? {
        stamp := Some(stamp.value + interval * |message|);
      }
    }

    method ExpandFrames(message: seq<Frame>) returns (thrown: bool)
      requires Valid() && Ahead(message, 0, SlotsOf(message), Shows(message))
      modifies `last, `frames, `lists, message, AllLists(message)
      ensures Valid() && old(frames) <= frames
      ensures thrown == ExpandAll(old(Shows(message)), old(LastShown())).thrown
      ensures !thrown ==>
        && Shows(message) == ExpandAll(old(Shows(message)), old(LastShown())).done
        && (forall f | f in message :: f in frames)
        && last == (if message == [] then old(last) else message[|message| - 1])
      ensures forall f | f in old(frames) :: f.slots == old(f.slots) && ShowAll(f.slots) == old(ShowAll(f.slots))
    {
      hide Expand, ExpandAll, ShowAll, Lists, AllLists, Unshared, LastShown, Ahead, Valid, Separate;
      ghost var kept, own, ownLists := Keep(frames), (set f | f in message), AllLists(message);
      InAllLists(message);
      ghost var done, kept';
      thrown, done, kept' := ExpandMessage(message, own, ownLists, kept);
      KeptAll(kept, kept');
      if !thrown {
        assert Shows(message) == done;
      }
    }

    /** The frames from position `i` on are as they came, and new. */
    ghost predicate Ahead(message: seq<Frame>, i: nat, slots: seq<seq<Slot>>, was: seq<seq<Shown>>)
      reads this, message, AllLists(message)
    {
      && |was| == |message| == |slots| && Separate(message, i)
      && forall p | i <= p < |message| ::
           IsNew(message[p]) && message[p].slots == slots[p] && ShowAll(message[p].slots) == was[p]
    }

    /** The first `i` frames have been expanded and noted, and expansion goes on from the last of them. */
    ghost predicate Progress(
      message: seq<Frame>, i: nat, slots: seq<seq<Slot>>, was: seq<seq<Shown>>, from: Expanded<seq<Shown>>,
      done: seq<seq<Shown>>, kept: map<Frame, Kept>, kept': map<Frame, Kept>)
      reads this, frames, message, AllLists(message), last, if last != null then Lists(last.slots) else {}
      reads kept'.Keys, set f, x | f in kept'.Keys && x in Lists(f.slots) :: x
    {
      && i <= |message| && |was| == |message| && |done| == i
      && Valid() && Ahead(message, i, slots, was) && Holds(kept') && kept'.Keys <= frames
      && Continues(was, from, i, done, LastShown()) && Recorded(message, i, done, kept, kept')
      && (i > 0 ==> last == message[i - 1])
    }

    method ExpandMessage(
      message: seq<Frame>, ghost own: set<Frame>, ghost ownLists: set<Instances>, ghost kept: map<Frame, Kept>)
      returns (thrown: bool, ghost done: seq<seq<Shown>>, ghost kept': map<Frame, Kept>)
      requires Valid() && Ahead(message, 0, SlotsOf(message), Shows(message)) && Holds(kept) && kept.Keys == frames
      requires forall p | 0 <= p < |message| :: message[p] in own && Lists(message[p].slots) <= ownLists
      modifies `last, `frames, `lists, own, ownLists
      ensures Valid() && old(frames) <= frames
      ensures Holds(kept') && forall f | f in kept :: f in kept' && kept'[f] == kept[f]
      ensures thrown == ExpandAll(old(Shows(message)), old(LastShown())).thrown
      ensures !thrown ==>
        && ExpandAll(old(Shows(message)), old(LastShown())).done == done && |done| == |message|
        && (forall p | 0 <= p < |message| :: message[p] in kept' && kept'[message[p]].shown == done[p])
        && (forall p | 0 <= p < |message| :: message[p] in frames)
        && last == (if message == [] then old(last) else message[|message| - 1])
    {
      hide Progress, Expand, ExpandAll, ShowAll, Shows, Unshared, Ahead, Holds, Valid, Lists, AllLists, SlotsOf, Separate,
        LastShown, Recorded, Continues;
      ghost var slots, was, from := SlotsOf(message), Shows(message), LastShown();
      done, kept' := [], kept;
      assert forall p | 0 <= p < |message| :: Lists(slots[p]) <= ownLists;
      ProgressStart(message, slots, was, from, kept);
      thrown := false;
      var i := 0;
      while i < |message|
        invariant 0 <= i <= |message| && old(frames) <= frames && !thrown
        invariant Progress(message, i, slots, was, from, done, kept, kept')
        invariant i == 0 ==> last == old(last)
      {
        thrown, done, kept' := StepOn(message, i, slots, was, from, done, kept, kept');
        if thrown {
          return;
        }
        i := i + 1;
      }
      ProgressEnd(message, slots, was, from, done, kept, kept');
    }

    lemma ProgressStart(
      message: seq<Frame>, slots: seq<seq<Slot>>, was: seq<seq<Shown>>, from: Expanded<seq<Shown>>, kept: map<Frame, Kept>)
      requires Valid() && Ahead(message, 0, slots, was) && Holds(kept) && kept.Keys == frames && from == LastShown()
      ensures Progress(message, 0, slots, was, from, [], kept, kept)
    {
      hide ExpandAll, ShowAll, Lists, AllLists, Separate, Holds, Continues, Valid, LastShown;
      RecordStart(message, kept);
      ContinueStart(was, from);
    }

    lemma ProgressEnd(
      message: seq<Frame>, slots: seq<seq<Slot>>, was: seq<seq<Shown>>, from: Expanded<seq<Shown>>,
      done: seq<seq<Shown>>, kept: map<Frame, Kept>, kept': map<Frame, Kept>)
      requires Progress(message, |message|, slots, was, from, done, kept, kept')
      ensures Valid() && Holds(kept') && |done| == |message| && ExpandAll(was, from) == Run(done, false)
      ensures forall f | f in kept :: f in kept' && kept'[f] == kept[f]
      ensures forall p | 0 <= p < |message| :: message[p] in kept' && kept'[message[p]].shown == done[p]
      ensures forall p | 0 <= p < |message| :: message[p] in frames
      ensures message != [] ==> last == message[|message| - 1]
    {
      hide ExpandAll, ShowAll, Lists, AllLists, Separate, Holds, Continues, Valid, LastShown, Recorded, Ahead;
      RecordedMeans(message, |message|, done, kept, kept');
      ContinueEnd(was, from, done, LastShown());
    }

    method StepOn(
      message: seq<Frame>, i: nat, ghost slots: seq<seq<Slot>>, ghost was: seq<seq<Shown>>, ghost from: Expanded<seq<Shown>>,
      ghost done: seq<seq<Shown>>, ghost kept: map<Frame, Kept>, ghost kept0: map<Frame, Kept>)
      returns (thrown: bool, ghost done': seq<seq<Shown>>, ghost kept': map<Frame, Kept>)
      requires i < |message| && i < |slots| && Progress(message, i, slots, was, from, done, kept, kept0)
      modifies `last, `frames, `lists, message[i], Lists(slots[i])
      ensures old(frames) <= frames
      ensures thrown ==> Valid() && Holds(kept') && ExpandAll(was, from).thrown
      ensures thrown ==> forall f | f in kept :: f in kept' && kept'[f] == kept[f]
      ensures !thrown ==> Progress(message, i + 1, slots, was, from, done', kept, kept')
    {
      hide Expand, ExpandAll, ShowAll, Shows, Unshared, Continues, Ahead, Holds, Valid, Lists, AllLists, SlotsOf,
        Separate, LastShown, Recorded;
      thrown, done', kept' := StepMessage(message, i, slots, was, from, done, kept0);
      if thrown {
        RecordedMeans(message, i, done, kept, kept0);
      } else {
        RecordStep(message, i, done, kept, kept0, message[i].slots, done'[i]);
      }
    }

    method StepMessage(
      message: seq<Frame>, i: nat, ghost slots: seq<seq<Slot>>, ghost was: seq<seq<Shown>>, ghost from: Expanded<seq<Shown>>,
      ghost done: seq<seq<Shown>>, ghost kept: map<Frame, Kept>)
      returns (thrown: bool, ghost done': seq<seq<Shown>>, ghost kept': map<Frame, Kept>)
      requires Valid() && i < |message| && Ahead(message, i, slots, was) && Holds(kept) && kept.Keys <= frames
      requires Continues(was, from, i, done, LastShown())
      modifies `last, `frames, `lists, message[i], Lists(slots[i])
      ensures Valid() && old(frames) <= frames
      ensures Ahead(message, i + 1, slots, was) && Holds(kept') && kept'.Keys <= frames
      ensures if thrown then ExpandAll(was, from).thrown && kept' == kept else
        && Continues(was, from, i + 1, done', LastShown()) && last == message[i]
        && |done'| == |done| + 1 && done' == done + [done'[|done|]]
        && message[i] !in kept && kept' == kept[message[i] := Kept(message[i].slots, done'[|done|])]
    {
      hide Expand, ExpandAll, ShowAll, Unshared, Continues;
      done', kept' := done, kept;
      ContinueStep(was, from, i, done, LastShown());
      thrown := ExpandNext(message[i]);
      if !thrown {
        done' := done + [ShowAll(message[i].slots)];
        kept' := kept[message[i] := Kept(message[i].slots, ShowAll(message[i].slots))];
      }
    }
  }

  // ----- From the text of messages to what the callback has

  /** All frames that the callback was handed. */
  function Handed(deliveries: seq<Delivery>): seq<Frame> {
    if deliveries == [] then []
    else Handed(deliveries[..|deliveries| - 1]) + deliveries[|deliveries| - 1].frames
  }

  lemma HandedMore(deliveries: seq<Delivery>, d: Delivery)
    ensures Handed(deliveries + [d]) == Handed(deliveries) + d.frames
  {
    assert (deliveries + [d])[..|deliveries|] == deliveries;
  }

  function Flat(messages: seq<seq<seq<Shown>>>): seq<seq<Shown>> {
    if messages == [] then [] else Flat(messages[..|messages| - 1]) + messages[|messages| - 1]
  }

  lemma {:induction false} FlatPart(messages: seq<seq<seq<Shown>>>, i: nat)
    requires i < |messages|
    ensures var n, m := |Flat(messages[..i])|, |Flat(messages[..i + 1])|;
      n <= m <= |Flat(messages)| && Flat(messages)[n..m] == messages[i] && m == n + |messages[i]|
  {
    assert messages[..i + 1][..i] == messages[..i];
    if i == |messages| - 1 {
      assert messages[..i + 1] == messages;
    } else {
      var less := messages[..|messages| - 1];
      assert less[..i] == messages[..i] && less[..i + 1] == messages[..i + 1];
      FlatPart(less, i);
    }
  }

  /** The frames in the callback's hands show `shown`. */
  ghost predicate Hands(channel: MetricsChannel, shown: seq<seq<Shown>>)
    reads channel, Handed(channel.delivered), AllLists(Handed(channel.delivered))
  {
    var all := Handed(channel.delivered);
    |all| == |shown| && forall p | 0 <= p < |all| :: all[p] in channel.frames && ShowAll(all[p].slots) == shown[p]
  }

  lemma AllListsWithin(message: seq<Frame>, lists: set<Instances>)
    requires forall f | f in message :: Lists(f.slots) <= lists
    ensures AllLists(message) <= lists
  {
    hide Lists;
  }

  /** Frames that were just parsed are ahead of a channel. */
  lemma ParsedIsAhead(channel: MetricsChannel, message: seq<Frame>)
    requires forall f | f in message :: f !in channel.frames && Lists(f.slots) !! channel.lists && Unshared(f.slots)
    requires Separate(message, 0)
    ensures channel.Ahead(message, 0, SlotsOf(message), Shows(message))
  {
    hide ShowAll, Lists, Unshared, Separate;
  }

  /** One more delivery, at this time and of this many frames. */
  predicate OneMore(was: seq<Delivery>, now: seq<Delivery>, beg: int, n: nat) {
    && |now| == |was| + 1 && now[..|was|] == was
    && now[|was|].beg == beg && |now[|was|].frames| == n
  }

  /** One message as it comes: if it can be expanded, the callback has it on top of what it had. */
  method Receive(channel: MetricsChannel, payload: seq<seq<Shown>>, ghost shown: seq<seq<Shown>>)
    returns (thrown: bool)
    requires channel.Valid() && channel.meta && Hands(channel, shown)
    modifies channel`last, channel`frames, channel`lists, channel`beg, channel`delivered, channel`stamp
    ensures channel.Valid() && (old(channel.Contiguous()) ==> channel.Contiguous())
    ensures var run := ExpandAll(payload, old(channel.LastShown())); thrown == run.thrown
    ensures !thrown ==>
      var run := ExpandAll(payload, old(channel.LastShown()));
      && Hands(channel, shown + run.done)
      && channel.LastShown() == (if run.done == [] then old(channel.LastShown()) else Is(run.done[|run.done| - 1]))
      && OneMore(old(channel.delivered), channel.delivered, old(channel.beg), |payload|)
      && channel.beg == old(channel.beg) + |payload|
  {
    hide Expand, ExpandAll, ShowAll, Lists, Unshared, Handed, AllLists, SlotsOf, Shows, Separate;
    LastIsKnown(channel);
    ghost var from := channel.LastShown();
    var message := ParseMessage(payload);
    ParsedIsAhead(channel, message);
    assert channel.LastShown() == from && Hands(channel, shown);
    thrown := HandOver(channel, message, shown);
  }

  /** A message that was parsed. */
  method HandOver(channel: MetricsChannel, message: seq<Frame>, ghost shown: seq<seq<Shown>>) returns (thrown: bool)
    requires channel.Valid() && channel.meta && Hands(channel, shown)
    requires channel.Ahead(message, 0, SlotsOf(message), Shows(message))
    modifies channel`last, channel`frames, channel`lists, channel`beg, channel`delivered, channel`stamp, message, AllLists(message)
    ensures channel.Valid() && (old(channel.Contiguous()) ==> channel.Contiguous())
    ensures thrown == ExpandAll(old(Shows(message)), old(channel.LastShown())).thrown
    ensures !thrown ==>
      var done := ExpandAll(old(Shows(message)), old(channel.LastShown())).done;
      && Hands(channel, shown + done)
      && channel.LastShown() == (if done == [] then old(channel.LastShown()) else Is(done[|done| - 1]))
      && OneMore(old(channel.delivered), channel.delivered, old(channel.beg), |message|)
      && channel.beg == old(channel.beg) + |message|
  {
    hide Expand, ExpandAll, ShowAll, Lists, Unshared, Handed, AllLists, SlotsOf, Separate;
    ghost var before := Handed(channel.delivered);
    LastIsKnown(channel);
    thrown := channel.OnData(message);
    if !thrown {
      HandedMore(old(channel.delivered), Delivery(old(channel.beg), message));
      DeliveredAreKnown(channel, message);
      HandsMore(channel, before, message, shown, Shows(message));
    }
  }

  /** The first `n` originals have been handed on, and expansion goes on from the last of them. */
  ghost predicate Received(channel: MetricsChannel, orig: seq<seq<Shown>>, n: nat)
    reads channel, channel.frames, Handed(channel.delivered), AllLists(Handed(channel.delivered)), channel.last
    reads if channel.last != null then Lists(channel.last.slots) else {}
  {
    && n <= |orig| && channel.Valid() && channel.Contiguous() && channel.meta && Hands(channel, orig[..n])
    && channel.LastShown() == if n == 0 then Throws else Is(orig[n - 1])
  }

  /** Each of the first `i` messages was one delivery, of its frames, at the time where those before it end. */
  ghost predicate InTime(deliveries: seq<Delivery>, messages: seq<seq<seq<Shown>>>, i: nat, beg: int, now: int) {
    && i <= |messages| && |deliveries| == i && now == beg + |Flat(messages[..i])|
    && forall k | 0 <= k < i ::
         deliveries[k].beg == beg + |Flat(messages[..k])| && |deliveries[k].frames| == |messages[k]|
  }

  lemma InTimeMore(was: seq<Delivery>, deliveries: seq<Delivery>, messages: seq<seq<seq<Shown>>>, i: nat, beg: int, now: int)
    requires i < |messages| && InTime(was, messages, i, beg, now) && OneMore(was, deliveries, now, |messages[i]|)
    ensures InTime(deliveries, messages, i + 1, beg, now + |messages[i]|)
  {
    hide Flat;
    FlatPart(messages, i);
    forall k | 0 <= k < i
      ensures deliveries[k] == was[k]
    {
      assert deliveries[k] == deliveries[..i][k];
    }
  }

  /** However a transmission is cut into messages, at the end the callback has frames that show the originals:
      one delivery for each message, each where the one before it ended, from the time of the meta message on. */
  method ReceiveAll(channel: MetricsChannel, messages: seq<seq<seq<Shown>>>, ghost orig: seq<seq<Shown>>)
    returns (thrown: bool)
    requires channel.Valid() && channel.Contiguous() && channel.meta && channel.last == null && channel.delivered == []
    requires Transmits(Flat(messages), orig)
    modifies channel`last, channel`frames, channel`lists, channel`beg, channel`delivered, channel`stamp
    ensures channel.Valid() && channel.Contiguous() && !thrown && Hands(channel, orig)
    ensures InTime(channel.delivered, messages, |messages|, old(channel.beg), channel.beg)
  {
    hide Received, InTime, Transmits, Flat;
    FlatStart(messages);
    NothingReceived(channel, orig);
    NothingYet(messages, channel.beg);
    var i := 0;
    thrown := false;
    while i < |messages|
      invariant 0 <= i <= |messages| && !thrown && Received(channel, orig, |Flat(messages[..i])|)
      invariant InTime(channel.delivered, messages, i, old(channel.beg), channel.beg)
      decreases |messages| - i
    {
      thrown := ReceiveNext(channel, messages, orig, i, old(channel.beg));
      i := i + 1;
    }
    assert messages[..|messages|] == messages;
    SameSize(messages, orig);
    AllReceived(channel, orig);
  }

  lemma NothingYet(messages: seq<seq<seq<Shown>>>, beg: int)
    ensures InTime([], messages, 0, beg, beg)
  {
  }

  method ReceiveNext(channel: MetricsChannel, messages: seq<seq<seq<Shown>>>, ghost orig: seq<seq<Shown>>, i: nat, ghost beg: int)
    returns (thrown: bool)
    requires i < |messages| && Transmits(Flat(messages), orig) && Received(channel, orig, |Flat(messages[..i])|)
    requires InTime(channel.delivered, messages, i, beg, channel.beg)
    modifies channel`last, channel`frames, channel`lists, channel`beg, channel`delivered, channel`stamp
    ensures !thrown && Received(channel, orig, |Flat(messages[..i + 1])|)
    ensures InTime(channel.delivered, messages, i + 1, beg, channel.beg)
  {
    hide ExpandAll, Transmits, ShowAll, Lists, Handed, AllLists, Flat, Hands, InTime, OneMore;
    ghost var n := |Flat(messages[..i])|;
    ghost var m := n + |messages[i]|;
    MessageRead(messages, orig, i, n);
    thrown := Receive(channel, messages[i], orig[..n]);
    assert orig[..n] + orig[n..m] == orig[..m];
    InTimeMore(old(channel.delivered), channel.delivered, messages, i, beg, old(channel.beg));
  }

  lemma NothingReceived(channel: MetricsChannel, orig: seq<seq<Shown>>)
    requires channel.Valid() && channel.Contiguous() && channel.meta && channel.last == null && channel.delivered == []
    ensures Received(channel, orig, 0)
  {
    NoHands(channel);
    assert orig[..0] == [];
  }

  lemma AllReceived(channel: MetricsChannel, orig: seq<seq<Shown>>)
    requires Received(channel, orig, |orig|)
    ensures channel.Valid() && channel.Contiguous() && Hands(channel, orig)
  {
    assert orig[..|orig|] == orig;
  }

  lemma NoHands(channel: MetricsChannel)
    requires channel.delivered == [] && channel.last == null
    ensures Hands(channel, []) && channel.LastShown() == Throws
  {
  }

  lemma FlatStart(messages: seq<seq<seq<Shown>>>)
    ensures Flat(messages[..0]) == []
  {
  }

  lemma SameSize(messages: seq<seq<seq<Shown>>>, orig: seq<seq<Shown>>)
    requires Transmits(Flat(messages), orig)
    ensures |Flat(messages)| == |orig|
  {
  }

  /** What the next message expands to. */
  lemma MessageRead(messages: seq<seq<seq<Shown>>>, orig: seq<seq<Shown>>, i: nat, n: nat)
    requires Transmits(Flat(messages), orig) && i < |messages| && n == |Flat(messages[..i])|
    ensures var m := n + |messages[i]|;
      && m == |Flat(messages[..i + 1])| && m <= |orig|
      && ExpandAll(messages[i], if n == 0 then Throws else Is(orig[n - 1])) == Run(orig[n..m], false)
  {
    hide ExpandAll, Flat;
    SameSize(messages, orig);
    FlatPart(messages, i);
    MessageExact(Flat(messages), orig, n, n + |messages[i]|);
  }

  lemma LastIsKnown(channel: MetricsChannel)
    requires channel.Valid()
    ensures channel.last != null ==> channel.last in channel.frames
  {
  }

  lemma DeliveredAreKnown(channel: MetricsChannel, message: seq<Frame>)
    requires channel.Valid() && exists d | d in channel.delivered :: d.frames == message
    ensures forall f | f in message :: f in channel.frames
  {
  }

  lemma HandsMore(channel: MetricsChannel, before: seq<Frame>, message: seq<Frame>, shown: seq<seq<Shown>>, done: seq<seq<Shown>>)
    requires Handed(channel.delivered) == before + message && |before| == |shown| && |message| == |done|
    requires forall p | 0 <= p < |before| :: before[p] in channel.frames && ShowAll(before[p].slots) == shown[p]
    requires Shows(message) == done && forall f | f in message :: f in channel.frames
    ensures Hands(channel, shown + done)
  {
    hide ShowAll, Lists;
  }

  /** Parse one frame: every list is an array of its own. */
  method ParseFrame(payload: seq<Shown>) returns (frame: Frame)
    ensures fresh(frame) && fresh(Lists(frame.slots)) && Unshared(frame.slots)
    ensures ShowAll(frame.slots) == payload
  {
    frame := new Frame;
    frame.slots := [];
    var j := 0;
    while j < |payload|
      invariant 0 <= j <= |payload| && |frame.slots| == j && fresh(frame)
      invariant forall i | 0 <= i < j && frame.slots[i].List? :: fresh(frame.slots[i].cells)
      invariant Unshared(frame.slots)
      invariant forall i | 0 <= i < j :: Show(frame.slots[i]) == payload[i]
      decreases |payload| - j
    {
      match payload[j] {
        case One(x) =>
          frame.slots := frame.slots + [Single(x)];
        case Many(values) =>
          var cells := new Instances;
          cells.values := values;
          frame.slots := frame.slots + [List(cells)];
      }
      j := j + 1;
    }
  }

  /** Parse a message. */
  method ParseMessage(payload: seq<seq<Shown>>) returns (message: seq<Frame>)
    ensures forall f | f in message :: fresh(f) && fresh(Lists(f.slots)) && Unshared(f.slots)
    ensures fresh(AllLists(message)) && Shows(message) == payload && Separate(message, 0)
  {
    hide ShowAll, Lists, Unshared;
    message := [];
    ghost var frames: set<Frame>, lists: set<Instances> := {}, {};
    var i := 0;
    while i < |payload|
      invariant 0 <= i <= |payload| && |message| == i && fresh(frames) && fresh(lists)
      invariant forall f | f in message :: f in frames && Lists(f.slots) <= lists && Unshared(f.slots)
      invariant forall p | 0 <= p < i :: ShowAll(message[p].slots) == payload[p]
      invariant Separate(message, 0)
    {
      var frame := ParseFrame(payload[i]);
      assert forall p | 0 <= p < i :: message[p] != frame && Lists(message[p].slots) !! Lists(frame.slots);
      frames, lists := frames + {frame}, lists + Lists(frame.slots);
      message := message + [frame];
      i := i + 1;
    }
    AllListsWithin(message, lists);
  }

  /** What a frame looked like. */
  datatype Kept = Kept(slots: seq<Slot>, shown: seq<Shown>)

  /** The first `i` frames of the message have been kept as expanded, next to all earlier ones. */
  ghost predicate Recorded(
    message: seq<Frame>, i: nat, done: seq<seq<Shown>>, kept: map<Frame, Kept>, kept': map<Frame, Kept>)
  {
    && i == |done| <= |message|
    && (forall f | f in kept :: f in kept' && kept'[f] == kept[f])
    && (forall p | 0 <= p < i :: message[p] in kept' && kept'[message[p]].shown == done[p])
  }

  lemma RecordStart(message: seq<Frame>, kept: map<Frame, Kept>)
    ensures Recorded(message, 0, [], kept, kept)
  {
  }

  lemma RecordStep(
    message: seq<Frame>, i: nat, done: seq<seq<Shown>>, kept: map<Frame, Kept>, kept': map<Frame, Kept>,
    slots: seq<Slot>, shown: seq<Shown>)
    requires Recorded(message, i, done, kept, kept') && i < |message| && message[i] !in kept'
    ensures Recorded(message, i + 1, done + [shown], kept, kept'[message[i] := Kept(slots, shown)])
  {
  }

  lemma RecordedMeans(
    message: seq<Frame>, i: nat, done: seq<seq<Shown>>, kept: map<Frame, Kept>, kept': map<Frame, Kept>)
    requires Recorded(message, i, done, kept, kept')
    ensures forall f | f in kept :: f in kept' && kept'[f] == kept[f]
    ensures i == |done| && forall p | 0 <= p < i :: p < |message| && message[p] in kept' && kept'[message[p]].shown == done[p]
  {
  }

  lemma KeptAll(kept: map<Frame, Kept>, kept': map<Frame, Kept>)
    requires Holds(kept') && forall f | f in kept :: f in kept' && kept'[f] == kept[f]
    ensures forall f | f in kept :: f.slots == kept[f].slots && ShowAll(f.slots) == kept[f].shown
  {
  }

  ghost function Keep(frames: set<Frame>): (kept: map<Frame, Kept>)
    reads frames, set f, x | f in frames && x in Lists(f.slots) :: x
    ensures kept.Keys == frames && Holds(kept)
    ensures forall f | f in frames :: kept[f] == Kept(f.slots, ShowAll(f.slots))
  {
    map f | f in frames :: Kept(f.slots, ShowAll(f.slots))
  }

  ghost predicate Holds(kept: map<Frame, Kept>)
    reads kept.Keys, set f, x | f in kept.Keys && x in Lists(f.slots) :: x
  {
    forall f | f in kept.Keys :: f.slots == kept[f].slots && ShowAll(f.slots) == kept[f].shown
  }

  ghost function AllLists(message: seq<Frame>): set<Instances>
    reads message
  {
    set f, x | f in message && x in Lists(f.slots) :: x
  }

  ghost function SlotsOf(message: seq<Frame>): (r: seq<seq<Slot>>)
    reads message
    ensures |r| == |message| && forall p | 0 <= p < |message| :: r[p] == message[p].slots
  {
    if message == [] then [] else SlotsOf(message[..|message| - 1]) + [message[|message| - 1].slots]
  }

  lemma InAllLists(message: seq<Frame>)
    ensures forall p | 0 <= p < |message| :: Lists(SlotsOf(message)[p]) <= AllLists(message)
  {
  }

  /** The frames from `i` on are different, and no two of them share a list. */
  ghost predicate Separate(message: seq<Frame>, i: nat)
    reads message
  {
    forall p, q | i <= p < q < |message| :: message[p] != message[q] && Lists(message[p].slots) !! Lists(message[q].slots)
  }

  ghost function Shows(message: seq<Frame>): (r: seq<seq<Shown>>)
    reads message, AllLists(message)
    ensures |r| == |message| && forall p | 0 <= p < |message| :: r[p] == ShowAll(message[p].slots)
  {
    if message == [] then [] else
      var less := message[..|message| - 1];
      assert AllLists(less) <= AllLists(message);
      Shows(less) + [ShowAll(message[|message| - 1].slots)]
  }
}
