/** Metrics frames as values: what a message shows, how a frame is expanded against the one before, and
    that this undoes any compression a sender may do. */
module Frames {

  datatype Scalar = Null | Undefined | Number(value: int)

  /** One slot of a frame: a scalar, or the values of a metric's instances. */
  datatype Shown = One(scalar: Scalar) | Many(values: seq<Scalar>)

  /** Whether a slot is null, undefined or past the end of its frame. */
  predicate IsMissing(frame: seq<Shown>, j: nat) {
    j < |frame| ==> frame[j].One? && !frame[j].scalar.Number?
  }

  /** Reading `values[k]`; past the end there is nothing. */
  function At(values: seq<Scalar>, k: nat): Scalar {
    if k < |values| then values[k] else Undefined
  }

  /** The nulls of an instance list and whatever it leaves out come from the last one. */
  function FillIn(values: seq<Scalar>, last: seq<Scalar>): (r: seq<Scalar>)
    ensures |r| == if |values| < |last| then |last| else |values|
    ensures forall k | 0 <= k < |r| :: r[k] == Filled(values, last, k)
  {
    seq(if |values| < |last| then |last| else |values|, k requires 0 <= k => Filled(values, last, k))
  }

  function Filled(values: seq<Scalar>, last: seq<Scalar>, k: nat): Scalar {
    if k < |values| && values[k] != Null then values[k] else At(last, k)
  }

  /** What slot `j` becomes, or nothing where reading the length of the last slot throws. A number has
      neither length nor elements. */
  datatype Expanded<T> = Throws | Is(value: T)

  function ExpandSlot(frame: seq<Shown>, last: seq<Shown>, j: nat): Expanded<Shown>
    requires j < |last|
  {
    if IsMissing(frame, j) then Is(last[j])
    else if frame[j].One? then Is(frame[j])
    else match last[j]
      case Many(values) => Is(Many(FillIn(frame[j].values, values)))
      case One(Number(_)) => Is(Many(FillIn(frame[j].values, [])))
      case One(_) => Throws
  }

  lemma SameSlot(a: seq<Shown>, b: seq<Shown>, last: seq<Shown>, j: nat)
    requires j < |last| && (j < |a| <==> j < |b|) && (j < |a| ==> a[j] == b[j])
    ensures ExpandSlot(a, last, j) == ExpandSlot(b, last, j)
  {
  }

  /** The slots [0, j) expanded. */
  function ExpandUpTo(frame: seq<Shown>, last: seq<Shown>, j: nat): Expanded<seq<Shown>>
    requires j <= |last|
  {
    if j == 0 then Is([])
    else
      var before := ExpandUpTo(frame, last, j - 1);
      if before.Throws? then Throws
      else
        var slot := ExpandSlot(frame, last, j - 1);
        if slot.Throws? then Throws else Is(before.value + [slot.value])
  }

  /** A frame expanded against the last one; slots past the last one's stay. */
  function Expand(frame: seq<Shown>, last: seq<Shown>): Expanded<seq<Shown>> {
    var slots := ExpandUpTo(frame, last, |last|);
    if slots.Throws? then Throws
    else Is(slots.value + if |frame| > |last| then frame[|last|..] else [])
  }

  /** The frames of a message in turn, each against the one before; `last` is empty at the beginning.
      Frames up to one that throws are done. */
  datatype Run = Run(done: seq<seq<Shown>>, thrown: bool)

  function ExpandAll(frames: seq<seq<Shown>>, last: Expanded<seq<Shown>>): Run {
    if frames == [] then Run([], false)
    else
      var first := if last.Is? then Expand(frames[0], last.value) else Is(frames[0]);
      if first.Throws? then Run([], true)
      else
        var rest := ExpandAll(frames[1..], first);
        Run([first.value] + rest.done, rest.thrown)
  }

  // ----- Compression

  predicate IsNumber(s: Scalar) { s.Number? }

  /** Every slot has its values. */
  predicate Complete(frame: seq<Shown>) {
    forall j | 0 <= j < |frame| ::
      match frame[j]
      case One(s) => IsNumber(s)
      case Many(values) => forall k | 0 <= k < |values| :: IsNumber(values[k])
  }

  predicate SameShape(a: seq<Shown>, b: seq<Shown>) {
    && |a| == |b|
    && forall j | 0 <= j < |a| :: a[j].One? == b[j].One? && (a[j].Many? ==> |a[j].values| == |b[j].values|)
  }

  /** Whether a sender may send `values` for `orig`: nulls and a missing end only where nothing changed. */
  predicate ValuesFor(values: seq<Scalar>, orig: seq<Scalar>, prev: seq<Scalar>) {
    && |values| <= |orig| && |prev| == |orig|
    && forall k | 0 <= k < |orig| ::
         if k < |values| && values[k] != Null then values[k] == orig[k] else orig[k] == prev[k]
  }

  /** Whether a sender may send `sent` for the frame `orig` after the frame `prev`. */
  predicate SentFor(sent: seq<Shown>, orig: seq<Shown>, prev: seq<Shown>) {
    && |sent| <= |orig| && |prev| == |orig|
    && forall j | 0 <= j < |orig| :: SlotFor(sent, orig, prev, j)
  }

  predicate SlotFor(sent: seq<Shown>, orig: seq<Shown>, prev: seq<Shown>, j: nat)
    requires j < |orig| && |prev| == |orig|
  {
    if IsMissing(sent, j) then orig[j] == prev[j]
    else if sent[j].One? then orig[j] == sent[j]
    else orig[j].Many? && prev[j].Many? && ValuesFor(sent[j].values, orig[j].values, prev[j].values)
  }

  /** Whether `sent` is a transmission of the frames `orig` of one shape, the first one in full. */
  ghost predicate Transmits(sent: seq<seq<Shown>>, orig: seq<seq<Shown>>) {
    && |sent| == |orig|
    && (forall i | 0 <= i < |orig| :: Complete(orig[i]) && SameShape(orig[i], orig[0]))
    && (orig != [] ==> sent[0] == orig[0])
    && forall i | 0 < i < |orig| :: SentFor(sent[i], orig[i], orig[i - 1])
  }

  lemma {:induction false} ExpandUpToIs(frame: seq<Shown>, last: seq<Shown>, j: nat, v: seq<Shown>)
    requires j <= |last|
    ensures ExpandUpTo(frame, last, j) == Is(v) <==>
      |v| == j && forall i | 0 <= i < j :: ExpandSlot(frame, last, i) == Is(v[i])
  {
    hide ExpandSlot;
    if j > 0 {
      if |v| == j {
        ExpandUpToIs(frame, last, j - 1, v[..j - 1]);
        assert v == v[..j - 1] + [v[j - 1]];
      }
      var before := ExpandUpTo(frame, last, j - 1);
      if before.Is? {
        ExpandUpToIs(frame, last, j - 1, before.value);
        var slot := ExpandSlot(frame, last, j - 1);
        if slot.Is? && before.value + [slot.value] == v {
          assert v[..j - 1] == before.value;
        }
      }
    }
  }

  lemma {:induction false} ExpandUpToThrows(frame: seq<Shown>, last: seq<Shown>, at: nat, j: nat)
    requires at < j <= |last| && ExpandSlot(frame, last, at).Throws?
    ensures ExpandUpTo(frame, last, j).Throws?
  {
    if at < j - 1 {
      ExpandUpToThrows(frame, last, at, j - 1);
    }
  }

  lemma ExpandThrows(frame: seq<Shown>, last: seq<Shown>, at: nat)
    requires at < |last| && ExpandSlot(frame, last, at).Throws?
    ensures Expand(frame, last).Throws?
  {
    ExpandUpToThrows(frame, last, at, |last|);
  }

  /** The expanded frame, slot by slot. */
  lemma ExpandIs(frame: seq<Shown>, last: seq<Shown>, v: seq<Shown>)
    requires |v| == if |frame| < |last| then |last| else |frame|
    requires forall i | 0 <= i < |last| :: ExpandSlot(frame, last, i) == Is(v[i])
    requires forall i | |last| <= i < |frame| :: v[i] == frame[i]
    ensures Expand(frame, last) == Is(v)
  {
    hide ExpandSlot;
    ExpandUpToIs(frame, last, |last|, v[..|last|]);
    assert v == v[..|last|] + v[|last|..];
    assert v[|last|..] == if |frame| > |last| then frame[|last|..] else [];
  }

  /** One slot comes out right exactly when it was sent by the rules. */
  lemma SlotExact(sent: seq<Shown>, orig: seq<Shown>, prev: seq<Shown>, j: nat)
    requires Complete(orig) && SameShape(orig, prev) && Complete(prev) && j < |prev|
    ensures ExpandSlot(sent, prev, j) == Is(orig[j]) <==> SlotFor(sent, orig, prev, j)
  {
    if !IsMissing(sent, j) && sent[j].Many? && orig[j].Many? {
      var values := FillIn(sent[j].values, prev[j].values);
      assert ValuesFor(sent[j].values, orig[j].values, prev[j].values) ==> values == orig[j].values;
      assert values == orig[j].values ==> ValuesFor(sent[j].values, orig[j].values, prev[j].values);
    }
  }

  /** A frame comes out right exactly when it was sent by the rules. */
  lemma ExpandExact(sent: seq<Shown>, orig: seq<Shown>, prev: seq<Shown>)
    requires Complete(orig) && SameShape(orig, prev) && Complete(prev)
    ensures Expand(sent, prev) == Is(orig) <==> SentFor(sent, orig, prev)
  {
    hide ExpandSlot, SlotFor;
    forall j | 0 <= j < |prev| ensures ExpandSlot(sent, prev, j) == Is(orig[j]) <==> SlotFor(sent, orig, prev, j) {
      SlotExact(sent, orig, prev, j);
    }
    ExpandUpToIs(sent, prev, |prev|, orig);
    var slots := ExpandUpTo(sent, prev, |prev|);
    if slots.Is? {
      ExpandUpToIs(sent, prev, |prev|, slots.value);
      var rest := if |sent| > |prev| then sent[|prev|..] else [];
      assert (slots.value + rest)[..|prev|] == slots.value;
      assert rest == [] ==> slots.value + rest == slots.value;
    }
  }

  /** Expanding what was sent after `prev` gives the originals back. */
  lemma {:induction false} ExpandAllAfter(sent: seq<seq<Shown>>, orig: seq<seq<Shown>>, prev: seq<Shown>)
    requires |sent| == |orig| && Complete(prev)
    requires forall i | 0 <= i < |orig| :: Complete(orig[i]) && SameShape(orig[i], prev)
    requires forall i | 0 <= i < |orig| :: SentFor(sent[i], orig[i], ([prev] + orig)[i])
    ensures ExpandAll(sent, Is(prev)) == Run(orig, false)
  {
    hide SentFor, Complete, Expand;
    if sent != [] {
      assert SentFor(sent[0], orig[0], ([prev] + orig)[0]);
      ExpandExact(sent[0], orig[0], prev);
      forall i | 0 <= i < |orig[1..]| ensures SentFor(sent[1..][i], orig[1..][i], ([orig[0]] + orig[1..])[i]) {
        assert ([orig[0]] + orig[1..])[i] == ([prev] + orig)[i + 1];
        assert SentFor(sent[i + 1], orig[i + 1], ([prev] + orig)[i + 1]);
      }
      ExpandAllAfter(sent[1..], orig[1..], orig[0]);
      assert orig == [orig[0]] + orig[1..];
    }
  }

  lemma ExpandAllExact(sent: seq<seq<Shown>>, orig: seq<seq<Shown>>)
    requires Transmits(sent, orig)
    ensures ExpandAll(sent, Throws) == Run(orig, false)
  {
    hide SentFor, Complete, Expand;
    if sent != [] {
      forall i | 0 <= i < |orig[1..]| ensures SentFor(sent[1..][i], orig[1..][i], ([orig[0]] + orig[1..])[i]) {
        assert ([orig[0]] + orig[1..])[i] == orig[i];
      }
      ExpandAllAfter(sent[1..], orig[1..], orig[0]);
      assert orig == [orig[0]] + orig[1..];
    }
  }

  /** However a transmission is cut into messages, each message expands to its part of the originals, given
      the last original before it: whatever comes next starts from the right frame. */
  lemma MessageExact(sent: seq<seq<Shown>>, orig: seq<seq<Shown>>, i: nat, j: nat)
    requires Transmits(sent, orig) && i <= j <= |sent|
    ensures ExpandAll(sent[i..j], if i == 0 then Throws else Is(orig[i - 1])) == Run(orig[i..j], false)
  {
    hide SentFor, Complete, Expand, ExpandAll;
    var s, o := sent[i..j], orig[i..j];
    if i == 0 {
      ExpandAllExact(s, o);
    } else {
      forall k | 0 <= k < |o| ensures SentFor(s[k], o[k], ([orig[i - 1]] + o)[k]) {
        assert ([orig[i - 1]] + o)[k] == orig[i + k - 1];
      }
      forall k | 0 <= k < |o| ensures SameShape(o[k], orig[i - 1]) {
        assert SameShape(orig[i + k], orig[0]) && SameShape(orig[i - 1], orig[0]);
      }
      ExpandAllAfter(s, o, orig[i - 1]);
    }
  }

  /** One frame and the rest. */
  lemma ExpandAllHead(frames: seq<seq<Shown>>, last: Expanded<seq<Shown>>)
    requires frames != []
    ensures var first := if last.Is? then Expand(frames[0], last.value) else Is(frames[0]);
      ExpandAll(frames, last) ==
        if first.Throws? then Run([], true)
        else Run([first.value] + ExpandAll(frames[1..], first).done, ExpandAll(frames[1..], first).thrown)
  {
  }

  /** The last frame that was expanded. */
  function Latest(done: seq<seq<Shown>>, last: Expanded<seq<Shown>>): Expanded<seq<Shown>> {
    if done == [] then last else Is(done[|done| - 1])
  }

  /** Messages may break the run anywhere: the last frame carries over. */
  lemma {:induction false} ExpandAllSplit(a: seq<seq<Shown>>, b: seq<seq<Shown>>, last: Expanded<seq<Shown>>)
    ensures var ra := ExpandAll(a, last);
      !ra.thrown ==>
        var rb := ExpandAll(b, Latest(ra.done, last));
        ExpandAll(a + b, last) == Run(ra.done + rb.done, rb.thrown)
    decreases |a|, 1
  {
    if a == [] {
      assert a + b == b;
      assert ExpandAll(a, last) == Run([], false);
      assert [] + ExpandAll(b, last).done == ExpandAll(b, last).done;
    } else {
      SplitStep(a, b, last);
    }
  }

  lemma {:induction false} SplitStep(a: seq<seq<Shown>>, b: seq<seq<Shown>>, last: Expanded<seq<Shown>>)
    requires a != []
    ensures var ra := ExpandAll(a, last);
      !ra.thrown ==>
        var rb := ExpandAll(b, Latest(ra.done, last));
        ExpandAll(a + b, last) == Run(ra.done + rb.done, rb.thrown)
    decreases |a|, 0
  {
    hide Expand, ExpandAll;
    var first := if last.Is? then Expand(a[0], last.value) else Is(a[0]);
    ExpandAllHead(a, last);
    ExpandAllHead(a + b, last);
    assert (a + b)[0] == a[0] && (a + b)[1..] == a[1..] + b;
    if first.Is? {
      ExpandAllSplit(a[1..], b, first);
      var rest := ExpandAll(a[1..], first);
      assert Latest([first.value] + rest.done, last) == Latest(rest.done, first);
      var more := ExpandAll(b, Latest(rest.done, first)).done;
      assert [first.value] + (rest.done + more) == [first.value] + rest.done + more;
    }
  }

  /** After `i` frames, `done` are expanded and `now` is the last of them. */
  ghost predicate Continues(
    frames: seq<seq<Shown>>, last: Expanded<seq<Shown>>, i: nat, done: seq<seq<Shown>>, now: Expanded<seq<Shown>>)
    requires i <= |frames|
  {
    var rest := ExpandAll(frames[i..], now);
    |done| == i && ExpandAll(frames, last) == Run(done + rest.done, rest.thrown)
  }

  lemma ContinueStart(frames: seq<seq<Shown>>, last: Expanded<seq<Shown>>)
    ensures Continues(frames, last, 0, [], last)
  {
    assert frames[0..] == frames;
    var rest := ExpandAll(frames, last);
    assert [] + rest.done == rest.done;
  }

  lemma ContinueStep(
    frames: seq<seq<Shown>>, last: Expanded<seq<Shown>>, i: nat, done: seq<seq<Shown>>, now: Expanded<seq<Shown>>)
    requires i < |frames| && Continues(frames, last, i, done, now)
    ensures var first := if now.Is? then Expand(frames[i], now.value) else Is(frames[i]);
      if first.Throws? then ExpandAll(frames, last).thrown
      else Continues(frames, last, i + 1, done + [first.value], first)
  {
    hide Expand;
    assert frames[i..][0] == frames[i] && frames[i..][1..] == frames[i + 1..];
    var first := if now.Is? then Expand(frames[i], now.value) else Is(frames[i]);
    if first.Is? {
      var rest := ExpandAll(frames[i + 1..], first);
      assert done + ([first.value] + rest.done) == done + [first.value] + rest.done;
    }
  }

  lemma ContinueEnd(frames: seq<seq<Shown>>, last: Expanded<seq<Shown>>, done: seq<seq<Shown>>, now: Expanded<seq<Shown>>)
    requires Continues(frames, last, |frames|, done, now)
    ensures ExpandAll(frames, last) == Run(done, false)
  {
    assert frames[|frames|..] == [] && done + [] == done;
  }
}
