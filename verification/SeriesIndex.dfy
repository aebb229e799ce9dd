/** Facts about the index and the list of the series cache, as sequences of entry ids. */
module SeriesIndex {
  import opened Sequences
  import opened JsValues
  import opened Blocks

  datatype Ref = Nil | To(id: nat)

  ghost function At(block: seq<Block>, id: nat): Block {
    if id < |block| then block[id] else Block(0, [], Undefined)
  }

  ghost function Vals(block: seq<Block>, ids: seq<nat>): (r: seq<Block>)
    ensures |r| == |ids| && forall i | 0 <= i < |ids| :: r[i] == At(block, ids[i])
  {
    seq(|ids|, i requires 0 <= i < |ids| => At(block, ids[i]))
  }

  /** Whatever still holds items is in the index and on the list. */
  ghost predicate Held(block: seq<Block>, index: seq<nat>, list: seq<nat>) {
    forall id | 0 <= id < |block| && block[id].items != [] :: id in index && id in list
  }

  /** The list runs from `head` to `tail`. */
  ghost predicate Linked(next: seq<Ref>, list: seq<nat>, head: Ref, tail: Ref) {
    && head == (if list == [] then Nil else To(list[0]))
    && (forall k | 0 <= k < |list| - 1 :: list[k] < |next| && next[list[k]] == To(list[k + 1]))
    && (list != [] ==> tail == To(list[|list| - 1]))
    && (tail != Nil ==> tail.id < |next| && next[tail.id] == Nil)
  }

  /** Where in the index a block starting at `beg` goes. */
  ghost predicate IsSlot(bs: seq<Block>, at: int, beg: int) {
    && 0 <= at <= |bs|
    && (forall p | 0 <= p < at :: bs[p].beg <= beg)
    && (forall p | at <= p < |bs| :: beg <= bs[p].beg)
    && ((at < |bs| && bs[at].beg == beg) || (forall p | 0 <= p < at :: bs[p].beg < beg))
  }

  /** The entries at positions [lo, i) of the index have been trimmed, no other one was touched. */
  ghost predicate Walked(was: seq<Block>, now: seq<Block>, index: seq<nat>, lo: nat, i: nat, beg: int, end: int) {
    && Within(index, |was|) && lo <= i <= |index| && |now| == |was|
    && forall id | 0 <= id < |was| ::
         now[id] == if id in index[lo..i] then Trim(was[id], beg, end) else was[id]
  }

  ghost predicate IsApart(b: Block, beg: int, end: int) {
    b.items != [] && Min(b.End(), end) <= Max(b.beg, beg)
  }

  lemma StopsBehind(bs: seq<Block>, at: nat, i: nat, beg: int, end: int)
    requires IsSlot(bs, at, beg) && beg < end && i <= |bs|
    requires i < |bs| ==> at <= i && IsApart(bs[i], beg, end)
    ensures i < |bs| ==> end <= bs[i].beg && bs[i].items != []
    ensures at > 0 ==> bs[at - 1].beg <= beg
  {
  }

  lemma StartWalk(was: seq<Block>, index: seq<nat>, lo: nat, beg: int, end: int)
    requires Within(index, |was|) && lo <= |index|
    ensures Walked(was, was, index, lo, lo, beg, end)
  {
  }

  lemma WalkStep(
    was: seq<Block>, now: seq<Block>, index: seq<nat>, list: seq<nat>, lo: nat, i: nat, beg: int, end: int)
    requires Held(was, index, list)
    requires Walked(was, now, index, lo, i, beg, end) && Distinct(index) && i < |index|
    ensures 0 <= index[i] < |now| && now[index[i]] == was[index[i]]
    ensures now[index[i]].items != [] ==> index[i] in list
    ensures Walked(was, now[index[i] := Trim(was[index[i]], beg, end)], index, lo, i + 1, beg, end)
  {
    hide Trim;
    assert index[lo..i + 1] == index[lo..i] + [index[i]];
    assert index[i] !in index[lo..i];
  }

  lemma WithoutLeading(block: seq<Block>, index: seq<nat>, list: seq<nat>, i: nat)
    requires Within(index, |block|) && Distinct(index) && Held(block, index, list) && i <= |index|
    requires forall p | 0 <= p < i :: block[index[p]].items == []
    ensures var r := index[i..];
      && Within(r, |block|) && Distinct(r) && Held(block, r, list)
      && (Ordered(Vals(block, index)) ==> Ordered(Vals(block, r)))
  {
    var r := index[i..];
    forall id | 0 <= id < |block| && block[id].items != [] ensures id in r {
      var p :| 0 <= p < |index| && index[p] == id;
      assert r[p - i] == id;
    }
    assert Vals(block, r) == Vals(block, index)[i..];
  }

  /** Trimming keeps the accounts; what fits the list fits the index. */
  lemma StashLemma(block: seq<Block>, index: seq<nat>, list: seq<nat>, b: Block)
    requires Within(index, |block|) && Within(list, |block|) && Held(block, index, list) && b.items != []
    ensures var trimmed := TrimAll(block, b.beg, b.End());
      && Held(trimmed, index, list)
      && Vals(trimmed, list) == TrimAll(Vals(block, list), b.beg, b.End())
    ensures Fits(Vals(block, list), b.beg, b.End()) ==> Fits(Vals(block, index), b.beg, b.End())
  {
    forall id | 0 <= id < |block| ensures block[id].items == [] ==> Trim(block[id], b.beg, b.End()).items == [] {
      TrimShrinks(block[id], b.beg, b.End());
    }
    hide Trim;
    assert Vals(TrimAll(block, b.beg, b.End()), list) == TrimAll(Vals(block, list), b.beg, b.End());
    if Fits(Vals(block, list), b.beg, b.End()) {
      forall p | 0 <= p < |index| ensures !(block[index[p]].beg < b.beg && b.End() < block[index[p]].End()) {
        if block[index[p]].items != [] {
          var k :| 0 <= k < |list| && list[k] == index[p];
          assert Vals(block, list)[k] == block[index[p]];
        }
      }
    }
  }

  /** With the new entry in its slot only empty entries up to `i` can be out of order. */
  lemma InsertAlmost(was: seq<Block>, index: seq<nat>, at: nat, i: nat, b: Block)
    requires Within(index, |was|) && Ordered(Vals(was, index)) && IsSlot(Vals(was, index), at, b.beg)
    requires b.items != [] && Fits(Vals(was, index), b.beg, b.End())
    requires at <= i <= |index| && (i < |index| ==> b.End() <= was[index[i]].beg && was[index[i]].items != [])
    ensures Almost(TrimAll(was, b.beg, b.End()) + [b], Spliced(index, |was|, at), |was|, at - 1, i)
  {
    var bs, now, r := Vals(was, index), TrimAll(was, b.beg, b.End()) + [b], Spliced(index, |was|, at);
    assert |r| == |index| + 1;
    hide Trim, Vals, IsSlot, Fits, Within, Spliced, At;
    forall p, q | 0 <= p < q < |r|
      ensures At(now, r[p]).End() <= At(now, r[q]).beg
        || (r[p] == |was| && at - 1 <= q <= i && At(now, r[q]).items == [])
    {
      InsertedAt(was, index, at, b, p);
      InsertedAt(was, index, at, b, q);
      var p0, q0 := if p < at then p else p - 1, if q < at then q else q - 1;
      if p == at {
        BehindSlot(bs, at, i, b, q0);
      } else if q == at {
        BeforeSlot(bs, at, b, p0);
      } else {
        TrimShrinks(bs[p0], b.beg, b.End());
        TrimShrinks(bs[q0], b.beg, b.End());
        assert bs[p0].End() <= bs[q0].beg;
      }
    }
  }

  lemma InsertedAt(was: seq<Block>, index: seq<nat>, at: nat, b: Block, p: nat)
    requires Within(index, |was|) && at <= |index| && p <= |index|
    ensures |Spliced(index, |was|, at)| == |index| + 1
    ensures var id := Spliced(index, |was|, at)[p];
      var there := At(TrimAll(was, b.beg, b.End()) + [b], id);
      if p == at then id == |was| && there == b
      else there == Trim(Vals(was, index)[if p < at then p else p - 1], b.beg, b.End())
  {
    hide Trim;
  }

  lemma BeforeSlot(bs: seq<Block>, at: nat, b: Block, p: nat)
    requires Ordered(bs) && IsSlot(bs, at, b.beg) && b.items != [] && Fits(bs, b.beg, b.End()) && p < at
    ensures Trim(bs[p], b.beg, b.End()).End() <= b.beg
  {
    assert bs[p] in bs;
    assert at < |bs| ==> bs[p].End() <= bs[at].beg;
  }

  lemma BehindSlot(bs: seq<Block>, at: nat, i: nat, b: Block, q: nat)
    requires Ordered(bs) && IsSlot(bs, at, b.beg) && b.items != [] && at <= q < |bs| && at <= i <= |bs|
    requires i < |bs| ==> b.End() <= bs[i].beg
    ensures var t := Trim(bs[q], b.beg, b.End());
      b.End() <= t.beg || (q < i && t.items == [])
  {
    assert i < q ==> bs[i].End() <= bs[q].beg;
  }

  lemma ShrunkOrdered(was: seq<Block>, now: seq<Block>, index: seq<nat>)
    requires Shrunk(was, now) && Within(index, |was|)
    ensures Ordered(Vals(was, index)) ==> Ordered(Vals(now, index))
  {
    var v, w := Vals(was, index), Vals(now, index);
    if Ordered(v) {
      forall i, j | 0 <= i < j < |w| ensures w[i].End() <= w[j].beg {
        assert v[i].End() <= v[j].beg;
      }
    }
  }

  function Without(ids: seq<nat>, at: nat): seq<nat>
    requires at < |ids|
  {
    ids[..at] + ids[at + 1..]
  }

  /** The index is ordered, but for empty entries at [from, upto] that start inside entry `id`. */
  ghost predicate Almost(block: seq<Block>, index: seq<nat>, id: nat, from: int, upto: int) {
    forall p, q | 0 <= p < q < |index| ::
      || At(block, index[p]).End() <= At(block, index[q]).beg
      || (index[p] == id && from <= q <= upto && At(block, index[q]).items == [])
  }

  lemma WithoutEmpty(
    block: seq<Block>, index: seq<nat>, list: seq<nat>, id: nat, at: int, upto: nat)
    requires Within(index, |block|) && Distinct(index) && Held(block, index, list)
    ensures 0 <= at < |index| ==> index[at] < |block|
    ensures 0 <= at < |index| && block[index[at]].items == [] ==>
      var r := Without(index, at);
      && Within(r, |block|) && Distinct(r) && Held(block, r, list) && |r| < |index|
      && (Almost(block, index, id, at, upto) ==> Almost(block, r, id, at, upto))
    ensures !(0 <= at < |index| && block[index[at]].items == []) && Almost(block, index, id, at, upto) ==>
      Almost(block, index, id, at + 1, upto)
  {
    hide Within, Distinct, Held, Almost;
    WithinAt(index, |block|);
    if 0 <= at < |index| && block[index[at]].items == [] {
      WithoutMember(block, index, list, at);
      if Almost(block, index, id, at, upto) {
        AlmostWithout(block, index, id, at, upto);
      }
    } else if Almost(block, index, id, at, upto) {
      AlmostNext(block, index, id, at, upto);
    }
  }

  lemma WithinAt(ids: seq<nat>, n: nat)
    requires Within(ids, n)
    ensures forall p | 0 <= p < |ids| :: ids[p] < n
  {
  }

  lemma WithoutMember(block: seq<Block>, index: seq<nat>, list: seq<nat>, at: nat)
    requires Within(index, |block|) && Distinct(index) && Held(block, index, list)
    requires at < |index| && At(block, index[at]).items == []
    ensures var r := Without(index, at);
      Within(r, |block|) && Distinct(r) && Held(block, r, list) && |r| < |index|
  {
    var r := Without(index, at);
    forall e | 0 <= e < |block| && block[e].items != [] ensures e in r {
      var p :| 0 <= p < |index| && index[p] == e;
      assert r[if p < at then p else p - 1] == e;
    }
  }

  lemma AlmostWithout(block: seq<Block>, index: seq<nat>, id: nat, at: nat, upto: nat)
    requires Almost(block, index, id, at, upto) && at < |index|
    ensures Almost(block, Without(index, at), id, at, upto)
  {
    hide At;
  }

  lemma AlmostNext(block: seq<Block>, index: seq<nat>, id: nat, at: int, upto: nat)
    requires Almost(block, index, id, at, upto) && !(0 <= at < |index| && At(block, index[at]).items == [])
    ensures Almost(block, index, id, at + 1, upto)
  {
    hide At;
  }

  lemma AlmostDone(block: seq<Block>, index: seq<nat>, id: nat, at: int, upto: int)
    requires upto < at
    ensures Almost(block, index, id, at, upto) ==> Ordered(Vals(block, index))
  {
  }

  function Emptied(b: Block): Block { b.(items := [], mapping := NULL) }

  ghost predicate Shrunk(was: seq<Block>, now: seq<Block>) {
    |now| == |was| && forall id | 0 <= id < |was| :: now[id] == was[id] || now[id] == Emptied(was[id])
  }

  lemma ExpireStep(
    was: seq<Block>, block: seq<Block>, next: seq<Ref>, index: seq<nat>, list: seq<nat>, head: Ref, tail: Ref, limit: nat)
    requires Within(list, |block|) && Distinct(list) && Held(block, index, list) && Shrunk(was, block)
    requires |next| == |block| && Linked(next, list, head, tail)
    requires head != Nil && limit < Total(Vals(block, list))
    ensures list != [] && head.id == list[0] && head.id < |block|
    ensures var block', list' := block[head.id := Emptied(block[head.id])], list[1..];
      && Within(list', |block|) && Distinct(list') && Held(block', index, list') && Shrunk(was, block')
      && Linked(next, list', next[head.id], tail)
      && Total(Vals(block', list')) == Total(Vals(block, list)) - |block[head.id].items|
      && Expire(Vals(block', list'), limit) == Expire(Vals(block, list), limit)
  {
    hide Linked, Within, Distinct, Held, Shrunk, Vals, Total, Expire;
    ExpireLinks(was, block, next, index, list, head, tail);
    ExpireTotals(block, list, limit);
  }

  lemma ExpireLinks(
    was: seq<Block>, block: seq<Block>, next: seq<Ref>, index: seq<nat>, list: seq<nat>, head: Ref, tail: Ref)
    requires Within(list, |block|) && Distinct(list) && Held(block, index, list) && Shrunk(was, block)
    requires |next| == |block| && Linked(next, list, head, tail) && head != Nil
    ensures list != [] && head.id == list[0] && head.id < |block|
    ensures var block', list' := block[head.id := Emptied(block[head.id])], list[1..];
      && Within(list', |block|) && Distinct(list') && Held(block', index, list') && Shrunk(was, block')
      && Linked(next, list', next[head.id], tail)
  {
    var block', list' := block[head.id := Emptied(block[head.id])], list[1..];
    forall id | 0 <= id < |block'| && block'[id].items != [] ensures id in index && id in list' {
      assert block[id].items != [] && id in list;
      var p :| 0 <= p < |list| && list[p] == id;
      assert list'[p - 1] == id;
    }
  }

  lemma ExpireTotals(block: seq<Block>, list: seq<nat>, limit: nat)
    requires Within(list, |block|) && Distinct(list) && list != [] && limit < Total(Vals(block, list))
    ensures var block', list' := block[list[0] := Emptied(block[list[0]])], list[1..];
      && Total(Vals(block', list')) == Total(Vals(block, list)) - |block[list[0]].items|
      && Expire(Vals(block', list'), limit) == Expire(Vals(block, list), limit)
  {
    var bs := Vals(block, list);
    assert Vals(block[list[0] := Emptied(block[list[0]])], list[1..]) == bs[1..];
    TotalHead(bs);
    assert bs[1..][Evicted(bs[1..], limit)..] == bs[Evicted(bs, limit)..];
  }

  lemma ExpireDone(block: seq<Block>, next: seq<Ref>, list: seq<nat>, head: Ref, tail: Ref, limit: nat)
    requires Linked(next, list, head, tail) && (head == Nil || Total(Vals(block, list)) <= limit)
    ensures Expire(Vals(block, list), limit) == Vals(block, list)
  {
  }

  lemma ShrunkSame(block: seq<Block>)
    ensures Shrunk(block, block)
  {
  }

  lemma NewEntry(
    block: seq<Block>, next: seq<Ref>, index: seq<nat>, list: seq<nat>, head: Ref, tail: Ref, b: Block, at: nat)
    requires Within(index, |block|) && Within(list, |block|) && Distinct(index) && Distinct(list) && at <= |index|
    requires |next| == |block| && Linked(next, list, head, tail) && Held(block, index, list)
    ensures var id: nat := |block|;
      var index', list' := Spliced(index, id, at), list + [id];
      && Within(index', id + 1) && Within(list', id + 1) && Distinct(index') && Distinct(list')
      && (tail != Nil ==> tail.id < |next|)
      && Linked(LinkTo(next, tail, id), list', if head == Nil then To(id) else head, To(id))
      && Held(block + [b], index', list')
      && Vals(block + [b], list') == Vals(block, list) + [b]
      && Total(Vals(block, list) + [b]) == Total(Vals(block, list)) + |b.items|
  {
    var id: nat := |block|;
    NewMember(index, id, at);
    NewMember(list, id, |list|);
    assert Spliced(list, id, |list|) == list + [id];
    NewHeld(block, index, list, b, at);
    NewLast(next, list, head, tail);
    assert Vals(block + [b], list + [id]) == Vals(block, list) + [b];
    TotalSplit(Vals(block, list), [b]);
    TotalOne(b);
  }

  /** The links once entry `id` hangs behind the old tail. */
  function LinkTo(next: seq<Ref>, tail: Ref, id: nat): seq<Ref>
    requires tail != Nil ==> tail.id < |next|
  {
    if tail != Nil then (next + [Nil])[tail.id := To(id)] else next + [Nil]
  }

  function Spliced(ids: seq<nat>, id: nat, at: nat): seq<nat>
    requires at <= |ids|
  {
    ids[..at] + [id] + ids[at..]
  }

  lemma NewMember(ids: seq<nat>, id: nat, at: nat)
    requires Within(ids, id) && Distinct(ids) && at <= |ids|
    ensures Within(Spliced(ids, id, at), id + 1) && Distinct(Spliced(ids, id, at))
  {
  }

  lemma NewHeld(block: seq<Block>, index: seq<nat>, list: seq<nat>, b: Block, at: nat)
    requires Held(block, index, list) && at <= |index|
    ensures Held(block + [b], Spliced(index, |block|, at), list + [|block|])
  {
    var r := Spliced(index, |block|, at);
    assert r[at] == |block|;
    forall id | id in index ensures id in r {
      var p :| 0 <= p < |index| && index[p] == id;
      assert r[if p < at then p else p + 1] == id;
    }
  }

  lemma NewLast(next: seq<Ref>, list: seq<nat>, head: Ref, tail: Ref)
    requires Linked(next, list, head, tail) && Within(list, |next|) && Distinct(list)
    ensures var id: nat := |next|;
      Linked(LinkTo(next, tail, id), list + [id], if head == Nil then To(id) else head, To(id))
  {
  }

  /** Whatever the walk left out had nothing to trim. */
  lemma WalkTrimsAll(
    was: seq<Block>, now: seq<Block>, index: seq<nat>, list: seq<nat>, lo: nat, i: nat, beg: int, end: int)
    requires Walked(was, now, index, lo, i, beg, end) && beg < end && Ordered(Vals(was, index))
    requires Held(was, index, list)
    requires i < |index| ==> end <= was[index[i]].beg
    requires lo == 0 || (lo < |index| && was[index[lo]].beg <= beg)
    ensures now == TrimAll(was, beg, end)
  {
    forall id | 0 <= id < |was| ensures now[id] == Trim(was[id], beg, end) {
      WalkTrims(was, now, index, list, lo, i, beg, end, id);
    }
  }

  lemma OutsideWalk(bs: seq<Block>, lo: nat, i: nat, p: nat, beg: int, end: int)
    requires Ordered(bs) && p < |bs| && !(lo <= p < i) && lo <= i <= |bs|
    requires i < |bs| ==> end <= bs[i].beg
    requires lo == 0 || (lo < |bs| && bs[lo].beg <= beg)
    ensures bs[p].End() <= beg || end <= bs[p].beg
  {
    assert p < lo ==> bs[p].End() <= bs[lo].beg;
    assert i < p ==> bs[i].End() <= bs[p].beg;
  }

  lemma WalkTrims(
    was: seq<Block>, now: seq<Block>, index: seq<nat>, list: seq<nat>, lo: nat, i: nat, beg: int, end: int, id: nat)
    requires Walked(was, now, index, lo, i, beg, end) && beg < end && Ordered(Vals(was, index))
    requires Held(was, index, list) && id < |was|
    requires i < |index| ==> end <= was[index[i]].beg
    requires lo == 0 || (lo < |index| && was[index[lo]].beg <= beg)
    ensures now[id] == Trim(was[id], beg, end)
  {
    hide Trim, Ordered, Vals;
    if was[id].items == [] {
      TrimApart(was[id], beg, end);
    } else {
      var p :| 0 <= p < |index| && index[p] == id;
      if lo <= p < i {
        assert index[lo..i][p - lo] == id;
      } else {
        var bs := Vals(was, index);
        assert bs[p] == was[id] && (i < |bs| ==> bs[i] == was[index[i]]) && (lo < |bs| ==> bs[lo] == was[index[lo]]);
        OutsideWalk(bs, lo, i, p, beg, end);
        TrimApart(was[id], beg, end);
      }
    }
  }

  // ----- The two ways of counting

  ghost predicate Covers(block: seq<Block>, xs: seq<nat>, ys: seq<nat>) {
    forall i | 0 <= i < |xs| && At(block, xs[i]).items != [] :: xs[i] in ys
  }

  /** Two lists of entries that hold the same items hold equally many. */
  lemma {:induction false} SameTotal(block: seq<Block>, xs: seq<nat>, ys: seq<nat>)
    requires Distinct(xs) && Distinct(ys) && Covers(block, xs, ys) && Covers(block, ys, xs)
    ensures Total(Vals(block, xs)) == Total(Vals(block, ys))
    decreases |xs|
  {
    hide Total, Vals, Covers, Distinct, At;
    if xs == [] {
      NoTotal(block, ys);
      NoTotal(block, xs);
    } else {
      var n := |xs| - 1;
      LastOut(block, xs, ys);
      if At(block, xs[n]).items == [] {
        SameTotal(block, xs[..n], ys);
      } else {
        var k := Position(block, xs, ys);
        SameTotal(block, xs[..n], Without(ys, k));
        TotalWithout(block, ys, k);
      }
    }
  }

  lemma {:induction false} NoTotal(block: seq<Block>, ys: seq<nat>)
    requires Covers(block, ys, [])
    ensures Total(Vals(block, ys)) == 0
  {
    if ys != [] {
      assert Vals(block, ys)[..|ys| - 1] == Vals(block, ys[..|ys| - 1]);
      NoTotal(block, ys[..|ys| - 1]);
    }
  }

  lemma LastOut(block: seq<Block>, xs: seq<nat>, ys: seq<nat>)
    requires xs != [] && Distinct(xs) && Distinct(ys) && Covers(block, xs, ys) && Covers(block, ys, xs)
    ensures Distinct(xs[..|xs| - 1])
    ensures Total(Vals(block, xs)) == Total(Vals(block, xs[..|xs| - 1])) + |At(block, xs[|xs| - 1]).items|
    ensures At(block, xs[|xs| - 1]).items == [] ==> Covers(block, xs[..|xs| - 1], ys) && Covers(block, ys, xs[..|xs| - 1])
  {
    var n := |xs| - 1;
    assert Vals(block, xs)[..n] == Vals(block, xs[..n]);
    if At(block, xs[n]).items == [] {
      forall i | 0 <= i < |ys| && At(block, ys[i]).items != [] ensures ys[i] in xs[..n] {
        var p :| 0 <= p < |xs| && xs[p] == ys[i];
        assert xs[..n][p] == ys[i];
      }
    }
  }

  lemma Position(block: seq<Block>, xs: seq<nat>, ys: seq<nat>) returns (k: nat)
    requires xs != [] && Distinct(xs) && Distinct(ys) && Covers(block, xs, ys) && Covers(block, ys, xs)
    requires At(block, xs[|xs| - 1]).items != []
    ensures k < |ys| && ys[k] == xs[|xs| - 1]
    ensures var xs', ys' := xs[..|xs| - 1], Without(ys, k);
      Distinct(ys') && Covers(block, xs', ys') && Covers(block, ys', xs')
  {
    var n := |xs| - 1;
    k :| 0 <= k < |ys| && ys[k] == xs[n];
    var ys' := Without(ys, k);
    forall i | 0 <= i < n && At(block, xs[i]).items != [] ensures xs[i] in ys' {
      var p :| 0 <= p < |ys| && ys[p] == xs[i];
      assert ys'[if p < k then p else p - 1] == xs[i];
    }
    forall i | 0 <= i < |ys'| && At(block, ys'[i]).items != [] ensures ys'[i] in xs[..n] {
      var j := if i < k then i else i + 1;
      assert ys[j] == ys'[i];
      var p :| 0 <= p < |xs| && xs[p] == ys[j];
      assert xs[..n][p] == ys'[i];
    }
  }

  lemma TotalWithout(block: seq<Block>, ys: seq<nat>, k: nat)
    requires k < |ys|
    ensures Total(Vals(block, ys)) == Total(Vals(block, Without(ys, k))) + |At(block, ys[k]).items|
  {
    hide Total, Vals;
    assert ys == ys[..k] + [ys[k]] + ys[k + 1..];
    ValsConcat(block, ys[..k] + [ys[k]], ys[k + 1..]);
    ValsConcat(block, ys[..k], [ys[k]]);
    ValsConcat(block, ys[..k], ys[k + 1..]);
    var a, b, x := Vals(block, ys[..k]), Vals(block, ys[k + 1..]), Vals(block, [ys[k]]);
    TotalSplit(a + x, b);
    TotalSplit(a, x);
    TotalSplit(a, b);
    assert x == [At(block, ys[k])];
    TotalOne(At(block, ys[k]));
  }

  lemma ValsConcat(block: seq<Block>, xs: seq<nat>, ys: seq<nat>)
    ensures Vals(block, xs + ys) == Vals(block, xs) + Vals(block, ys)
  {
  }
}
