/** What `load` has to do, on values: the parts of a range that are cached and the gaps between them. */
module Ranges {
  import opened Sequences
  import opened JsValues
  import opened Blocks
  import opened SeriesIndex

  datatype Range = Range(beg: int, end: int) {
    predicate Has(t: int) { beg <= t < end }
  }

  ghost predicate InSome(rs: seq<Range>, t: int) {
    exists i :: 0 <= i < |rs| && rs[i].Has(t)
  }

  /** Ascending and non-empty, with something between any two of them. */
  ghost predicate Spaced(rs: seq<Range>) {
    && (forall i | 0 <= i < |rs| :: rs[i].beg < rs[i].end)
    && (forall i, j | 0 <= i < j < |rs| :: rs[i].end < rs[j].beg)
  }

  /** Ascending, non-empty, not overlapping. */
  ghost predicate Pieces(ps: seq<Block>) {
    Ordered(ps) && forall i | 0 <= i < |ps| :: ps[i].items != []
  }

  /** The part of a map on [beg, end). */
  ghost function Part(m: map<int, Cell>, beg: int, end: int): map<int, Cell> {
    map t | t in m && beg <= t < end :: m[t]
  }

  /** Up to `last` the range has been divided into the gaps and the pieces of the map. */
  ghost predicate Divided(m: map<int, Cell>, beg: int, last: int, gaps: seq<Range>, pieces: seq<Block>) {
    && beg <= last && Spaced(gaps) && Pieces(pieces)
    && (forall t :: InSome(gaps, t) <==> beg <= t < last && t !in m)
    && (forall t :: Tells(Part(m, beg, last), pieces, t))
  }

  /** No block before position `i` has anything at or after `last`. */
  ghost predicate Behind(bs: seq<Block>, i: nat, last: int, end: int) {
    forall q, t | 0 <= q < i <= |bs| && last <= t < end :: !bs[q].Has(t)
  }

  /** Whether the blocks are all there is to the map. */
  ghost predicate Indexes(bs: seq<Block>, m: map<int, Cell>) {
    Ordered(bs) && forall t :: Tells(m, bs, t)
  }

  lemma DivideGap(m: map<int, Cell>, beg: int, last: int, gaps: seq<Range>, pieces: seq<Block>, b: int)
    requires Divided(m, beg, last, gaps, pieces) && last < b
    requires gaps == [] || gaps[|gaps| - 1].end < last
    requires forall t | last <= t < b :: t !in m
    ensures Divided(m, beg, b, gaps + [Range(last, b)], pieces)
  {
    var r := gaps + [Range(last, b)];
    forall t ensures InSome(r, t) <==> beg <= t < b && t !in m {
      if InSome(gaps, t) {
        var i :| 0 <= i < |gaps| && gaps[i].Has(t);
        assert r[i].Has(t);
      }
      if last <= t < b {
        assert r[|gaps|].Has(t);
      }
      if InSome(r, t) {
        var i :| 0 <= i < |r| && r[i].Has(t);
        assert i < |gaps| ==> gaps[i].Has(t);
      }
    }
    assert Part(m, beg, b) == Part(m, beg, last);
  }

  lemma DividePiece(m: map<int, Cell>, beg: int, last: int, gaps: seq<Range>, pieces: seq<Block>, p: Block)
    requires Divided(m, beg, last, gaps, pieces) && p.items != [] && p.beg == last
    requires pieces == [] || pieces[|pieces| - 1].End() <= last
    requires forall t | p.Has(t) :: t in m && m[t] == p.CellAt(t)
    ensures Divided(m, beg, p.End(), gaps, pieces + [p])
  {
    var r := pieces + [p];
    forall t ensures Tells(Part(m, beg, p.End()), r, t) {
      assert Tells(Part(m, beg, last), pieces, t);
      if Covered(pieces, t) {
        var i :| 0 <= i < |pieces| && pieces[i].Has(t);
        assert r[i].Has(t);
      }
      if p.Has(t) {
        assert r[|pieces|].Has(t);
      }
    }
    forall i, j | 0 <= i < j < |r| ensures r[i].End() <= r[j].beg {
      assert i < |pieces| - 1 ==> pieces[i].End() <= pieces[|pieces| - 1].beg;
    }
  }

  // ----- The walk over the index

  /** What holds when the walk has reached position `i`. */
  ghost predicate Scan(
    bs: seq<Block>, m: map<int, Cell>, beg: int, end: int, i: nat, last: int, gaps: seq<Range>, pieces: seq<Block>)
  {
    && i <= |bs| && last <= end
    && Divided(m, beg, last, gaps, pieces)
    && Behind(bs, i, last, end)
    && (last == beg || forall q | i <= q < |bs| :: last <= bs[q].beg)
    && (gaps == [] || gaps[|gaps| - 1].end < last)
    && (pieces == [] || pieces[|pieces| - 1].End() <= last)
  }

  lemma ScanStart(bs: seq<Block>, m: map<int, Cell>, beg: int, end: int, at: nat)
    requires Indexes(bs, m) && beg < end && IsSlot(bs, at, beg)
    ensures Scan(bs, m, beg, end, if at > 0 then at - 1 else at, beg, [], [])
  {
    var i := if at > 0 then at - 1 else at;
    forall q, t | 0 <= q < i && beg <= t < end ensures !bs[q].Has(t) {
      assert bs[q].End() <= bs[i].beg;
    }
  }

  /** An entry without items, or one before the slot that does not reach the range. */
  lemma ScanSkip(
    bs: seq<Block>, m: map<int, Cell>, beg: int, end: int, at: nat, i: nat, last: int, gaps: seq<Range>, pieces: seq<Block>)
    requires Scan(bs, m, beg, end, i, last, gaps, pieces) && IsSlot(bs, at, beg) && i < |bs| && beg < end
    requires bs[i].items == [] || (i < at && Min(bs[i].End(), end) <= Max(bs[i].beg, beg))
    ensures Scan(bs, m, beg, end, i + 1, last, gaps, pieces)
  {
    assert beg <= last;
    hide Divided;
  }

  /** An entry that reaches into the range: perhaps a gap, then a piece. */
  lemma ScanTake(
    bs: seq<Block>, m: map<int, Cell>, beg: int, end: int, i: nat, last: int, gaps: seq<Range>, pieces: seq<Block>)
    requires Scan(bs, m, beg, end, i, last, gaps, pieces) && Indexes(bs, m) && i < |bs| && beg < end
    requires Max(bs[i].beg, beg) < Min(bs[i].End(), end)
    ensures var eb, b, e := bs[i].beg, Max(bs[i].beg, beg), Min(bs[i].End(), end);
      && last <= b
      && Scan(bs, m, beg, end, i + 1, e, if b > last then gaps + [Range(last, b)] else gaps,
        pieces + [Block(b, bs[i].items[b - eb..e - eb], bs[i].mapping)])
  {
    hide Divided, Indexes, Behind;
    var eb, b, e := bs[i].beg, Max(bs[i].beg, beg), Min(bs[i].End(), end);
    var p := Block(b, bs[i].items[b - eb..e - eb], bs[i].mapping);
    var gaps' := if b > last then gaps + [Range(last, b)] else gaps;
    StartsAfter(m, beg, last, gaps, pieces);
    TakeCells(bs, m, beg, end, i, last, b, e);
    if b > last {
      DivideGap(m, beg, last, gaps, pieces, b);
    }
    DividePiece(m, beg, b, gaps', pieces, p);
    PassesBehind(bs, m, beg, end, i, last);
  }

  lemma StartsAfter(m: map<int, Cell>, beg: int, last: int, gaps: seq<Range>, pieces: seq<Block>)
    requires Divided(m, beg, last, gaps, pieces)
    ensures beg <= last
  {
  }

  lemma PassesBehind(bs: seq<Block>, m: map<int, Cell>, beg: int, end: int, i: nat, last: int)
    requires Indexes(bs, m) && i < |bs| && Max(bs[i].beg, beg) < Min(bs[i].End(), end) && Behind(bs, i, last, end)
    requires last <= Max(bs[i].beg, beg)
    ensures var e := Min(bs[i].End(), end);
      Behind(bs, i + 1, e, end) && forall q | i + 1 <= q < |bs| :: e <= bs[q].beg
  {
    hide Tells;
  }

  lemma TakeCells(bs: seq<Block>, m: map<int, Cell>, beg: int, end: int, i: nat, last: int, b: int, e: int)
    requires Indexes(bs, m) && i < |bs| && beg < end && Behind(bs, i, last, end) && beg <= last
    requires b == Max(bs[i].beg, beg) && e == Min(bs[i].End(), end) && b < e
    ensures forall t | b <= t < e :: t in m && m[t] == bs[i].CellAt(t)
    ensures forall t | last <= t < b :: t !in m
  {
    forall t | b <= t < e ensures t in m && m[t] == bs[i].CellAt(t) {
      assert Tells(m, bs, t) && bs[i].Has(t);
    }
    forall t | last <= t < b ensures t !in m {
      assert Tells(m, bs, t);
      if Covered(bs, t) {
        var q :| 0 <= q < |bs| && bs[q].Has(t);
      }
    }
  }

  /** The piece shows the map, and there is nothing between it and the one before. */
  lemma ScanShows(
    bs: seq<Block>, m: map<int, Cell>, beg: int, end: int, i: nat, last: int, gaps: seq<Range>, pieces: seq<Block>)
    requires Scan(bs, m, beg, end, i, last, gaps, pieces) && Indexes(bs, m) && i < |bs| && beg < end
    requires Max(bs[i].beg, beg) < Min(bs[i].End(), end)
    ensures var eb, b, e := bs[i].beg, Max(bs[i].beg, beg), Min(bs[i].End(), end);
      var p := Block(b, bs[i].items[b - eb..e - eb], bs[i].mapping);
      && beg <= last <= b
      && (forall t | p.Has(t) :: t in m && m[t] == p.CellAt(t))
      && (forall t | last <= t < b :: t !in m)
  {
    var b, e := Max(bs[i].beg, beg), Min(bs[i].End(), end);
    TakeCells(bs, m, beg, end, i, last, b, e);
  }

  /** Behind the range, or at the end of the index: what is left of the range is a gap. */
  lemma ScanFinish(
    bs: seq<Block>, m: map<int, Cell>, beg: int, end: int, at: nat, i: nat, last: int, gaps: seq<Range>, pieces: seq<Block>)
    requires Scan(bs, m, beg, end, i, last, gaps, pieces) && Indexes(bs, m) && IsSlot(bs, at, beg) && beg < end
    requires i < |bs| ==> at <= i && IsApart(bs[i], beg, end)
    ensures Divided(m, beg, end, if last != end then gaps + [Range(last, end)] else gaps, pieces)
    ensures Part(m, beg, last) == Part(m, beg, end)
  {
    forall t | last <= t < end ensures t !in m {
      assert Tells(m, bs, t);
      if Covered(bs, t) {
        var q :| 0 <= q < |bs| && bs[q].Has(t);
      }
    }
    assert Part(m, beg, last) == Part(m, beg, end);
    if last != end {
      DivideGap(m, beg, last, gaps, pieces, end);
    }
  }

  /** The index and the list of a sound cache stand for the same map. */
  lemma IndexAgrees(block: seq<Block>, index: seq<nat>, list: seq<nat>)
    requires Within(index, |block|) && Within(list, |block|) && Distinct(index) && Distinct(list)
    requires Held(block, index, list) && Ordered(Vals(block, index))
    ensures Disjoint(Vals(block, list)) && Indexes(Vals(block, index), View(Vals(block, list)))
  {
    var xs, ls := Vals(block, index), Vals(block, list);
    forall i, j, t | 0 <= i < j < |ls| ensures !(ls[i].Has(t) && ls[j].Has(t)) {
      if ls[i].Has(t) {
        var p :| 0 <= p < |index| && index[p] == list[i];
        assert xs[p].Has(t);
        if list[j] in index {
          var q :| 0 <= q < |index| && index[q] == list[j];
          assert xs[q] == ls[j];
        }
      }
    }
    forall t ensures Tells(View(ls), xs, t) {
      ViewTells(ls, t);
      SameTells(block, index, list, View(ls), t);
    }
  }

  lemma SameTells(block: seq<Block>, index: seq<nat>, list: seq<nat>, m: map<int, Cell>, t: int)
    requires Within(index, |block|) && Within(list, |block|) && Held(block, index, list)
    requires Tells(m, Vals(block, list), t)
    ensures Tells(m, Vals(block, index), t)
  {
    var xs, ls := Vals(block, index), Vals(block, list);
    if Covered(ls, t) {
      var k :| 0 <= k < |ls| && ls[k].Has(t);
      var p :| 0 <= p < |index| && index[p] == list[k];
      assert xs[p].Has(t);
    }
    forall p | 0 <= p < |xs| && xs[p].Has(t) ensures t in m && m[t] == xs[p].CellAt(t) {
      var k :| 0 <= k < |list| && list[k] == index[p];
      assert ls[k].Has(t);
    }
  }

  // ----- Placeholders for the gaps

  /** What is stashed for a range while it is being fetched. */
  function Placeholder(r: Range): (b: Block)
    ensures r.beg < r.end ==> b.beg == r.beg && b.End() == r.end
    ensures forall t | b.Has(t) :: b.CellAt(t) == Cell(Undefined, EMPTY_OBJECT)
  {
    Block(r.beg, seq(Max(0, r.end - r.beg), _ => Undefined), EMPTY_OBJECT)
  }

  function Placeholders(gaps: seq<Range>): seq<Block> {
    seq(|gaps|, i requires 0 <= i < |gaps| => Placeholder(gaps[i]))
  }

  ghost function Filled(bs: seq<Block>, gaps: seq<Range>, limit: nat): seq<Block> {
    if gaps == [] then bs
    else Stash(Filled(bs, gaps[..|gaps| - 1], limit), Placeholder(gaps[|gaps| - 1]), limit)
  }

  /** None of the gaps is in the map. */
  ghost predicate Clear(m: map<int, Cell>, gaps: seq<Range>) {
    forall i, t | 0 <= i < |gaps| && gaps[i].Has(t) :: t !in m
  }

  /** Every cell of `now` is a cell of `was`, or a placeholder in one of the gaps. */
  ghost predicate FromGaps(was: map<int, Cell>, now: map<int, Cell>, gaps: seq<Range>) {
    forall t | t in now ::
      || (t in was && now[t] == was[t])
      || (InSome(gaps, t) && now[t] == Cell(Undefined, EMPTY_OBJECT))
  }

  lemma ClearFits(bs: seq<Block>, r: Range)
    requires Clear(View(bs), [r]) && r.beg < r.end
    ensures Fits(bs, r.beg, r.end)
    ensures TrimAll(bs, r.beg, r.end) == bs
  {
    forall i | 0 <= i < |bs| ensures Max(bs[i].beg, r.beg) >= Min(bs[i].End(), r.end) {
      var t := Max(bs[i].beg, r.beg);
      assert [r][0] == r;
      ViewHas(bs, t);
      assert !(bs[i].Has(t) && r.Has(t));
    }
    forall i | 0 <= i < |bs| ensures Trim(bs[i], r.beg, r.end) == bs[i] {
      TrimApart(bs[i], r.beg, r.end);
    }
  }

  /** Placeholders go where nothing is cached, so each of them fits when its turn comes. */
  lemma {:induction false} FilledGaps(bs: seq<Block>, gaps: seq<Range>, k: nat, limit: nat)
    requires Disjoint(bs) && Spaced(gaps) && Clear(View(bs), gaps) && k <= |gaps|
    ensures var f := Filled(bs, gaps[..k], limit);
      && Disjoint(f)
      && FromGaps(View(bs), View(f), gaps[..k])
      && (k < |gaps| ==> Fits(f, gaps[k].beg, gaps[k].end))
  {
    hide View, Disjoint, Stash;
    var f := Filled(bs, gaps[..k], limit);
    if k > 0 {
      var r := gaps[k - 1];
      var f0 := Filled(bs, gaps[..k - 1], limit);
      FilledGaps(bs, gaps, k - 1, limit);
      assert gaps[..k][..k - 1] == gaps[..k - 1];
      FillOne(View(bs), f0, gaps, k - 1, limit);
    }
    if k < |gaps| {
      NextIsClear(View(bs), View(f), gaps, k);
      ClearFits(f, gaps[k]);
    }
  }

  lemma FillOne(m: map<int, Cell>, f0: seq<Block>, gaps: seq<Range>, k: nat, limit: nat)
    requires k < |gaps| && gaps[k].beg < gaps[k].end
    requires Disjoint(f0) && FromGaps(m, View(f0), gaps[..k]) && Fits(f0, gaps[k].beg, gaps[k].end)
    ensures var f := Stash(f0, Placeholder(gaps[k]), limit);
      Disjoint(f) && FromGaps(m, View(f), gaps[..k + 1])
  {
    var b := Placeholder(gaps[k]);
    StashRefinesMap(f0, b, limit);
    hide View, Disjoint, Stash, Placeholder;
    var f := Stash(f0, b, limit);
    forall t | t in View(f)
      ensures (t in m && View(f)[t] == m[t])
        || (InSome(gaps[..k + 1], t) && View(f)[t] == Cell(Undefined, EMPTY_OBJECT))
    {
      if b.Has(t) {
        assert gaps[..k + 1][k].Has(t);
        assert View(f)[t] == b.CellAt(t);
      } else if !(t in m && View(f0)[t] == m[t]) {
        var i :| 0 <= i < k && gaps[..k][i].Has(t);
        assert gaps[..k + 1][i].Has(t);
      }
    }
  }

  lemma NextIsClear(m: map<int, Cell>, now: map<int, Cell>, gaps: seq<Range>, k: nat)
    requires k < |gaps| && Spaced(gaps) && Clear(m, gaps) && FromGaps(m, now, gaps[..k])
    ensures Clear(now, [gaps[k]])
  {
    forall t | gaps[k].Has(t) ensures t !in now {
      if InSome(gaps[..k], t) {
        var i :| 0 <= i < k && gaps[..k][i].Has(t);
        assert gaps[i].end < gaps[k].beg;
      }
    }
  }

  /** While the limit is not reached, nothing is trimmed and nothing expires: the placeholders are
      simply added. */
  lemma {:induction false} FilledIsAppended(bs: seq<Block>, gaps: seq<Range>, limit: nat)
    requires Disjoint(bs) && Spaced(gaps) && Clear(View(bs), gaps)
    requires Total(bs + Placeholders(gaps)) <= limit
    ensures Filled(bs, gaps, limit) == bs + Placeholders(gaps)
  {
    hide View, Disjoint, Total, Placeholder, Placeholders, Clear, Spaced, Trim, TrimAll, Stash, Filled, Fits, FromGaps;
    LastGap(bs, gaps, limit);
    if gaps != [] {
      var n := |gaps| - 1;
      var less, r := gaps[..n], gaps[n];
      var f0, b := bs + Placeholders(less), Placeholder(r);
      TotalSplit(f0, [b]);
      FilledIsAppended(bs, less, limit);
      FilledGaps(bs, gaps, n, limit);
      NextIsClear(View(bs), View(f0), gaps, n);
      ClearFits(f0, r);
      StashFree(f0, b, limit);
    }
  }

  lemma LastGap(bs: seq<Block>, gaps: seq<Range>, limit: nat)
    requires Spaced(gaps) && Clear(View(bs), gaps)
    ensures gaps == [] ==> Filled(bs, gaps, limit) == bs + Placeholders(gaps)
    ensures gaps != [] ==>
      var n := |gaps| - 1;
      var less, b := gaps[..n], Placeholder(gaps[n]);
      && bs + Placeholders(gaps) == bs + Placeholders(less) + [b]
      && Filled(bs, gaps, limit) == Stash(Filled(bs, less, limit), b, limit)
      && Spaced(less) && Clear(View(bs), less) && gaps[n].beg < gaps[n].end && b.items != []
  {
    hide View, Stash;
    if gaps == [] {
      assert bs + Placeholders(gaps) == bs;
    } else {
      var n := |gaps| - 1;
      assert bs + Placeholders(gaps) == bs + Placeholders(gaps[..n]) + [Placeholder(gaps[n])];
      assert forall i, t | 0 <= i < n && gaps[..n][i].Has(t) :: gaps[i].Has(t);
    }
  }

  lemma StashFree(bs: seq<Block>, b: Block, limit: nat)
    requires b.items != [] && TrimAll(bs, b.beg, b.End()) == bs && Total(bs + [b]) <= limit
    ensures Stash(bs, b, limit) == bs + [b]
  {
  }

  /** Then all of the gaps are in the map. */
  lemma AppendedCovers(bs: seq<Block>, gaps: seq<Range>, t: int)
    requires t in View(bs) || (Spaced(gaps) && InSome(gaps, t))
    ensures t in View(bs + Placeholders(gaps))
  {
    var all := bs + Placeholders(gaps);
    ViewHas(bs, t);
    ViewHas(all, t);
    if t in View(bs) {
      var i :| 0 <= i < |bs| && bs[i].Has(t);
      assert all[i].Has(t);
    } else {
      var i :| 0 <= i < |gaps| && gaps[i].Has(t);
      assert all[|bs| + i] == Placeholder(gaps[i]);
    }
  }

  lemma DividedClear(m: map<int, Cell>, beg: int, last: int, gaps: seq<Range>, pieces: seq<Block>)
    requires Divided(m, beg, last, gaps, pieces)
    ensures Spaced(gaps) && Clear(m, gaps)
  {
    forall i, t | 0 <= i < |gaps| && gaps[i].Has(t) ensures t !in m {
      assert InSome(gaps, t);
    }
  }

  /** The blocks after the first `i` gaps were asked for, and the calls made. */
  ghost function FilledUpTo(bs: seq<Block>, gaps: seq<Range>, i: nat, limit: nat, fill: bool): seq<Block>
    requires i <= |gaps|
  {
    if fill then Filled(bs, gaps[..i], limit) else bs
  }

  function CallsUpTo(gaps: seq<Range>, i: nat, fetching: bool, walking: bool): seq<Request>
    requires i <= |gaps|
  {
    if fetching then Requests(gaps[..i], walking) else []
  }

  lemma FetchStart(bs: seq<Block>, gaps: seq<Range>, limit: nat, fetching: bool, walking: bool)
    ensures FilledUpTo(bs, gaps, 0, limit, fetching && !walking) == bs
    ensures FilledUpTo(bs, gaps, |gaps|, limit, fetching && !walking)
      == if fetching && !walking then Filled(bs, gaps, limit) else bs
    ensures CallsUpTo(gaps, 0, fetching, walking) == []
    ensures CallsUpTo(gaps, |gaps|, fetching, walking) == if fetching then Requests(gaps, walking) else []
  {
    assert gaps[..0] == [] && gaps[..|gaps|] == gaps;
  }

  lemma FetchStep(bs: seq<Block>, gaps: seq<Range>, i: nat, limit: nat, fetching: bool, walking: bool)
    requires Disjoint(bs) && Spaced(gaps) && Clear(View(bs), gaps) && i < |gaps|
    ensures gaps[i].beg < gaps[i].end
    ensures var fill := fetching && !walking;
      var f := FilledUpTo(bs, gaps, i, limit, fill);
      && Fits(f, gaps[i].beg, gaps[i].end)
      && FilledUpTo(bs, gaps, i + 1, limit, fill) == if fill then Stash(f, Placeholder(gaps[i]), limit) else f
    ensures CallsUpTo(gaps, i + 1, fetching, walking)
      == CallsUpTo(gaps, i, fetching, walking) + if fetching then [Request(gaps[i], walking)] else []
  {
    hide View, Stash, Disjoint, Fits;
    assert gaps[..i + 1][..i] == gaps[..i];
    assert Requests(gaps[..i + 1], walking) == Requests(gaps[..i], walking) + [Request(gaps[i], walking)];
    if fetching && !walking {
      FilledGaps(bs, gaps, i, limit);
    } else {
      assert forall t | gaps[i].Has(t) :: t !in View(bs);
      ClearFits(bs, gaps[i]);
    }
  }

  datatype Request = Request(range: Range, walking: bool)

  function Requests(gaps: seq<Range>, walking: bool): seq<Request> {
    seq(|gaps|, i requires 0 <= i < |gaps| => Request(gaps[i], walking))
  }

  /** A load only ever adds placeholders, where nothing was cached. */
  ghost predicate Refreshed(was: map<int, Cell>, now: map<int, Cell>) {
    forall t | t in now ::
      (t in was && now[t] == was[t]) || (t !in was && now[t] == Cell(Undefined, EMPTY_OBJECT))
  }

  lemma FilledRefreshes(bs: seq<Block>, beg: int, end: int, gaps: seq<Range>, pieces: seq<Block>, limit: nat, fill: bool)
    requires Disjoint(bs) && Divided(View(bs), beg, end, gaps, pieces)
    ensures Refreshed(View(bs), View(if fill then Filled(bs, gaps, limit) else bs))
  {
    hide View, Disjoint, Filled;
    DividedClear(View(bs), beg, end, gaps, pieces);
    FilledGaps(bs, gaps, |gaps|, limit);
    assert gaps[..|gaps|] == gaps;
  }

  // ----- No repeated fetch

  function Between(beg: int, end: int): (s: set<int>)
    ensures forall t :: t in s <==> beg <= t < end
    ensures |s| == Max(0, end - beg)
    decreases end - beg
  {
    if end <= beg then {} else Between(beg, end - 1) + {end - 1}
  }

  /** The timestamps of [beg, end) that are not cached. */
  ghost function Uncached(m: map<int, Cell>, beg: int, end: int): set<int> {
    Between(beg, end) - m.Keys
  }

  lemma {:induction false} GapSizes(gaps: seq<Range>, s: set<int>)
    requires Spaced(gaps) && forall t :: t in s <==> InSome(gaps, t)
    ensures Total(Placeholders(gaps)) == |s|
  {
    hide Total, Placeholders, InSome, Between;
    if gaps == [] {
      NoGapSize(gaps, s);
    } else {
      var less, r := gaps[..|gaps| - 1], gaps[|gaps| - 1];
      var s0 := s - Between(r.beg, r.end);
      LessSet(gaps, s);
      GapSizes(less, s0);
      LastGapSize(gaps);
    }
  }

  lemma NoGapSize(gaps: seq<Range>, s: set<int>)
    requires |gaps| == 0 && forall t :: t in s <==> InSome(gaps, t)
    ensures Total(Placeholders(gaps)) == |s|
  {
    forall t ensures t !in s {
      assert !InSome(gaps, t);
    }
    assert s == {};
    assert Placeholders(gaps) == [];
  }

  lemma LessSet(gaps: seq<Range>, s: set<int>)
    requires Spaced(gaps) && gaps != [] && forall t :: t in s <==> InSome(gaps, t)
    ensures var n := |gaps| - 1;
      var here := Between(gaps[n].beg, gaps[n].end);
      && Spaced(gaps[..n]) && gaps[n].beg < gaps[n].end
      && (forall t :: t in s - here <==> InSome(gaps[..n], t))
      && |s| == |s - here| + gaps[n].end - gaps[n].beg
  {
    hide Between, InSome;
    var n := |gaps| - 1;
    var here := Between(gaps[n].beg, gaps[n].end);
    forall t ensures t in s - here <==> InSome(gaps[..n], t) {
      LessSome(gaps, t);
    }
    forall t | t in here ensures t in s {
      LessSome(gaps, t);
    }
    assert s == (s - here) + here;
  }

  lemma LessSome(gaps: seq<Range>, t: int)
    requires Spaced(gaps) && gaps != []
    ensures var n := |gaps| - 1;
      && Spaced(gaps[..n])
      && (InSome(gaps[..n], t) <==> InSome(gaps, t) && !gaps[n].Has(t))
      && (gaps[n].Has(t) ==> InSome(gaps, t))
  {
    var n := |gaps| - 1;
    if InSome(gaps[..n], t) {
      var i :| 0 <= i < n && gaps[..n][i].Has(t);
      assert gaps[i].Has(t);
    }
    if InSome(gaps, t) && !gaps[n].Has(t) {
      var i :| 0 <= i < |gaps| && gaps[i].Has(t);
      assert gaps[..n][i].Has(t);
    }
  }

  lemma LastGapSize(gaps: seq<Range>)
    requires gaps != [] && gaps[|gaps| - 1].beg < gaps[|gaps| - 1].end
    ensures var n := |gaps| - 1;
      Total(Placeholders(gaps)) == Total(Placeholders(gaps[..n])) + gaps[n].end - gaps[n].beg
  {
    var n := |gaps| - 1;
    assert Placeholders(gaps)[..n] == Placeholders(gaps[..n]);
  }

  /** If the cache has room for what is missing, a load adds placeholders for exactly that, touches no other
      block, and leaves nothing of the range uncached. */
  lemma LoadFillsRange(bs: seq<Block>, beg: int, end: int, gaps: seq<Range>, pieces: seq<Block>, limit: nat)
    requires Disjoint(bs) && Divided(View(bs), beg, end, gaps, pieces)
    requires Total(bs) + |Uncached(View(bs), beg, end)| <= limit
    ensures Filled(bs, gaps, limit) == bs + Placeholders(gaps)
    ensures forall t | beg <= t < end :: t in View(Filled(bs, gaps, limit))
  {
    hide View, Total, Filled, Placeholders, Disjoint, Clear;
    DividedClear(View(bs), beg, end, gaps, pieces);
    var s := Uncached(View(bs), beg, end);
    GapSizes(gaps, s);
    TotalSplit(bs, Placeholders(gaps));
    FilledIsAppended(bs, gaps, limit);
    forall t | beg <= t < end ensures t in View(bs + Placeholders(gaps)) {
      AppendedCovers(bs, gaps, t);
    }
  }

  lemma NothingMissing(m: map<int, Cell>, beg: int, end: int, gaps: seq<Range>, pieces: seq<Block>)
    requires Divided(m, beg, end, gaps, pieces) && forall t | beg <= t < end :: t in m
    ensures gaps == []
  {
    if gaps != [] {
      assert gaps[0].Has(gaps[0].beg);
      assert InSome(gaps, gaps[0].beg);
    }
  }
}
