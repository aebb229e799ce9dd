/** What the series cache means: a sequence of blocks in order of arrival, and the map from
    timestamps to cells that they stand for. The class in SeriesSink is proved against this. */
module Blocks {
  import opened JsValues

  /** Consecutive items, the first one at timestamp `beg`. */
  datatype Block = Block(beg: int, items: seq<Value>, mapping: Value) {
    function End(): int { beg + |items| }

    predicate Has(t: int) { beg <= t < End() }

    function CellAt(t: int): Cell
      requires Has(t)
    {
      Cell(items[t - beg], mapping)
    }

    function Cells(): (m: map<int, Cell>)
      ensures forall t :: t in m <==> Has(t)
      ensures forall t | t in m :: m[t] == CellAt(t)
    {
      map t | beg <= t < End() :: CellAt(t)
    }
  }

  datatype Cell = Cell(item: Value, mapping: Value)

  function Max(a: int, b: int): int { if a < b then b else a }

  function Min(a: int, b: int): int { if a < b then a else b }

  // ----- The map a sequence of blocks stands for

  function View(bs: seq<Block>): map<int, Cell> {
    if bs == [] then map[] else View(bs[..|bs| - 1]) + bs[|bs| - 1].Cells()
  }

  function Total(bs: seq<Block>): nat {
    if bs == [] then 0 else Total(bs[..|bs| - 1]) + |bs[|bs| - 1].items|
  }

  ghost predicate Covered(bs: seq<Block>, t: int) {
    exists i :: 0 <= i < |bs| && bs[i].Has(t)
  }

  ghost predicate Disjoint(bs: seq<Block>) {
    forall i, j, t | 0 <= i < j < |bs| :: !(bs[i].Has(t) && bs[j].Has(t))
  }

  /** Sorted and non-overlapping, empty blocks included. */
  ghost predicate Ordered(bs: seq<Block>) {
    forall i, j | 0 <= i < j < |bs| :: bs[i].End() <= bs[j].beg
  }

  /** No block reaches strictly past both ends of [beg, end). */
  ghost predicate Fits(bs: seq<Block>, beg: int, end: int) {
    forall b | b in bs :: !(b.beg < beg && end < b.End())
  }

  lemma Apart(bs: seq<Block>, i: nat, j: nat, t: int)
    requires Disjoint(bs) && i < |bs| && j < |bs| && i != j && bs[i].Has(t)
    ensures !bs[j].Has(t)
  {
    var lo, hi := Min(i, j), Max(i, j);
    assert !(bs[lo].Has(t) && bs[hi].Has(t));
  }

  // ----- The operations

  /** Cut [beg, end) out of a block: the items after the cut move up to the ones before it. */
  function Trim(b: Block, beg: int, end: int): Block {
    var lo, hi := Max(b.beg, beg), Min(b.End(), end);
    if lo < hi then
      Block(if lo == b.beg then hi else b.beg, b.items[..lo - b.beg] + b.items[hi - b.beg..], b.mapping)
    else b
  }

  function TrimAll(bs: seq<Block>, beg: int, end: int): (r: seq<Block>)
    ensures |r| == |bs|
    ensures forall i | 0 <= i < |bs| :: r[i] == Trim(bs[i], beg, end)
  {
    seq(|bs|, i requires 0 <= i < |bs| => Trim(bs[i], beg, end))
  }

  function Insert(bs: seq<Block>, b: Block): seq<Block> {
    TrimAll(bs, b.beg, b.End()) + [b]
  }

  /** How many of the oldest blocks have to go. */
  function Evicted(bs: seq<Block>, limit: nat): (n: nat)
    ensures n <= |bs|
  {
    if bs == [] || Total(bs) <= limit then 0 else 1 + Evicted(bs[1..], limit)
  }

  function Expire(bs: seq<Block>, limit: nat): seq<Block> {
    bs[Evicted(bs, limit)..]
  }

  function Stash(bs: seq<Block>, b: Block, limit: nat): seq<Block> {
    if b.items == [] then bs else Expire(Insert(bs, b), limit)
  }

  // ----- Reading the map

  lemma {:induction false} ViewHas(bs: seq<Block>, t: int)
    ensures t in View(bs) <==> Covered(bs, t)
  {
    if bs != [] {
      var n := |bs| - 1;
      ViewHas(bs[..n], t);
      if Covered(bs[..n], t) {
        var i :| 0 <= i < n && bs[..n][i].Has(t);
        assert bs[i].Has(t);
      }
      if Covered(bs, t) {
        var i :| 0 <= i < |bs| && bs[i].Has(t);
        assert i < n ==> bs[..n][i].Has(t);
      }
    }
  }

  lemma {:induction false} ViewCell(bs: seq<Block>, i: nat, t: int)
    requires Disjoint(bs) && i < |bs| && bs[i].Has(t)
    ensures t in View(bs) && View(bs)[t] == bs[i].CellAt(t)
  {
    var n := |bs| - 1;
    if i < n {
      forall j, k, u | 0 <= j < k < n ensures !(bs[..n][j].Has(u) && bs[..n][k].Has(u)) {
        assert !(bs[j].Has(u) && bs[k].Has(u));
      }
      assert bs[..n][i] == bs[i];
      ViewCell(bs[..n], i, t);
      assert !(bs[i].Has(t) && bs[n].Has(t));
    }
  }

  /** Whether `m` says about timestamp `t` what the blocks say. */
  ghost predicate Tells(m: map<int, Cell>, bs: seq<Block>, t: int) {
    && (t in m ==> Covered(bs, t))
    && (forall i | 0 <= i < |bs| && bs[i].Has(t) :: t in m && m[t] == bs[i].CellAt(t))
  }

  lemma ViewTells(bs: seq<Block>, t: int)
    requires Disjoint(bs)
    ensures Tells(View(bs), bs, t)
  {
    ViewHas(bs, t);
    forall i | 0 <= i < |bs| && bs[i].Has(t) ensures View(bs)[t] == bs[i].CellAt(t) {
      ViewCell(bs, i, t);
    }
  }

  lemma TellsSame(bs: seq<Block>, m: map<int, Cell>, v: map<int, Cell>, t: int)
    requires Tells(m, bs, t) && Tells(v, bs, t)
    ensures (t in m <==> t in v) && (t in m ==> m[t] == v[t])
  {
    if Covered(bs, t) {
      var i :| 0 <= i < |bs| && bs[i].Has(t);
    }
  }

  /** The blocks determine the map. */
  lemma ViewIs(bs: seq<Block>, m: map<int, Cell>)
    requires Disjoint(bs) && forall t :: Tells(m, bs, t)
    ensures View(bs) == m
  {
    forall t ensures (t in m <==> t in View(bs)) && (t in m ==> m[t] == View(bs)[t]) {
      ViewTells(bs, t);
      TellsSame(bs, m, View(bs), t);
    }
  }

  // ----- Trimming and inserting

  lemma TrimShrinks(b: Block, beg: int, end: int)
    requires beg < end
    ensures var r := Trim(b, beg, end);
      b.beg <= r.beg <= r.End() <= b.End() && |r.items| == |b.items| - Max(0, Min(b.End(), end) - Max(b.beg, beg))
  {
  }

  lemma TrimApart(b: Block, beg: int, end: int)
    requires Min(b.End(), end) <= Max(b.beg, beg)
    ensures Trim(b, beg, end) == b
  {
  }

  /** Away from the one bad case, trimming removes the cells of [beg, end) and keeps every other one in place. */
  lemma TrimAt(b: Block, cut: Block, t: int)
    requires cut.items != [] && !(b.beg < cut.beg && cut.End() < b.End())
    ensures var r := Trim(b, cut.beg, cut.End());
      && (r.Has(t) <==> b.Has(t) && !cut.Has(t))
      && (r.Has(t) ==> r.CellAt(t) == b.CellAt(t))
  {
  }

  /** Inserting a block overwrites the map on the block's range exactly when the block fits. When it does
      not, the tail of the block around it has moved and its last timestamp is gone from the map. */
  lemma InsertIsOverwrite(bs: seq<Block>, b: Block)
    requires Disjoint(bs) && b.items != []
    ensures View(Insert(bs, b)) == View(bs) + b.Cells() <==> Fits(bs, b.beg, b.End())
    ensures Disjoint(Insert(bs, b)) <==> Fits(bs, b.beg, b.End())
  {
    if Fits(bs, b.beg, b.End()) {
      InsertFitting(bs, b);
    } else {
      var k :| 0 <= k < |bs| && bs[k].beg < b.beg && b.End() < bs[k].End();
      InsertTooSmall(bs, b, k);
    }
  }

  lemma InsertFitting(bs: seq<Block>, b: Block)
    requires Disjoint(bs) && b.items != [] && Fits(bs, b.beg, b.End())
    ensures Disjoint(Insert(bs, b))
    ensures View(Insert(bs, b)) == View(bs) + b.Cells()
  {
    var r, m := Insert(bs, b), View(bs) + b.Cells();
    forall i, t | 0 <= i < |bs|
      ensures r[i].Has(t) <==> bs[i].Has(t) && !b.Has(t)
      ensures r[i].Has(t) ==> r[i].CellAt(t) == bs[i].CellAt(t)
    {
      TrimmedCell(bs, i, b, t);
    }
    forall i, j, t | 0 <= i < j < |r| ensures !(r[i].Has(t) && r[j].Has(t)) {
      if j < |bs| && bs[i].Has(t) {
        Apart(bs, i, j, t);
      }
    }
    forall t ensures Tells(m, r, t) {
      ViewTells(bs, t);
      assert r[|bs|] == b;
      if t in m && !b.Has(t) {
        var i :| 0 <= i < |bs| && bs[i].Has(t);
        assert r[i].Has(t);
      }
    }
    ViewIs(r, m);
  }

  lemma TrimmedCell(bs: seq<Block>, i: nat, b: Block, t: int)
    requires i < |bs| && b.items != [] && Fits(bs, b.beg, b.End())
    ensures var r := Trim(bs[i], b.beg, b.End());
      && (r.Has(t) <==> bs[i].Has(t) && !b.Has(t))
      && (r.Has(t) ==> r.CellAt(t) == bs[i].CellAt(t))
  {
    assert bs[i] in bs;
    TrimAt(bs[i], b, t);
  }

  lemma InsertTooSmall(bs: seq<Block>, b: Block, k: nat)
    requires Disjoint(bs) && b.items != [] && k < |bs| && bs[k].beg < b.beg && b.End() < bs[k].End()
    ensures !Disjoint(Insert(bs, b))
    ensures View(Insert(bs, b)) != View(bs) + b.Cells()
  {
    hide View, Insert, Trim, TrimAll, Disjoint;
    var last := bs[k].End() - 1;
    Overlap(bs, b, k);
    LastIsGone(bs, b, k);
    ViewHas(bs, last);
    ViewHas(Insert(bs, b), last);
  }

  lemma Overlap(bs: seq<Block>, b: Block, k: nat)
    requires b.items != [] && k < |bs| && bs[k].beg < b.beg && b.End() < bs[k].End()
    ensures !Disjoint(Insert(bs, b))
  {
    var r := Insert(bs, b);
    assert r[k].Has(b.beg) && r[|bs|].Has(b.beg);
  }

  lemma TrimInside(b: Block, cut: Block)
    requires cut.items != [] && b.beg < cut.beg && cut.End() < b.End()
    ensures Trim(b, cut.beg, cut.End()).End() == b.End() - |cut.items|
  {
  }

  lemma LastIsGone(bs: seq<Block>, b: Block, k: nat)
    requires Disjoint(bs) && b.items != [] && k < |bs| && bs[k].beg < b.beg && b.End() < bs[k].End()
    ensures Covered(bs, bs[k].End() - 1) && !Covered(Insert(bs, b), bs[k].End() - 1)
  {
    hide Trim, Disjoint;
    var r, last := Insert(bs, b), bs[k].End() - 1;
    assert bs[k].Has(last);
    forall i | 0 <= i < |r| ensures !r[i].Has(last) {
      if i < |bs| {
        TrimShrinks(bs[i], b.beg, b.End());
        if i == k {
          TrimInside(bs[k], b);
        } else {
          Apart(bs, k, i, last);
        }
      }
    }
  }

  // ----- Expiry

  lemma {:induction false} TotalSplit(a: seq<Block>, b: seq<Block>)
    ensures Total(a + b) == Total(a) + Total(b)
  {
    if b == [] {
      assert a + b == a;
    } else {
      var n := |b| - 1;
      assert (a + b)[..|a + b| - 1] == a + b[..n];
      TotalSplit(a, b[..n]);
    }
  }

  lemma TotalOne(b: Block)
    ensures Total([b]) == |b.items|
  {
    assert [b][..0] == [];
  }

  lemma TotalUpdate(bs: seq<Block>, k: nat, b: Block)
    requires k < |bs|
    ensures Total(bs[k := b]) == Total(bs) - |bs[k].items| + |b.items|
  {
    assert bs == bs[..k] + [bs[k]] + bs[k + 1..];
    assert bs[k := b] == bs[..k] + [b] + bs[k + 1..];
    TotalSplit(bs[..k] + [bs[k]], bs[k + 1..]);
    TotalSplit(bs[..k] + [b], bs[k + 1..]);
    TotalSplit(bs[..k], [bs[k]]);
    TotalSplit(bs[..k], [b]);
  }

  lemma TotalHead(bs: seq<Block>)
    requires bs != []
    ensures Total(bs) == |bs[0].items| + Total(bs[1..])
  {
    assert bs == [bs[0]] + bs[1..];
    TotalSplit([bs[0]], bs[1..]);
  }

  /** Eviction takes the oldest blocks first and no more of them than it must. */
  lemma {:induction false} EvictionIsMinimal(bs: seq<Block>, limit: nat)
    ensures var n := Evicted(bs, limit);
      && Total(bs[n..]) <= limit
      && (forall k :: 0 <= k < n ==> limit < Total(bs[k..]))
  {
    var n := Evicted(bs, limit);
    if n > 0 {
      EvictionIsMinimal(bs[1..], limit);
      assert bs[n..] == bs[1..][n - 1..];
      forall k | 0 <= k < n ensures limit < Total(bs[k..]) {
        if k == 0 {
          assert bs[0..] == bs;
        } else {
          assert bs[k..] == bs[1..][k - 1..];
        }
      }
    } else {
      assert bs[0..] == bs;
    }
  }

  /** Dropping the oldest blocks removes exactly their timestamps. */
  lemma DropView(bs: seq<Block>, n: nat)
    requires Disjoint(bs) && n <= |bs|
    ensures Disjoint(bs[n..])
    ensures View(bs[n..]) == View(bs) - View(bs[..n]).Keys
  {
    var r, m := bs[n..], View(bs) - View(bs[..n]).Keys;
    forall i, j, t | 0 <= i < j < |r| ensures !(r[i].Has(t) && r[j].Has(t)) {
      assert !(bs[n + i].Has(t) && bs[n + j].Has(t));
    }
    forall t ensures Tells(m, r, t) {
      DroppedCell(bs, n, t);
    }
    ViewIs(r, m);
  }

  lemma DroppedCell(bs: seq<Block>, n: nat, t: int)
    requires Disjoint(bs) && n <= |bs|
    ensures Tells(View(bs) - View(bs[..n]).Keys, bs[n..], t)
  {
    ViewTells(bs, t);
    ViewHas(bs[..n], t);
    if Covered(bs, t) {
      var k :| 0 <= k < |bs| && bs[k].Has(t);
      if k < n {
        assert bs[..n][k].Has(t);
        forall i | 0 <= i < |bs[n..]| ensures !bs[n..][i].Has(t) {
          Apart(bs, k, n + i, t);
        }
      } else {
        assert bs[n..][k - n].Has(t);
        forall i | 0 <= i < n ensures !bs[..n][i].Has(t) {
          Apart(bs, k, i, t);
        }
      }
    }
  }

  /** The cache after a fitting block came in: the old map overwritten on the block's range, less the
      blocks that were evicted, and within the limit. */
  lemma StashRefinesMap(bs: seq<Block>, b: Block, limit: nat)
    requires Disjoint(bs) && b.items != [] && Fits(bs, b.beg, b.End())
    ensures var all := Insert(bs, b);
      var n := Evicted(all, limit);
      && Disjoint(Stash(bs, b, limit))
      && View(Stash(bs, b, limit)) == (View(bs) + b.Cells()) - View(all[..n]).Keys
      && Total(Stash(bs, b, limit)) <= limit
      && (Total(all) <= limit ==> View(Stash(bs, b, limit)) == View(bs) + b.Cells())
  {
    var all := Insert(bs, b);
    InsertFitting(bs, b);
    EvictionIsMinimal(all, limit);
    DropView(all, Evicted(all, limit));
  }

  /** Everything in `now` comes from block `b` or was there before. */
  ghost predicate Overwritten(was: map<int, Cell>, now: map<int, Cell>, b: Block) {
    forall t | t in now :: if b.Has(t) then now[t] == b.CellAt(t) else t in was && now[t] == was[t]
  }

  lemma StashOverwrites(bs: seq<Block>, b: Block, limit: nat)
    requires Disjoint(bs) && Fits(bs, b.beg, b.End())
    ensures Overwritten(View(bs), View(Stash(bs, b, limit)), b)
  {
    hide View, Disjoint, Insert, Expire;
    if b.items != [] {
      StashRefinesMap(bs, b, limit);
      assert forall t | t in View(Stash(bs, b, limit)) :: t in View(bs) + b.Cells();
    }
  }
}
