/** The series cache: a sorted index of blocks and, through the same entries, a linked list in order
    of arrival. */
module SeriesSinks {
  import opened Options
  import opened Sequences
  import opened JsValues
  import opened Blocks
  import opened SeriesIndex
  import opened Ranges

  /** One row of a grid: the field of each item that `path` selects. Cells never written, or past the
      end, read as undefined. */
  class Row {
    const grid: Grid
    const path: seq<string>
    var cells: seq<Value>

    constructor (grid: Grid, path: seq<string>)
      ensures this.grid == grid && this.path == path && cells == []
    {
      this.grid, this.path, cells := grid, path, [];
    }

    ghost function Cell(k: int): Value
      reads this
    {
      if 0 <= k < |cells| then cells[k] else Undefined
    }

    method Put(k: nat, v: Value)
      modifies this
      ensures forall x: int :: Cell(x) == if x == k then v else old(Cell(x))
    {
      if k < |cells| {
        cells := cells[k := v];
      } else {
        cells := cells + seq(k - |cells|, _ => Undefined) + [v];
      }
    }
  }

  /** The window [beg, end) and the rows that the sink fills. */
  class Grid {
    var beg: int
    var end: int
    var rows: seq<Row>

    constructor (beg: int, end: int)
      ensures this.beg == beg && this.end == end && rows == []
    {
      this.beg, this.end, rows := beg, end, [];
    }

    /** A new row for a field of the sink's items. */
    method Add(sink: SeriesSink, path: seq<string>) returns (row: Row)
      requires sink.Wired() && forall r | r in rows :: r.grid == this
      modifies `rows, sink`registered
      ensures fresh(row) && row.path == path && row.cells == [] && row.grid == this
      ensures rows == old(rows) + [row]
      ensures sink.registered == if this in old(sink.registered) then old(sink.registered) else old(sink.registered) + [this]
      ensures sink.Wired()
    {
      row := new Row(this, path);
      rows := rows + [row];
      if this !in sink.registered {
        sink.registered := sink.registered + [this];
      }
    }

    /** Move the window and fill the rows anew. Without an end the window keeps its size; an end before the
        beginning makes it empty. */
    method MoveInternal(sink: SeriesSink, newBeg: int, newEnd: Option<int>, walking: bool)
      requires sink.Valid() && sink.Wired() && this in sink.registered
      modifies `beg, `end, sink`block, sink`next, sink`index, sink`count, sink`head, sink`tail, sink`list
      modifies sink`requests, sink.Rows()
      ensures end == if newEnd.None? then newBeg + (old(end) - old(beg)) else newEnd.value
      ensures beg == Min(newBeg, end)
      ensures sink.Valid() && sink.Wired()
      ensures forall r, k: int | r in rows :: r.Cell(k) == Shown(Undefined, old(sink.Cached()), beg, end, k, r.path)
      ensures sink.Agrees(this)
    {
      hide Shown, Project, Refreshed, View, Vals, Held, Linked, Total, Ordered, Within, Distinct;
      var b := newBeg;
      var e := if newEnd.None? then b + (end - beg) else newEnd.value;
      if e < b {
        b := e;
      }
      beg, end := b, e;
      if |rows| == 0 {
        return;
      }
      ClearRows();
      Sync(sink, walking);
      ghost var m := old(sink.Cached());
      forall r, t: int | r in rows && beg <= t < end && t in sink.Cached()
        ensures r.Cell(t - beg) == Project(sink.Cached()[t].item, sink.Cached()[t].mapping, r.path)
      {
        ShowsRefreshed(m, sink.Cached(), beg, end, t, r.path);
      }
    }

    /** Have the sink load the window. */
    method Sync(sink: SeriesSink, walking: bool)
      requires sink.Valid() && sink.Wired() && this in sink.registered
      modifies sink`block, sink`next, sink`index, sink`count, sink`head, sink`tail, sink`list
      modifies sink`requests, sink.Rows()
      ensures sink.Valid() && sink.Wired()
      ensures forall r, k: int | r in rows ::
        r.Cell(k) == Shown(old(r.Cell(k)), old(sink.Cached()), beg, end, k, r.path)
      ensures Refreshed(old(sink.Cached()), sink.Cached())
    {
      hide View, Refreshed, Part, Filled, Divided, Project, Held, Linked, Total, Ordered, Within, Distinct, Requests;
      ghost var gaps, pieces := sink.Load(beg, end, walking);
      ShownPart(old(sink.Cached()), beg, end);
      assert forall r | r in rows :: r in sink.Rows();
    }

    method ClearRows()
      modifies set r | r in rows
      ensures forall r | r in rows :: r.cells == []
    {
      var k := 0;
      while k < |rows|
        invariant 0 <= k <= |rows|
        invariant forall r | r in rows[..k] :: r.cells == []
      {
        rows[k].cells := [];
        assert rows[..k + 1] == rows[..k] + [rows[k]];
        k := k + 1;
      }
    }
  }

  /** What cell `k` of a row shows after block `b` has been processed. */
  ghost function Painted(was: Value, b: Block, beg: int, end: int, k: int, path: seq<string>): Value {
    if b.Has(beg + k) && beg <= beg + k < end then
      var c := b.CellAt(beg + k);
      Project(c.item, c.mapping, path)
    else was
  }

  /** What cell `k` of a row shows after everything in `m` has been processed. */
  ghost function Shown(was: Value, m: map<int, Cell>, beg: int, end: int, k: int, path: seq<string>): Value {
    if beg + k in m && beg <= beg + k < end then Project(m[beg + k].item, m[beg + k].mapping, path) else was
  }

  lemma ShownStep(
    was: Value, m: map<int, Cell>, from: int, last: int, p: Block, beg: int, end: int, k: int, path: seq<string>)
    requires from <= last <= p.beg && forall t | p.Has(t) :: t in m && m[t] == p.CellAt(t)
    requires forall t | last <= t < p.beg :: t !in m
    ensures Painted(Shown(was, Part(m, from, last), beg, end, k, path), p, beg, end, k, path)
         == Shown(was, Part(m, from, p.End()), beg, end, k, path)
  {
    hide Project;
  }

  method PaintGrid(grid: Grid, beg: int, items: seq<Value>, mapping: Value)
    modifies set r | r in grid.rows
    ensures forall r, k: int | r in grid.rows ::
      r.Cell(k) == Painted(old(r.Cell(k)), Block(beg, items, mapping), grid.beg, grid.end, k, r.path)
  {
    var b, e := Max(beg, grid.beg), Min(beg + |items|, grid.end);
    if b < e {
      var f, t, n := b - beg, b - grid.beg, e - b;
      var i := 0;
      while i < n
        invariant 0 <= i <= n
        invariant forall r, k: int | r in grid.rows ::
          r.Cell(k) == if t <= k < t + i then Project(items[f + k - t], mapping, r.path) else old(r.Cell(k))
      {
        PaintColumn(grid, t + i, items[f + i], mapping);
        i := i + 1;
      }
    }
  }

  /** One item into cell `at` of every row. */
  method PaintColumn(grid: Grid, at: nat, item: Value, mapping: Value)
    modifies set r | r in grid.rows
    ensures forall r, k: int | r in grid.rows ::
      r.Cell(k) == if k == at then Project(item, mapping, r.path) else old(r.Cell(k))
  {
    hide Project;
    var k := 0;
    while k < |grid.rows|
      invariant 0 <= k <= |grid.rows|
      invariant forall r, x: int | r in grid.rows ::
        r.Cell(x) == if x == at && r in grid.rows[..k] then Project(item, mapping, r.path) else old(r.Cell(x))
    {
      var row := grid.rows[k];
      var data := Select(item, mapping, row.path);
      row.Put(at, data);
      assert grid.rows[..k + 1] == grid.rows[..k] + [row];
      k := k + 1;
    }
  }

  class SeriesSink {
    var limit: nat

    /** The entries made so far: entry `id` is the block `block[id]` and the link `next[id]`. */
    var block: seq<Block>
    var next: seq<Ref>

    var index: seq<nat>
    var count: int
    var head: Ref
    var tail: Ref

    /** The grids that take rows from this sink, whether there is a fetch callback, and the calls it got. */
    var registered: seq<Grid>
    const fetching: bool
    var requests: seq<Request>

    /** The entries from `head` on. */
    ghost var list: seq<nat>

    ghost predicate Known()
      reads this
    {
      && Within(index, |block|) && Within(list, |block|)
      && Distinct(index) && Distinct(list)
    }

    /** The accounting: index and list hold the same items, and `count` is how many these are. */
    ghost predicate Accounted()
      reads this
    {
      && Known()
      && |next| == |block| && Linked(next, list, head, tail)
      && Held(block, index, list)
      && count == Total(Vals(block, list))
    }

    ghost predicate Valid()
      reads this
    {
      Accounted() && Ordered(Vals(block, index))
    }

    /** The blocks on the list, oldest first. */
    ghost function Contents(): seq<Block>
      reads this
    {
      Vals(block, list)
    }

    /** Every row knows its grid. */
    ghost predicate Wired()
      reads this, registered
    {
      forall g, r | g in registered && r in g.rows :: r.grid == g
    }

    ghost function Rows(): set<Row>
      reads this, registered
    {
      set g, r | g in registered && r in g.rows :: r
    }

    /** The map from timestamps to cells that the cache stands for. */
    ghost function Cached(): map<int, Cell>
      reads this
    {
      View(Contents())
    }

    constructor (fetching: bool)
      ensures Valid() && Contents() == [] && limit == 1024
      ensures this.fetching == fetching && requests == [] && registered == []
    {
      this.fetching, requests, registered := fetching, [], [];
      limit := 1024;
      block, next := [], [];
      index, count, head, tail := [], 0, Nil, Nil;
      list := [];
    }

    /** Each row shows what is cached in its window. */
    ghost predicate Agrees(grid: Grid)
      reads this, grid, grid.rows
    {
      forall r, t: int | r in grid.rows && grid.beg <= t < grid.end && t in Cached() ::
        r.Cell(t - grid.beg) == Project(Cached()[t].item, Cached()[t].mapping, r.path)
    }

    // ----- Searching the index

    method Search(beg: int) returns (at: nat)
      requires Known() && Ordered(Vals(block, index))
      ensures IsSlot(Vals(block, index), at, beg)
    {
      hide Vals, Held, Linked, Total;
      ghost var bs := Vals(block, index);
      var low, high := 0, |index| - 1;
      while low <= high
        invariant 0 <= low <= high + 1 <= |index|
        invariant forall p | 0 <= p < low :: bs[p].beg < beg
        invariant forall p | high < p < |index| :: beg < bs[p].beg
      {
        var mid := (low + high) / 2;
        var val := block[index[mid]].beg;
        assert val == bs[mid].beg;
        if val < beg {
          low := mid + 1;
        } else if val > beg {
          high := mid - 1;
        } else {
          return mid;
        }
      }
      return low;
    }

    // ----- Making room

    /** Splice [b, e) out of one entry. */
    method CutOut(id: nat, beg: int, end: int, b: int, e: int)
      requires Known() && id < |block| && id in list && count == Total(Vals(block, list))
      requires b == Max(block[id].beg, beg) && e == Min(block[id].End(), end) && b < e
      modifies `count, `block
      ensures block == old(block)[id := Trim(old(block[id]), beg, end)]
      ensures count == Total(Vals(block, list))
    {
      var entry := block[id];
      ghost var k :| 0 <= k < |list| && list[k] == id;
      ghost var was, cut := Vals(block, list), Trim(entry, beg, end);
      var num := e - b;
      entry := entry.(items := entry.items[..b - entry.beg] + entry.items[b - entry.beg + num..]);
      count := count - num;
      if b - entry.beg == 0 {
        entry := entry.(beg := entry.beg + (e - entry.beg));
      }
      block := block[id := entry];
      assert entry == cut;
      hide Trim, Total;
      assert Vals(block, list) == was[k := cut];
      TotalUpdate(was, k, cut);
    }

    /** One step of the walk; `stop` at an entry behind the range, once the slot is passed. */
    method TrimEntry(id: nat, beg: int, end: int, passed: bool) returns (stop: bool)
      requires Known() && id < |block| && count == Total(Vals(block, list)) && beg < end
      requires block[id].items != [] ==> id in list
      modifies `count, `block
      ensures block == old(block)[id := Trim(old(block)[id], beg, end)]
      ensures count == Total(Vals(block, list))
      ensures stop ==> passed && block == old(block) && IsApart(block[id], beg, end)
    {
      hide Trim, Total, Vals;
      var entry := block[id];
      var en := |entry.items|;
      var eb := entry.beg;
      var b, e := Max(eb, beg), Min(eb + en, end);
      if en != 0 && b < e {
        CutOut(id, beg, end, b, e);
        stop := false;
      } else {
        TrimApart(entry, beg, end);
        stop := en != 0 && passed;
      }
    }

    /** Cut [beg, end) out of every entry, walking from one entry before the slot to the first entry
        behind the range. */
    method TrimOverlaps(at: nat, beg: int, end: int) returns (i: nat)
      requires Known() && Held(block, index, list) && count == Total(Vals(block, list)) && Ordered(Vals(block, index))
      requires beg < end && IsSlot(Vals(block, index), at, beg)
      modifies `count, `block
      ensures block == TrimAll(old(block), beg, end)
      ensures count == Total(Vals(block, list))
      ensures at <= i <= |index| && (i < |index| ==> end <= old(block)[index[i]].beg && old(block)[index[i]].items != [])
    {
      i := if at > 0 then at - 1 else at;
      ghost var was, lo := block, i;
      StartWalk(was, index, lo, beg, end);
      assert at <= |index|;
      hide Trim, Total, Held, Walked, IsApart, Ordered, IsSlot;
      var stop := false;
      while i < |index| && !stop
        invariant lo <= i <= |index| && |block| == |was| && Walked(was, block, index, lo, i, beg, end)
        invariant count == Total(Vals(block, list))
        invariant stop ==> at <= i < |index| && IsApart(was[index[i]], beg, end)
        decreases |index| - i, !stop
      {
        WalkStep(was, block, index, list, lo, i, beg, end);
        stop := TrimEntry(index[i], beg, end, i >= at);
        if !stop {
          i := i + 1;
        }
      }
      StopsBehind(Vals(was, index), at, i, beg, end);
      WalkTrimsAll(was, block, index, list, lo, i, beg, end);
    }

    // ----- Placing the new entry

    method Append(at: nat, b: Block)
      requires Accounted() && at <= |index|
      modifies `block, `next, `index, `count, `head, `tail, `list
      ensures Accounted()
      ensures block == old(block) + [b] && Contents() == old(Contents()) + [b]
      ensures index == Spliced(old(index), |old(block)|, at)
    {
      hide Total, Vals, Within, Distinct, Held, Linked;
      NewEntry(block, next, index, list, head, tail, b, at);
      var id: nat := |block|;
      var links := next + [Nil];
      if tail != Nil {
        links := links[tail.id := To(id)];
      }
      index, list := Spliced(index, id, at), list + [id];
      block, next := block + [b], links;
      if head == Nil {
        head := To(id);
      }
      tail := To(id);
      count := count + |b.items|;
    }

    /** Remove the empty entries from position `from` to position `upto`, counted as the removals go. */
    method Tidy(from: int, upto: nat, ghost id: nat, ghost fits: bool)
      requires Accounted() && id < |block| && block[id].items != []
      requires fits ==> Almost(block, index, id, from, upto)
      modifies `index
      ensures Accounted()
      ensures fits ==> Ordered(Vals(block, index))
    {
      var at := from;
      hide Total, Vals, Within, Distinct, Held, Linked, Almost, Ordered;
      while at <= upto
        invariant Within(index, |block|) && Distinct(index) && Held(block, index, list)
        invariant fits ==> Almost(block, index, id, at, upto)
        decreases upto - at + |index|
      {
        WithoutEmpty(block, index, list, id, at, upto);
        if 0 <= at < |index| && block[index[at]].items == [] {
          index := Without(index, at);
        } else {
          at := at + 1;
        }
      }
      AlmostDone(block, index, id, at, upto);
    }

    /** Empty the oldest entries until the rest is within the limit. */
    method ExpireOldest()
      requires Accounted()
      modifies `block, `count, `head, `list
      ensures Accounted()
      ensures Contents() == Expire(old(Contents()), limit)
      ensures Shrunk(old(block), block)
    {
      ghost var was := block;
      ghost var want := Expire(Vals(block, list), limit);
      hide Total, Vals, Within, Distinct, Held, Linked, Expire, Shrunk;
      ShrunkSame(block);
      while head != Nil && count > limit
        invariant Accounted() && Shrunk(was, block)
        invariant Expire(Vals(block, list), limit) == want
        decreases |list|
      {
        ExpireStep(was, block, next, index, list, head, tail, limit);
        count := count - |block[head.id].items|;
        block := block[head.id := Emptied(block[head.id])];
        head := next[head.id];
        list := list[1..];
      }
      ExpireDone(block, next, list, head, tail, limit);
    }

    /** Remove the empty entries at the beginning. */
    method DropLeading()
      requires Accounted()
      modifies `index
      ensures Accounted()
      ensures Ordered(Vals(block, old(index))) ==> Ordered(Vals(block, index))
      ensures index != [] ==> At(block, index[0]).items != []
    {
      hide Total, Held, Linked, Vals;
      var i := 0;
      while i < |index|
        invariant 0 <= i <= |index|
        invariant forall p | 0 <= p < i :: block[index[p]].items == []
      {
        if |block[index[i]].items| > 0 {
          break;
        }
        i := i + 1;
      }
      WithoutLeading(block, index, list, i);
      index := index[i..];
    }

    /** Cut the range of the new block out of what is there and place the block. */
    method Place(b: Block)
      requires Valid() && b.items != []
      modifies `block, `next, `index, `count, `head, `tail, `list
      ensures Accounted()
      ensures Contents() == Insert(old(Contents()), b)
      ensures Fits(old(Contents()), b.beg, b.End()) ==> Valid()
    {
      ghost var was, fits := block, Fits(Contents(), b.beg, b.End());
      hide Total, Vals, Within, Distinct, Held, Linked, Almost, Ordered, Fits, IsSlot, Trim;
      StashLemma(block, index, list, b);
      var at: int := Search(b.beg);
      var i := TrimOverlaps(at, b.beg, b.End());
      Append(at, b);
      if fits {
        InsertAlmost(was, old(index), at, i, b);
      }
      Tidy(at - 1, i, |was|, fits);
    }

    /** Take in a block, and forget the oldest ones if the cache got too big. */
    method Stash(beg: int, items: seq<Value>, mapping: Value)
      requires Valid()
      modifies `block, `next, `index, `count, `head, `tail, `list
      ensures Accounted()
      ensures Contents() == Blocks.Stash(old(Contents()), Block(beg, items, mapping), limit)
      ensures Fits(old(Contents()), beg, beg + |items|) ==> Valid()
    {
      hide Total, Vals, Within, Distinct, Held, Linked, Ordered, Insert, Expire, Shrunk, Fits, Blocks.Stash;
      StashCases(Contents(), Block(beg, items, mapping), limit);
      if |items| == 0 {
        return;
      }
      Place(Block(beg, items, mapping));
      ghost var mid := block;
      ExpireOldest();
      ShrunkOrdered(mid, block, index);
      DropLeading();
    }

    /** `count` is also what the index holds. */
    lemma CountIsIndexTotal()
      requires Accounted()
      ensures count == Total(Vals(block, index))
    {
      SameTotal(block, index, list);
    }

    // ----- Filling the rows

    method Process(beg: int, items: seq<Value>, mapping: Value)
      requires Wired()
      modifies Rows()
      ensures forall r, k: int | r in Rows() ::
        r.Cell(k) == Painted(old(r.Cell(k)), Block(beg, items, mapping), r.grid.beg, r.grid.end, k, r.path)
    {
      hide Project;
      var i := 0;
      while i < |registered|
        invariant 0 <= i <= |registered|
        invariant forall r, k: int | r in Rows() ::
          r.Cell(k) == if r.grid !in registered[..i] then old(r.Cell(k))
            else Painted(old(r.Cell(k)), Block(beg, items, mapping), r.grid.beg, r.grid.end, k, r.path)
      {
        var grid := registered[i];
        PaintGrid(grid, beg, items, mapping);
        assert registered[..i + 1] == registered[..i] + [grid];
        i := i + 1;
      }
    }

    // ----- Loading

    /** The two views of the cache agree: disjoint blocks on the list, the same cells in the index. */
    lemma IndexIsMap()
      requires Valid()
      ensures Disjoint(Contents()) && Indexes(Vals(block, index), Cached())
      ensures forall p | 0 <= p < |index| :: index[p] < |block| && Vals(block, index)[p] == block[index[p]]
    {
      IndexAgrees(block, index, list);
    }

    /** Paint one more piece of the map. */
    method Show(p: Block, ghost was: map<Row, seq<Value>>, ghost m: map<int, Cell>, ghost beg: int, ghost last: int)
      requires Wired() && was.Keys == Rows() && Displays(was, Part(m, beg, last))
      requires beg <= last <= p.beg && forall t | p.Has(t) :: t in m && m[t] == p.CellAt(t)
      requires forall t | last <= t < p.beg :: t !in m
      modifies Rows()
      ensures Displays(was, Part(m, beg, p.End()))
    {
      hide Shown, Painted;
      Process(p.beg, p.items, p.mapping);
      forall r, k: int | r in was.Keys
        ensures r.Cell(k) == Shown(CellIn(was[r], k), Part(m, beg, p.End()), r.grid.beg, r.grid.end, k, r.path)
      {
        ShownStep(CellIn(was[r], k), m, beg, last, p, r.grid.beg, r.grid.end, k, r.path);
      }
    }

    /** First phase of a load: hand what is cached to `Process`, take note of the gaps. */
    method Walk(beg: int, end: int) returns (gaps: seq<Range>, ghost pieces: seq<Block>)
      requires Valid() && Wired() && beg < end
      modifies Rows()
      ensures Divided(Cached(), beg, end, gaps, pieces)
      ensures forall r, k: int | r in Rows() ::
        r.Cell(k) == Shown(old(r.Cell(k)), Part(Cached(), beg, end), r.grid.beg, r.grid.end, k, r.path)
    {
      ghost var was := Snapshot(Rows());
      ghost var m := Cached();
      gaps, pieces := WalkIndex(beg, end, was);
      hide Shown;
      assert forall r, k: int | r in Rows() :: old(r.Cell(k)) == CellIn(was[r], k);
    }

    method WalkIndex(beg: int, end: int, ghost was: map<Row, seq<Value>>)
      returns (gaps: seq<Range>, ghost pieces: seq<Block>)
      requires Valid() && Wired() && beg < end && was == Snapshot(Rows())
      modifies Rows()
      ensures Divided(Cached(), beg, end, gaps, pieces)
      ensures Displays(was, Part(Cached(), beg, end))
    {
      hide Vals, View, Displays, Scan, Divided, Indexes, IsSlot, Snapshot, Part, Held, Linked, Total, Ordered, Within,
        Distinct, IsApart;
      IndexIsMap();
      ghost var m, bs := Cached(), Vals(block, index);
      NothingShown(was, Rows(), m, beg);
      var at := Search(beg);
      var last, stop := beg, false;
      gaps, pieces := [], [];
      ScanStart(bs, m, beg, end, at);
      var i := if at > 0 then at - 1 else at;
      while i < |index| && !stop
        invariant i <= |index| && Scan(bs, m, beg, end, i, last, gaps, pieces)
        invariant Displays(was, Part(m, beg, last))
        invariant stop ==> i < |index| && at <= i && IsApart(bs[i], beg, end)
        decreases |index| - i, !stop
      {
        gaps, last, stop, pieces :=
          WalkEntry(block[index[i]], beg, end, i >= at, gaps, last, pieces, was, m, bs, at, i);
        if !stop {
          i := i + 1;
        }
      }
      ScanFinish(bs, m, beg, end, at, i, last, gaps, pieces);
      if last != end {
        gaps := gaps + [Range(last, end)];
      }
    }

    /** One entry of the walk; `stop` at one behind the range, once the slot is passed. */
    method WalkEntry(
      entry: Block, beg: int, end: int, passed: bool, gaps: seq<Range>, last: int, ghost pieces: seq<Block>,
      ghost was: map<Row, seq<Value>>, ghost m: map<int, Cell>, ghost bs: seq<Block>, ghost at: nat, ghost i: nat)
      returns (gaps': seq<Range>, last': int, stop: bool, ghost pieces': seq<Block>)
      requires Wired() && was.Keys == Rows() && beg < end
      requires Indexes(bs, m) && IsSlot(bs, at, beg) && i < |bs| && entry == bs[i] && (passed <==> at <= i)
      requires Scan(bs, m, beg, end, i, last, gaps, pieces) && Displays(was, Part(m, beg, last))
      modifies Rows()
      ensures Displays(was, Part(m, beg, last'))
      ensures Scan(bs, m, beg, end, if stop then i else i + 1, last', gaps', pieces')
      ensures stop ==> at <= i && IsApart(entry, beg, end)
    {
      hide Wired, Rows, Displays, Scan, Indexes, IsSlot, Part;
      gaps', last', stop, pieces' := gaps, last, false, pieces;
      var en := |entry.items|;
      if en == 0 {
        ScanSkip(bs, m, beg, end, at, i, last, gaps, pieces);
        return;
      }
      var eb := entry.beg;
      var b, e := Max(eb, beg), Min(eb + en, end);
      if b < e {
        ScanShows(bs, m, beg, end, i, last, gaps, pieces);
        ScanTake(bs, m, beg, end, i, last, gaps, pieces);
        if b > last {
          gaps' := gaps + [Range(last, b)];
        }
        var p := Block(b, entry.items[b - eb..e - eb], entry.mapping);
        Show(p, was, m, beg, last);
        pieces', last' := pieces + [p], e;
      } else if passed {
        stop := true;
      } else {
        ScanSkip(bs, m, beg, end, at, i, last, gaps, pieces);
      }
    }

    /** Ask for a range. Unless the grid is walking, placeholders keep the next load from asking again. */
    method Fetch(r: Range, walking: bool)
      requires Valid() && r.beg < r.end && Fits(Contents(), r.beg, r.end)
      modifies `block, `next, `index, `count, `head, `tail, `list, `requests
      ensures Valid()
      ensures Contents() == if fetching && !walking then Blocks.Stash(old(Contents()), Placeholder(r), limit) else old(Contents())
      ensures requests == if fetching then old(requests) + [Request(r, walking)] else old(requests)
    {
      hide View, Vals, Held, Linked, Ordered, Within, Distinct, Total, Blocks.Stash, Placeholder, Fits;
      if fetching {
        if !walking {
          var b := Placeholder(r);
          Stash(b.beg, b.items, b.mapping);
        }
        requests := requests + [Request(r, walking)];
      }
    }

    /** Second phase of a load: fetch the gaps, first to last. */
    method FetchAll(gaps: seq<Range>, walking: bool)
      requires Valid() && Spaced(gaps) && Clear(Cached(), gaps)
      modifies `block, `next, `index, `count, `head, `tail, `list, `requests
      ensures Valid()
      ensures Contents() == if fetching && !walking then Filled(old(Contents()), gaps, limit) else old(Contents())
      ensures requests == old(requests) + if fetching then Requests(gaps, walking) else []
    {
      hide Valid, Contents, View, Clear, Spaced, Disjoint, Indexes, Filled, FilledUpTo, Requests, CallsUpTo, Blocks.Stash, Placeholder, Fits;
      IndexIsMap();
      ghost var bs, asked, fill := Contents(), requests, fetching && !walking;
      FetchStart(bs, gaps, limit, fetching, walking);
      var i := 0;
      while i < |gaps|
        invariant 0 <= i <= |gaps| && Valid()
        invariant Contents() == FilledUpTo(bs, gaps, i, limit, fill)
        invariant requests == asked + CallsUpTo(gaps, i, fetching, walking)
      {
        FetchStep(bs, gaps, i, limit, fetching, walking);
        Fetch(gaps[i], walking);
        i := i + 1;
      }
    }

    /** Hand what is cached on [beg, end) to the grids and fetch the rest. The ghost results are the parts the
        range was divided into. */
    method Load(beg: int, end: int, walking: bool) returns (ghost gaps: seq<Range>, ghost pieces: seq<Block>)
      requires Valid() && Wired()
      modifies `block, `next, `index, `count, `head, `tail, `list, `requests, Rows()
      ensures Valid() && Wired() && Rows() == old(Rows())
      ensures beg < end ==> Divided(old(Cached()), beg, end, gaps, pieces)
      ensures end <= beg ==> gaps == [] && pieces == []
      ensures forall r, k: int | r in Rows() ::
        r.Cell(k) == Shown(old(r.Cell(k)), Part(old(Cached()), beg, end), r.grid.beg, r.grid.end, k, r.path)
      ensures Contents() == if fetching && !walking then Filled(old(Contents()), gaps, limit) else old(Contents())
      ensures Refreshed(old(Cached()), Cached())
      ensures requests == old(requests) + if fetching then Requests(gaps, walking) else []
    {
      hide Valid, Contents, View, Clear, Spaced, Divided, Filled, Requests, Shown, Part, Refreshed, Disjoint, Indexes, Vals;
      IndexIsMap();
      gaps, pieces := [], [];
      NothingToLoad(Cached(), Contents(), beg, end, limit, walking);
      if end <= beg {
        return;
      }
      var fetches;
      fetches, pieces := Walk(beg, end);
      gaps := fetches;
      DividedClear(Cached(), beg, end, gaps, pieces);
      FilledRefreshes(Contents(), beg, end, gaps, pieces, limit, fetching && !walking);
      FetchAll(fetches, walking);
    }

    /** New data: first to the grids, then into the cache. A grid that agreed with the cache still does. */
    method Input(beg: int, items: seq<Value>, mapping: Value)
      requires Valid() && Wired()
      modifies `block, `next, `index, `count, `head, `tail, `list, Rows()
      ensures Accounted() && Wired() && Rows() == old(Rows())
      ensures forall r, k: int | r in Rows() ::
        r.Cell(k) == Painted(old(r.Cell(k)), Block(beg, items, mapping), r.grid.beg, r.grid.end, k, r.path)
      ensures Contents() == Blocks.Stash(old(Contents()), Block(beg, items, mapping), limit)
      ensures Fits(old(Contents()), beg, beg + |items|) ==> Valid()
      ensures Fits(old(Contents()), beg, beg + |items|) ==> forall g | g in old(registered) && old(Agrees(g)) :: Agrees(g)
    {
      hide Painted, Project, Blocks.Stash, View, Held, Linked, Total, Ordered, Within, Distinct, Fits, Overwritten;
      ghost var bs, b, fits := Contents(), Block(beg, items, mapping), Fits(Contents(), beg, beg + |items|);
      IndexIsMap();
      Process(beg, items, mapping);
      Stash(beg, items, mapping);
      if fits {
        StashOverwrites(bs, b, limit);
        forall g | g in registered && old(Agrees(g)) ensures Agrees(g) {
          forall r, t: int | r in g.rows && g.beg <= t < g.end && t in Cached()
            ensures r.Cell(t - g.beg) == Project(Cached()[t].item, Cached()[t].mapping, r.path)
          {
            assert r in Rows() && r.grid == g;
            PaintAgrees(View(bs), Cached(), b, g.beg, g.end, t, r.path, old(r.Cell(t - g.beg)));
          }
        }
      }
    }

    /** Once a range was loaded, and the cache had room for what was missing of it, loading any part of it
        again asks for nothing: all requests are the gaps of the first load. */
    method LoadAgain(beg: int, end: int, beg2: int, end2: int, walking2: bool)
      returns (ghost gaps: seq<Range>, ghost pieces: seq<Block>)
      requires Valid() && Wired() && fetching && beg <= beg2 && end2 <= end && beg < end
      requires count + |Uncached(Cached(), beg, end)| <= limit
      modifies `block, `next, `index, `count, `head, `tail, `list, `requests, Rows()
      ensures Valid() && Wired()
      ensures Divided(old(Cached()), beg, end, gaps, pieces)
      ensures requests == old(requests) + Requests(gaps, false)
      ensures Contents() == old(Contents()) + Placeholders(gaps)
      ensures forall t | beg <= t < end :: t in Cached()
    {
      hide View, Vals, Held, Linked, Ordered, Within, Distinct, Divided, Requests, Placeholders, Shown, Part, Refreshed,
        Total, Uncached, Disjoint, Filled;
      IndexIsMap();
      ghost var bs := Contents();
      gaps, pieces := Load(beg, end, false);
      LoadFillsRange(bs, beg, end, gaps, pieces, limit);
      ghost var mid := Cached();
      ghost var gaps2, pieces2 := Load(beg2, end2, walking2);
      if beg2 < end2 {
        NothingMissing(mid, beg2, end2, gaps2, pieces2);
      }
      NoGaps(Contents(), limit);
    }
  }

  lemma NoGaps(bs: seq<Block>, limit: nat)
    ensures forall xs :: Filled(xs, [], limit) == xs
    ensures forall walking :: Requests([], walking) == []
  {
  }

  lemma ShownPart(m: map<int, Cell>, beg: int, end: int)
    ensures forall was, k, path :: Shown(was, Part(m, beg, end), beg, end, k, path) == Shown(was, m, beg, end, k, path)
  {
    hide Project;
  }

  /** What a cleared row shows after a load is what is cached now: a placeholder reads as undefined. */
  lemma ShowsRefreshed(m: map<int, Cell>, now: map<int, Cell>, beg: int, end: int, t: int, path: seq<string>)
    requires Refreshed(m, now) && t in now && beg <= t < end
    ensures Shown(Undefined, m, beg, end, t - beg, path) == Project(now[t].item, now[t].mapping, path)
  {
  }

  lemma PaintAgrees(
    m: map<int, Cell>, now: map<int, Cell>, b: Block, beg: int, end: int, t: int, path: seq<string>, was: Value)
    requires Overwritten(m, now, b) && t in now && beg <= t < end
    requires t in m ==> was == Project(m[t].item, m[t].mapping, path)
    ensures Painted(was, b, beg, end, t - beg, path) == Project(now[t].item, now[t].mapping, path)
  {
    hide Project;
  }

  lemma NothingToLoad(m: map<int, Cell>, bs: seq<Block>, beg: int, end: int, limit: nat, walking: bool)
    ensures end <= beg ==> forall was, gb, ge, k, path :: Shown(was, Part(m, beg, end), gb, ge, k, path) == was
    ensures Filled(bs, [], limit) == bs && Requests([], walking) == [] && Refreshed(m, m)
  {
  }

  lemma StashCases(bs: seq<Block>, b: Block, limit: nat)
    ensures Blocks.Stash(bs, b, limit) == if b.items == [] then bs else Expire(Insert(bs, b), limit)
  {
  }

  ghost function CellIn(cells: seq<Value>, k: int): Value {
    if 0 <= k < |cells| then cells[k] else Undefined
  }

  ghost function Snapshot(rows: set<Row>): map<Row, seq<Value>>
    reads rows
  {
    map r | r in rows :: r.cells
  }

  /** The rows show `m` on top of what they were. */
  ghost predicate Displays(was: map<Row, seq<Value>>, m: map<int, Cell>)
    reads was.Keys, set r | r in was.Keys :: r.grid
  {
    forall r, k: int | r in was.Keys ::
      r.Cell(k) == Shown(CellIn(was[r], k), m, r.grid.beg, r.grid.end, k, r.path)
  }

  lemma NothingShown(was: map<Row, seq<Value>>, rows: set<Row>, m: map<int, Cell>, beg: int)
    requires was == Snapshot(rows)
    ensures was.Keys == rows && Displays(was, Part(m, beg, beg))
  {
  }
}
