/** Deleting lines one after the other by their numbers, in the order that sorting the numbers as texts gives. */
module LineDeletion {
  import opened Sequences

  // ----- Deleting in some order

  /** Take out one element; nothing happens behind the end. */
  function RemoveAt<T>(s: seq<T>, i: nat): seq<T> {
    if i < |s| then s[..i] + s[i + 1..] else s
  }

  function RemoveEach<T>(s: seq<T>, at: seq<nat>): seq<T> {
    if at == [] then s else RemoveAt(RemoveEach(s, at[..|at| - 1]), at[|at| - 1])
  }

  /** The elements whose numbers are not among `gone`. */
  function Keep<T>(s: seq<T>, gone: set<nat>): seq<T> {
    if s == [] then []
    else Keep(s[..|s| - 1], gone) + if |s| - 1 in gone then [] else [s[|s| - 1]]
  }

  function Indices(n: nat): (r: seq<nat>)
    ensures |r| == n && forall i | 0 <= i < n :: r[i] == i
  {
    if n == 0 then [] else Indices(n - 1) + [n - 1]
  }

  function Elements(at: seq<nat>): set<nat> {
    set x | x in at
  }

  predicate Descending(at: seq<nat>) {
    forall i, j | 0 <= i < j < |at| :: at[i] > at[j]
  }

  lemma {:induction false} KeepAll<T>(s: seq<T>, gone: set<nat>)
    requires forall d | d in gone :: d >= |s|
    ensures Keep(s, gone) == s
  {
    if s != [] {
      KeepAll(s[..|s| - 1], gone);
    }
  }

  /** One more element in front of all that are gone. */
  lemma {:induction false} KeepLess<T>(s: seq<T>, gone: set<nat>, d: nat)
    requires d < |s| && forall x | x in gone :: d < x
    ensures |Keep(s, gone)| > d && RemoveAt(Keep(s, gone), d) == Keep(s, gone + {d})
  {
    var less := s[..|s| - 1];
    if d == |s| - 1 {
      KeepAll(s, gone);
      KeepAll(less, gone + {d});
    } else {
      KeepLess(less, gone, d);
      var k := Keep(less, gone);
      assert |s| - 1 in gone <==> |s| - 1 in gone + {d};
      var x := if |s| - 1 in gone then [] else [s[|s| - 1]];
      assert (k + x)[..d] == k[..d] && (k + x)[d + 1..] == k[d + 1..] + x;
    }
  }

  /** From the highest number down, exactly the wanted elements go. */
  lemma {:induction false} DescendingRemoves<T>(s: seq<T>, at: seq<nat>)
    requires Descending(at) && Within(at, |s|)
    ensures RemoveEach(s, at) == Keep(s, Elements(at))
  {
    if at == [] {
      KeepAll(s, Elements(at));
    } else {
      var less, d := at[..|at| - 1], at[|at| - 1];
      assert at == less + [d];
      DescendingRemoves(s, less);
      assert forall x | x in less :: x > d;
      KeepLess(s, Elements(less), d);
      assert Elements(at) == Elements(less) + {d};
    }
  }

  // ----- Only that order will do

  function Sum(s: seq<nat>): nat {
    if s == [] then 0 else Sum(s[..|s| - 1]) + s[|s| - 1]
  }

  predicate Rising(s: seq<nat>) {
    forall i, j | 0 <= i < j < |s| :: s[i] < s[j]
  }

  lemma {:induction false} SumApart(a: seq<nat>, b: seq<nat>)
    ensures Sum(a + b) == Sum(a) + Sum(b)
  {
    if b == [] {
      assert a + b == a;
    } else {
      assert (a + b)[..|a + b| - 1] == a + b[..|b| - 1];
      SumApart(a, b[..|b| - 1]);
    }
  }

  lemma SumMore(s: seq<nat>, x: nat)
    ensures Sum(s + [x]) == Sum(s) + x
  {
    assert (s + [x])[..|s|] == s;
  }

  lemma SumLess(s: seq<nat>, i: nat)
    requires i < |s|
    ensures Sum(RemoveAt<nat>(s, i)) + s[i] == Sum(s)
  {
    hide Sum;
    var a, x, b := s[..i], s[i], s[i + 1..];
    SumApart(a, b);
    SumApart(a + [x], b);
    SumMore(a, x);
    assert s == a + [x] + b;
  }

  lemma {:induction false} RisingAbove(s: seq<nat>, i: nat)
    requires Rising(s) && i < |s|
    ensures s[i] >= i
  {
    if i > 0 {
      RisingAbove(s, i - 1);
    }
  }

  /** Numbers that rise from zero one by one up to some place miss nothing before it. */
  lemma {:induction false} RisingExact(s: seq<nat>, i: nat, j: nat)
    requires Rising(s) && j <= i < |s| && s[i] == i
    ensures s[j] == j
    decreases i - j
  {
    if j < i {
      RisingExact(s, i, j + 1);
      RisingAbove(s, j);
    }
  }

  /** Each removal takes out the number it names or a higher one. */
  lemma RemovesMore(before: seq<nat>, d: nat)
    requires Rising(before)
    ensures var r := RemoveAt<nat>(before, d);
      Rising(r) && |r| + 1 >= |before| && (|r| + 1 == |before| ==> d < |before| && before[d] >= d && Sum(r) + before[d] == Sum(before))
  {
    hide Sum;
    if d < |before| {
      SumLess(before, d);
      RisingAbove(before, d);
    }
  }

  lemma {:induction false} RemovesTooMuch(n: nat, at: seq<nat>)
    ensures var r := RemoveEach<nat>(Indices(n), at);
      Rising(r) && |r| + |at| >= n && (|r| + |at| == n ==> Sum(r) + Sum(at) <= Sum(Indices(n)))
  {
    hide RemoveAt, Rising;
    if at == [] {
      IndicesRise(n);
    } else {
      RemovesTooMuch(n, at[..|at| - 1]);
      RemovesMore(RemoveEach<nat>(Indices(n), at[..|at| - 1]), at[|at| - 1]);
    }
  }

  lemma IndicesRise(n: nat)
    ensures Rising(Indices(n))
  {
  }

  lemma {:induction false} SumKeep(n: nat, at: seq<nat>)
    requires Distinct(at) && Within(at, n)
    ensures var r := Keep<nat>(Indices(n), Elements(at));
      |r| + |at| == n && Sum(r) + Sum(at) == Sum(Indices(n))
  {
    if at == [] {
      KeepAll<nat>(Indices(n), Elements(at));
    } else {
      var less, d := at[..|at| - 1], at[|at| - 1];
      assert at == less + [d];
      SumKeep(n, less);
      assert d !in less;
      assert Elements(at) == Elements(less) + {d};
      KeepOneLess(n, Elements(less), d);
    }
  }

  /** One more number, at the end. */
  lemma KeepIndices(n: nat, gone: set<nat>)
    requires n > 0
    ensures var less := Keep<nat>(Indices(n - 1), gone);
      Keep<nat>(Indices(n), gone) == if n - 1 in gone then less else less + [n - 1]
  {
    assert Indices(n)[..n - 1] == Indices(n - 1);
    var less := Keep<nat>(Indices(n - 1), gone);
    assert less + [] == less;
  }

  lemma {:induction false} KeepOneLess(n: nat, gone: set<nat>, d: nat)
    requires d < n && d !in gone
    ensures |Keep<nat>(Indices(n), gone + {d})| + 1 == |Keep<nat>(Indices(n), gone)|
    ensures Sum(Keep<nat>(Indices(n), gone + {d})) + d == Sum(Keep<nat>(Indices(n), gone))
  {
    hide Keep, Sum;
    KeepIndices(n, gone);
    KeepIndices(n, gone + {d});
    SumMore(Keep<nat>(Indices(n - 1), gone), n - 1);
    SumMore(Keep<nat>(Indices(n - 1), gone + {d}), n - 1);
    if d == n - 1 {
      KeepSame<nat>(Indices(n - 1), gone, gone + {d});
    } else {
      KeepOneLess(n - 1, gone, d);
      assert n - 1 in gone + {d} <==> n - 1 in gone;
    }
  }

  lemma {:induction false} KeepSame<T>(s: seq<T>, gone: set<nat>, more: set<nat>)
    requires forall i | 0 <= i < |s| :: i in gone <==> i in more
    ensures Keep(s, gone) == Keep(s, more)
  {
    if s != [] {
      KeepSame(s[..|s| - 1], gone, more);
    }
  }

  lemma {:induction false} RightOnlyDescending(n: nat, at: seq<nat>)
    requires Distinct(at) && Within(at, n)
    requires var r := RemoveEach<nat>(Indices(n), at); |r| + |at| == n && Sum(r) + Sum(at) == Sum(Indices(n))
    ensures Descending(at)
  {
    hide RemoveAt, Rising, Keep;
    if at != [] {
      var less, d := at[..|at| - 1], at[|at| - 1];
      assert at == less + [d];
      RemovesTooMuch(n, less);
      var before := RemoveEach<nat>(Indices(n), less);
      RemovesMore(before, d);
      RightOnlyDescending(n, less);
      DescendingRemoves<nat>(Indices(n), less);
      forall i | 0 <= i < |less|
        ensures less[i] > d
      {
        if less[i] < d {
          RisingExact(before, d, less[i]);
          KeepHas(n, Elements(less), less[i]);
        }
      }
    }
  }

  lemma {:induction false} KeepHas(n: nat, gone: set<nat>, x: nat)
    ensures x in Keep<nat>(Indices(n), gone) <==> x < n && x !in gone
  {
    hide Keep;
    if n == 0 {
      KeepNothing(gone);
    } else {
      KeepIndices(n, gone);
      KeepHas(n - 1, gone, x);
    }
  }

  /** Deleting by the original numbers takes out the right elements exactly when it goes from the highest
      number down. */
  lemma RemovesRight(n: nat, at: seq<nat>)
    requires Distinct(at) && Within(at, n)
    ensures RemoveEach<nat>(Indices(n), at) == Keep<nat>(Indices(n), Elements(at)) <==> Descending(at)
  {
    if Descending(at) {
      DescendingRemoves<nat>(Indices(n), at);
    }
    if RemoveEach<nat>(Indices(n), at) == Keep<nat>(Indices(n), Elements(at)) {
      SumKeep(n, at);
      RightOnlyDescending(n, at);
    }
  }

  /** Rising numbers outside of `gone` are at most those that are kept, and as many only if they are the same. */
  lemma {:induction false} KeepIsMost(n: nat, gone: set<nat>, r: seq<nat>)
    requires Rising(r) && Within(r, n) && forall x | x in r :: x !in gone
    ensures |r| <= |Keep<nat>(Indices(n), gone)|
    ensures |r| == |Keep<nat>(Indices(n), gone)| ==> r == Keep<nat>(Indices(n), gone)
  {
    hide Keep;
    if n == 0 {
      assert r == [];
      KeepNothing(gone);
    } else {
      KeepIndices(n, gone);
      if r != [] && r[|r| - 1] == n - 1 {
        var less := r[..|r| - 1];
        assert r == less + [n - 1];
        KeepIsMost(n - 1, gone, less);
      } else {
        LastIsLargest(r, n);
        KeepIsMost(n - 1, gone, r);
      }
    }
  }

  lemma KeepNothing(gone: set<nat>)
    ensures Keep<nat>(Indices(0), gone) == []
  {
  }

  lemma LastIsLargest(r: seq<nat>, n: nat)
    requires n > 0 && Rising(r) && Within(r, n) && (r == [] || r[|r| - 1] != n - 1)
    ensures Within(r, n - 1)
  {
  }

  lemma {:induction false} RemoveWithin(n: nat, at: seq<nat>)
    ensures Within(RemoveEach<nat>(Indices(n), at), n)
  {
    if at != [] {
      RemoveWithin(n, at[..|at| - 1]);
    }
  }

  /** In any other order some number that should go stays. */
  lemma SomethingStays(n: nat, at: seq<nat>)
    requires Distinct(at) && Within(at, n) && !Descending(at)
    ensures exists d :: d in at && d in RemoveEach<nat>(Indices(n), at)
  {
    hide Keep, RemoveEach, Rising, Sum, Descending;
    var r := RemoveEach<nat>(Indices(n), at);
    if forall d | d in at :: d !in r {
      RemovesTooMuch(n, at);
      RemoveWithin(n, at);
      SumKeep(n, at);
      KeepIsMost(n, Elements(at), r);
      RemovesRight(n, at);
      assert false;
    }
  }

  /** Deleting from any sequence is deleting from its numbers. */
  lemma {:induction false} RemoveByNumber<T>(s: seq<T>, at: seq<nat>)
    ensures var r, x := RemoveEach(s, at), RemoveEach<nat>(Indices(|s|), at);
      |r| == |x| && forall i | 0 <= i < |x| :: x[i] < |s| && r[i] == s[x[i]]
  {
    if at != [] {
      RemoveByNumber(s, at[..|at| - 1]);
    }
  }

  lemma KeepLast<T>(s: seq<T>, gone: set<nat>)
    requires s != []
    ensures var less := Keep(s[..|s| - 1], gone);
      Keep(s, gone) == if |s| - 1 in gone then less else less + [s[|s| - 1]]
  {
    var less := Keep(s[..|s| - 1], gone);
    assert less + [] == less;
  }

  lemma {:induction false} KeepByNumber<T>(s: seq<T>, gone: set<nat>)
    ensures var r, x := Keep(s, gone), Keep<nat>(Indices(|s|), gone);
      |r| == |x| && forall i | 0 <= i < |x| :: x[i] < |s| && r[i] == s[x[i]]
  {
    if s == [] {
      KeepNothing(gone);
    } else {
      hide Keep, Indices;
      var less := s[..|s| - 1];
      KeepByNumber(less, gone);
      KeepLast(s, gone);
      KeepIndices(|s|, gone);
    }
  }

  /** The numbers that are really taken out. */
  function TakenOut(n: nat, at: seq<nat>): set<nat> {
    set i | 0 <= i < n && i !in RemoveEach<nat>(Indices(n), at)
  }

  lemma {:induction false} RisingIsKept(n: nat, r: seq<nat>, gone: set<nat>)
    requires Rising(r) && Within(r, n) && forall x | 0 <= x < n :: x in gone <==> x !in r
    ensures Keep<nat>(Indices(n), gone) == r
  {
    hide Keep;
    if n == 0 {
      assert r == [];
      KeepNothing(gone);
    } else {
      KeepIndices(n, gone);
      if r != [] && r[|r| - 1] == n - 1 {
        var less := r[..|r| - 1];
        assert r == less + [n - 1];
        RisingIsKept(n - 1, less, gone);
      } else {
        LastIsLargest(r, n);
        RisingIsKept(n - 1, r, gone);
      }
    }
  }

  /** Whatever the order, deleting is leaving out the elements with these numbers. */
  lemma RemovesTaken<T>(s: seq<T>, at: seq<nat>)
    ensures RemoveEach(s, at) == Keep(s, TakenOut(|s|, at))
  {
    hide RemoveEach, Keep;
    var n := |s|;
    RemovesTooMuch(n, at);
    RemoveWithin(n, at);
    RisingIsKept(n, RemoveEach<nat>(Indices(n), at), TakenOut(n, at));
    RemoveByNumber(s, at);
    KeepByNumber(s, TakenOut(n, at));
  }

  // ----- The order that sorting as texts gives

  function Decimal(n: nat): string {
    if n < 10 then [(48 + n) as char] else Decimal(n / 10) + [(48 + n % 10) as char]
  }

  predicate Before(a: string, b: string) {
    if b == "" then false
    else if a == "" then true
    else if a[0] != b[0] then a[0] < b[0]
    else Before(a[1..], b[1..])
  }

  /** Where a number goes among numbers whose texts descend. */
  function Placed(x: nat, s: seq<nat>): seq<nat> {
    if s == [] then [x]
    else if Before(Decimal(x), Decimal(s[0])) then [s[0]] + Placed(x, s[1..])
    else [x] + s
  }

  /** Sorted as texts and reversed. */
  function SortedDown(s: seq<nat>): seq<nat> {
    if s == [] then [] else Placed(s[0], SortedDown(s[1..]))
  }

  predicate TextsDescend(s: seq<nat>) {
    forall i, j | 0 <= i < j < |s| :: !Before(Decimal(s[i]), Decimal(s[j]))
  }

  lemma {:induction false} BeforeIsTotal(a: string, b: string)
    requires a != b
    ensures Before(a, b) != Before(b, a)
  {
    if a != "" && b != "" && a[0] == b[0] {
      assert a == [a[0]] + a[1..] && b == [b[0]] + b[1..];
      BeforeIsTotal(a[1..], b[1..]);
    }
  }

  lemma {:induction false} BeforeChains(a: string, b: string, c: string)
    requires !Before(a, b) && !Before(b, c)
    ensures !Before(a, c)
  {
    if a != "" && b != "" && c != "" && a[0] == b[0] == c[0] {
      BeforeChains(a[1..], b[1..], c[1..]);
    }
  }

  lemma {:induction false} NotBeforeItself(a: string)
    ensures !Before(a, a)
  {
    if a != "" {
      NotBeforeItself(a[1..]);
    }
  }

  lemma {:induction false} DecimalsDiffer(a: nat, b: nat)
    requires a != b
    ensures Decimal(a) != Decimal(b)
  {
    DecimalSize(a);
    DecimalSize(b);
    if a >= 10 && b >= 10 {
      if a / 10 != b / 10 {
        DecimalsDiffer(a / 10, b / 10);
        assert Decimal(a)[..|Decimal(a)| - 1] == Decimal(a / 10) && Decimal(b)[..|Decimal(b)| - 1] == Decimal(b / 10);
      } else {
        assert Decimal(a)[|Decimal(a)| - 1] != Decimal(b)[|Decimal(b)| - 1];
      }
    }
  }

  lemma {:induction false} DecimalSize(n: nat)
    ensures |Decimal(n)| >= 1 && (|Decimal(n)| == 1 <==> n < 10)
  {
    if n >= 10 {
      DecimalSize(n / 10);
    }
  }

  /** Of texts of one length, the first place where they differ decides. */
  lemma {:induction false} BeforeLast(a: string, b: string, x: char, y: char)
    requires |a| == |b|
    ensures Before(a + [x], b + [y]) <==> Before(a, b) || (a == b && x < y)
  {
    if a == "" {
      assert a + [x] == [x] && b + [y] == [y];
    } else {
      assert (a + [x])[1..] == a[1..] + [x] && (b + [y])[1..] == b[1..] + [y];
      assert a == [a[0]] + a[1..] && b == [b[0]] + b[1..];
      BeforeLast(a[1..], b[1..], x, y);
    }
  }

  /** Numbers with equally many digits sort like their texts. */
  lemma {:induction false} SameDigits(a: nat, b: nat)
    requires a < b && |Decimal(a)| == |Decimal(b)|
    ensures Before(Decimal(a), Decimal(b))
  {
    DecimalSize(a);
    DecimalSize(b);
    if b >= 10 {
      BeforeLast(Decimal(a / 10), Decimal(b / 10), (48 + a % 10) as char, (48 + b % 10) as char);
      if a / 10 < b / 10 {
        SameDigits(a / 10, b / 10);
      }
    }
  }

  lemma {:induction false} PlacedIs(x: nat, s: seq<nat>)
    requires TextsDescend(s)
    ensures TextsDescend(Placed(x, s)) && multiset(Placed(x, s)) == multiset(s) + multiset{x}
  {
    hide Before, Decimal;
    if s == [] {
    } else if Before(Decimal(x), Decimal(s[0])) {
      assert TextsDescend(s[1..]);
      PlacedIs(x, s[1..]);
      var r := Placed(x, s[1..]);
      assert s == [s[0]] + s[1..];
      forall j | 0 <= j < |r|
        ensures !Before(Decimal(s[0]), Decimal(r[j]))
      {
        assert r[j] in multiset(r);
        if r[j] == x {
          FirstNotBefore(x, s[0]);
        } else {
          assert r[j] in s[1..];
        }
      }
    } else {
      forall j | 0 <= j < |s|
        ensures !Before(Decimal(x), Decimal(s[j]))
      {
        if j > 0 {
          BeforeChains(Decimal(x), Decimal(s[0]), Decimal(s[j]));
        }
      }
    }
  }

  lemma FirstNotBefore(x: nat, y: nat)
    requires Before(Decimal(x), Decimal(y))
    ensures !Before(Decimal(y), Decimal(x))
  {
    NotBeforeItself(Decimal(x));
    if x != y {
      DecimalsDiffer(x, y);
      BeforeIsTotal(Decimal(x), Decimal(y));
    }
  }

  lemma {:induction false} SortedDownIs(s: seq<nat>)
    ensures TextsDescend(SortedDown(s)) && multiset(SortedDown(s)) == multiset(s)
  {
    if s != [] {
      SortedDownIs(s[1..]);
      PlacedIs(s[0], SortedDown(s[1..]));
      assert s == [s[0]] + s[1..];
    }
  }

  /** Among these numbers a lower one has the lower text. */
  ghost predicate TextsAgree(s: seq<nat>) {
    forall x, y | x in s && y in s && x < y :: Before(Decimal(x), Decimal(y))
  }

  lemma SameElements(a: seq<nat>, b: seq<nat>)
    requires multiset(a) == multiset(b)
    ensures Elements(a) == Elements(b) && forall x :: x in a <==> x in b
  {
    forall x: nat
      ensures x in a <==> x in b
    {
      assert x in a <==> x in multiset(a);
      assert x in b <==> x in multiset(b);
    }
  }

  lemma {:induction false} DistinctOnce(s: seq<nat>)
    ensures Distinct(s) <==> forall x | x in s :: multiset(s)[x] == 1
  {
    if s != [] {
      var less, x := s[..|s| - 1], s[|s| - 1];
      DistinctOnce(less);
      assert s == less + [x];
      assert multiset(s) == multiset(less) + multiset{x};
      if Distinct(s) {
        assert x !in less;
        assert x !in multiset(less);
      } else if Distinct(less) {
        assert x in less;
        assert x in multiset(less) && multiset(s)[x] == multiset(less)[x] + 1;
      } else {
        var y :| y in less && multiset(less)[y] != 1;
        assert y in multiset(less) && y in s;
      }
    }
  }

  lemma SortedDescends(s: seq<nat>)
    requires Distinct(s)
    ensures Distinct(SortedDown(s)) && Elements(SortedDown(s)) == Elements(s)
    ensures Descending(SortedDown(s)) <==> TextsAgree(s)
  {
    hide Before, Decimal, SortedDown;
    var r := SortedDown(s);
    SortedDownIs(s);
    SameElements(r, s);
    DistinctOnce(r);
    DistinctOnce(s);
    if Descending(r) {
      forall x, y | x in s && y in s && x < y
        ensures Before(Decimal(x), Decimal(y))
      {
        var i :| 0 <= i < |r| && r[i] == x;
        var j :| 0 <= j < |r| && r[j] == y;
        assert j < i;
        DecimalsDiffer(x, y);
        BeforeIsTotal(Decimal(x), Decimal(y));
      }
    }
    if TextsAgree(s) {
      forall i, j | 0 <= i < j < |r|
        ensures r[i] > r[j]
      {
        assert r[i] in s && r[j] in s;
      }
    }
  }

  /** Deleting in the order of the texts takes out the right lines exactly when, among the lines to delete, a
      lower number has the lower text. */
  lemma SortingRemovesRight(n: nat, s: seq<nat>)
    requires Distinct(s) && Within(s, n)
    ensures RemoveEach<nat>(Indices(n), SortedDown(s)) == Keep<nat>(Indices(n), Elements(s)) <==> TextsAgree(s)
  {
    hide Before, Decimal, SortedDown, Keep, RemoveEach;
    SortedDescends(s);
    SortedWithin(n, s);
    RemovesRight(n, SortedDown(s));
  }

  /** That is, exactly then no other lines are taken out. */
  lemma SortingTakesRight(n: nat, s: seq<nat>)
    requires Distinct(s) && Within(s, n)
    ensures TakenOut(n, SortedDown(s)) == Elements(s) <==> TextsAgree(s)
  {
    hide Before, Decimal, SortedDown, Keep, RemoveEach, TextsAgree;
    SortingRemovesRight(n, s);
    RemovesTaken(Indices(n), SortedDown(s));
    forall x: nat
      ensures x in Keep<nat>(Indices(n), Elements(s)) <==> x < n && x !in Elements(s)
    {
      KeepHas(n, Elements(s), x);
    }
  }

  lemma SortedWithin(n: nat, s: seq<nat>)
    requires Within(s, n)
    ensures Within(SortedDown(s), n)
  {
    hide SortedDown;
    SortedDownIs(s);
    SameElements(SortedDown(s), s);
    forall i | 0 <= i < |SortedDown(s)|
      ensures SortedDown(s)[i] < n
    {
      assert SortedDown(s)[i] in s;
    }
  }

  /** Numbers with equally many digits are always safe, and nine and ten never are. */
  lemma EqualDigitsAgree(s: seq<nat>)
    requires forall x, y | x in s && y in s :: |Decimal(x)| == |Decimal(y)|
    ensures TextsAgree(s)
  {
    forall x, y | x in s && y in s && x < y
      ensures Before(Decimal(x), Decimal(y))
    {
      SameDigits(x, y);
    }
  }

  lemma NineAndTen(n: nat)
    requires n > 10
    ensures RemoveEach<nat>(Indices(n), SortedDown([9, 10])) != Keep<nat>(Indices(n), {9, 10})
  {
    hide SortedDown, RemoveEach, Keep;
    var s: seq<nat> := [9, 10];
    SortingRemovesRight(n, s);
    assert Decimal(9) == "9" && Decimal(10) == "10";
    assert !Before("9", "10");
    assert 9 in s && 10 in s;
    assert Elements(s) == {9, 10};
  }
}
