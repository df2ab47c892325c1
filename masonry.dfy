/** The column layout of components/MasonryGrid.tsx: the children are dealt
    round-robin into `columns` column lists, child i into column i mod columns. */
module MasonryGrid {

  /** React's `children`: an array of nodes, or one node on its own. */
  datatype Children<T> = Many(items: seq<T>) | One(item: T)

  /** `Array.isArray(children) ? children : [children]`. */
  function Items<T>(children: Children<T>): (items: seq<T>)
    ensures children.One? ==> items == [children.item]
    ensures children.Many? ==> items == children.items
  {
    match children
    case Many(items) => items
    case One(item) => [item]
  }

  /** Column c after dealing `items` into n columns: every item whose index is c mod n,
      in the order dealt. */
  function Column<T>(items: seq<T>, n: nat, c: nat): seq<T>
    requires n >= 1
  {
    if items == [] then []
    else
      var m := |items| - 1;
      Column(items[..m], n, c) + (if m % n == c then [items[m]] else [])
  }

  /** The component's loop: `cols[i % columns].push(child)` for each child in turn. */
  method Distribute<T>(children: Children<T>, columns: nat) returns (cols: array<seq<T>>)
    requires columns >= 1
    ensures fresh(cols)
    ensures cols.Length == columns
    ensures forall c :: 0 <= c < columns ==> cols[c] == Column(Items(children), columns, c)
  {
    var items := Items(children);
    cols := new seq<T>[columns](_ => []);
    var i := 0;
    while i < |items|
      invariant 0 <= i <= |items|
      invariant forall c :: 0 <= c < columns ==> cols[c] == Column(items[..i], columns, c)
    {
      assert items[..i + 1][..i] == items[..i];
      var c := i % columns;
      cols[c] := cols[c] + [items[i]];
      i := i + 1;
    }
    assert items[..i] == items;
  }

  /** A lone child fills the first column and leaves the others empty. */
  lemma SingleChild<T>(child: T, n: nat, c: nat)
    requires n >= 1 && c < n
    ensures Column(Items(One(child)), n, c) == (if c == 0 then [child] else [])
  {
    assert Items(One(child))[..0] == [];
  }

  // ---------------------------------------------------------------------------
  // Arithmetic on the deal

  /** A positive multiple of n is at least n. */
  lemma MulAtLeast(d: int, n: int)
    requires d >= 1 && n >= 0
    ensures d * n >= n
    decreases d
  {
    if d > 1 {
      MulAtLeast(d - 1, n);
      assert d * n == (d - 1) * n + n;
    }
  }

  /** Quotient and remainder are determined by `a == q * n + r` with `0 <= r < n`. */
  lemma DivModUnique(a: int, n: int, q: int, r: int)
    requires n >= 1 && 0 <= r < n && a == q * n + r
    ensures a / n == q && a % n == r
  {
    var q' := a / n;
    var r' := a % n;
    assert a == q' * n + r';
    if q > q' {
      MulAtLeast(q - q', n);
    } else if q < q' {
      MulAtLeast(q' - q, n);
    }
  }

  /** How many of the first `len` indices fall in column c of n. */
  function ColumnLength(len: nat, n: nat, c: nat): nat
    requires n >= 1
  {
    len / n + (if c < len % n then 1 else 0)
  }

  /** Counting one more index adds one to its column only. */
  lemma ColumnLengthStep(m: nat, n: nat, c: nat)
    requires n >= 1 && c < n
    ensures ColumnLength(m + 1, n, c) == ColumnLength(m, n, c) + (if m % n == c then 1 else 0)
  {
    var q := m / n;
    var r := m % n;
    if r + 1 < n {
      DivModUnique(m + 1, n, q, r + 1);
    } else {
      DivModUnique(m + 1, n, q + 1, 0);
    }
  }

  // ---------------------------------------------------------------------------
  // What the deal guarantees

  /** Column c holds as many items as there are indices below |items| congruent to c. */
  lemma {:induction false} ColumnLengthIs<T>(items: seq<T>, n: nat, c: nat)
    requires n >= 1 && c < n
    ensures |Column(items, n, c)| == ColumnLength(|items|, n, c)
  {
    if items != [] {
      ColumnLengthIs(items[..|items| - 1], n, c);
      ColumnLengthStep(|items| - 1, n, c);
    }
  }

  /** Column c holds items c, c + n, c + 2n, … in that order, and nothing else. */
  lemma {:induction false} ColumnContents<T>(items: seq<T>, n: nat, c: nat)
    requires n >= 1 && c < n
    ensures forall j :: 0 <= j < |Column(items, n, c)| ==>
              c + j * n < |items| && Column(items, n, c)[j] == items[c + j * n]
  {
    if items != [] {
      var m := |items| - 1;
      var init := items[..m];
      ColumnContents(init, n, c);
      ColumnLengthIs(init, n, c);
      var col := Column(items, n, c);
      var prev := Column(init, n, c);
      forall j | 0 <= j < |col|
        ensures c + j * n < |items| && col[j] == items[c + j * n]
      {
        if j < |prev| {
          assert col[j] == prev[j];
        } else {
          assert m % n == c && j == |prev|;
          DivModUnique(m, n, m / n, c);
          assert j == m / n;
          assert c + j * n == m;
        }
      }
    }
  }

  /** Before index m, column m mod n has received m / n items. */
  lemma LastIndexCount(m: nat, n: nat)
    requires n >= 1
    ensures ColumnLength(m, n, m % n) == m / n
  {
  }

  /** Item i lands in column i mod n, at position i / n. */
  lemma {:induction false} ItemPlacement<T>(items: seq<T>, n: nat, i: nat)
    requires n >= 1 && i < |items|
    ensures i / n < |Column(items, n, i % n)|
    ensures Column(items, n, i % n)[i / n] == items[i]
  {
    var m := |items| - 1;
    var init := items[..m];
    var c := i % n;
    ColumnLengthIs(init, n, c);
    if i == m {
      LastIndexCount(m, n);
    } else {
      ItemPlacement(init, n, i);
    }
  }

  /** Column lengths differ by at most one, and an earlier column is never shorter. */
  lemma Balanced<T>(items: seq<T>, n: nat, c1: nat, c2: nat)
    requires n >= 1 && c1 <= c2 < n
    ensures |Column(items, n, c2)| <= |Column(items, n, c1)| <= |Column(items, n, c2)| + 1
  {
    ColumnLengthIs(items, n, c1);
    ColumnLengthIs(items, n, c2);
  }

  /** The items of the first k columns, put together. */
  function Dealt<T>(items: seq<T>, n: nat, k: nat): multiset<T>
    requires n >= 1
  {
    if k == 0 then multiset{} else Dealt(items, n, k - 1) + multiset(Column(items, n, k - 1))
  }

  /** The total length of the first k columns. */
  function DealtCount<T>(items: seq<T>, n: nat, k: nat): nat
    requires n >= 1
  {
    if k == 0 then 0 else DealtCount(items, n, k - 1) + |Column(items, n, k - 1)|
  }

  /** The bookkeeping of one deal step: the new item joins the columns before c + 1
      exactly when it joined those before c or column c itself. */
  lemma StepUnion<T>(a: multiset<T>, a0: multiset<T>, b: multiset<T>, b0: multiset<T>,
                     x: multiset<T>, r: int, c: int)
    requires a == a0 + (if r < c then x else multiset{})
    requires b == b0 + (if r == c then x else multiset{})
    ensures a + b == (a0 + b0) + (if r < c + 1 then x else multiset{})
  {
  }

  /** Dealing one more item adds it to the first k columns when its index falls in one. */
  lemma {:induction false} DealtStep<T>(items: seq<T>, n: nat, k: nat)
    requires n >= 1 && items != []
    ensures var m := |items| - 1;
            Dealt(items, n, k) == Dealt(items[..m], n, k) + (if m % n < k then multiset{items[m]} else multiset{})
  {
    var m := |items| - 1;
    var init := items[..m];
    if k > 0 {
      DealtStep(items, n, k - 1);
      var extra := if m % n == k - 1 then [items[m]] else [];
      assert Column(items, n, k - 1) == Column(init, n, k - 1) + extra;
      StepUnion(Dealt(items, n, k - 1), Dealt(init, n, k - 1),
                multiset(Column(items, n, k - 1)), multiset(Column(init, n, k - 1)),
                multiset{items[m]}, m % n, k - 1);
    }
  }

  /** No items, no dealt items. */
  lemma {:induction false} DealtNothing<T>(items: seq<T>, n: nat, k: nat)
    requires n >= 1 && items == []
    ensures Dealt(items, n, k) == multiset{}
  {
    if k > 0 {
      DealtNothing(items, n, k - 1);
    }
  }

  /** Together the n columns hold exactly the items: the same multiset. */
  lemma {:induction false} DealPreservesItems<T>(items: seq<T>, n: nat)
    requires n >= 1
    ensures Dealt(items, n, n) == multiset(items)
  {
    if items == [] {
      DealtNothing(items, n, n);
    } else {
      var m := |items| - 1;
      var init := items[..m];
      DealtStep(items, n, n);
      assert Dealt(items, n, n) == Dealt(init, n, n) + multiset{items[m]};
      DealPreservesItems(init, n);
      assert items == init + [items[m]];
    }
  }

  lemma {:induction false} DealtCountIsSize<T>(items: seq<T>, n: nat, k: nat)
    requires n >= 1
    ensures DealtCount(items, n, k) == |Dealt(items, n, k)|
  {
    if k > 0 {
      DealtCountIsSize(items, n, k - 1);
    }
  }

  /** The column lengths add up to the number of items. */
  lemma TotalCount<T>(items: seq<T>, n: nat)
    requires n >= 1
    ensures DealtCount(items, n, n) == |items|
  {
    DealtCountIsSize(items, n, n);
    DealPreservesItems(items, n);
  }
}
