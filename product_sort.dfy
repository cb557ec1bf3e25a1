/**
 * The sortable product list (src/components/product-list-with-sort.tsx): the sort field
 * and direction the shopper picks, the values each field sorts by, the comparators, and
 * the sorted copy of the list.
 *
 * The list is sorted with the engine's stable sort. Every comparator here is a total
 * preorder (`ComparatorIsPreorder`), so a stable sort has exactly one possible result
 * (`StableResultUnique`), and the insertion sort `Sort` computes it (`SortStable`,
 * `StableSortIsSort`).
 */
module ProductSort {
  import opened Wrappers
  import opened Json
  import opened Text
  import opened Types

  // ---------------------------------------------------------------- values

  /** The characters `p.replace(/[^0-9.-]+/g, "")` keeps. */
  predicate PriceChar(c: char) { IsDigit(c) || c == '.' || c == '-' }

  function StripPrice(s: string): (r: string)
    ensures |r| <= |s|
    ensures forall i :: 0 <= i < |r| ==> PriceChar(r[i])
    ensures (forall i :: 0 <= i < |s| ==> PriceChar(s[i])) ==> r == s
  {
    if s == [] then []
    else (if PriceChar(s[0]) then [s[0]] else []) + StripPrice(s[1..])
  }

  /** `parsePrice`: a missing or empty price, and one with no number in it, is 0. */
  function ParsePrice(p: Option<string>): (r: int)
    ensures p.None? || p.value == "" ==> r == 0
    ensures p.Some? && ParseFloatPrefix(StripPrice(p.value)).Some? ==> r == ParseFloatPrefix(StripPrice(p.value)).value
    ensures p.Some? && ParseFloatPrefix(StripPrice(p.value)).None? ==> r == 0
  {
    if p.None? || p.value == "" then 0 else ParseFloatPrefix(StripPrice(p.value)).GetOr(0)
  }

  /** Currency symbols and separators around a plain amount are ignored. */
  lemma PriceIgnoresDecoration(prefix: string, d: string)
    requires forall i :: 0 <= i < |prefix| ==> !PriceChar(prefix[i])
    requires d != [] && AllDigits(d)
    ensures ParsePrice(Some(prefix + d)) == DigitsValue(d)
  {
    StripDecoration(prefix, d);
    ParseFloatIgnoresTail(d, []);
    assert d + [] == d;
    assert ParseFloatPrefix(StripPrice(prefix + d)) == Some(DigitsValue(d));
  }

  lemma StripDecoration(prefix: string, d: string)
    requires forall i :: 0 <= i < |prefix| ==> !PriceChar(prefix[i])
    requires AllDigits(d)
    ensures StripPrice(prefix + d) == d
  {
    StripPriceAppend(prefix, d);
    NoPriceChars(prefix);
    assert forall i :: 0 <= i < |d| ==> PriceChar(d[i]);
  }

  lemma {:induction false} StripPriceAppend(a: string, b: string)
    ensures StripPrice(a + b) == StripPrice(a) + StripPrice(b)
    decreases |a|
  {
    if a == [] {
      assert a + b == b;
    } else {
      assert (a + b)[1..] == a[1..] + b;
      StripPriceAppend(a[1..], b);
    }
  }

  lemma {:induction false} NoPriceChars(s: string)
    requires forall i :: 0 <= i < |s| ==> !PriceChar(s[i])
    ensures StripPrice(s) == []
    decreases |s|
  {
    if s != [] {
      NoPriceChars(s[1..]);
    }
  }

  /** The members `getSold` looks at, in order. */
  const SoldKeys := ["sold", "sales", "soldCount", "totalSold", "quantitySold"]

  /** The members `getCreated` looks at, in order. */
  const CreatedKeys := ["createdAt", "created_at", "created", "publishedAt", "date"]

  /** One candidate of `getSold`: a number, or a string `parseFloat` reads. */
  function SoldValue(c: Option<Json>): Option<int> {
    match c
    case Some(JNum(n)) => Some(n)
    case Some(JStr(s)) => ParseFloatPrefix(s)
    case _ => None
  }

  /** The largest time value `new Date(n)` accepts. */
  const MaxTime := 8_640_000_000_000_000

  /**
   * One candidate of `getCreated`: a string the date parser reads, or a number within
   * the range of a date. Date parsing is not modelled; `parseDate` stands for it.
   */
  function CreatedValue(c: Option<Json>, parseDate: string -> Option<int>): Option<int> {
    match c
    case Some(JNum(n)) => if -MaxTime <= n <= MaxTime then Some(n) else None
    case Some(JStr(s)) => parseDate(s)
    case _ => None
  }

  /** The first of `keys` whose member gives a value, read with `value`. */
  function FirstValue(fields: map<string, Json>, keys: seq<string>, value: Option<Json> -> Option<int>): (r: Option<int>)
    ensures r.Some? ==> exists i :: 0 <= i < |keys| && value(Lookup(fields, keys[i])) == r
    ensures r.None? <==> forall i :: 0 <= i < |keys| ==> value(Lookup(fields, keys[i])).None?
    ensures keys != [] && value(Lookup(fields, keys[0])).Some? ==> r == value(Lookup(fields, keys[0]))
  {
    if keys == [] then None
    else
      var v := value(Lookup(fields, keys[0]));
      if v.Some? then v
      else
        var r := FirstValue(fields, keys[1..], value);
        assert forall i :: 1 <= i < |keys| ==> keys[i] == keys[1..][i - 1];
        r
  }

  function Lookup(fields: map<string, Json>, key: string): Option<Json> {
    if key in fields then Some(fields[key]) else None
  }

  function Sold(p: Product): Option<int> {
    FirstValue(p.fields, SoldKeys, SoldValue)
  }

  function Created(p: Product, parseDate: string -> Option<int>): Option<int> {
    FirstValue(p.fields, CreatedKeys, c => CreatedValue(c, parseDate))
  }

  /** A numeric `sold` wins over every other sales member. */
  lemma SoldPrefersSold(p: Product, n: int)
    requires Lookup(p.fields, "sold") == Some(JNum(n))
    ensures Sold(p) == Some(n)
  {
  }

  /** A product with none of the sales members has no sales count. */
  lemma NoSalesMembers(p: Product)
    requires forall k :: k in SoldKeys ==> k !in p.fields
    ensures Sold(p).None?
  {
    forall i | 0 <= i < |SoldKeys|
      ensures SoldValue(Lookup(p.fields, SoldKeys[i])).None?
    {
      assert SoldKeys[i] in SoldKeys;
    }
  }

  // ----------------------------------------------------------- comparators

  datatype Direction = Asc | Desc

  datatype Field = Default | Terbaru | Terlaris | Harga | Nama

  /** The selected field; any other value sorts like the default. */
  function FieldOf(v: string): Field {
    if v == "terbaru" then Terbaru
    else if v == "terlaris" then Terlaris
    else if v == "harga" then Harga
    else if v == "nama" then Nama
    else Default
  }

  /** Code-point order on names, standing in for `localeCompare`: -1, 0 or 1. */
  function StrCompare(a: string, b: string): (r: int)
    ensures -1 <= r <= 1
    ensures r == 0 <==> a == b
  {
    if a == [] && b == [] then 0
    else if a == [] then -1
    else if b == [] then 1
    else if a[0] < b[0] then -1
    else if a[0] > b[0] then 1
    else
      var r := StrCompare(a[1..], b[1..]);
      assert r == 0 ==> a == [a[0]] + a[1..] && b == [b[0]] + b[1..];
      r
  }

  lemma {:induction false} StrCompareFlip(a: string, b: string)
    ensures StrCompare(a, b) == -StrCompare(b, a)
    decreases |a|
  {
    if a != [] && b != [] && a[0] == b[0] {
      StrCompareFlip(a[1..], b[1..]);
    }
  }

  lemma {:induction false} StrCompareTrans(a: string, b: string, c: string)
    requires StrCompare(a, b) <= 0 && StrCompare(b, c) <= 0
    ensures StrCompare(a, c) <= 0
    decreases |a|
  {
    if a != [] && b != [] && c != [] && a[0] == b[0] && b[0] == c[0] {
      StrCompareTrans(a[1..], b[1..], c[1..]);
    }
  }

  /** The comparator of `terbaru` and `terlaris`: missing values after present ones in `asc`, before them in `desc`. */
  function OptCompare(x: Option<int>, y: Option<int>, d: Direction): int {
    if x.None? && y.None? then 0
    else if x.None? then (if d == Asc then 1 else -1)
    else if y.None? then (if d == Asc then -1 else 1)
    else if d == Asc then x.value - y.value else y.value - x.value
  }

  /** `(p.name || "")` */
  function NameKey(p: Product): string {
    if p.name.Some? then p.name.value else ""
  }

  /** The comparator `copy.sort` is given for the field (not used for the default order). */
  function Compare(f: Field, d: Direction, parseDate: string -> Option<int>, a: Product, b: Product): int {
    match f
    case Harga =>
      if d == Asc then ParsePrice(a.price) - ParsePrice(b.price) else ParsePrice(b.price) - ParsePrice(a.price)
    case Nama =>
      if d == Asc then StrCompare(NameKey(a), NameKey(b)) else StrCompare(NameKey(b), NameKey(a))
    case Terbaru => OptCompare(Created(a, parseDate), Created(b, parseDate), d)
    case Terlaris => OptCompare(Sold(a), Sold(b), d)
    case Default => 0
  }

  /** Every comparator is antisymmetric: swapping the arguments flips the sign. */
  lemma CompareFlip(f: Field, d: Direction, parseDate: string -> Option<int>, a: Product, b: Product)
    ensures Compare(f, d, parseDate, a, b) == -Compare(f, d, parseDate, b, a)
  {
    if f == Nama {
      StrCompareFlip(NameKey(a), NameKey(b));
    }
  }

  /** Every comparator is transitive. */
  lemma CompareTrans(f: Field, d: Direction, parseDate: string -> Option<int>, a: Product, b: Product, c: Product)
    requires Compare(f, d, parseDate, a, b) <= 0 && Compare(f, d, parseDate, b, c) <= 0
    ensures Compare(f, d, parseDate, a, c) <= 0
  {
    if f == Nama {
      if d == Asc {
        StrCompareTrans(NameKey(a), NameKey(b), NameKey(c));
      } else {
        StrCompareTrans(NameKey(c), NameKey(b), NameKey(a));
      }
    }
  }

  // ----------------------------------------------------------------- sort

  /** A comparator as `Array.prototype.sort` takes one: negative, zero or positive. */
  type Comparator = (Product, Product) -> int

  /** Antisymmetric and transitive: what a comparator must be for the sort to be well defined. */
  ghost predicate TotalPreorder(cmp: Comparator) {
    && (forall a, b :: cmp(a, b) == -cmp(b, a))
    && (forall a, b, c {:trigger cmp(a, b), cmp(b, c)} :: cmp(a, b) <= 0 && cmp(b, c) <= 0 ==> cmp(a, c) <= 0)
  }

  /** The comparator `copy.sort` is given for a field and direction. */
  function ComparatorOf(f: Field, d: Direction, parseDate: string -> Option<int>): (cmp: Comparator)
    ensures forall a, b :: cmp(a, b) == Compare(f, d, parseDate, a, b)
  {
    (a, b) => Compare(f, d, parseDate, a, b)
  }

  /** Every field's comparator, in either direction, is a total preorder. */
  lemma ComparatorIsPreorder(f: Field, d: Direction, parseDate: string -> Option<int>)
    ensures TotalPreorder(ComparatorOf(f, d, parseDate))
  {
    var cmp := ComparatorOf(f, d, parseDate);
    forall a, b ensures cmp(a, b) == -cmp(b, a) {
      CompareFlip(f, d, parseDate, a, b);
    }
    forall a, b, c | cmp(a, b) <= 0 && cmp(b, c) <= 0 ensures cmp(a, c) <= 0 {
      CompareTrans(f, d, parseDate, a, b, c);
    }
  }

  /** The sort order every adjacent and non-adjacent pair respects. */
  predicate Sorted(s: seq<Product>, cmp: Comparator) {
    forall i, j :: 0 <= i < j < |s| ==> cmp(s[i], s[j]) <= 0
  }

  /** Places `x` after every element that does not compare above it (so ties keep their order). */
  function Insert(s: seq<Product>, x: Product, cmp: Comparator): (r: seq<Product>)
    ensures multiset(r) == multiset(s) + multiset{x}
  {
    if s == [] then [x]
    else if cmp(x, s[0]) < 0 then [x] + s
    else
      assert s == [s[0]] + s[1..];
      [s[0]] + Insert(s[1..], x, cmp)
  }

  lemma {:induction false} InsertSorted(s: seq<Product>, x: Product, cmp: Comparator)
    requires TotalPreorder(cmp) && Sorted(s, cmp)
    ensures Sorted(Insert(s, x, cmp), cmp)
    decreases |s|
  {
    if s == [] {
    } else if cmp(x, s[0]) < 0 {
      forall y | y in s
        ensures cmp(x, y) <= 0
      {
        var k :| 0 <= k < |s| && s[k] == y;
        if k > 0 {
          assert cmp(s[0], s[k]) <= 0;
        }
      }
      ConsSorted(x, s, cmp);
    } else {
      var rest := Insert(s[1..], x, cmp);
      SortedTail(s, cmp);
      InsertSorted(s[1..], x, cmp);
      forall y | y in rest
        ensures cmp(s[0], y) <= 0
      {
        InsertElements(s[1..], x, y, cmp);
        if y != x {
          var k :| 0 <= k < |s[1..]| && s[1..][k] == y;
          assert s[k + 1] == y;
        }
      }
      ConsSorted(s[0], rest, cmp);
    }
  }

  /** An element that compares at or below every element of a sorted list can go in front of it. */
  lemma ConsSorted(x: Product, s: seq<Product>, cmp: Comparator)
    requires Sorted(s, cmp)
    requires forall y :: y in s ==> cmp(x, y) <= 0
    ensures Sorted([x] + s, cmp)
  {
    var r := [x] + s;
    forall i, j | 0 <= i < j < |r|
      ensures cmp(r[i], r[j]) <= 0
    {
      assert r[j] == s[j - 1];
      if i == 0 {
        assert s[j - 1] in s;
      } else {
        assert r[i] == s[i - 1];
      }
    }
  }

  lemma SortedTail(s: seq<Product>, cmp: Comparator)
    requires s != [] && Sorted(s, cmp)
    ensures Sorted(s[1..], cmp)
  {
    var t := s[1..];
    forall i, j | 0 <= i < j < |t| ensures cmp(t[i], t[j]) <= 0 {
      assert t[i] == s[i + 1] && t[j] == s[j + 1];
    }
  }

  /** Inserting adds `x` and nothing else. */
  lemma InsertElements(s: seq<Product>, x: Product, y: Product, cmp: Comparator)
    requires y in Insert(s, x, cmp)
    ensures y == x || y in s
  {
    assert y in multiset(Insert(s, x, cmp));
  }

  /** An element that no element of `s` compares above goes at the end. */
  lemma {:induction false} InsertTieAppends(s: seq<Product>, x: Product, cmp: Comparator)
    requires forall i :: 0 <= i < |s| ==> cmp(x, s[i]) >= 0
    ensures Insert(s, x, cmp) == s + [x]
    decreases |s|
  {
    if s != [] {
      InsertTieAppends(s[1..], x, cmp);
      assert s == [s[0]] + s[1..];
    }
  }

  /** Stable insertion sort, one element at a time from the front of the list. */
  function Sort(items: seq<Product>, cmp: Comparator): (r: seq<Product>)
    requires TotalPreorder(cmp)
    ensures multiset(r) == multiset(items)
    ensures Sorted(r, cmp)
  {
    if items == [] then []
    else
      var init, last := items[..|items| - 1], items[|items| - 1];
      assert items == init + [last];
      var r := Sort(init, cmp);
      InsertLast(init, last, r, cmp);
      Insert(r, last, cmp)
  }

  lemma InsertLast(init: seq<Product>, last: Product, r: seq<Product>, cmp: Comparator)
    requires TotalPreorder(cmp) && Sorted(r, cmp) && multiset(r) == multiset(init)
    ensures multiset(Insert(r, last, cmp)) == multiset(init + [last])
    ensures Sorted(Insert(r, last, cmp), cmp)
  {
    InsertSorted(r, last, cmp);
  }

  /** Sorting a list that is already in order leaves it as it is. */
  lemma {:induction false} SortOfSorted(items: seq<Product>, cmp: Comparator)
    requires TotalPreorder(cmp) && Sorted(items, cmp)
    ensures Sort(items, cmp) == items
    decreases |items|
  {
    if items != [] {
      var n := |items| - 1;
      var init := items[..n];
      var last := items[n];
      assert init + [last] == items;
      SortedSplit(init, last, cmp);
      SortOfSorted(init, cmp);
      InsertTieAppends(init, last, cmp);
      assert Sort(items, cmp) == Insert(Sort(init, cmp), last, cmp);
    }
  }

  /** A sorted list without its last element is sorted, and that element is not below any other. */
  lemma SortedSplit(init: seq<Product>, last: Product, cmp: Comparator)
    requires TotalPreorder(cmp) && Sorted(init + [last], cmp)
    ensures Sorted(init, cmp)
    ensures forall i :: 0 <= i < |init| ==> cmp(last, init[i]) >= 0
  {
    var s := init + [last];
    forall i, j | 0 <= i < j < |init|
      ensures cmp(init[i], init[j]) <= 0
    {
      assert s[i] == init[i] && s[j] == init[j];
    }
    forall i | 0 <= i < |init|
      ensures cmp(last, init[i]) >= 0
    {
      assert s[i] == init[i] && s[|init|] == last;
    }
  }

  // ------------------------------------------------------------ stability

  /** The elements of `s` that tie with `x`, in the order `s` has them. */
  function Ties(s: seq<Product>, x: Product, cmp: Comparator): (r: seq<Product>)
    ensures |r| <= |s|
  {
    if s == [] then []
    else (if cmp(s[0], x) == 0 then [s[0]] else []) + Ties(s[1..], x, cmp)
  }

  /** Every element of `Ties(s, x)` is an element of `s` tying with `x`. */
  lemma {:induction false} TiesMembers(s: seq<Product>, x: Product, cmp: Comparator, y: Product)
    requires y in Ties(s, x, cmp)
    ensures y in s && cmp(y, x) == 0
    decreases |s|
  {
    if s[0] != y || cmp(s[0], x) != 0 {
      TiesMembers(s[1..], x, cmp, y);
    }
  }

  lemma {:induction false} TiesAppend(a: seq<Product>, b: seq<Product>, x: Product, cmp: Comparator)
    ensures Ties(a + b, x, cmp) == Ties(a, x, cmp) + Ties(b, x, cmp)
    decreases |a|
  {
    if a == [] {
      assert a + b == b;
    } else {
      assert (a + b)[1..] == a[1..] + b;
      TiesAppend(a[1..], b, x, cmp);
    }
  }

  /** An element strictly below the head of a sorted list ties with nothing in it. */
  lemma BelowHeadTiesNothing(s: seq<Product>, y: Product, x: Product, cmp: Comparator)
    requires TotalPreorder(cmp) && s != [] && Sorted(s, cmp)
    requires cmp(y, s[0]) < 0 && cmp(y, x) == 0
    ensures Ties(s, x, cmp) == []
  {
    forall k | 0 <= k < |s| ensures cmp(s[k], x) != 0 {
      if k > 0 {
        assert cmp(s[0], s[k]) <= 0;
      }
    }
    NoTies(s, x, cmp);
  }

  lemma {:induction false} NoTies(s: seq<Product>, x: Product, cmp: Comparator)
    requires forall k :: 0 <= k < |s| ==> cmp(s[k], x) != 0
    ensures Ties(s, x, cmp) == []
    decreases |s|
  {
    if s != [] {
      NoTies(s[1..], x, cmp);
    }
  }

  /** Inserting into a sorted list puts the new element after every element it ties with. */
  lemma {:induction false} InsertTies(s: seq<Product>, y: Product, x: Product, cmp: Comparator)
    requires TotalPreorder(cmp) && Sorted(s, cmp)
    ensures Ties(Insert(s, y, cmp), x, cmp) == Ties(s, x, cmp) + Ties([y], x, cmp)
    decreases |s|
  {
    if s == [] {
    } else if cmp(y, s[0]) < 0 {
      assert Insert(s, y, cmp) == [y] + s;
      TiesAppend([y], s, x, cmp);
      if cmp(y, x) == 0 {
        BelowHeadTiesNothing(s, y, x, cmp);
      } else {
        assert Ties([y], x, cmp) == [];
      }
    } else {
      var rest := s[1..];
      var inserted := Insert(rest, y, cmp);
      SortedTail(s, cmp);
      InsertTies(rest, y, x, cmp);
      assert Insert(s, y, cmp) == [s[0]] + inserted;
      assert s == [s[0]] + rest;
      TiesConsStep(s[0], rest, inserted, y, x, cmp);
    }
  }

  lemma TiesConsStep(h: Product, rest: seq<Product>, inserted: seq<Product>, y: Product, x: Product, cmp: Comparator)
    requires Ties(inserted, x, cmp) == Ties(rest, x, cmp) + Ties([y], x, cmp)
    ensures Ties([h] + inserted, x, cmp) == Ties([h] + rest, x, cmp) + Ties([y], x, cmp)
  {
    TiesAppend([h], inserted, x, cmp);
    TiesAppend([h], rest, x, cmp);
    var a, t, e := Ties([h], x, cmp), Ties(rest, x, cmp), Ties([y], x, cmp);
    assert a + (t + e) == (a + t) + e;
  }

  /**
   * The sort is stable: for every product, the products tying with it appear in the
   * result in the order they had in the list.
   */
  lemma {:induction false} SortStable(items: seq<Product>, x: Product, cmp: Comparator)
    requires TotalPreorder(cmp)
    ensures Ties(Sort(items, cmp), x, cmp) == Ties(items, x, cmp)
    decreases |items|
  {
    if items != [] {
      var init := items[..|items| - 1];
      var last := items[|items| - 1];
      assert items == init + [last];
      SortStable(init, x, cmp);
      InsertTies(Sort(init, cmp), last, x, cmp);
      TiesAppend(init, [last], x, cmp);
    }
  }

  /**
   * A stable sort has one possible result: two sorted lists with the same elements, in
   * which every product's ties stand in the same order, are the same list.
   */
  lemma {:induction false} StableResultUnique(r1: seq<Product>, r2: seq<Product>, cmp: Comparator)
    requires TotalPreorder(cmp) && Sorted(r1, cmp) && Sorted(r2, cmp)
    requires multiset(r1) == multiset(r2)
    requires forall x :: Ties(r1, x, cmp) == Ties(r2, x, cmp)
    ensures r1 == r2
    decreases |r1|
  {
    if r1 != [] {
      assert |r2| == |multiset(r2)| == |multiset(r1)| == |r1|;
      SameHead(r1, r2, cmp);
      var a, t1, t2 := r1[0], r1[1..], r2[1..];
      assert r1 == [a] + t1 && r2 == [a] + t2;
      SameTailElements(a, t1, t2);
      SameTailTies(a, t1, t2, cmp);
      SortedTail(r1, cmp);
      SortedTail(r2, cmp);
      StableResultUnique(t1, t2, cmp);
    }
  }

  lemma SameTailElements(a: Product, t1: seq<Product>, t2: seq<Product>)
    requires multiset([a] + t1) == multiset([a] + t2)
    ensures multiset(t1) == multiset(t2)
  {
    assert multiset(t1) == multiset([a] + t1) - multiset{a};
    assert multiset(t2) == multiset([a] + t2) - multiset{a};
  }

  /** Both lists start with the same product: the first of the least products' ties. */
  lemma SameHead(r1: seq<Product>, r2: seq<Product>, cmp: Comparator)
    requires TotalPreorder(cmp) && Sorted(r1, cmp) && Sorted(r2, cmp)
    requires r1 != [] && r2 != [] && multiset(r1) == multiset(r2)
    requires Ties(r1, r1[0], cmp) == Ties(r2, r1[0], cmp)
    ensures r1[0] == r2[0]
  {
    var a, b := r1[0], r2[0];
    assert a in multiset(r2) && b in multiset(r1);
    var i :| 0 <= i < |r2| && r2[i] == a;
    var j :| 0 <= j < |r1| && r1[j] == b;
    assert cmp(a, a) == 0 && cmp(b, b) == 0;
    assert cmp(a, b) <= 0 by { if j > 0 { assert cmp(r1[0], r1[j]) <= 0; } }
    assert cmp(b, a) <= 0 by { if i > 0 { assert cmp(r2[0], r2[i]) <= 0; } }
    TiesHead(r1, a, cmp);
    TiesHead(r2, a, cmp);
  }

  lemma TiesHead(s: seq<Product>, x: Product, cmp: Comparator)
    requires s != [] && cmp(s[0], x) == 0
    ensures Ties(s, x, cmp) != [] && Ties(s, x, cmp)[0] == s[0]
  {
  }

  /** Dropping the same first product from both lists keeps every product's ties equal. */
  lemma SameTailTies(a: Product, t1: seq<Product>, t2: seq<Product>, cmp: Comparator)
    requires forall x :: Ties([a] + t1, x, cmp) == Ties([a] + t2, x, cmp)
    ensures forall x :: Ties(t1, x, cmp) == Ties(t2, x, cmp)
  {
    forall x ensures Ties(t1, x, cmp) == Ties(t2, x, cmp) {
      TiesAppend([a], t1, x, cmp);
      TiesAppend([a], t2, x, cmp);
      assert Ties([a] + t1, x, cmp) == Ties([a] + t2, x, cmp);
      var h := Ties([a], x, cmp);
      assert (h + Ties(t1, x, cmp))[|h|..] == Ties(t1, x, cmp);
      assert (h + Ties(t2, x, cmp))[|h|..] == Ties(t2, x, cmp);
    }
  }

  /**
   * Whatever stable sort the engine runs, its result is `Sort`'s: any sorted
   * rearrangement of the list that keeps every product's ties in order is `Sort(items)`.
   */
  lemma StableSortIsSort(r: seq<Product>, items: seq<Product>, cmp: Comparator)
    requires TotalPreorder(cmp) && Sorted(r, cmp) && multiset(r) == multiset(items)
    requires forall x :: Ties(r, x, cmp) == Ties(items, x, cmp)
    ensures r == Sort(items, cmp)
  {
    forall x ensures Ties(r, x, cmp) == Ties(Sort(items, cmp), x, cmp) {
      SortStable(items, x, cmp);
    }
    StableResultUnique(r, Sort(items, cmp), cmp);
  }

  // ------------------------------------------------------- the shown list

  /** `sortedItems`: the default keeps the list's order; every other field sorts a copy. */
  function SortedItems(items: seq<Product>, f: Field, d: Direction, parseDate: string -> Option<int>): (r: seq<Product>)
    ensures multiset(r) == multiset(items)
    ensures f == Default ==> r == items
    ensures f != Default ==> Sorted(r, ComparatorOf(f, d, parseDate))
    ensures forall x :: Ties(r, x, ComparatorOf(f, d, parseDate)) == Ties(items, x, ComparatorOf(f, d, parseDate))
  {
    var cmp := ComparatorOf(f, d, parseDate);
    ComparatorIsPreorder(f, d, parseDate);
    forall x ensures Ties(Sort(items, cmp), x, cmp) == Ties(items, x, cmp) {
      SortStable(items, x, cmp);
    }
    if f == Default then items else Sort(items, cmp)
  }

  /** Sorting twice gives what sorting once gives. */
  lemma SortIdempotent(items: seq<Product>, f: Field, d: Direction, parseDate: string -> Option<int>)
    ensures SortedItems(SortedItems(items, f, d, parseDate), f, d, parseDate) == SortedItems(items, f, d, parseDate)
  {
    if f != Default {
      var cmp := ComparatorOf(f, d, parseDate);
      ComparatorIsPreorder(f, d, parseDate);
      SortOfSorted(Sort(items, cmp), cmp);
    }
  }

  /** Products that all compare equal keep the order they arrived in. */
  lemma TiesKeepOrder(items: seq<Product>, f: Field, d: Direction, parseDate: string -> Option<int>)
    requires forall i, j :: 0 <= i < |items| && 0 <= j < |items| ==> Compare(f, d, parseDate, items[i], items[j]) == 0
    ensures SortedItems(items, f, d, parseDate) == items
  {
    if f != Default {
      var cmp := ComparatorOf(f, d, parseDate);
      ComparatorIsPreorder(f, d, parseDate);
      SortOfSorted(items, cmp);
    }
  }

  /** In a sorted list an element that compares strictly below another stands before it. */
  lemma BelowComesFirst(r: seq<Product>, cmp: Comparator, i: nat, j: nat)
    requires TotalPreorder(cmp) && Sorted(r, cmp) && i < |r| && j < |r|
    requires cmp(r[i], r[j]) < 0
    ensures i < j
  {
    assert cmp(r[j], r[i]) > 0;
  }

  /**
   * For `terlaris`, products without a sales count come after all counted ones in
   * ascending order and before them in descending order.
   */
  lemma MissingSalesPlacement(items: seq<Product>, d: Direction, parseDate: string -> Option<int>, i: nat, j: nat)
    requires var r := SortedItems(items, Terlaris, d, parseDate); i < |r| && j < |r|
    requires var r := SortedItems(items, Terlaris, d, parseDate); Sold(r[i]).Some? && Sold(r[j]).None?
    ensures d == Asc ==> i < j
    ensures d == Desc ==> j < i
  {
    var r := SortedItems(items, Terlaris, d, parseDate);
    var cmp := ComparatorOf(Terlaris, d, parseDate);
    ComparatorIsPreorder(Terlaris, d, parseDate);
    if d == Asc {
      BelowComesFirst(r, cmp, i, j);
    } else {
      BelowComesFirst(r, cmp, j, i);
    }
  }

  /** The same placement of undated products for `terbaru`. */
  lemma MissingDatePlacement(items: seq<Product>, d: Direction, parseDate: string -> Option<int>, i: nat, j: nat)
    requires var r := SortedItems(items, Terbaru, d, parseDate); i < |r| && j < |r|
    requires var r := SortedItems(items, Terbaru, d, parseDate);
      Created(r[i], parseDate).Some? && Created(r[j], parseDate).None?
    ensures d == Asc ==> i < j
    ensures d == Desc ==> j < i
  {
    var r := SortedItems(items, Terbaru, d, parseDate);
    var cmp := ComparatorOf(Terbaru, d, parseDate);
    ComparatorIsPreorder(Terbaru, d, parseDate);
    if d == Asc {
      BelowComesFirst(r, cmp, i, j);
    } else {
      BelowComesFirst(r, cmp, j, i);
    }
  }

  /** Counted products are ordered by their counts in the chosen direction. */
  lemma SalesOrder(items: seq<Product>, d: Direction, parseDate: string -> Option<int>, i: nat, j: nat)
    requires var r := SortedItems(items, Terlaris, d, parseDate); i < j < |r|
    requires var r := SortedItems(items, Terlaris, d, parseDate); Sold(r[i]).Some? && Sold(r[j]).Some?
    ensures var r := SortedItems(items, Terlaris, d, parseDate);
      d == Asc ==> Sold(r[i]).value <= Sold(r[j]).value
    ensures var r := SortedItems(items, Terlaris, d, parseDate);
      d == Desc ==> Sold(r[i]).value >= Sold(r[j]).value
  {
    var r := SortedItems(items, Terlaris, d, parseDate);
    assert ComparatorOf(Terlaris, d, parseDate)(r[i], r[j]) <= 0;
  }

  /** `harga` orders by parsed price, cheapest first in `asc` and dearest first in `desc`. */
  lemma PriceOrder(items: seq<Product>, d: Direction, parseDate: string -> Option<int>, i: nat, j: nat)
    requires i < j < |SortedItems(items, Harga, d, parseDate)|
    ensures var r := SortedItems(items, Harga, d, parseDate);
      d == Asc ==> ParsePrice(r[i].price) <= ParsePrice(r[j].price)
    ensures var r := SortedItems(items, Harga, d, parseDate);
      d == Desc ==> ParsePrice(r[i].price) >= ParsePrice(r[j].price)
  {
    var r := SortedItems(items, Harga, d, parseDate);
    assert ComparatorOf(Harga, d, parseDate)(r[i], r[j]) <= 0;
  }

  // -------------------------------------------------------------- controls

  /** The picked field (as the select reports it) and direction. */
  datatype SortState = SortState(field: string, direction: Direction)

  const InitialSort := SortState("default", Asc)

  /** The direction buttons work only for the four sortable fields. */
  predicate CanToggle(field: string) {
    field == "harga" || field == "nama" || field == "terbaru" || field == "terlaris"
  }

  /** A direction button: takes effect only when the field can be toggled. */
  function PressDirection(s: SortState, d: Direction): (r: SortState)
    ensures r.field == s.field
    ensures CanToggle(s.field) ==> r.direction == d
    ensures !CanToggle(s.field) ==> r == s
  {
    if CanToggle(s.field) then s.(direction := d) else s
  }

  /** Choosing a field keeps the direction. */
  function SelectField(s: SortState, v: string): (r: SortState)
    ensures r.field == v && r.direction == s.direction
  {
    s.(field := v)
  }

  /** The toggleable fields are exactly the ones that sort; the others keep the list's order. */
  lemma CanToggleIffSorting(v: string)
    ensures CanToggle(v) <==> FieldOf(v) != Default
  {
  }
}
