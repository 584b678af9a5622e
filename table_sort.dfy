/** The sort both table components apply to a copy of their rows: the comparator of the
    selected column and direction, with JavaScript's `<` on the cell values, run by a stable
    sort (ECMAScript 2019 requires `Array.prototype.sort` to be stable). */
module TableSort {
  import opened Wrappers
  import opened Sorting
  import opened Text

  datatype Direction = Asc | Desc

  /** The `sortConfig` state: the column and the direction. */
  datatype SortConfig<K> = SortConfig(key: K, direction: Direction)

  /** A cell value: a string, a number, or `undefined` for a missing column. */
  datatype Value = Str(s: string) | Num(n: int) | Undefined

  /** JavaScript's `<` on strings: lexicographic by character, a proper prefix first. */
  predicate StrLess(a: string, b: string)
    decreases |a|
  {
    if a == [] then b != []
    else if b == [] then false
    else if a[0] != b[0] then a[0] < b[0]
    else StrLess(a[1..], b[1..])
  }

  lemma {:induction false} StrLessAsymmetric(a: string, b: string)
    ensures !(StrLess(a, b) && StrLess(b, a))
    decreases |a|
  {
    if a != [] && b != [] && a[0] == b[0] {
      StrLessAsymmetric(a[1..], b[1..]);
    }
  }

  lemma {:induction false} StrLessTrichotomy(a: string, b: string)
    ensures StrLess(a, b) || StrLess(b, a) || a == b
    decreases |a|
  {
    if a != [] && b != [] && a[0] == b[0] {
      StrLessTrichotomy(a[1..], b[1..]);
      if a[1..] == b[1..] {
        assert a == [a[0]] + a[1..] && b == [b[0]] + b[1..];
      }
    }
  }

  lemma {:induction false} StrLessTransitive(a: string, b: string, c: string)
    requires StrLess(a, b) && StrLess(b, c)
    ensures StrLess(a, c)
    decreases |a|
  {
    if a != [] && a[0] == b[0] && b[0] == c[0] {
      StrLessTransitive(a[1..], b[1..], c[1..]);
    }
  }

  /** JavaScript's `x < y` on two cell values of the same kind; `undefined` is never less or
      greater than anything. */
  predicate Less(x: Value, y: Value) {
    match (x, y)
    case (Str(a), Str(b)) => StrLess(a, b)
    case (Num(a), Num(b)) => a < b
    case _ => false
  }

  /** Values of one kind are strictly ordered: never both ways, equal unless one way. */
  lemma LessStrictTotal(x: Value, y: Value)
    requires x.Str? == y.Str? && x.Num? == y.Num?
    ensures !(Less(x, y) && Less(y, x))
    ensures Less(x, y) || Less(y, x) || x == y
  {
    if x.Str? {
      StrLessAsymmetric(x.s, y.s);
      StrLessTrichotomy(x.s, y.s);
    }
  }

  lemma LessTransitive(x: Value, y: Value, z: Value)
    requires Less(x, y) && Less(y, z)
    ensures Less(x, z)
  {
    if x.Str? {
      StrLessTransitive(x.s, y.s, z.s);
    }
  }

  /** The comparator callback: negative when `x` goes first, positive when `y` does. */
  function Compare(x: Value, y: Value, direction: Direction): (r: int)
    ensures r < 0 <==> ((direction.Asc? && Less(x, y)) || (direction.Desc? && !Less(x, y) && Less(y, x)))
    ensures r == 0 <==> !Less(x, y) && !Less(y, x)
  {
    if Less(x, y) then (if direction.Asc? then -1 else 1)
    else if Less(y, x) then (if direction.Asc? then 1 else -1)
    else 0
  }

  /** The sort keeps `x` before `y` when the comparator does not put `y` first. */
  predicate InOrder<R, K>(key: (R, K) -> Value, config: SortConfig<K>, a: R, b: R) {
    Compare(key(a, config.key), key(b, config.key), config.direction) <= 0
  }

  /** `sortedData`: the rows as given without a configuration, else a sorted copy. */
  function SortedData<R, K>(data: seq<R>, config: Option<SortConfig<K>>, key: (R, K) -> Value)
    : (r: seq<R>)
    ensures config.None? ==> r == data
    ensures multiset(r) == multiset(data) && |r| == |data|
  {
    match config
    case None => data
    case Some(c) =>
      var r := InsertionSort(data, (a, b) => InOrder(key, c, a, b));
      assert |r| == |multiset(r)| == |multiset(data)| == |data|;
      r
  }

  /** Every row holds a value of the same kind in column `k`. */
  ghost predicate OneKind<R, K>(data: seq<R>, key: (R, K) -> Value, k: K) {
    forall a, b :: a in data && b in data ==>
      key(a, k).Str? == key(b, k).Str? && key(a, k).Num? == key(b, k).Num?
  }

  /** Sorted in the configured direction: ascending never puts a smaller value after a larger
      one, descending never a larger after a smaller. */
  ghost predicate Ordered<R, K>(r: seq<R>, key: (R, K) -> Value, c: SortConfig<K>) {
    forall i, j :: 0 <= i < j < |r| ==>
      if c.direction.Asc? then !Less(key(r[j], c.key), key(r[i], c.key))
      else !Less(key(r[i], c.key), key(r[j], c.key))
  }

  lemma InOrderPreorder<R, K>(data: seq<R>, key: (R, K) -> Value, c: SortConfig<K>)
    requires OneKind(data, key, c.key)
    ensures TotalPreorderOn(set e | e in data, (a, b) => InOrder(key, c, a, b))
  {
    var le := (a, b) => InOrder(key, c, a, b);
    forall a, b | a in data && b in data
      ensures le(a, b) || le(b, a)
    {
      LessStrictTotal(key(a, c.key), key(b, c.key));
    }
    forall a, b, d | a in data && b in data && d in data && le(a, b) && le(b, d)
      ensures le(a, d)
    {
      var x, y, z := key(a, c.key), key(b, c.key), key(d, c.key);
      LessStrictTotal(x, y);
      LessStrictTotal(y, z);
      LessStrictTotal(x, z);
      if c.direction.Asc? && Less(z, x) {
        if Less(x, y) {
          LessTransitive(z, x, y);
        }
      } else if c.direction.Desc? && Less(x, z) {
        if Less(y, x) {
          LessTransitive(y, x, z);
        }
      }
    }
  }

  /** With a configuration over a column of one kind, the copy is sorted by that column in the
      configured direction (and, by `SortedData`'s contract, holds exactly the same rows). */
  lemma SortedDataOrdered<R, K>(data: seq<R>, c: SortConfig<K>, key: (R, K) -> Value)
    requires OneKind(data, key, c.key)
    ensures Ordered(SortedData(data, Some(c), key), key, c)
  {
    var le := (a, b) => InOrder(key, c, a, b);
    InOrderPreorder(data, key, c);
    InsertionSortSortedOn(data, le, set e | e in data);
    var r := SortedData(data, Some(c), key);
    forall i, j | 0 <= i < j < |r|
      ensures if c.direction.Asc? then !Less(key(r[j], c.key), key(r[i], c.key))
              else !Less(key(r[i], c.key), key(r[j], c.key))
    {
      assert le(r[i], r[j]);
      assert r[i] in multiset(data) && r[j] in multiset(data);
      LessStrictTotal(key(r[i], c.key), key(r[j], c.key));
    }
  }

  /** `handleSort`: the same column again flips the direction, another one starts ascending. */
  function HandleSort<K(==)>(prev: Option<SortConfig<K>>, key: K): (r: SortConfig<K>)
    ensures r.key == key
    ensures prev.Some? && prev.value.key == key ==> r.direction != prev.value.direction
    ensures !(prev.Some? && prev.value.key == key) ==> r.direction.Asc?
  {
    if prev.Some? && prev.value.key == key then
      SortConfig(key, if prev.value.direction.Asc? then Desc else Asc)
    else SortConfig(key, Asc)
  }

  /** Two clicks on the sorted column restore its configuration. */
  lemma HandleSortTwice<K>(c: SortConfig<K>)
    ensures HandleSort(Some(HandleSort(Some(c), c.key)), c.key) == c
  {
  }

  /** A first click on a column sorts ascending, a second descending, a third ascending again. */
  lemma ClickSequence<K>(prev: Option<SortConfig<K>>, key: K)
    requires prev.None? || prev.value.key != key
    ensures HandleSort(prev, key) == SortConfig(key, Asc)
    ensures HandleSort(Some(HandleSort(prev, key)), key) == SortConfig(key, Desc)
    ensures HandleSort(Some(HandleSort(Some(HandleSort(prev, key)), key)), key) == SortConfig(key, Asc)
  {
  }

  /** How a cell renders its value: the text, the number's digits, nothing for `undefined`. */
  function CellText(v: Value): string {
    match v
    case Str(s) => s
    case Num(n) => IntToString(n)
    case Undefined => ""
  }

  /** The text of a blank cell: one non-breaking space. */
  const Blank: string := "\U{00A0}"
}
