/** The generic table body: a header per column name, capitalised, and one row per data item
    in sorted order with the cells in column order, or ten blank rows when there is no data.
    The sort configuration and the click handler come from the parent. The row type is not
    part of this model; a row is modelled as a map from column name to value, a missing column
    reading as `undefined`. */
module TableComponent {
  import opened Wrappers
  import opened Text
  import opened TableSort

  type Row = map<string, Value>

  /** `row[header]`. */
  function Lookup(row: Row, header: string): (v: Value)
    ensures header in row ==> v == row[header]
    ensures header !in row ==> v.Undefined?
  {
    if header in row then row[header] else Undefined
  }

  /** `header.charAt(0).toUpperCase() + header.slice(1)`. */
  function HeaderLabel(header: string): (shown: string)
    ensures |shown| == |header|
    ensures header != [] ==> shown[0] == UpperChar(header[0]) && shown[1..] == header[1..]
  {
    if header == [] then [] else [UpperChar(header[0])] + header[1..]
  }

  lemma HeaderLabelExamples()
    ensures HeaderLabel("gamemode") == "Gamemode"
    ensures HeaderLabel("score") == "Score"
    ensures HeaderLabel("date") == "Date"
    ensures HeaderLabel("") == ""
  {
  }

  /** One cell per header, in the order of `headers`. */
  function RowCells(row: Row, headers: seq<string>): (cells: seq<string>)
    ensures |cells| == |headers|
    ensures forall j :: 0 <= j < |headers| ==> cells[j] == CellText(Lookup(row, headers[j]))
  {
    seq(|headers|, j requires 0 <= j < |headers| => CellText(Lookup(row, headers[j])))
  }

  /** The body rows. */
  function Body(data: seq<Row>, headers: seq<string>, config: Option<SortConfig<string>>)
    : (rows: seq<seq<string>>)
    ensures |data| > 0 ==> (|rows| == |data| &&
      forall i :: 0 <= i < |data| ==> rows[i] == RowCells(SortedData(data, config, Lookup)[i], headers))
    ensures |data| == 0 ==> (|rows| == 10 &&
      forall i :: 0 <= i < 10 ==> |rows[i]| == |headers| && forall j :: 0 <= j < |headers| ==> rows[i][j] == Blank)
  {
    var sorted := SortedData(data, config, Lookup);
    if |sorted| > 0 then seq(|sorted|, i requires 0 <= i < |sorted| => RowCells(sorted[i], headers))
    else seq(10, _ => seq(|headers|, _ => Blank))
  }

  /** `f` applied to each element, in order. */
  function MapSeq<T, U>(f: T -> U, s: seq<T>): (r: seq<U>)
    ensures |r| == |s|
  {
    seq(|s|, i requires 0 <= i < |s| => f(s[i]))
  }

  /** Taking out the element at `k` leaves the rest of the multiset. */
  lemma RemoveAt<T>(t: seq<T>, k: nat)
    requires k < |t|
    ensures multiset(t) == multiset{t[k]} + multiset(t[..k] + t[k + 1..])
  {
    assert t == t[..k] + [t[k]] + t[k + 1..];
  }

  /** One element taken from both sides of an equality of multisets leaves them equal. */
  lemma Cancel<T>(x: T, a: multiset<T>, b: multiset<T>)
    requires multiset{x} + a == multiset{x} + b
    ensures a == b
  {
    forall y
      ensures a[y] == b[y]
    {
      assert (multiset{x} + a)[y] == (multiset{x} + b)[y];
    }
  }

  /** Mapping a list with the element at `k` taken out takes out that element's image. */
  lemma MapRemoveAt<T, U>(f: T -> U, t: seq<T>, k: nat)
    requires k < |t|
    ensures multiset(MapSeq(f, t)) == multiset{f(t[k])} + multiset(MapSeq(f, t[..k] + t[k + 1..]))
  {
    var front, back := t[..k], t[k + 1..];
    var m, mf, mb := MapSeq(f, t), MapSeq(f, front), MapSeq(f, back);
    assert m == mf + [f(t[k])] + mb;
    assert MapSeq(f, front + back) == mf + mb;
  }

  /** The first element of a non-empty list sits somewhere in any permutation of it, and the
      rests are permutations of each other. */
  lemma PickFirst<T>(s: seq<T>, t: seq<T>) returns (k: nat)
    requires s != [] && multiset(s) == multiset(t)
    ensures k < |t| && t[k] == s[0] && multiset(s[1..]) == multiset(t[..k] + t[k + 1..])
  {
    assert s[0] in multiset(t);
    k :| 0 <= k < |t| && t[k] == s[0];
    RemoveAt(t, k);
    RemoveAt(s, 0);
    assert s[..0] + s[1..] == s[1..];
    Cancel(s[0], multiset(s[1..]), multiset(t[..k] + t[k + 1..]));
  }

  /** Mapping two permutations of one list gives two permutations of one list. */
  lemma {:induction false} MapOfPermutation<T, U>(f: T -> U, s: seq<T>, t: seq<T>)
    requires multiset(s) == multiset(t)
    ensures multiset(MapSeq(f, s)) == multiset(MapSeq(f, t))
    decreases |s|
  {
    if s == [] {
      assert |t| == |multiset(t)| == 0;
    } else {
      var k := PickFirst(s, t);
      MapOfPermutation(f, s[1..], t[..k] + t[k + 1..]);
      MapRemoveAt(f, t, k);
      MapRemoveAt(f, s, 0);
      assert s[..0] + s[1..] == s[1..];
    }
  }

  /** The cells of a list of rows, row by row. */
  function Cells(rows: seq<Row>, headers: seq<string>): (r: seq<seq<string>>)
    ensures |r| == |rows| && forall i :: 0 <= i < |rows| ==> r[i] == RowCells(rows[i], headers)
  {
    MapSeq(row => RowCells(row, headers), rows)
  }

  /** Every data row appears in the body exactly as often as in the data. */
  lemma BodyShowsEachRow(data: seq<Row>, headers: seq<string>, config: Option<SortConfig<string>>)
    requires |data| > 0
    ensures multiset(Body(data, headers, config)) == multiset(Cells(data, headers))
  {
    var sorted := SortedData(data, config, Lookup);
    var body, cells := Body(data, headers, config), Cells(sorted, headers);
    forall i | 0 <= i < |body|
      ensures body[i] == cells[i]
    {
    }
    assert body == cells;
    MapOfPermutation(row => RowCells(row, headers), sorted, data);
  }

  /** Sorting on a column that every row holds as a string (or every row as a number) orders
      the rows by it. */
  lemma BodySorted(data: seq<Row>, c: SortConfig<string>)
    requires OneKind(data, Lookup, c.key)
    ensures Ordered(SortedData(data, Some(c), Lookup), Lookup, c)
  {
    SortedDataOrdered(data, c, Lookup);
  }
}
