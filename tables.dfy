/** A small model of a pandas DataFrame and of the frame operations the
    normalizers use: column selection, dropping, renaming, assignment,
    row filtering on one column, element-wise arithmetic and
    concatenation. A frame is stored column by column, as pandas stores
    it; every contract is stated through `Get(t, c)`, the values of the
    column labelled `c` from the top row down (`df[c]`). */
module Tables {
  import opened Wrappers
  import opened Text

  /** One cell: missing (NaN/None), text, a number, or a calendar date. */
  datatype Value = Null | Str(text: string) | Num(amount: real) | Date(year: int, month: int, day: int)

  /** One labelled column of a frame, its values listed top to bottom. */
  datatype Column = Column(name: string, values: seq<Value>)

  /** A frame with `height` rows; `columns` lists its columns left to right. */
  datatype Table = Table(height: nat, columns: seq<Column>)

  /** The exceptions a normalizer can raise. */
  datatype Error =
    | MissingColumn(name: string)               // KeyError on a column label
    | ColumnCount(expected: nat, found: nat)    // wrong number of columns
    | NoTotalsRow(column: string)               // IndexError on `.values[0]`
    | TotalsMismatch(column: string)            // the reconciliation check failed
    | NotNumeric(column: string)                // TypeError: arithmetic on text
    | NotInteger(column: string)                // `astype(int)` cannot convert a value
    | NotFloat(column: string)                  // `astype(float)` cannot convert a value
    | MaskWithNA(column: string)                // a `.str.contains` mask on the column has missing values
    | InvalidYearMonth                          // `to_datetime` cannot assemble a date
    | NoHeaderRow                               // IndexError on `iloc[0]` of an empty frame

  predicate WellFormed(t: Table)
  {
    forall k :: 0 <= k < |t.columns| ==> |t.columns[k].values| == t.height
  }

  /** The column labels, left to right (`df.columns`). */
  function Names(cols: seq<Column>): (r: seq<string>)
    ensures |r| == |cols|
    ensures forall k :: 0 <= k < |cols| ==> r[k] == cols[k].name
  {
    if cols == [] then [] else [cols[0].name] + Names(cols[1..])
  }

  function Labels(t: Table): seq<string>
  {
    Names(t.columns)
  }

  /** The values of the first column labelled `c`. */
  function Find(cols: seq<Column>, c: string): (r: Option<seq<Value>>)
    ensures r.Some? <==> c in Names(cols)
  {
    if cols == [] then None
    else if cols[0].name == c then Some(cols[0].values)
    else
      assert Names(cols) == [cols[0].name] + Names(cols[1..]);
      Find(cols[1..], c)
  }

  lemma {:induction false} FindHeight(cols: seq<Column>, c: string, h: nat)
    requires forall k :: 0 <= k < |cols| ==> |cols[k].values| == h
    requires c in Names(cols)
    ensures |Find(cols, c).value| == h
  {
    if cols[0].name != c {
      assert Names(cols) == [cols[0].name] + Names(cols[1..]);
      FindHeight(cols[1..], c, h);
    }
  }

  /** `df[c]` for a label the frame has. */
  function Get(t: Table, c: string): (v: seq<Value>)
    requires c in Labels(t)
    ensures WellFormed(t) ==> |v| == t.height
  {
    if WellFormed(t) then FindHeight(t.columns, c, t.height); Find(t.columns, c).value
    else Find(t.columns, c).value
  }

  /** The value-wise map of a column. */
  function MapValues(f: Value -> Value, v: seq<Value>): (r: seq<Value>)
    ensures |r| == |v|
    ensures forall i :: 0 <= i < |v| ==> r[i] == f(v[i])
  {
    seq(|v|, i requires 0 <= i < |v| => f(v[i]))
  }

  function Repeat(h: nat, v: Value): (r: seq<Value>)
    ensures |r| == h
    ensures forall i :: 0 <= i < h ==> r[i] == v
  {
    seq(h, _ => v)
  }

  // ---------------------------------------------------------------------
  // Selecting columns: df[[n1, n2, ...]]

  function Missing(names: seq<string>, have: seq<string>): (r: seq<string>)
    ensures forall n :: n in r <==> n in names && n !in have
  {
    if names == [] then []
    else (if names[0] in have then [] else [names[0]]) + Missing(names[1..], have)
  }

  function SelectColumns(t: Table, names: seq<string>): (r: seq<Column>)
    requires forall n :: n in names ==> n in Labels(t)
    ensures Names(r) == names
    ensures forall k :: 0 <= k < |r| ==> r[k].values == Get(t, names[k])
  {
    if names == [] then [] else [Column(names[0], Get(t, names[0]))] + SelectColumns(t, names[1..])
  }

  lemma {:induction false} FindSelected(t: Table, names: seq<string>, c: string)
    requires forall n :: n in names ==> n in Labels(t)
    requires c in names
    ensures Find(SelectColumns(t, names), c) == Some(Get(t, c))
  {
    if names[0] != c {
      FindSelected(t, names[1..], c);
    }
  }

  /** `df[names]`: exactly the named columns in the given order, each with
      its values; a name the frame lacks raises a KeyError naming it. */
  function Select(t: Table, names: seq<string>): (r: Result<Table, Error>)
    requires WellFormed(t)
    ensures r.Ok? <==> forall n :: n in names ==> n in Labels(t)
    ensures r.Err? ==> r.error.MissingColumn? && r.error.name in names && r.error.name !in Labels(t)
    ensures r.Ok? ==> WellFormed(r.value) && r.value.height == t.height && Labels(r.value) == names
    ensures r.Ok? ==> forall c :: c in names ==> Get(r.value, c) == Get(t, c)
  {
    var missing := Missing(names, Labels(t));
    if missing != [] then
      assert missing[0] in missing;
      Err(MissingColumn(missing[0]))
    else
      var r := Table(t.height, SelectColumns(t, names));
      assert forall c :: c in names ==> Get(r, c) == Get(t, c) by {
        forall c | c in names ensures Get(r, c) == Get(t, c) { FindSelected(t, names, c); }
      }
      Ok(r)
  }

  // ---------------------------------------------------------------------
  // Dropping columns: df.drop(columns=[...])

  function Without(cols: seq<Column>, names: seq<string>): (r: seq<Column>)
    ensures forall c :: c in Names(r) <==> c in Names(cols) && c !in names
    ensures forall c :: c !in names ==> Find(r, c) == Find(cols, c)
    ensures forall k :: 0 <= k < |r| ==> r[k] in cols
  {
    if cols == [] then []
    else
      assert Names(cols) == [cols[0].name] + Names(cols[1..]);
      var rest := Without(cols[1..], names);
      if cols[0].name in names then rest
      else
        assert Names([cols[0]] + rest) == [cols[0].name] + Names(rest);
        [cols[0]] + rest
  }

  /** Removing in two rounds is removing once. */
  lemma {:induction false} WithoutTwice(cols: seq<Column>, a: seq<string>, b: seq<string>)
    ensures Without(Without(cols, a), b) == Without(cols, a + b)
  {
    if cols != [] {
      WithoutTwice(cols[1..], a, b);
    }
  }

  /** Removing no label keeps every column. */
  lemma {:induction false} WithoutNothing(cols: seq<Column>, names: seq<string>)
    requires forall k :: 0 <= k < |cols| ==> cols[k].name !in names
    ensures Without(cols, names) == cols
  {
    if cols != [] {
      WithoutNothing(cols[1..], names);
    }
  }

  /** Only whether a present label is listed matters. */
  lemma {:induction false} WithoutSameMembers(cols: seq<Column>, a: seq<string>, b: seq<string>)
    requires forall k :: 0 <= k < |cols| ==> (cols[k].name in a <==> cols[k].name in b)
    ensures Without(cols, a) == Without(cols, b)
  {
    if cols != [] {
      WithoutSameMembers(cols[1..], a, b);
    }
  }

  /** Removing columns commutes with a rename that neither sends a listed
      label elsewhere nor sends another label onto a listed one. */
  lemma {:induction false} WithoutRenamed(cols: seq<Column>, pairs: seq<(string, string)>, names: seq<string>)
    requires forall k :: 0 <= k < |cols| ==> (Renamed(pairs, cols[k].name) in names <==> cols[k].name in names)
    ensures Without(RenameColumns(cols, pairs), names) == RenameColumns(Without(cols, names), pairs)
  {
    if cols != [] {
      var c0, rest := cols[0], cols[1..];
      assert cols == [c0] + rest;
      RenameColumnsCons(c0, rest, pairs);
      WithoutRenamed(rest, pairs, names);
      if c0.name !in names {
        RenameColumnsCons(c0, Without(rest, names), pairs);
      }
    }
  }

  lemma RenameColumnsCons(c: Column, cols: seq<Column>, pairs: seq<(string, string)>)
    ensures RenameColumns([c] + cols, pairs) == [Column(Renamed(pairs, c.name), c.values)] + RenameColumns(cols, pairs)
  {
    var l, r := RenameColumns([c] + cols, pairs), [Column(Renamed(pairs, c.name), c.values)] + RenameColumns(cols, pairs);
    assert |l| == |r|;
    forall k | 0 <= k < |l| ensures l[k] == r[k] {
      if k > 0 { assert ([c] + cols)[k] == cols[k - 1]; }
    }
  }

  /** A rename none of whose keys labels a column changes nothing. */
  lemma RenameAbsent(cols: seq<Column>, pairs: seq<(string, string)>)
    requires forall k :: 0 <= k < |cols| ==> Renamed(pairs, cols[k].name) == cols[k].name
    ensures RenameColumns(cols, pairs) == cols
  {
  }

  /** Every column labelled with one of `names` is removed; the others keep
      their values. */
  function DropAll(t: Table, names: seq<string>): (r: Table)
    requires WellFormed(t)
    ensures WellFormed(r) && r.height == t.height
    ensures forall c :: c in Labels(r) <==> c in Labels(t) && c !in names
    ensures forall c :: c in Labels(r) ==> Get(r, c) == Get(t, c)
  {
    Table(t.height, Without(t.columns, names))
  }

  /** `df.drop(columns=names)`: a KeyError when a name is not a column. */
  function Drop(t: Table, names: seq<string>): (r: Result<Table, Error>)
    requires WellFormed(t)
    ensures r.Ok? <==> forall n :: n in names ==> n in Labels(t)
    ensures r.Err? ==> r.error.MissingColumn? && r.error.name in names && r.error.name !in Labels(t)
    ensures r.Ok? ==> r.value == DropAll(t, names)
  {
    var missing := Missing(names, Labels(t));
    if missing != [] then
      assert missing[0] in missing;
      Err(MissingColumn(missing[0]))
    else Ok(DropAll(t, names))
  }

  /** Dropping two columns, stated without the list. */
  lemma DropTwo(t: Table, y: string, m: string)
    requires WellFormed(t)
    ensures Drop(t, [y, m]).Ok? <==> y in Labels(t) && m in Labels(t)
    ensures Drop(t, [y, m]).Err? ==> Drop(t, [y, m]).error.MissingColumn?
    ensures Drop(t, [y, m]).Ok? ==> var r := Drop(t, [y, m]).value;
      WellFormed(r) && r.height == t.height &&
      (forall c :: c in Labels(r) <==> c in Labels(t) && c != y && c != m) &&
      (forall c :: c in Labels(r) ==> Get(r, c) == Get(t, c))
  {
    assert forall n :: n in [y, m] <==> n == y || n == m;
  }

  /** Dropping one column that is present never raises. */
  lemma DropPresent(t: Table, c: string)
    requires WellFormed(t) && c in Labels(t)
    ensures Drop(t, [c]) == Ok(Table(t.height, Without(t.columns, [c])))
  {
  }

  // ---------------------------------------------------------------------
  // Renaming: df.rename(columns={old: new, ...})

  /** The label `c` gets under a rename table; labels that are not keys
      keep their name. */
  function Renamed(pairs: seq<(string, string)>, c: string): string
  {
    if pairs == [] then c else if pairs[0].0 == c then pairs[0].1 else Renamed(pairs[1..], c)
  }

  /** A label is either kept or sent to the new name of one of the pairs. */
  lemma {:induction false} RenamedFrom(pairs: seq<(string, string)>, c: string)
    ensures Renamed(pairs, c) == c || exists j :: 0 <= j < |pairs| && pairs[j] == (c, Renamed(pairs, c))
  {
    if pairs != [] && pairs[0].0 != c {
      RenamedFrom(pairs[1..], c);
      if Renamed(pairs, c) != c {
        var j :| 0 <= j < |pairs[1..]| && pairs[1..][j] == (c, Renamed(pairs, c));
        assert pairs[j + 1] == (c, Renamed(pairs, c));
      }
    }
  }

  /** The first pair whose old name is `c` decides its new name. */
  lemma {:induction false} RenamedFirst(pairs: seq<(string, string)>, j: nat)
    requires j < |pairs| && forall i :: 0 <= i < j ==> pairs[i].0 != pairs[j].0
    ensures Renamed(pairs, pairs[j].0) == pairs[j].1
  {
    if j > 0 {
      RenamedFirst(pairs[1..], j - 1);
    }
  }

  /** A label that is no pair's old name keeps its name. */
  lemma {:induction false} RenamedAbsent(pairs: seq<(string, string)>, c: string)
    requires forall i :: 0 <= i < |pairs| ==> pairs[i].0 != c
    ensures Renamed(pairs, c) == c
  {
    if pairs != [] {
      RenamedAbsent(pairs[1..], c);
    }
  }

  function RenameColumns(cols: seq<Column>, pairs: seq<(string, string)>): (r: seq<Column>)
    ensures |r| == |cols|
    ensures forall k :: 0 <= k < |cols| ==> r[k] == Column(Renamed(pairs, cols[k].name), cols[k].values)
  {
    seq(|cols|, k requires 0 <= k < |cols| => Column(Renamed(pairs, cols[k].name), cols[k].values))
  }

  function Rename(t: Table, pairs: seq<(string, string)>): (r: Table)
    requires WellFormed(t)
    ensures WellFormed(r) && r.height == t.height
    ensures Labels(r) == seq(|t.columns|, k requires 0 <= k < |t.columns| => Renamed(pairs, t.columns[k].name))
  {
    Table(t.height, RenameColumns(t.columns, pairs))
  }

  /** The rename sends no other column of `cols` to the label `c` gets. */
  predicate KeepsApart(cols: seq<Column>, pairs: seq<(string, string)>, c: string)
  {
    forall k :: 0 <= k < |cols| && Renamed(pairs, cols[k].name) == Renamed(pairs, c) ==> cols[k].name == c
  }

  lemma {:induction false} FindRenamed(cols: seq<Column>, pairs: seq<(string, string)>, c: string)
    requires c in Names(cols)
    requires KeepsApart(cols, pairs, c)
    ensures Find(RenameColumns(cols, pairs), Renamed(pairs, c)) == Find(cols, c)
  {
    var rc := RenameColumns(cols, pairs);
    if cols[0].name != c {
      assert Names(cols) == [cols[0].name] + Names(cols[1..]);
      assert rc[1..] == RenameColumns(cols[1..], pairs);
      FindRenamed(cols[1..], pairs, c);
    }
  }

  /** A column keeps its values under its new label, provided the rename
      does not merge it with another column. */
  lemma RenameGet(t: Table, pairs: seq<(string, string)>, c: string)
    requires WellFormed(t) && c in Labels(t)
    requires KeepsApart(t.columns, pairs, c)
    ensures Renamed(pairs, c) in Labels(Rename(t, pairs))
    ensures Get(Rename(t, pairs), Renamed(pairs, c)) == Get(t, c)
  {
    FindRenamed(t.columns, pairs, c);
  }

  /** No two pairs share an old name, and no two share a new name. */
  predicate OneToOne(pairs: seq<(string, string)>)
  {
    forall i, j :: 0 <= i < j < |pairs| ==> pairs[i].0 != pairs[j].0 && pairs[i].1 != pairs[j].1
  }

  /** No two pairs share an old name. */
  predicate OldsApart(pairs: seq<(string, string)>)
  {
    forall i, j :: 0 <= i < j < |pairs| ==> pairs[i].0 != pairs[j].0
  }

  /** A label's length and first character: two labels with different
      keys differ, which is quicker to see than comparing them. */
  function LabelKey(s: string): (int, char)
  {
    (|s|, if s == [] then ' ' else s[0])
  }

  /** No two pairs share a new name. */
  predicate NewsApart(pairs: seq<(string, string)>)
  {
    forall i, j :: 0 <= i < j < |pairs| ==> pairs[i].1 != pairs[j].1
  }

  lemma OneToOneHalves(pairs: seq<(string, string)>)
    ensures OneToOne(pairs) <==> OldsApart(pairs) && NewsApart(pairs)
  {
  }

  /** Under a one-to-one rename, a column listed in the table moves to its
      new label with its values, provided no column had that label yet. */
  lemma RenamePair(t: Table, pairs: seq<(string, string)>, j: nat)
    requires WellFormed(t) && OneToOne(pairs) && j < |pairs|
    requires pairs[j].0 in Labels(t) && pairs[j].1 !in Labels(t)
    ensures pairs[j].1 in Labels(Rename(t, pairs))
    ensures Get(Rename(t, pairs), pairs[j].1) == Get(t, pairs[j].0)
  {
    var c, n := pairs[j].0, pairs[j].1;
    RenamedFirst(pairs, j);
    forall k | 0 <= k < |t.columns| && Renamed(pairs, t.columns[k].name) == Renamed(pairs, c)
      ensures t.columns[k].name == c
    {
      var x := t.columns[k].name;
      assert Labels(t)[k] == x;
      RenamedFrom(pairs, x);
      if Renamed(pairs, x) != x {
        var i :| 0 <= i < |pairs| && pairs[i] == (x, n);
        assert i == j;
      }
    }
    RenameGet(t, pairs, c);
  }

  /** A new name that the renamed table has, and the table did not, came
      from its pair's old name. */
  lemma RenameSource(t: Table, pairs: seq<(string, string)>, j: nat)
    requires WellFormed(t) && OneToOne(pairs) && j < |pairs|
    requires pairs[j].1 in Labels(Rename(t, pairs)) && pairs[j].1 !in Labels(t)
    ensures pairs[j].0 in Labels(t)
  {
    var n := pairs[j].1;
    var k :| 0 <= k < |t.columns| && Labels(Rename(t, pairs))[k] == n;
    var x := t.columns[k].name;
    assert Labels(t)[k] == x;
    RenamedFrom(pairs, x);
    if Renamed(pairs, x) != x {
      var i :| 0 <= i < |pairs| && pairs[i] == (x, n);
      assert i == j;
    }
  }

  /** A label that is neither an old nor a new name of the table keeps its
      column. */
  lemma RenameUntouched(t: Table, pairs: seq<(string, string)>, c: string)
    requires WellFormed(t) && c in Labels(t)
    requires forall j :: 0 <= j < |pairs| ==> pairs[j].0 != c && pairs[j].1 != c
    ensures c in Labels(Rename(t, pairs))
    ensures Get(Rename(t, pairs), c) == Get(t, c)
  {
    RenamedAbsent(pairs, c);
    forall k | 0 <= k < |t.columns| && Renamed(pairs, t.columns[k].name) == Renamed(pairs, c)
      ensures t.columns[k].name == c
    {
      RenamedFrom(pairs, t.columns[k].name);
    }
    RenameGet(t, pairs, c);
  }

  // ---------------------------------------------------------------------
  // Relabelling by position: df.columns = names

  /** A label lookup finds the column at position `k` when no column to
      its left carries the same label. */
  lemma {:induction false} FindAt(cols: seq<Column>, k: nat)
    requires k < |cols| && cols[k].name !in Names(cols[..k])
    ensures Find(cols, cols[k].name) == Some(cols[k].values)
  {
    if k > 0 {
      assert Names(cols[..k]) == [cols[0].name] + Names(cols[..k][1..]);
      assert cols[..k][1..] == cols[1..][..k - 1];
      FindAt(cols[1..], k - 1);
    }
  }

  /** `df.columns = names`: the k-th column gets the k-th name and keeps
      its values; a list of another length raises a ValueError. */
  function Relabel(t: Table, names: seq<string>): (r: Result<Table, Error>)
    requires WellFormed(t)
    ensures r.Err? <==> |t.columns| != |names|
    ensures r.Err? ==> r.error == ColumnCount(|names|, |t.columns|)
    ensures r.Ok? ==> WellFormed(r.value) && r.value.height == t.height && Labels(r.value) == names
    ensures r.Ok? && Distinct(names) ==> forall k :: 0 <= k < |names| ==> Get(r.value, names[k]) == t.columns[k].values
  {
    if |t.columns| != |names| then Err(ColumnCount(|names|, |t.columns|))
    else
      var cols := seq(|names|, k requires 0 <= k < |names| => Column(names[k], t.columns[k].values));
      assert Names(cols) == names;
      forall k | 0 <= k < |names| && Distinct(names) ensures Find(cols, names[k]) == Some(t.columns[k].values) {
        assert Names(cols[..k]) == names[..k];
        FindAt(cols, k);
      }
      Ok(Table(t.height, cols))
  }

  // ---------------------------------------------------------------------
  // Assigning a column: df[c] = values

  function Assign(cols: seq<Column>, c: string, v: seq<Value>): (r: seq<Column>)
    ensures Names(r) == Names(cols)
    ensures c in Names(cols) ==> Find(r, c) == Some(v)
    ensures forall d :: d != c ==> Find(r, d) == Find(cols, d)
    ensures forall k :: 0 <= k < |r| ==> r[k].values == (if cols[k].name == c then v else cols[k].values)
  {
    if cols == [] then []
    else
      var head := if cols[0].name == c then Column(c, v) else cols[0];
      assert Names(cols) == [cols[0].name] + Names(cols[1..]);
      var r := [head] + Assign(cols[1..], c, v);
      assert Names(r) == [head.name] + Names(Assign(cols[1..], c, v));
      r
  }

  /** `df[c] = v`: replaces the values of column `c`, or appends `c` as the
      rightmost column when the frame lacks it; other columns are kept. */
  function SetColumn(t: Table, c: string, v: seq<Value>): (r: Table)
    requires WellFormed(t) && |v| == t.height
    ensures WellFormed(r) && r.height == t.height
    ensures Labels(r) == if c in Labels(t) then Labels(t) else Labels(t) + [c]
    ensures c in Labels(r) && Get(r, c) == v
    ensures forall d :: d in Labels(t) && d != c ==> Get(r, d) == Get(t, d)
  {
    if c in Labels(t) then Table(t.height, Assign(t.columns, c, v))
    else
      var cols := t.columns + [Column(c, v)];
      AppendFind(t.columns, Column(c, v));
      Table(t.height, cols)
  }

  lemma {:induction false} AppendFind(cols: seq<Column>, last: Column)
    requires last.name !in Names(cols)
    ensures Names(cols + [last]) == Names(cols) + [last.name]
    ensures Find(cols + [last], last.name) == Some(last.values)
    ensures forall d :: d != last.name ==> Find(cols + [last], d) == Find(cols, d)
  {
    if cols != [] {
      assert (cols + [last])[1..] == cols[1..] + [last];
      assert Names(cols) == [cols[0].name] + Names(cols[1..]);
      AppendFind(cols[1..], last);
    }
  }

  /** `df[c] = v` for a scalar `v`: every row gets the same value. */
  function SetConstant(t: Table, c: string, v: Value): (r: Table)
    requires WellFormed(t)
    ensures WellFormed(r) && r.height == t.height
    ensures Labels(r) == if c in Labels(t) then Labels(t) else Labels(t) + [c]
    ensures c in Labels(r) && forall i :: 0 <= i < r.height ==> Get(r, c)[i] == v
    ensures forall d :: d in Labels(t) && d != c ==> Get(r, d) == Get(t, d)
  {
    SetColumn(t, c, Repeat(t.height, v))
  }

  /** `df[c] = df[c].<f>`: rewrites every value of an existing column. */
  function MapColumn(t: Table, c: string, f: Value -> Value): (r: Result<Table, Error>)
    requires WellFormed(t)
    ensures r.Ok? <==> c in Labels(t)
    ensures r.Err? ==> r.error == MissingColumn(c)
    ensures r.Ok? ==> WellFormed(r.value) && r.value.height == t.height && Labels(r.value) == Labels(t)
    ensures r.Ok? ==> Get(r.value, c) == MapValues(f, Get(t, c))
    ensures r.Ok? ==> forall d :: d in Labels(t) && d != c ==> Get(r.value, d) == Get(t, d)
  {
    if c !in Labels(t) then Err(MissingColumn(c)) else Ok(SetColumn(t, c, MapValues(f, Get(t, c))))
  }

  // ---------------------------------------------------------------------
  // Keeping the rows whose value in one column passes a test

  /** The entries of `vals` at the positions where `keys` passes `keep`, in
      their original order. */
  function Sift<T>(vals: seq<T>, keys: seq<Value>, keep: Value -> bool): (r: seq<T>)
    requires |vals| == |keys|
    ensures |r| <= |vals|
  {
    if vals == [] then []
    else (if keep(keys[0]) then [vals[0]] else []) + Sift(vals[1..], keys[1..], keep)
  }

  /** How many entries of `keys` pass `keep`. */
  function Count(keys: seq<Value>, keep: Value -> bool): (n: nat)
    ensures n <= |keys|
  {
    if keys == [] then 0 else (if keep(keys[0]) then 1 else 0) + Count(keys[1..], keep)
  }

  lemma {:induction false} SiftLength<T>(vals: seq<T>, keys: seq<Value>, keep: Value -> bool)
    requires |vals| == |keys|
    ensures |Sift(vals, keys, keep)| == Count(keys, keep)
  {
    if vals != [] {
      SiftLength(vals[1..], keys[1..], keep);
    }
  }

  /** Sifting keeps exactly the entries whose key passes the test. */
  lemma {:induction false} SiftKeys(keys: seq<Value>, keep: Value -> bool)
    ensures forall x :: x in Sift(keys, keys, keep) <==> x in keys && keep(x)
  {
    if keys != [] {
      SiftKeys(keys[1..], keep);
    }
  }

  /** Sifting commutes with a value-wise map of the sifted column. */
  lemma {:induction false} SiftMap(f: Value -> Value, vals: seq<Value>, keys: seq<Value>, keep: Value -> bool)
    requires |vals| == |keys|
    ensures Sift(MapValues(f, vals), keys, keep) == MapValues(f, Sift(vals, keys, keep))
  {
    if vals != [] {
      assert MapValues(f, vals)[1..] == MapValues(f, vals[1..]);
      SiftMap(f, vals[1..], keys[1..], keep);
    }
  }

  /** Sifting twice on the same key column is sifting once with both tests. */
  lemma {:induction false} SiftTwice<T>(vals: seq<T>, keys: seq<Value>, p: Value -> bool, q: Value -> bool, both: Value -> bool)
    requires |vals| == |keys|
    requires forall x :: both(x) == (p(x) && q(x))
    ensures |Sift(keys, keys, p)| == |Sift(vals, keys, p)|
    ensures Sift(Sift(vals, keys, p), Sift(keys, keys, p), q) == Sift(vals, keys, both)
  {
    if vals != [] {
      SiftTwice(vals[1..], keys[1..], p, q, both);
      var a, b := Sift(vals[1..], keys[1..], p), Sift(keys[1..], keys[1..], p);
      if p(keys[0]) {
        assert Sift(vals, keys, p) == [vals[0]] + a;
        assert Sift(keys, keys, p) == [keys[0]] + b;
        assert ([vals[0]] + a)[1..] == a && ([keys[0]] + b)[1..] == b;
      } else {
        assert Sift(vals, keys, p) == a;
        assert Sift(keys, keys, p) == b;
      }
    }
  }

  /** Only what the test says about each key matters. */
  lemma {:induction false} SiftSameTest<T>(vals: seq<T>, keys: seq<Value>, p: Value -> bool, q: Value -> bool)
    requires |vals| == |keys|
    requires forall x :: p(x) == q(x)
    ensures Sift(vals, keys, p) == Sift(vals, keys, q)
  {
    if vals != [] {
      SiftSameTest(vals[1..], keys[1..], p, q);
    }
  }

  /** Sifting a concatenation sifts each part: the kept rows stay in order. */
  lemma {:induction false} SiftAppend<T>(a: seq<T>, ka: seq<Value>, b: seq<T>, kb: seq<Value>, keep: Value -> bool)
    requires |a| == |ka| && |b| == |kb|
    ensures Sift(a + b, ka + kb, keep) == Sift(a, ka, keep) + Sift(b, kb, keep)
  {
    if a != [] {
      assert (a + b)[1..] == a[1..] + b;
      assert (ka + kb)[1..] == ka[1..] + kb;
      SiftAppend(a[1..], ka[1..], b, kb, keep);
      var head := if keep(ka[0]) then [a[0]] else [];
      calc {
        Sift(a + b, ka + kb, keep);
        head + Sift(a[1..] + b, ka[1..] + kb, keep);
        head + (Sift(a[1..], ka[1..], keep) + Sift(b, kb, keep));
        (head + Sift(a[1..], ka[1..], keep)) + Sift(b, kb, keep);
        Sift(a, ka, keep) + Sift(b, kb, keep);
      }
    } else {
      assert a + b == b && ka + kb == kb;
    }
  }

  /** When every key passes, nothing is removed. */
  lemma {:induction false} SiftAll<T>(vals: seq<T>, keys: seq<Value>, keep: Value -> bool)
    requires |vals| == |keys|
    requires forall i :: 0 <= i < |keys| ==> keep(keys[i])
    ensures Sift(vals, keys, keep) == vals
  {
    if vals != [] {
      SiftAll(vals[1..], keys[1..], keep);
    }
  }

  function SiftColumns(cols: seq<Column>, keys: seq<Value>, keep: Value -> bool): (r: seq<Column>)
    requires forall k :: 0 <= k < |cols| ==> |cols[k].values| == |keys|
    ensures Names(r) == Names(cols)
    ensures forall k :: 0 <= k < |r| ==> r[k].values == Sift(cols[k].values, keys, keep)
  {
    var r := seq(|cols|, k requires 0 <= k < |cols| => Column(cols[k].name, Sift(cols[k].values, keys, keep)));
    assert Names(r) == Names(cols);
    r
  }

  lemma {:induction false} FindSifted(cols: seq<Column>, keys: seq<Value>, keep: Value -> bool, d: string)
    requires forall k :: 0 <= k < |cols| ==> |cols[k].values| == |keys|
    requires d in Names(cols)
    ensures |Find(cols, d).value| == |keys|
    ensures Find(SiftColumns(cols, keys, keep), d) == Some(Sift(Find(cols, d).value, keys, keep))
  {
    FindHeight(cols, d, |keys|);
    if cols[0].name != d {
      assert Names(cols) == [cols[0].name] + Names(cols[1..]);
      assert SiftColumns(cols, keys, keep)[1..] == SiftColumns(cols[1..], keys, keep);
      FindSifted(cols[1..], keys, keep, d);
    }
  }

  /** The rows at the positions where `keys` passes `keep`, in their
      original order, with every column kept. */
  function Keep(t: Table, keys: seq<Value>, keep: Value -> bool): (r: Table)
    requires WellFormed(t) && |keys| == t.height
    ensures WellFormed(r) && Labels(r) == Labels(t)
    ensures r.height == Count(keys, keep)
    ensures forall d :: d in Labels(t) ==> Get(r, d) == Sift(Get(t, d), keys, keep)
  {
    SiftLength(keys, keys, keep);
    var cols := SiftColumns(t.columns, keys, keep);
    assert forall k :: 0 <= k < |cols| ==> |cols[k].values| == Count(keys, keep) by {
      forall k | 0 <= k < |cols| ensures |cols[k].values| == Count(keys, keep) {
        SiftLength(t.columns[k].values, keys, keep);
      }
    }
    var r := Table(Count(keys, keep), cols);
    assert forall d :: d in Labels(t) ==> Get(r, d) == Sift(Get(t, d), keys, keep) by {
      forall d | d in Labels(t) ensures Get(r, d) == Sift(Get(t, d), keys, keep) {
        FindSifted(t.columns, keys, keep, d);
      }
    }
    r
  }

  /** `df.loc[keep(df[c]), :]`: the rows whose value in column `c` passes
      `keep`, in their original order, with every column kept. */
  function Where(t: Table, c: string, keep: Value -> bool): (r: Result<Table, Error>)
    requires WellFormed(t)
    ensures r.Ok? <==> c in Labels(t)
    ensures r.Err? ==> r.error == MissingColumn(c)
    ensures r.Ok? ==> WellFormed(r.value) && Labels(r.value) == Labels(t)
    ensures r.Ok? ==> r.value.height == Count(Get(t, c), keep)
    ensures r.Ok? ==> forall d :: d in Labels(t) ==> Get(r.value, d) == Sift(Get(t, d), Get(t, c), keep)
  {
    if c !in Labels(t) then Err(MissingColumn(c)) else Ok(Keep(t, Get(t, c), keep))
  }

  // ---------------------------------------------------------------------
  // Positional row slices: df.iloc[lo:hi, :]

  /** A slice bound as Python clamps it to a sequence of length `h`. */
  function Clip(n: nat, h: nat): (r: nat)
    ensures r <= h && (n <= h ==> r == n)
  {
    if n < h then n else h
  }

  function SliceColumns(cols: seq<Column>, a: nat, b: nat): (r: seq<Column>)
    requires a <= b && forall k :: 0 <= k < |cols| ==> b <= |cols[k].values|
    ensures Names(r) == Names(cols)
    ensures forall k :: 0 <= k < |r| ==> r[k].values == cols[k].values[a..b]
  {
    var r := seq(|cols|, k requires 0 <= k < |cols| => Column(cols[k].name, cols[k].values[a..b]));
    assert Names(r) == Names(cols);
    r
  }

  lemma {:induction false} FindSliced(cols: seq<Column>, a: nat, b: nat, h: nat, d: string)
    requires a <= b <= h && forall k :: 0 <= k < |cols| ==> |cols[k].values| == h
    requires d in Names(cols)
    ensures |Find(cols, d).value| == h
    ensures Find(SliceColumns(cols, a, b), d) == Some(Find(cols, d).value[a..b])
  {
    FindHeight(cols, d, h);
    SliceColumnsStep(cols, a, b);
    if cols[0].name != d {
      assert Names(cols) == [cols[0].name] + Names(cols[1..]);
      FindSliced(cols[1..], a, b, h, d);
    }
  }

  lemma SliceColumnsStep(cols: seq<Column>, a: nat, b: nat)
    requires |cols| > 0 && a <= b && forall k :: 0 <= k < |cols| ==> b <= |cols[k].values|
    ensures SliceColumns(cols, a, b)[0] == Column(cols[0].name, cols[0].values[a..b])
    ensures SliceColumns(cols, a, b)[1..] == SliceColumns(cols[1..], a, b)
  {
  }

  /** `df.iloc[lo:hi, :]`: the rows from position `lo` up to but not
      including `hi`, both clamped to the height; every column is kept. */
  function Slice(t: Table, lo: nat, hi: nat): (r: Table)
    requires WellFormed(t)
    ensures WellFormed(r) && Labels(r) == Labels(t)
    ensures var a := Clip(lo, t.height); var b := Clip(hi, t.height);
      r.height == (if a <= b then b - a else 0) &&
      forall d :: d in Labels(t) ==> Get(r, d) == if a <= b then Get(t, d)[a..b] else []
  {
    var a := Clip(lo, t.height);
    var b := if a <= Clip(hi, t.height) then Clip(hi, t.height) else a;
    var r := Table(b - a, SliceColumns(t.columns, a, b));
    assert forall d :: d in Labels(t) ==> Get(r, d) == Get(t, d)[a..b] by {
      forall d | d in Labels(t) ensures Get(r, d) == Get(t, d)[a..b] {
        FindSliced(t.columns, a, b, t.height, d);
      }
    }
    r
  }

  predicate IsPresent(v: Value) { !v.Null? }

  /** `df.dropna(subset=c)`: the rows with a value in column `c`. */
  function DropMissing(t: Table, c: string): (r: Result<Table, Error>)
    requires WellFormed(t)
    ensures r == Where(t, c, IsPresent)
  {
    Where(t, c, IsPresent)
  }

  /** One cell after `fillna(fill)`. */
  function Filled(v: Value, fill: Value): Value
  {
    if v.Null? then fill else v
  }

  /** `df[c].fillna(v)`. */
  function FillMissing(t: Table, c: string, v: Value): (r: Result<Table, Error>)
    requires WellFormed(t)
    ensures r.Ok? <==> c in Labels(t)
    ensures r.Err? ==> r.error == MissingColumn(c)
    ensures r.Ok? ==> WellFormed(r.value) && r.value.height == t.height && Labels(r.value) == Labels(t)
    ensures r.Ok? ==> forall i :: 0 <= i < t.height ==> Get(r.value, c)[i] == Filled(Get(t, c)[i], v)
    ensures r.Ok? ==> forall d :: d in Labels(t) && d != c ==> Get(r.value, d) == Get(t, d)
  {
    MapColumn(t, c, (x: Value) => Filled(x, v))
  }

  // ---------------------------------------------------------------------
  // Element-wise arithmetic on two columns

  /** `a / b` on one pair of cells: text raises a TypeError; a missing
      operand or a zero divisor gives a missing result (NaN or infinity). */
  function DivCell(a: Value, b: Value): (r: Option<Value>)
    ensures r.None? <==> a.Str? || b.Str? || a.Date? || b.Date?
    ensures r.Some? && a.Num? && b.Num? && b.amount != 0.0 ==> r.value == Num(a.amount / b.amount)
    ensures r.Some? && !(a.Num? && b.Num? && b.amount != 0.0) ==> r.value == Null
  {
    if a.Str? || b.Str? || a.Date? || b.Date? then None
    else if a.Num? && b.Num? && b.amount != 0.0 then Some(Num(a.amount / b.amount))
    else Some(Null)
  }

  /** `a - b` on one pair of cells: text raises; a missing operand gives a
      missing result. */
  function SubCell(a: Value, b: Value): (r: Option<Value>)
    ensures r.None? <==> a.Str? || b.Str? || a.Date? || b.Date?
    ensures r.Some? && a.Num? && b.Num? ==> r.value == Num(a.amount - b.amount)
    ensures r.Some? && !(a.Num? && b.Num?) ==> r.value == Null
  {
    if a.Str? || b.Str? || a.Date? || b.Date? then None
    else if a.Num? && b.Num? then Some(Num(a.amount - b.amount))
    else Some(Null)
  }

  /** The cell-wise combination of two equally long columns; the first
      cell pair the operation rejects raises `err`. */
  function Zip(a: seq<Value>, b: seq<Value>, op: (Value, Value) -> Option<Value>, err: Error): (r: Result<seq<Value>, Error>)
    requires |a| == |b|
    ensures r.Ok? <==> forall i :: 0 <= i < |a| ==> op(a[i], b[i]).Some?
    ensures r.Err? ==> r.error == err
    ensures r.Ok? ==> |r.value| == |a| && forall i :: 0 <= i < |a| ==> r.value[i] == op(a[i], b[i]).value
  {
    if a == [] then Ok([])
    else
      var head := op(a[0], b[0]);
      if head.None? then Err(err)
      else
        var rest :- Zip(a[1..], b[1..], op, err);
        Ok([head.value] + rest)
  }

  /** `df[target] = df[x] <op> df[y]`; a cell pair the operation rejects
      raises `err`. */
  function Derive(t: Table, target: string, x: string, y: string, op: (Value, Value) -> Option<Value>, err: Error): (r: Result<Table, Error>)
    requires WellFormed(t)
    ensures x !in Labels(t) ==> r == Err(MissingColumn(x))
    ensures x in Labels(t) && y !in Labels(t) ==> r == Err(MissingColumn(y))
    ensures x in Labels(t) && y in Labels(t) ==>
      (r.Ok? <==> forall i :: 0 <= i < t.height ==> op(Get(t, x)[i], Get(t, y)[i]).Some?)
    ensures r.Err? && x in Labels(t) && y in Labels(t) ==> r.error == err
    ensures r.Ok? ==> x in Labels(t) && y in Labels(t)
    ensures r.Ok? ==> WellFormed(r.value) && r.value.height == t.height
    ensures r.Ok? ==> Labels(r.value) == if target in Labels(t) then Labels(t) else Labels(t) + [target]
    ensures r.Ok? ==> forall i :: 0 <= i < t.height ==>
      op(Get(t, x)[i], Get(t, y)[i]).Some? && Get(r.value, target)[i] == op(Get(t, x)[i], Get(t, y)[i]).value
    ensures r.Ok? ==> forall d :: d in Labels(t) && d != target ==> Get(r.value, d) == Get(t, d)
  {
    if x !in Labels(t) then Err(MissingColumn(x))
    else if y !in Labels(t) then Err(MissingColumn(y))
    else
      var v :- Zip(Get(t, x), Get(t, y), op, err);
      Ok(SetColumn(t, target, v))
  }

  /** A derived column joins the labels and none leaves. */
  lemma DeriveKeeps(t: Table, target: string, x: string, y: string, op: (Value, Value) -> Option<Value>, err: Error, d: string)
    requires WellFormed(t) && Derive(t, target, x, y, op, err).Ok? && (d in Labels(t) || d == target)
    ensures d in Labels(Derive(t, target, x, y, op, err).value)
  {
  }

  /** The cell-wise conversion of a column; the first cell the conversion
      rejects raises `err`. */
  function Checked(v: seq<Value>, f: Value -> Option<Value>, err: Error): (r: Result<seq<Value>, Error>)
    ensures r.Ok? <==> forall i :: 0 <= i < |v| ==> f(v[i]).Some?
    ensures r.Err? ==> r.error == err
    ensures r.Ok? ==> |r.value| == |v| && forall i :: 0 <= i < |v| ==> r.value[i] == f(v[i]).value
  {
    if v == [] then Ok([])
    else
      var head := f(v[0]);
      if head.None? then Err(err)
      else
        var rest :- Checked(v[1..], f, err);
        Ok([head.value] + rest)
  }

  /** `df[c] = df[c].astype(...)`: converts every value of an existing
      column, raising `err` on the first value that does not convert. */
  function Convert(t: Table, c: string, f: Value -> Option<Value>, err: Error): (r: Result<Table, Error>)
    requires WellFormed(t)
    ensures c !in Labels(t) ==> r == Err(MissingColumn(c))
    ensures c in Labels(t) ==> (r.Ok? <==> forall i :: 0 <= i < t.height ==> f(Get(t, c)[i]).Some?)
    ensures r.Err? && c in Labels(t) ==> r.error == err
    ensures r.Ok? ==> WellFormed(r.value) && r.value.height == t.height && Labels(r.value) == Labels(t)
    ensures r.Ok? ==> forall i :: 0 <= i < t.height ==> Get(r.value, c)[i] == f(Get(t, c)[i]).value
    ensures r.Ok? ==> forall d :: d in Labels(t) && d != c ==> Get(r.value, d) == Get(t, d)
  {
    if c !in Labels(t) then Err(MissingColumn(c))
    else
      var v :- Checked(Get(t, c), f, err);
      Ok(SetColumn(t, c, v))
  }

  // ---------------------------------------------------------------------
  // Concatenation: pd.concat([a, b])

  /** The labels of `a` followed by those of `b` that `a` lacks. */
  function Union(a: seq<string>, b: seq<string>): (r: seq<string>)
    ensures forall c :: c in r <==> c in a || c in b
    ensures |r| >= |a| && r[..|a|] == a
    decreases |b|
  {
    if b == [] then a
    else if b[0] in a then Union(a, b[1..])
    else Union(a + [b[0]], b[1..])
  }

  /** The column `c` of a frame, or a missing value on every row when the
      frame lacks it. */
  function Padded(t: Table, c: string): (v: seq<Value>)
    requires WellFormed(t)
    ensures |v| == t.height
  {
    if c in Labels(t) then Get(t, c) else Repeat(t.height, Null)
  }

  function StackColumns(a: Table, b: Table, names: seq<string>): (r: seq<Column>)
    requires WellFormed(a) && WellFormed(b)
    ensures Names(r) == names
    ensures forall k :: 0 <= k < |r| ==> r[k].values == Padded(a, names[k]) + Padded(b, names[k])
  {
    if names == [] then [] else [Column(names[0], Padded(a, names[0]) + Padded(b, names[0]))] + StackColumns(a, b, names[1..])
  }

  lemma {:induction false} FindStacked(a: Table, b: Table, names: seq<string>, c: string)
    requires WellFormed(a) && WellFormed(b)
    requires c in names
    ensures Find(StackColumns(a, b, names), c) == Some(Padded(a, c) + Padded(b, c))
  {
    if names[0] != c {
      FindStacked(a, b, names[1..], c);
    }
  }

  /** `pd.concat([a, b])`: the rows of `a` then those of `b`, over the union
      of their labels; a column one frame lacks is missing on its rows. */
  function Concat(a: Table, b: Table): (r: Table)
    requires WellFormed(a) && WellFormed(b)
    ensures WellFormed(r)
    ensures r.height == a.height + b.height
    ensures Labels(r) == Union(Labels(a), Labels(b))
    ensures forall c :: c in Labels(r) ==> Get(r, c) == Padded(a, c) + Padded(b, c)
  {
    var names := Union(Labels(a), Labels(b));
    var r := Table(a.height + b.height, StackColumns(a, b, names));
    assert forall c :: c in Labels(r) ==> Get(r, c) == Padded(a, c) + Padded(b, c) by {
      forall c | c in Labels(r) ensures Get(r, c) == Padded(a, c) + Padded(b, c) {
        FindStacked(a, b, names, c);
      }
    }
    r
  }

  /** `pd.DataFrame()`. */
  const Empty: Table := Table(0, [])

  /** Concatenating onto the empty frame gives back a frame with distinct
      labels. */
  lemma ConcatOntoEmpty(t: Table)
    requires WellFormed(t) && Distinct(Labels(t))
    ensures Concat(Empty, t).height == t.height
    ensures Labels(Concat(Empty, t)) == Labels(t)
    ensures forall c :: c in Labels(t) ==> Get(Concat(Empty, t), c) == Get(t, c)
  {
    UnionFresh([], Labels(t));
  }

  lemma {:induction false} UnionFresh(a: seq<string>, b: seq<string>)
    requires Distinct(b)
    requires forall c :: c in b ==> c !in a
    ensures Union(a, b) == a + b
    decreases |b|
  {
    if b != [] {
      assert b[0] !in a;
      forall c | c in b[1..] ensures c !in a + [b[0]] {
        var k :| 1 <= k < |b| && b[k] == c;
      }
      UnionFresh(a + [b[0]], b[1..]);
      assert a + [b[0]] + b[1..] == a + b;
    }
  }
}
