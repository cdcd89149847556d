/**
 * `preprocessing_data`: parse the `Date` column (in place, on the caller's
 * frame), sort the rows by date, reset the index, drop `Vol.`, strip `%` from
 * `Change %` and `,` from the four price columns, and convert those five
 * columns to floats. Date and float parsing are parameters that may fail.
 */
module Preprocessing {
  import opened Wrappers
  import opened Frames
  import opened Sorting

  // ---------------------------------------------------------------------------
  // `str.replace(c, '')`

  /** s with every occurrence of c removed. */
  function Strip(s: string, c: char): (r: string)
    ensures c !in r && |r| <= |s|
  {
    if s == [] then [] else (if s[0] == c then [] else [s[0]]) + Strip(s[1..], c)
  }

  /** Stripping works piece by piece, so the kept characters stay in their order. */
  lemma {:induction false} StripConcat(a: string, b: string, c: char)
    ensures Strip(a + b, c) == Strip(a, c) + Strip(b, c)
  {
    if a == [] {
      assert a + b == b;
    } else {
      assert (a + b)[0] == a[0];
      assert (a + b)[1..] == a[1..] + b;
      StripConcat(a[1..], b, c);
    }
  }

  /** Every character other than c is kept as often as it occurs. */
  lemma {:induction false} StripCounts(s: string, c: char)
    ensures forall x :: x != c ==> multiset(Strip(s, c))[x] == multiset(s)[x]
  {
    if s != [] {
      StripCounts(s[1..], c);
      assert s == [s[0]] + s[1..];
    }
  }

  /** Stripping changes the text exactly when it holds c. */
  lemma {:induction false} StripUnchanged(s: string, c: char)
    ensures Strip(s, c) == s <==> c !in s
  {
    if s != [] {
      StripUnchanged(s[1..], c);
      if s[0] == c {
        assert c in s;
      } else {
        assert s == [s[0]] + s[1..];
      }
    }
  }

  /** Stripping a second time changes nothing. */
  lemma StripIdempotent(s: string, c: char)
    ensures Strip(Strip(s, c), c) == Strip(s, c)
  {
    StripUnchanged(Strip(s, c), c);
  }

  // ---------------------------------------------------------------------------
  // Cell conversions

  /** `pd.to_datetime` accepts a cell: NaN becomes NaT, a timestamp stays, text
      must parse. */
  predicate DateCellOk(v: Value, parseDate: string -> Option<int>)
  {
    v.NaN? || v.Stamp? || (v.Text? && parseDate(v.text).Some?)
  }

  function ToDatetimeCell(v: Value, parseDate: string -> Option<int>): (r: Value)
    requires DateCellOk(v, parseDate)
    ensures IsDateKey(r)
  {
    if v.Text? then Stamp(parseDate(v.text).value) else v
  }

  /** `pd.to_datetime(column)`: every cell parsed to a date key, or an error. */
  function ToDatetimeColumn(col: seq<Value>, parseDate: string -> Option<int>): (r: Result<seq<Value>, Error>)
    ensures r.Success? <==> forall i :: 0 <= i < |col| ==> DateCellOk(col[i], parseDate)
    ensures r.Failure? ==> r.error == MalformedDate("Date")
    ensures r.Success? ==> |r.value| == |col| && DateKeys(r.value)
                           && forall i :: 0 <= i < |col| ==>
                                (col[i].Text? ==> r.value[i] == Stamp(parseDate(col[i].text).value))
                                && (!col[i].Text? ==> r.value[i] == col[i])
  {
    if forall i :: 0 <= i < |col| ==> DateCellOk(col[i], parseDate) then
      Success(seq(|col|, i requires 0 <= i < |col| => ToDatetimeCell(col[i], parseDate)))
    else Failure(MalformedDate("Date"))
  }

  /** The `.str` accessor needs a column of strings: one with no string at all
      (a float column read from the file) raises; in a column mixing strings and
      other cells those other cells become NaN. */
  predicate StrOk(col: seq<Value>)
  {
    |col| == 0 || exists i :: 0 <= i < |col| && col[i].Text?
  }

  function StrReplaceCell(v: Value, c: char): (r: Value)
    ensures r.Text? || r.NaN?
    ensures r.Text? ==> c !in r.text
  {
    if v.Text? then Text(Strip(v.text, c)) else NaN
  }

  /** `column.str.replace(c, '')`. */
  function StrReplaceColumn(col: seq<Value>, c: char, name: string): (r: Result<seq<Value>, Error>)
    ensures r.Success? <==> StrOk(col)
    ensures r.Failure? ==> r.error == NotText(name)
    ensures r.Success? ==> |r.value| == |col| && forall i :: 0 <= i < |col| ==> r.value[i] == StrReplaceCell(col[i], c)
  {
    if StrOk(col) then Success(seq(|col|, i requires 0 <= i < |col| => StrReplaceCell(col[i], c)))
    else Failure(NotText(name))
  }

  /** `astype(float)` accepts a cell: NaN and numbers stay, text must parse. */
  predicate FloatCellOk(v: Value, parseFloat: string -> Option<real>)
  {
    v.NaN? || v.Num? || (v.Text? && parseFloat(v.text).Some?)
  }

  function AsFloatCell(v: Value, parseFloat: string -> Option<real>): (r: Value)
    requires FloatCellOk(v, parseFloat)
    ensures r.Num? || r.NaN?
  {
    if v.Text? then Num(parseFloat(v.text).value) else v
  }

  /** `column.astype(float)`: one cell that does not parse fails the whole column. */
  function AsFloatColumn(col: seq<Value>, name: string, parseFloat: string -> Option<real>): (r: Result<seq<Value>, Error>)
    ensures r.Success? <==> forall i :: 0 <= i < |col| ==> FloatCellOk(col[i], parseFloat)
    ensures r.Failure? ==> r.error == MalformedNumber(name)
    ensures r.Success? ==> |r.value| == |col| && forall i :: 0 <= i < |col| ==> r.value[i] == AsFloatCell(col[i], parseFloat)
  {
    if forall i :: 0 <= i < |col| ==> FloatCellOk(col[i], parseFloat) then
      Success(seq(|col|, i requires 0 <= i < |col| => AsFloatCell(col[i], parseFloat)))
    else Failure(MalformedNumber(name))
  }

  /** A cell after stripping c and converting to float. */
  predicate CleanCellOk(v: Value, c: char, parseFloat: string -> Option<real>)
  {
    FloatCellOk(StrReplaceCell(v, c), parseFloat)
  }

  function CleanCell(v: Value, c: char, parseFloat: string -> Option<real>): (r: Value)
    requires CleanCellOk(v, c, parseFloat)
    ensures r.Num? || r.NaN?
    ensures v.Text? ==> r == Num(parseFloat(Strip(v.text, c)).value)
    ensures !v.Text? ==> r == NaN
  {
    AsFloatCell(StrReplaceCell(v, c), parseFloat)
  }

  /** A column that can be cleaned of c and converted. */
  predicate ColumnConvertible(col: seq<Value>, c: char, parseFloat: string -> Option<real>)
  {
    StrOk(col) && forall i :: 0 <= i < |col| ==> CleanCellOk(col[i], c, parseFloat)
  }

  /** The cells of a convertible column after cleaning. */
  function CleanedColumn(col: seq<Value>, c: char, parseFloat: string -> Option<real>): (r: seq<Value>)
    requires ColumnConvertible(col, c, parseFloat)
    ensures |r| == |col| && forall i :: 0 <= i < |col| ==> r[i] == CleanCell(col[i], c, parseFloat)
  {
    seq(|col|, i requires 0 <= i < |col| => CleanCell(col[i], c, parseFloat))
  }

  /** Column `name` of t exists and can be cleaned of c and converted. */
  predicate Convertible(t: Table, name: string, c: char, parseFloat: string -> Option<real>)
  {
    name in t.columns && ColumnConvertible(t.columns[name], c, parseFloat)
  }

  // ---------------------------------------------------------------------------
  // The steps of preprocessing_data as functions of the table

  /** Line 107 on its own: the table with its `Date` column parsed. */
  function ParseDates(t: Table, parseDate: string -> Option<int>): (r: Result<Table, Error>)
    requires Aligned(t)
    ensures r.Success? <==> "Date" in t.columns
                            && forall i :: 0 <= i < |t.columns["Date"]| ==> DateCellOk(t.columns["Date"][i], parseDate)
    ensures r.Success? ==> Aligned(r.value) && r.value.index == t.index
                           && r.value.columns.Keys == t.columns.Keys
                           && DateKeys(r.value.columns["Date"])
                           && forall c :: c in t.columns && c != "Date" ==> r.value.columns[c] == t.columns[c]
  {
    if "Date" !in t.columns then Failure(MissingColumn("Date"))
    else
      match ToDatetimeColumn(t.columns["Date"], parseDate)
      case Failure(e) => Failure(e)
      case Success(dates) => Success(Table(t.columns["Date" := dates], t.index))
  }

  /** The cleaned and converted column `name`, or the error the step raises. */
  function Converted(t: Table, name: string, c: char, parseFloat: string -> Option<real>): (r: Result<seq<Value>, Error>)
    requires Aligned(t)
    ensures r.Success? <==> Convertible(t, name, c, parseFloat)
    ensures r.Failure? ==> r.error in {MissingColumn(name), NotText(name), MalformedNumber(name)}
    ensures r.Success? ==> r.value == CleanedColumn(t.columns[name], c, parseFloat)
  {
    if name !in t.columns then Failure(MissingColumn(name))
    else
      match StrReplaceColumn(t.columns[name], c, name)
      case Failure(e) => Failure(e)
      case Success(stripped) => AsFloatColumn(stripped, name, parseFloat)
  }

  /** `df[name] = df[name].str.replace(c, '').astype(float)`. */
  function CleanColumn(t: Table, name: string, c: char, parseFloat: string -> Option<real>): (r: Result<Table, Error>)
    requires Aligned(t)
    ensures r.Success? <==> Convertible(t, name, c, parseFloat)
    ensures r.Success? ==> Aligned(r.value) && r.value.index == t.index
                           && r.value.columns == t.columns[name := CleanedColumn(t.columns[name], c, parseFloat)]
  {
    match Converted(t, name, c, parseFloat)
    case Failure(e) => Failure(e)
    case Success(col) => Success(Table(t.columns[name := col], t.index))
  }

  /** The loop of lines 118-120 over the first |names| names, the last name
      cleaned last. */
  function CleanColumns(t: Table, names: seq<string>, c: char, parseFloat: string -> Option<real>): (r: Result<Table, Error>)
    requires Aligned(t)
    ensures r.Success? ==> Aligned(r.value) && r.value.index == t.index
  {
    if names == [] then Success(t)
    else
      match CleanColumns(t, names[..|names| - 1], c, parseFloat)
      case Failure(e) => Failure(e)
      case Success(u) => CleanColumn(u, names[|names| - 1], c, parseFloat)
  }

  const PRICE_COLUMNS: seq<string> := ["Price", "Open", "High", "Low"]

  /** Lines 107-114: parse the dates, sort by them, reset the index, drop `Vol.`. */
  function Reordered(t: Table, parseDate: string -> Option<int>): (r: Result<Table, Error>)
    requires Aligned(t)
    ensures r.Success? <==> ParseDates(t, parseDate).Success? && "Vol." in t.columns
    ensures r.Success? ==> Aligned(r.value) && r.value.index == RangeIndex(|t.index|)
                           && r.value.columns.Keys == t.columns.Keys - {"Vol."}
  {
    match ParseDates(t, parseDate)
    case Failure(e) => Failure(e)
    case Success(dated) => Drop(ResetIndex(SortValues(dated, "Date")), "Vol.")
  }

  /** `preprocessing_data` as a function of the input table: the table it
      returns, or the exception it raises first. */
  function Normalise(t: Table, parseDate: string -> Option<int>, parseFloat: string -> Option<real>): (r: Result<Table, Error>)
    requires Aligned(t)
    ensures r.Success? ==> Aligned(r.value) && r.value.index == RangeIndex(|t.index|)
  {
    match Reordered(t, parseDate)
    case Failure(e) => Failure(e)
    case Success(dropped) => CleanAll(dropped, parseFloat)
  }

  // ---------------------------------------------------------------------------
  // The imperative function

  /** `preprocessing_data(df)`. The caller's frame gets its parsed `Date` column
      (line 107) and is otherwise left alone; everything after that works on new
      frames, one of which is returned. */
  method Preprocess(df: Frame, parseDate: string -> Option<int>, parseFloat: string -> Option<real>)
    returns (r: Result<Frame, Error>)
    requires df.Valid()
    modifies df
    ensures df.Valid()
    ensures ParseDates(old(df.View()), parseDate).Success? ==> df.View() == ParseDates(old(df.View()), parseDate).value
    ensures ParseDates(old(df.View()), parseDate).Failure? ==> df.View() == old(df.View())
    ensures r.Success? ==> fresh(r.value) && r.value.Valid()
                           && Normalise(old(df.View()), parseDate, parseFloat) == Success(r.value.View())
    ensures r.Failure? ==> Normalise(old(df.View()), parseDate, parseFloat) == Failure(r.error)
  {
    ghost var t0 := df.View();
    if "Date" !in df.columns {
      return Failure(MissingColumn("Date"));
    }
    var dates := ToDatetimeColumn(df.columns["Date"], parseDate);
    if dates.Failure? {
      return Failure(dates.error);
    }
    df.Assign("Date", dates.value);
    assert df.View() == ParseDates(t0, parseDate).value;
    var sorted := new Frame(SortValues(df.View(), "Date"));
    var reset := new Frame(ResetIndex(sorted.View()));
    var dropped := Drop(reset.View(), "Vol.");
    if dropped.Failure? {
      return Failure(dropped.error);
    }
    assert Reordered(t0, parseDate) == dropped;
    var out := new Frame(dropped.value);
    var change := Converted(out.View(), "Change %", '%', parseFloat);
    if change.Failure? {
      return Failure(change.error);
    }
    out.Assign("Change %", change.value);
    ghost var t1 := out.View();
    assert CleanColumn(dropped.value, "Change %", '%', parseFloat) == Success(t1);
    assert Normalise(t0, parseDate, parseFloat) == CleanColumns(t1, PRICE_COLUMNS, ',', parseFloat);
    r := CleanPrices(out, parseFloat);
  }

  /** The loop of lines 118-120 on the frame being built. */
  method CleanPrices(out: Frame, parseFloat: string -> Option<real>) returns (r: Result<Frame, Error>)
    requires out.Valid()
    modifies out
    ensures out.Valid()
    ensures r.Success? ==> r.value == out
                           && CleanColumns(old(out.View()), PRICE_COLUMNS, ',', parseFloat) == Success(out.View())
    ensures r.Failure? ==> CleanColumns(old(out.View()), PRICE_COLUMNS, ',', parseFloat) == Failure(r.error)
  {
    ghost var t1 := out.View();
    var names := PRICE_COLUMNS;
    for k := 0 to |names|
      invariant out.Valid()
      invariant CleanColumns(t1, names[..k], ',', parseFloat) == Success(out.View())
    {
      ghost var v := out.View();
      var column := Converted(out.View(), names[k], ',', parseFloat);
      CleanColumnsStep(t1, names, k, ',', parseFloat);
      if column.Failure? {
        FailurePersists(t1, names, k + 1, ',', parseFloat);
        return Failure(column.error);
      }
      out.Assign(names[k], column.value);
      assert out.View() == CleanColumn(v, names[k], ',', parseFloat).value;
    }
    assert names[..|names|] == names;
    r := Success(out);
  }

  /** One more turn of the loop cleans one more column. */
  lemma CleanColumnsStep(t: Table, names: seq<string>, k: nat, c: char, parseFloat: string -> Option<real>)
    requires Aligned(t) && k < |names| && CleanColumns(t, names[..k], c, parseFloat).Success?
    ensures CleanColumns(t, names[..k + 1], c, parseFloat)
            == CleanColumn(CleanColumns(t, names[..k], c, parseFloat).value, names[k], c, parseFloat)
  {
    assert names[..k + 1][..k] == names[..k];
  }

  /** Once the loop has failed, later columns do not change the outcome. */
  lemma {:induction false} FailurePersists(t: Table, names: seq<string>, k: nat, c: char, parseFloat: string -> Option<real>)
    requires Aligned(t) && k <= |names| && CleanColumns(t, names[..k], c, parseFloat).Failure?
    ensures CleanColumns(t, names, c, parseFloat) == CleanColumns(t, names[..k], c, parseFloat)
    decreases |names| - k
  {
    if k < |names| {
      assert names[..k + 1][..k] == names[..k];
      FailurePersists(t, names, k + 1, c, parseFloat);
    } else {
      assert names[..k] == names;
    }
  }

  // ---------------------------------------------------------------------------
  // Lemmas about preprocessing_data

  /** A permutation of the row positions reaches every row. */
  lemma PermutationCovers(p: seq<nat>, n: nat)
    requires |p| == n && IsPermutation(p, n)
    ensures Positions(p, n)
    ensures forall i :: 0 <= i < n ==> i in p
  {
    forall j | 0 <= j < n
      ensures p[j] < n
    {
      assert p[j] in multiset(RangeIndex(n));
      var k :| 0 <= k < n && RangeIndex(n)[k] == p[j];
    }
    forall i | 0 <= i < n
      ensures i in p
    {
      assert RangeIndex(n)[i] == i;
      assert i in multiset(p);
    }
  }

  /** A property holds for every cell, or for some cell, of a column exactly
      when it does after the rows are permuted. */
  lemma PermutePreserves(s: seq<Value>, p: seq<nat>, P: Value -> bool)
    requires |p| == |s| && IsPermutation(p, |s|)
    ensures Positions(p, |s|)
    ensures (forall i :: 0 <= i < |s| ==> P(s[i])) <==> (forall j :: 0 <= j < |p| ==> P(Permute(s, p)[j]))
    ensures (exists i :: 0 <= i < |s| && P(s[i])) <==> (exists j :: 0 <= j < |p| && P(Permute(s, p)[j]))
  {
    PermutationCovers(p, |s|);
    if forall j :: 0 <= j < |p| ==> P(Permute(s, p)[j]) {
      forall i | 0 <= i < |s|
        ensures P(s[i])
      {
        assert i in p;
        var j :| 0 <= j < |s| && p[j] == i;
        assert Permute(s, p)[j] == s[i];
      }
    }
    if exists i :: 0 <= i < |s| && P(s[i]) {
      var i :| 0 <= i < |s| && P(s[i]);
      assert i in p;
      var j :| 0 <= j < |s| && p[j] == i;
      assert Permute(s, p)[j] == s[i];
    }
  }

  /** Whether a column can be cleaned does not depend on the order of its rows. */
  lemma ConvertiblePermuted(col: seq<Value>, p: seq<nat>, c: char, parseFloat: string -> Option<real>)
    requires |p| == |col| && IsPermutation(p, |col|)
    ensures Positions(p, |col|)
    ensures ColumnConvertible(col, c, parseFloat) <==> ColumnConvertible(Permute(col, p), c, parseFloat)
  {
    PermutePreserves(col, p, (v: Value) => v.Text?);
    PermutePreserves(col, p, (v: Value) => CleanCellOk(v, c, parseFloat));
  }

  predicate Distinct(names: seq<string>)
  {
    forall i, j :: 0 <= i < j < |names| ==> names[i] != names[j]
  }

  /** The loop over distinct column names succeeds exactly when every named
      column exists and can be cleaned. */
  lemma {:induction false} CleanColumnsSucceeds(t: Table, names: seq<string>, c: char, parseFloat: string -> Option<real>)
    requires Aligned(t) && Distinct(names)
    ensures CleanColumns(t, names, c, parseFloat).Success?
            <==> forall k :: 0 <= k < |names| ==> Convertible(t, names[k], c, parseFloat)
  {
    if names != [] {
      var init := names[..|names| - 1];
      var last := names[|names| - 1];
      assert Distinct(init);
      CleanColumnsSucceeds(t, init, c, parseFloat);
      assert forall k :: 0 <= k < |init| ==> names[k] == init[k];
      var before := CleanColumns(t, init, c, parseFloat);
      if before.Success? {
        CleanColumnsResult(t, init, c, parseFloat);
        assert last !in init;
        var v := before.value;
        assert last in v.columns <==> last in t.columns;
        assert last in t.columns ==> v.columns[last] == t.columns[last];
        assert Convertible(v, last, c, parseFloat) <==> Convertible(t, last, c, parseFloat);
        assert CleanColumns(t, names, c, parseFloat) == CleanColumn(v, last, c, parseFloat);
      } else {
        var k :| 0 <= k < |init| && !Convertible(t, init[k], c, parseFloat);
        assert names[k] == init[k];
      }
    }
  }

  /** When the loop succeeds it replaces the named columns by their cleaned
      cells and keeps every other column. */
  lemma {:induction false} CleanColumnsResult(t: Table, names: seq<string>, c: char, parseFloat: string -> Option<real>)
    requires Aligned(t) && Distinct(names) && CleanColumns(t, names, c, parseFloat).Success?
    ensures var u := CleanColumns(t, names, c, parseFloat).value;
            u.columns.Keys == t.columns.Keys
            && (forall name :: name in t.columns && name !in names ==> u.columns[name] == t.columns[name])
            && (forall k :: 0 <= k < |names| ==>
                  Convertible(t, names[k], c, parseFloat)
                  && u.columns[names[k]] == CleanedColumn(t.columns[names[k]], c, parseFloat))
  {
    if names != [] {
      var init := names[..|names| - 1];
      var last := names[|names| - 1];
      assert Distinct(init);
      var before := CleanColumns(t, init, c, parseFloat);
      assert before.Success?;
      CleanColumnsResult(t, init, c, parseFloat);
      assert last !in init;
      assert forall k :: 0 <= k < |init| ==> names[k] == init[k];
      var v := before.value;
      assert last in v.columns <==> last in t.columns;
      assert last in t.columns ==> v.columns[last] == t.columns[last];
      var after := CleanColumn(v, last, c, parseFloat);
      assert CleanColumns(t, names, c, parseFloat) == after;
      var u := after.value;
      assert Convertible(t, last, c, parseFloat);
      assert u.columns == v.columns[last := CleanedColumn(t.columns[last], c, parseFloat)];
      forall name | name in t.columns && name !in names
        ensures u.columns[name] == t.columns[name]
      {
        assert name != last && name !in init;
      }
      forall k | 0 <= k < |names|
        ensures Convertible(t, names[k], c, parseFloat)
        ensures u.columns[names[k]] == CleanedColumn(t.columns[names[k]], c, parseFloat)
      {
        if k < |names| - 1 {
          assert names[k] == init[k] && names[k] != last;
        }
      }
      KeysAfterUpdate(v.columns, last, CleanedColumn(t.columns[last], c, parseFloat));
    }
  }

  lemma KeysAfterUpdate(m: Columns, name: string, col: seq<Value>)
    requires name in m
    ensures m[name := col].Keys == m.Keys
  {
  }

  /** Lines 107-114: on success the table keeps every row, now in date order and
      on the default index, and every column but `Vol.`. */
  lemma ReorderedEffect(t: Table, parseDate: string -> Option<int>)
    requires Aligned(t)
    ensures Reordered(t, parseDate).Success?
            <==> ParseDates(t, parseDate).Success? && "Vol." in t.columns
    ensures ParseDates(t, parseDate).Success? && "Vol." !in t.columns ==>
              Reordered(t, parseDate) == Failure(MissingColumn("Vol."))
    ensures Reordered(t, parseDate).Success? ==>
              var dates := ParseDates(t, parseDate).value.columns["Date"];
              var p := SortOrder(dates);
              var u := Reordered(t, parseDate).value;
              Aligned(u) && u.index == RangeIndex(|t.index|) && |p| == |t.index|
              && u.columns.Keys == t.columns.Keys - {"Vol."}
              && u.columns["Date"] == Permute(dates, p)
              && forall name :: name in u.columns && name != "Date" ==> u.columns[name] == Permute(t.columns[name], p)
  {
  }

  /** Reordering the rows does not change which columns can be cleaned. */
  lemma ReorderedConvertible(t: Table, parseDate: string -> Option<int>, name: string, c: char,
                             parseFloat: string -> Option<real>)
    requires Aligned(t) && Reordered(t, parseDate).Success? && name != "Date" && name != "Vol."
    ensures Convertible(Reordered(t, parseDate).value, name, c, parseFloat) <==> Convertible(t, name, c, parseFloat)
  {
    ReorderedEffect(t, parseDate);
    if name in t.columns {
      var dates := ParseDates(t, parseDate).value.columns["Date"];
      ConvertiblePermuted(t.columns[name], SortOrder(dates), c, parseFloat);
    }
  }

  /** After the reordering, the cleaning steps succeed exactly when `Change %`
      and the four price columns of the input can be cleaned. */
  lemma CleaningSucceeds(t: Table, parseDate: string -> Option<int>, parseFloat: string -> Option<real>)
    requires Aligned(t) && Reordered(t, parseDate).Success?
    ensures Normalise(t, parseDate, parseFloat).Success?
            <==> Convertible(t, "Change %", '%', parseFloat)
                 && forall k :: 0 <= k < |PRICE_COLUMNS| ==> Convertible(t, PRICE_COLUMNS[k], ',', parseFloat)
  {
    var u := Reordered(t, parseDate).value;
    ReorderedConvertible(t, parseDate, "Change %", '%', parseFloat);
    var changed := CleanColumn(u, "Change %", '%', parseFloat);
    if changed.Success? {
      PricesConvertible(t, parseDate, parseFloat);
      assert Normalise(t, parseDate, parseFloat) == CleanColumns(changed.value, PRICE_COLUMNS, ',', parseFloat);
    }
  }

  lemma PricesConvertible(t: Table, parseDate: string -> Option<int>, parseFloat: string -> Option<real>)
    requires Aligned(t) && Reordered(t, parseDate).Success?
    requires CleanColumn(Reordered(t, parseDate).value, "Change %", '%', parseFloat).Success?
    ensures var changed := CleanColumn(Reordered(t, parseDate).value, "Change %", '%', parseFloat).value;
            CleanColumns(changed, PRICE_COLUMNS, ',', parseFloat).Success?
            <==> forall k :: 0 <= k < |PRICE_COLUMNS| ==> Convertible(t, PRICE_COLUMNS[k], ',', parseFloat)
  {
    var changed := CleanColumn(Reordered(t, parseDate).value, "Change %", '%', parseFloat).value;
    ColumnNames();
    CleanColumnsSucceeds(changed, PRICE_COLUMNS, ',', parseFloat);
    forall k | 0 <= k < |PRICE_COLUMNS|
      ensures Convertible(changed, PRICE_COLUMNS[k], ',', parseFloat)
              <==> Convertible(t, PRICE_COLUMNS[k], ',', parseFloat)
    {
      ConvertibleAfterChange(t, parseDate, parseFloat, PRICE_COLUMNS[k], ',');
    }
  }

  /** Cleaning one column leaves every other column as it was. */
  lemma CleanColumnKeeps(u: Table, other: string, c: char, parseFloat: string -> Option<real>, name: string)
    requires Aligned(u) && CleanColumn(u, other, c, parseFloat).Success? && name != other
    ensures var v := CleanColumn(u, other, c, parseFloat).value;
            (name in v.columns <==> name in u.columns)
            && (name in u.columns ==> v.columns[name] == u.columns[name])
  {
  }

  lemma ConvertibleAfterChange(t: Table, parseDate: string -> Option<int>, parseFloat: string -> Option<real>,
                               name: string, c: char)
    requires Aligned(t) && Reordered(t, parseDate).Success?
    requires CleanColumn(Reordered(t, parseDate).value, "Change %", '%', parseFloat).Success?
    requires name in PRICE_COLUMNS
    ensures Convertible(CleanColumn(Reordered(t, parseDate).value, "Change %", '%', parseFloat).value, name, c, parseFloat)
            <==> Convertible(t, name, c, parseFloat)
  {
    var u := Reordered(t, parseDate).value;
    ColumnNames();
    ReorderedConvertible(t, parseDate, name, c, parseFloat);
    CleanColumnKeeps(u, "Change %", '%', parseFloat, name);
  }

  /** `preprocessing_data` returns a table exactly when the dates parse, `Vol.`
      exists, and `Change %` and the four price columns exist, hold strings and
      convert in every cell; otherwise it raises and returns nothing. */
  lemma NormaliseSucceeds(t: Table, parseDate: string -> Option<int>, parseFloat: string -> Option<real>)
    requires Aligned(t)
    ensures Normalise(t, parseDate, parseFloat).Success?
            <==> "Date" in t.columns
                 && (forall i :: 0 <= i < |t.columns["Date"]| ==> DateCellOk(t.columns["Date"][i], parseDate))
                 && "Vol." in t.columns
                 && Convertible(t, "Change %", '%', parseFloat)
                 && forall k :: 0 <= k < |PRICE_COLUMNS| ==> Convertible(t, PRICE_COLUMNS[k], ',', parseFloat)
  {
    ReorderedEffect(t, parseDate);
    if Reordered(t, parseDate).Success? {
      CleaningSucceeds(t, parseDate, parseFloat);
    }
  }

  /** The five converted columns, with the character each is stripped of. */
  predicate IsConverted(name: string)
  {
    name == "Change %" || name in PRICE_COLUMNS
  }

  /** The column names the function works with are pairwise different. */
  lemma ColumnNames()
    ensures Distinct(PRICE_COLUMNS) && "Change %" !in PRICE_COLUMNS
    ensures forall name :: IsConverted(name) ==> name != "Date" && name != "Vol."
  {
  }

  function StrippedOf(name: string): char
  {
    if name == "Change %" then '%' else ','
  }

  /** Lines 115-120 on the reordered table: the five converted columns are
      replaced by their cleaned cells and nothing else changes. */
  function CleanAll(u0: Table, parseFloat: string -> Option<real>): (r: Result<Table, Error>)
    requires Aligned(u0)
    ensures r.Success? ==> Aligned(r.value) && r.value.index == u0.index
  {
    match CleanColumn(u0, "Change %", '%', parseFloat)
    case Failure(e) => Failure(e)
    case Success(changed) => CleanColumns(changed, PRICE_COLUMNS, ',', parseFloat)
  }

  /** The columns CleanAll does not convert, and the row index, stay as they were. */
  lemma CleanAllKeeps(u0: Table, parseFloat: string -> Option<real>)
    requires Aligned(u0) && CleanAll(u0, parseFloat).Success?
    ensures var u := CleanAll(u0, parseFloat).value;
            u.index == u0.index && u.columns.Keys == u0.columns.Keys
            && forall name :: name in u0.columns && !IsConverted(name) ==> u.columns[name] == u0.columns[name]
  {
    var changed := CleanColumn(u0, "Change %", '%', parseFloat).value;
    ColumnNames();
    CleanColumnsResult(changed, PRICE_COLUMNS, ',', parseFloat);
    KeysAfterUpdate(u0.columns, "Change %", changed.columns["Change %"]);
    var u := CleanAll(u0, parseFloat).value;
    assert u == CleanColumns(changed, PRICE_COLUMNS, ',', parseFloat).value;
    forall name | name in u0.columns && !IsConverted(name)
      ensures u.columns[name] == u0.columns[name]
    {
      assert name != "Change %" && name !in PRICE_COLUMNS;
    }
  }

  /** Each converted column is the cleaned column CleanAll started from. */
  lemma CleanAllConverts(u0: Table, parseFloat: string -> Option<real>, name: string)
    requires Aligned(u0) && CleanAll(u0, parseFloat).Success? && IsConverted(name)
    ensures var u := CleanAll(u0, parseFloat).value;
            Convertible(u0, name, StrippedOf(name), parseFloat) && name in u.columns
            && u.columns[name] == CleanedColumn(u0.columns[name], StrippedOf(name), parseFloat)
  {
    var changed := CleanColumn(u0, "Change %", '%', parseFloat).value;
    ColumnNames();
    CleanColumnsResult(changed, PRICE_COLUMNS, ',', parseFloat);
    var u := CleanAll(u0, parseFloat).value;
    assert u == CleanColumns(changed, PRICE_COLUMNS, ',', parseFloat).value;
    if name != "Change %" {
      var k :| 0 <= k < |PRICE_COLUMNS| && PRICE_COLUMNS[k] == name;
      CleanColumnKeeps(u0, "Change %", '%', parseFloat, name);
    }
  }

  lemma CleaningEffect(t: Table, parseDate: string -> Option<int>, parseFloat: string -> Option<real>)
    requires Aligned(t) && Normalise(t, parseDate, parseFloat).Success?
    ensures Reordered(t, parseDate).Success?
    ensures var u0 := Reordered(t, parseDate).value;
            var u := Normalise(t, parseDate, parseFloat).value;
            u.index == u0.index && u.columns.Keys == u0.columns.Keys
            && (forall name :: name in u0.columns && !IsConverted(name) ==> u.columns[name] == u0.columns[name])
            && (forall name :: IsConverted(name) ==>
                  Convertible(u0, name, StrippedOf(name), parseFloat)
                  && u.columns[name] == CleanedColumn(u0.columns[name], StrippedOf(name), parseFloat))
  {
    var u0 := Reordered(t, parseDate).value;
    assert Normalise(t, parseDate, parseFloat) == CleanAll(u0, parseFloat);
    CleanAllKeeps(u0, parseFloat);
    forall name | IsConverted(name)
      ensures Convertible(u0, name, StrippedOf(name), parseFloat)
      ensures Normalise(t, parseDate, parseFloat).value.columns[name]
              == CleanedColumn(u0.columns[name], StrippedOf(name), parseFloat)
    {
      CleanAllConverts(u0, parseFloat, name);
    }
  }

  /** What `preprocessing_data` returns keeps every input row once, on the
      default index, with every column but `Vol.`. */
  lemma NormaliseShape(t: Table, parseDate: string -> Option<int>, parseFloat: string -> Option<real>)
    requires Aligned(t) && Normalise(t, parseDate, parseFloat).Success?
    ensures ParseDates(t, parseDate).Success?
    ensures var p := SortOrder(ParseDates(t, parseDate).value.columns["Date"]);
            var u := Normalise(t, parseDate, parseFloat).value;
            |p| == |t.index| && IsPermutation(p, |t.index|)
            && Aligned(u) && u.index == RangeIndex(|t.index|)
            && u.columns.Keys == t.columns.Keys - {"Vol."}
  {
    CleaningEffect(t, parseDate, parseFloat);
    ReorderedEffect(t, parseDate);
  }

  /** The returned rows are in an order p that sorts the parsed dates, NaT last. */
  lemma NormaliseSorted(t: Table, parseDate: string -> Option<int>, parseFloat: string -> Option<real>)
    requires Aligned(t) && Normalise(t, parseDate, parseFloat).Success?
    ensures ParseDates(t, parseDate).Success? && "Date" in Normalise(t, parseDate, parseFloat).value.columns
    ensures var dates := ParseDates(t, parseDate).value.columns["Date"];
            var u := Normalise(t, parseDate, parseFloat).value;
            u.columns["Date"] == Permute(dates, SortOrder(dates))
            && forall i, j :: 0 <= i < j < |u.columns["Date"]| ==> DateLe(u.columns["Date"][i], u.columns["Date"][j])
  {
    CleaningEffect(t, parseDate, parseFloat);
    ReorderedEffect(t, parseDate);
    var dates := ParseDates(t, parseDate).value.columns["Date"];
    SortOrderSorted(dates);
    ColumnNames();
  }

  /** Columns that are not converted come back rearranged by the sort order and
      otherwise unchanged. */
  lemma NormalisePermuted(t: Table, parseDate: string -> Option<int>, parseFloat: string -> Option<real>)
    requires Aligned(t) && Normalise(t, parseDate, parseFloat).Success?
    ensures ParseDates(t, parseDate).Success?
    ensures var p := SortOrder(ParseDates(t, parseDate).value.columns["Date"]);
            var u := Normalise(t, parseDate, parseFloat).value;
            |p| == |t.index| && Positions(p, |t.index|)
            && forall name :: name in u.columns && name != "Date" && !IsConverted(name) ==>
                 name in t.columns && u.columns[name] == Permute(t.columns[name], p)
  {
    CleaningEffect(t, parseDate, parseFloat);
    ReorderedEffect(t, parseDate);
  }

  /** Cleaning a column rearranged by p cleans the cells of row p[i]. */
  lemma CleanedPermuted(col: seq<Value>, p: seq<nat>, c: char, parseFloat: string -> Option<real>)
    requires Positions(p, |col|) && ColumnConvertible(Permute(col, p), c, parseFloat)
    ensures forall i :: 0 <= i < |p| ==>
              CleanCellOk(col[p[i]], c, parseFloat)
              && CleanedColumn(Permute(col, p), c, parseFloat)[i] == CleanCell(col[p[i]], c, parseFloat)
  {
    forall i | 0 <= i < |p|
      ensures CleanCellOk(col[p[i]], c, parseFloat)
    {
      assert Permute(col, p)[i] == col[p[i]];
    }
  }

  /** One column of the reordered table other than the dates: the input
      column rearranged by the sort order. */
  lemma ReorderedColumn(t: Table, parseDate: string -> Option<int>, name: string)
    requires Aligned(t) && Reordered(t, parseDate).Success?
    requires name in Reordered(t, parseDate).value.columns && name != "Date"
    ensures ParseDates(t, parseDate).Success?
    ensures var p := SortOrder(ParseDates(t, parseDate).value.columns["Date"]);
            |p| == |t.index| && Positions(p, |t.index|)
            && name in t.columns && |t.columns[name]| == |t.index|
            && Reordered(t, parseDate).value.columns[name] == Permute(t.columns[name], p)
  {
    ReorderedEffect(t, parseDate);
  }

  /** One converted column of the result: the reordered column, cleaned. */
  lemma CleanedAfterReorder(t: Table, parseDate: string -> Option<int>, parseFloat: string -> Option<real>,
                            name: string)
    requires Aligned(t) && Normalise(t, parseDate, parseFloat).Success? && IsConverted(name)
    ensures Reordered(t, parseDate).Success?
    ensures var u0 := Reordered(t, parseDate).value;
            var u := Normalise(t, parseDate, parseFloat).value;
            Convertible(u0, name, StrippedOf(name), parseFloat) && name in u.columns
            && u.columns[name] == CleanedColumn(u0.columns[name], StrippedOf(name), parseFloat)
  {
    CleaningEffect(t, parseDate, parseFloat);
  }

  /** Row i of one converted column is the cleaned cell of row p[i] of the input. */
  lemma NormaliseCleanedColumn(t: Table, parseDate: string -> Option<int>, parseFloat: string -> Option<real>,
                               name: string)
    requires Aligned(t) && Normalise(t, parseDate, parseFloat).Success? && IsConverted(name)
    ensures ParseDates(t, parseDate).Success?
    ensures var p := SortOrder(ParseDates(t, parseDate).value.columns["Date"]);
            var u := Normalise(t, parseDate, parseFloat).value;
            |p| == |t.index| && Positions(p, |t.index|)
            && name in t.columns && name in u.columns && |t.columns[name]| == |t.index|
            && forall i :: 0 <= i < |p| ==>
                 CleanCellOk(t.columns[name][p[i]], StrippedOf(name), parseFloat)
                 && u.columns[name][i] == CleanCell(t.columns[name][p[i]], StrippedOf(name), parseFloat)
  {
    CleanedAfterReorder(t, parseDate, parseFloat, name);
    ColumnNames();
    ReorderedColumn(t, parseDate, name);
    var p := SortOrder(ParseDates(t, parseDate).value.columns["Date"]);
    CleanedPermuted(t.columns[name], p, StrippedOf(name), parseFloat);
  }

  /** Row i of `Change %` and of each price column is the cleaned cell of row
      p[i] of the input. */
  lemma NormaliseCleaned(t: Table, parseDate: string -> Option<int>, parseFloat: string -> Option<real>)
    requires Aligned(t) && Normalise(t, parseDate, parseFloat).Success?
    ensures ParseDates(t, parseDate).Success?
    ensures var p := SortOrder(ParseDates(t, parseDate).value.columns["Date"]);
            var u := Normalise(t, parseDate, parseFloat).value;
            |p| == |t.index| && Positions(p, |t.index|)
            && forall name, i :: IsConverted(name) && 0 <= i < |p| ==>
                 name in t.columns && name in u.columns && |t.columns[name]| == |t.index|
                 && CleanCellOk(t.columns[name][p[i]], StrippedOf(name), parseFloat)
                 && u.columns[name][i] == CleanCell(t.columns[name][p[i]], StrippedOf(name), parseFloat)
  {
    NormaliseCleanedColumn(t, parseDate, parseFloat, "Change %");
    forall name | IsConverted(name)
      ensures var p := SortOrder(ParseDates(t, parseDate).value.columns["Date"]);
              var u := Normalise(t, parseDate, parseFloat).value;
              name in t.columns && name in u.columns && |t.columns[name]| == |t.index|
              && forall i :: 0 <= i < |p| ==>
                   CleanCellOk(t.columns[name][p[i]], StrippedOf(name), parseFloat)
                   && u.columns[name][i] == CleanCell(t.columns[name][p[i]], StrippedOf(name), parseFloat)
    {
      NormaliseCleanedColumn(t, parseDate, parseFloat, name);
    }
  }

  /** Without a `Vol.` column the call raises once the dates have parsed. */
  lemma NormaliseNeedsVol(t: Table, parseDate: string -> Option<int>, parseFloat: string -> Option<real>)
    requires Aligned(t) && "Vol." !in t.columns
    ensures Normalise(t, parseDate, parseFloat).Failure?
    ensures ParseDates(t, parseDate).Success? ==> Normalise(t, parseDate, parseFloat) == Failure(MissingColumn("Vol."))
  {
    ReorderedEffect(t, parseDate);
  }

  /** A column the function does not convert keeps its cells, only reordered. */
  lemma NormalisePassThrough(t: Table, parseDate: string -> Option<int>, parseFloat: string -> Option<real>, name: string)
    requires Aligned(t) && Normalise(t, parseDate, parseFloat).Success?
    requires name in t.columns && name != "Date" && name != "Vol." && !IsConverted(name)
    ensures name in Normalise(t, parseDate, parseFloat).value.columns
    ensures multiset(Normalise(t, parseDate, parseFloat).value.columns[name]) == multiset(t.columns[name])
  {
    NormaliseShape(t, parseDate, parseFloat);
    NormalisePermuted(t, parseDate, parseFloat);
    var dates := ParseDates(t, parseDate).value.columns["Date"];
    PermuteSortOrder(t.columns[name], dates);
  }
}
