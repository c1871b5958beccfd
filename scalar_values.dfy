/** The scalar value records `ValueByNumber` and `ValueByString`
    (PyDSS/value_storage.py). The two classes have identical code and differ
    only in the readings they are given, so both are the generic class
    ScalarValue: `ValueByNumber` is ScalarValue<number>, `ValueByString` is
    ScalarValue<string>. */
module ScalarValues {
  import opened Errors
  import opened PyStrings
  import opened ColumnKeys

  /** The table of a scalar record: one column keyed `name__prop` holding the
      readings in order (`to_dataframe`). */
  function ScalarTable<V>(name: string, prop: string, data: seq<V>): DataFrame<V>
  {
    [Column(MakeColumn(name, prop), data)]
  }

  class ScalarValue<V> {
    const name: string
    const prop: string
    /** `_data`: the readings, oldest first. */
    var data: seq<V>

    /** `__init__(name, prop, value)` */
    constructor (name: string, prop: string, value: V)
      ensures this.name == name && this.prop == prop
      ensures data == [value]
    {
      this.name := name;
      this.prop := prop;
      data := [value];
    }

    /** `__len__`: the number of readings, which is the number of rows of
        the table. */
    function Length(): (n: nat)
      reads this
      ensures n == |ToDataFrame()[0].values|
    {
      |data|
    }

    /** `append(other)`, that is `self._data += other`: the readings of
        `other` (what its `__iter__` yields) are added after this record's
        own, with no check that the two records describe the same
        (name, prop). Appending a record to itself would make Python extend a
        list while iterating over it, which never ends; hence `other != this`. */
    method Append(other: ScalarValue<V>)
      requires other != this
      modifies this
      ensures data == old(data) + other.data
      ensures Length() == old(Length()) + other.Length()
    {
      data := data + other.data;
    }

    /** `to_dataframe()`: the one column `name__prop` holding the readings
        in order; get_columns finds it by (name, prop) when the name and the
        prop are safe column fields. */
    function ToDataFrame(): (t: DataFrame<V>)
      reads this
      ensures |t| == 1 && t[0].values == data
      ensures LeadingField(name, DELIMITER) && DelimiterFree(prop, DELIMITER) ==>
                ColumnsFor(Keys(t), name, prop, None) == Ok([t[0].key])
                && Split(t[0].key, DELIMITER) == [name, prop]
    {
      if LeadingField(name, DELIMITER) && DelimiterFree(prop, DELIMITER) then
        ScalarTableLookup(name, prop, data, StrLabel(""));
        MakeColumnFields(name, prop);
        ScalarTable(name, prop, data)
      else
        ScalarTable(name, prop, data)
    }

    /** `num_columns`, corrected: the number of columns of to_dataframe. */
    function NumColumns(): (n: nat)
      reads this
      ensures n == |ToDataFrame()|
    {
      1
    }
  }

  /** `num_columns` as written: `@property` over `@staticmethod` over a
      function of no parameters. Reading the property calls the getter with
      the instance as its one argument, which raises TypeError on every
      Python version (the staticmethod object is not callable before 3.10;
      from 3.10 on the wrapped function rejects the argument). */
  function NumColumnsAsWritten(): Result<nat>
  {
    Err(TypeError("num_columns() takes 0 positional arguments but 1 was given"))
  }

  /** The as-written property never yields the column count of the table. */
  lemma NumColumnsAsWrittenRaises<V>(v: ScalarValue<V>)
    ensures NumColumnsAsWritten() != Ok(|v.ToDataFrame()|)
  {
  }

  /** get_columns on the table of a scalar record finds exactly its one
      column by (name, prop), and trips the three-field assertion when a
      label is asked for. */
  lemma ScalarTableLookup<V>(name: string, prop: string, data: seq<V>, lbl: Label)
    requires LeadingField(name, DELIMITER) && DelimiterFree(prop, DELIMITER)
    ensures ColumnsFor(Keys(ScalarTable(name, prop, data)), name, prop, None)
            == Ok([MakeColumn(name, prop)])
    ensures ColumnsFor(Keys(ScalarTable(name, prop, data)), name, prop, Some(lbl))
            == Err(AssertionFailed(MakeColumn(name, prop)))
  {
    MakeColumnFields(name, prop);
    var keys := Keys(ScalarTable(name, prop, data));
    assert keys == [MakeColumn(name, prop)];
    assert keys[..0] == [];
    assert KeyMatches(keys[0], name, prop, None);
    assert Matching(keys, name, prop, None) == [keys[0]];
  }

  /** The accumulation of a scalar record over the timesteps of a run: the
      record is created from the first reading, and each later reading
      arrives as a new record that is appended. The table then has the one
      column `name__prop` holding every reading in order. */
  method Accumulate<V>(name: string, prop: string, readings: seq<V>) returns (df: DataFrame<V>)
    requires |readings| >= 1
    ensures df == [Column(MakeColumn(name, prop), readings)]
  {
    var record := new ScalarValue(name, prop, readings[0]);
    var k := 1;
    while k < |readings|
      invariant 1 <= k <= |readings|
      invariant record.name == name && record.prop == prop
      invariant record.data == readings[..k]
    {
      var next := new ScalarValue(name, prop, readings[k]);
      record.Append(next);
      assert readings[..k + 1] == readings[..k] + [readings[k]];
      k := k + 1;
    }
    assert readings[..k] == readings;
    df := record.ToDataFrame();
  }
}
