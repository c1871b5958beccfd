/** The labelled value record `ValueByLabel` (PyDSS/value_storage.py): one
    column per phase label of a multi-node element, built from a flat vector
    of raw readings by the reshaping of LabelReshape. */
module LabelValues {
  import opened Errors
  import opened PyStrings
  import opened ColumnKeys
  import opened Sequences
  import opened LabelReshape

  // ---------------------------------------------------------------------------
  // append, as a function of the two dicts
  // ---------------------------------------------------------------------------

  /** The body of `append` for the keys `keys` of `other`, in order: each key
      must already be a key of `self._data` (else AssertionError, with the
      keys before it already extended), and its readings are appended to the
      list under that key. Returns the dict afterwards and the outcome. */
  function AppendKeys<X>(d: map<string, seq<Reading<X>>>, od: map<string, seq<Reading<X>>>, keys: seq<string>)
    : (r: (map<string, seq<Reading<X>>>, Outcome))
    requires forall k :: k in keys ==> k in od
    ensures r.0.Keys == d.Keys
    decreases |keys|
  {
    if keys == [] then (d, Pass)
    else if keys[0] !in d then (d, Fail(AssertionFailed("")))
    else AppendKeys(d[keys[0] := d[keys[0]] + od[keys[0]]], od, keys[1..])
  }

  /** `append` fails exactly when some key of `other` is missing from `self`. */
  lemma {:induction false} AppendFails<X>(d: map<string, seq<Reading<X>>>, od: map<string, seq<Reading<X>>>, keys: seq<string>)
    requires forall k :: k in keys ==> k in od
    ensures AppendKeys(d, od, keys).1.Fail? <==> exists k :: k in keys && k !in d
    ensures AppendKeys(d, od, keys).1.Fail? ==> AppendKeys(d, od, keys).1 == Fail(AssertionFailed(""))
    decreases |keys|
  {
    if keys != [] && keys[0] in d {
      var d' := d[keys[0] := d[keys[0]] + od[keys[0]]];
      AppendFails(d', od, keys[1..]);
      assert d'.Keys == d.Keys;
      assert forall k :: k in keys <==> k == keys[0] || k in keys[1..];
    }
  }

  /** When every key of `other` is a key of `self` (and each is visited
      once), `append` succeeds and each list is extended by the other's list
      under the same key; the other lists are unchanged. */
  lemma {:induction false} AppendMerges<X>(d: map<string, seq<Reading<X>>>, od: map<string, seq<Reading<X>>>, keys: seq<string>)
    requires forall k :: k in keys ==> k in od && k in d
    requires Distinct(keys)
    ensures AppendKeys(d, od, keys).1 == Pass
    ensures forall k :: k in d ==>
              AppendKeys(d, od, keys).0[k] == d[k] + (if k in keys then od[k] else [])
    decreases |keys|
  {
    if keys != [] {
      var key := keys[0];
      var rest := keys[1..];
      var d' := d[key := d[key] + od[key]];
      assert Distinct(rest) by {
        forall i, j | 0 <= i < j < |rest| ensures rest[i] != rest[j] {
          assert rest[i] == keys[i + 1] && rest[j] == keys[j + 1];
        }
      }
      assert key !in rest by {
        forall i | 0 <= i < |rest| ensures rest[i] != key {
          assert rest[i] == keys[i + 1];
        }
      }
      AppendMerges(d', od, rest);
      forall k | k in d
        ensures AppendKeys(d, od, keys).0[k] == d[k] + (if k in keys then od[k] else [])
      {
        assert k in keys <==> k == key || k in rest;
      }
    }
  }

  // ---------------------------------------------------------------------------
  // to_dataframe, as a function of the record
  // ---------------------------------------------------------------------------

  /** The lists under `keys` all have the same length, as pandas demands of
      the columns of a dict. */
  predicate SameLengths<X>(d: map<string, seq<Reading<X>>>, keys: seq<string>)
    requires forall k :: k in keys ==> k in d
  {
    forall a, b :: 0 <= a < |keys| && 0 <= b < |keys| ==> |d[keys[a]]| == |d[keys[b]]|
  }

  /** `_make_columns()`: `name__label` for every label, in label order. */
  function MakeColumns(name: string, labels: seq<string>): (r: seq<string>)
    ensures |r| == |labels|
  {
    seq(|labels|, k requires 0 <= k < |labels| => MakeColumn(name, labels[k]))
  }

  /** `to_dataframe()`: `pd.DataFrame(self._data)` takes the columns in the
      dict's key order (first occurrence order of the labels); assigning
      `df.columns` then renames them by position and raises ValueError when
      the number of names differs from the number of columns. */
  function Table<X>(name: string, labels: seq<string>, d: map<string, seq<Reading<X>>>)
    : Result<DataFrame<Reading<X>>>
    requires d.Keys == Elements(labels)
  {
    var keys := Dedup(labels);
    var names := MakeColumns(name, labels);
    if !SameLengths(d, keys) then Err(ValueError("All arrays must be of the same length"))
    else if |names| != |keys| then Err(ValueError("Length mismatch"))
    else Ok(seq(|keys|, k requires 0 <= k < |keys| => Column(names[k], d[keys[k]])))
  }

  /** `to_dataframe` succeeds iff the lists have equal lengths and the labels
      are distinct. It then has one column per label, in label order, keyed
      `name__label` and holding that label's readings. Lists of unequal
      length (left by a partial `append`) make pandas refuse the dict, and
      otherwise a repeated label makes the renaming fail. */
  lemma TableColumns<X>(name: string, labels: seq<string>, d: map<string, seq<Reading<X>>>)
    requires d.Keys == Elements(labels)
    ensures Table(name, labels, d).Ok? <==> SameLengths(d, Dedup(labels)) && Distinct(labels)
    ensures SameLengths(d, Dedup(labels)) && Distinct(labels) ==>
              |Table(name, labels, d).value| == |labels|
              && forall k :: 0 <= k < |labels| ==>
                   Table(name, labels, d).value[k] == Column(MakeColumn(name, labels[k]), d[labels[k]])
    ensures !SameLengths(d, Dedup(labels)) ==> Table(name, labels, d) == Err(ValueError("All arrays must be of the same length"))
    ensures SameLengths(d, Dedup(labels)) && !Distinct(labels) ==> Table(name, labels, d) == Err(ValueError("Length mismatch"))
  {
    DedupLength(labels);
    if SameLengths(d, Dedup(labels)) {
      if Distinct(labels) {
        TableOfDistinct(name, labels, d);
      } else {
        assert |MakeColumns(name, labels)| != |Dedup(labels)|;
      }
    }
  }

  /** The table of distinct labels of equal length, column by column. */
  lemma TableOfDistinct<X>(name: string, labels: seq<string>, d: map<string, seq<Reading<X>>>)
    requires d.Keys == Elements(labels)
    requires Distinct(labels) && Dedup(labels) == labels
    requires SameLengths(d, labels)
    ensures var t := Table(name, labels, d);
            t.Ok? && |t.value| == |labels|
            && forall k :: 0 <= k < |labels| ==> t.value[k] == Column(MakeColumn(name, labels[k]), d[labels[k]])
  {
    var names := MakeColumns(name, labels);
    var t := seq(|labels|, k requires 0 <= k < |labels| => Column(names[k], d[labels[k]]));
    assert Table(name, labels, d) == Ok(t);
    forall k | 0 <= k < |labels| ensures t[k] == Column(MakeColumn(name, labels[k]), d[labels[k]]) {
      assert names[k] == MakeColumn(name, labels[k]);
    }
  }

  // ---------------------------------------------------------------------------
  // The record
  // ---------------------------------------------------------------------------

  class ValueByLabel<X> {
    const name: string
    const prop: string
    /** `_labels`: every label, in the order the constructor produced them. */
    var labels: seq<string>
    /** `_data`: the readings under each label. Its key order is the first
        occurrence order of `labels`, since keys are only ever added in that
        order. */
    var data: map<string, seq<Reading<X>>>

    /** The dict has exactly the labels as keys. */
    ghost predicate Valid()
      reads this
    {
      data.Keys == Elements(labels)
    }

    /** The record with no labels yet, as `__init__` sets it up before its
        loops. */
    constructor Empty(name: string, prop: string)
      ensures this.name == name && this.prop == prop
      ensures labels == [] && data == map[]
      ensures Valid()
    {
      this.name := name;
      this.prop := prop;
      labels := [];
      data := map[];
    }

    /** `ValueByLabel(name, prop, value, Nodes, is_complex, units)`: either
        the first exception the constructor raises, or the record whose
        labels and columns are those of the iterations of its loops. */
    static method New(name: string, prop: string, value: seq<X>, nodes: seq<seq<int>>,
                      isComplex: bool, units: seq<string>)
      returns (r: Result<ValueByLabel<X>>)
      ensures r.Err? <==> ConstructError(value, nodes, isComplex, units).Some?
      ensures r.Err? ==> r.error == ConstructError(value, nodes, isComplex, units).value
      ensures r.Ok? ==>
                fresh(r.value) && r.value.Valid()
                && r.value.name == name && r.value.prop == prop
                && |nodes| > 0 && RunLength(|value|, |nodes|) > 0
                && (forall k :: 0 <= k < |Entries(value, nodes)| ==> EntryOk(Entries(value, nodes)[k], isComplex, units))
                && r.value.labels == Labels(Entries(value, nodes), isComplex, units)
                && r.value.data == Data(Entries(value, nodes), isComplex, units)
    {
      if |nodes| == 0 {
        return Err(ZeroDivision);
      }
      var m := |value| / (PAIR * |nodes|);
      if m == 0 {
        return Err(ZeroDivision);
      }
      var groups := Groups(value, m);
      ghost var es := Entries(value, nodes);
      assert es == EntriesFrom(nodes, groups, 0);
      var built := VisitNodes(nodes, groups, isComplex, units);
      if built.Err? {
        return Err(built.error);
      }
      DataKeys(es, isComplex, units);
      var v := new ValueByLabel.Empty(name, prop);
      v.labels, v.data := built.value.0, built.value.1;
      return Ok(v);
    }

    /** `__iter__`: the keys of `_data`, in dict order. */
    function Iter(): (r: seq<string>)
      reads this
      ensures Valid() ==> Elements(r) == data.Keys && Distinct(r)
    {
      Dedup(labels)
    }

    /** `append(other)`: the readings of each key of `other`, in `other`'s key
        order, are appended to the list under the same key here; a key this
        record lacks raises AssertionError, leaving the keys before it
        extended. Appending a record to itself would extend each list while
        iterating over it, which never ends; hence `other != this`. */
    method Append(other: ValueByLabel<X>) returns (r: Outcome)
      requires other != this && other.Valid()
      modifies this
      ensures (data, r) == AppendKeys(old(data), other.data, other.Iter())
      ensures labels == old(labels)
      ensures old(Valid()) ==> Valid()
    {
      var keys := other.Iter();
      var od := other.data;
      ghost var want := AppendKeys(data, od, keys);
      var i := 0;
      while i < |keys|
        invariant 0 <= i <= |keys|
        invariant labels == old(labels) && data.Keys == old(data).Keys
        invariant want == AppendKeys(data, od, keys[i..])
      {
        var key := keys[i];
        assert keys[i..] == [key] + keys[i + 1..];
        if key !in data {
          return Fail(AssertionFailed(""));
        }
        Extend(key, od[key]);
        i := i + 1;
      }
      return Pass;
    }

    /** `for val in values: self._data[key].append(val)`: the readings are
        appended one by one to the list under `key`. */
    method Extend(key: string, values: seq<Reading<X>>)
      requires key in data
      modifies this
      ensures data == old(data)[key := old(data)[key] + values]
      ensures labels == old(labels)
    {
      ghost var start := data[key];
      assert start + values[..0] == start;
      assert data == old(data)[key := start + values[..0]];
      var t := 0;
      while t < |values|
        invariant 0 <= t <= |values|
        invariant labels == old(labels)
        invariant data == old(data)[key := start + values[..t]]
      {
        data := data[key := data[key] + [values[t]]];
        assert start + values[..t + 1] == start + values[..t] + [values[t]];
        t := t + 1;
      }
      assert values[..t] == values;
    }

    /** `get(key)`: the list under `key`; KeyError for a key that is not a
        label. */
    function Get(key: string): (r: Result<seq<Reading<X>>>)
      reads this
      ensures Valid() ==> (r.Ok? <==> key in labels)
      ensures r.Ok? ==> key in data && r.value == data[key]
      ensures r.Err? ==> r.error == KeyError(StrKey(key))
    {
      if key in data then Ok(data[key]) else Err(KeyError(StrKey(key)))
    }

    /** `num_columns` and `__len__`: the number of keys of `_data`, which is
        the number of distinct labels. */
    function NumColumns(): (n: nat)
      reads this
      ensures Valid() ==> n == |Dedup(labels)| && n <= |labels|
      ensures Valid() ==> (n == |labels| <==> Distinct(labels))
    {
      DedupCardinality(labels);
      DedupLength(labels);
      |data|
    }

    /** `to_dataframe()`: one column `name__label` per label, in label
        order, when the lists have equal lengths and the labels are
        distinct; otherwise pandas' ValueError. */
    function ToDataFrame(): (r: Result<DataFrame<Reading<X>>>)
      reads this
      requires Valid()
      ensures r.Ok? <==> SameLengths(data, Dedup(labels)) && Distinct(labels)
      ensures r.Ok? ==> |r.value| == |labels|
                        && forall k :: 0 <= k < |labels| ==> r.value[k] == Column(MakeColumn(name, labels[k]), data[labels[k]])
      ensures !SameLengths(data, Dedup(labels)) ==> r == Err(ValueError("All arrays must be of the same length"))
      ensures SameLengths(data, Dedup(labels)) && !Distinct(labels) ==> r == Err(ValueError("Length mismatch"))
    {
      TableColumns(name, labels, data);
      Table(name, labels, data)
    }
  }

  /** One iteration of the constructor's inner loop, on the labels and the
      dict built so far: the phase letter of `code` is looked up (KeyError),
      then the units and the two readings of `x` are read (IndexError), and
      the new labels are appended and assigned their one-reading lists. */
  method Visit<X>(code: int, x: seq<X>, ordinal: nat, isComplex: bool, units: seq<string>,
                  labels: seq<string>, data: map<string, seq<Reading<X>>>)
    returns (r: Result<(seq<string>, map<string, seq<Reading<X>>>)>)
    ensures r.Err? <==> !EntryOk(Entry(code, x, ordinal), isComplex, units)
    ensures r.Err? ==> r.error == EntryFailure(Entry(code, x, ordinal))
    ensures r.Ok? ==> r.value.0 == labels + EntryLabels(Entry(code, x, ordinal), isComplex, units)
                      && r.value.1 == data + EntryData(Entry(code, x, ordinal), isComplex, units)
  {
    var letter := PhaseLetter(code);
    if letter.None? {
      return Err(KeyError(IntKey(code)));
    }
    var lbl := BaseLabel(letter.value, ordinal);
    if isComplex {
      if |units| < 1 || |x| < 2 {
        return Err(IndexError);
      }
      lbl := lbl + " " + units[0];
      return Ok((labels + [lbl], data[lbl := [Complex(x[0], x[1])]]));
    } else {
      if |units| < 2 || |x| < 2 {
        return Err(IndexError);
      }
      var mag := lbl + " " + units[0];
      var ang := lbl + " " + units[1];
      var d := data[mag := [Scalar(x[0])]];
      d := d[ang := [Scalar(x[1])]];
      return Ok((labels + [mag, ang], d));
    }
  }

  /** The outer loop of the constructor, over `enumerate(zip(Nodes, value))`:
      either the first failure of its iterations, or the labels and dict
      they build. */
  method VisitNodes<X>(nodes: seq<seq<int>>, groups: seq<seq<seq<X>>>, isComplex: bool, units: seq<string>)
    returns (r: Result<(seq<string>, map<string, seq<Reading<X>>>)>)
    ensures var es := EntriesFrom(nodes, groups, 0);
            (r.Err? <==> EntryError(es, isComplex, units).Some?)
            && (r.Err? ==> r.error == EntryError(es, isComplex, units).value)
            && (r.Ok? ==> (forall k :: 0 <= k < |es| ==> EntryOk(es[k], isComplex, units))
                          && r.value == (Labels(es, isComplex, units), Data(es, isComplex, units)))
  {
    ghost var es := EntriesFrom(nodes, groups, 0);
    ghost var done: seq<Entry<X>> := [];
    var labels: seq<string> := [];
    var data: map<string, seq<Reading<X>>> := map[];
    var i := 0;
    while i < |nodes| && i < |groups|
      invariant 0 <= i
      invariant es == done + EntriesFrom(nodes, groups, i)
      invariant forall k :: 0 <= k < |done| ==> EntryOk(done[k], isComplex, units)
      invariant labels == Labels(done, isComplex, units)
      invariant data == Data(done, isComplex, units)
      decreases |nodes| - i
    {
      ghost var here := NodeFrom(nodes[i], groups[i], i + 1, 0);
      ghost var after := EntriesFrom(nodes, groups, i + 1);
      assert es == done + here + after by {
        assert EntriesFrom(nodes, groups, i) == here + after;
        AppendAssoc(done, here, after);
      }
      var step := VisitNode(nodes[i], groups[i], i + 1, isComplex, units, labels, data, done);
      if step.Err? {
        assert EntryError(es, isComplex, units) == Some(step.error) by {
          ErrorPrefix(done + here, after, isComplex, units);
        }
        return Err(step.error);
      }
      labels, data := step.value.0, step.value.1;
      done := done + here;
      i := i + 1;
    }
    assert es == done by {
      assert EntriesFrom(nodes, groups, i) == [];
      assert done + [] == done;
    }
    assert EntryError(es, isComplex, units) == None by {
      NoEntryError(es, isComplex, units);
    }
    return Ok((labels, data));
  }

  /** The inner loop of the constructor, over `zip(node, val)` for the node
      with ordinal `ordinal`, after the iterations `done` and with the
      either the first failure so far, or the labels and dict after this
      node. */
  method VisitNode<X>(node: seq<int>, val: seq<seq<X>>, ordinal: nat, isComplex: bool, units: seq<string>,
                      labels: seq<string>, data: map<string, seq<Reading<X>>>,
                      ghost done: seq<Entry<X>>)
    returns (r: Result<(seq<string>, map<string, seq<Reading<X>>>)>)
    requires forall k :: 0 <= k < |done| ==> EntryOk(done[k], isComplex, units)
    requires labels == Labels(done, isComplex, units) && data == Data(done, isComplex, units)
    ensures var all := done + NodeFrom(node, val, ordinal, 0);
            (r.Err? ==> EntryError(all, isComplex, units) == Some(r.error))
            && (r.Ok? ==> (forall k :: 0 <= k < |all| ==> EntryOk(all[k], isComplex, units))
                          && r.value == (Labels(all, isComplex, units), Data(all, isComplex, units)))
  {
    ghost var whole := done + NodeFrom(node, val, ordinal, 0);
    ghost var seen := done;
    var ls, d := labels, data;
    var j := 0;
    while j < |node| && j < |val|
      invariant 0 <= j
      invariant whole == seen + NodeFrom(node, val, ordinal, j)
      invariant forall k :: 0 <= k < |seen| ==> EntryOk(seen[k], isComplex, units)
      invariant ls == Labels(seen, isComplex, units)
      invariant d == Data(seen, isComplex, units)
      decreases |node| - j
    {
      ghost var e := Entry(node[j], val[j], ordinal);
      ghost var rest := NodeFrom(node, val, ordinal, j + 1);
      assert NodeFrom(node, val, ordinal, j) == [e] + rest;
      AppendAssoc(seen, [e], rest);
      var step := Visit(node[j], val[j], ordinal, isComplex, units, ls, d);
      if step.Err? {
        ReportedFailure(seen, e, rest, isComplex, units);
        return Err(step.error);
      }
      ls, d := step.value.0, step.value.1;
      LabelsDataStep(seen, e, isComplex, units);
      seen := seen + [e];
      j := j + 1;
    }
    assert NodeFrom(node, val, ordinal, j) == [];
    assert seen + [] == seen;
    return Ok((ls, d));
  }

  /** One loop iteration extends the labels and the dict as the specification
      functions say. */
  lemma LabelsDataStep<X>(done: seq<Entry<X>>, e: Entry<X>, isComplex: bool, units: seq<string>)
    requires forall k :: 0 <= k < |done| ==> EntryOk(done[k], isComplex, units)
    requires EntryOk(e, isComplex, units)
    ensures forall k :: 0 <= k < |done + [e]| ==> EntryOk((done + [e])[k], isComplex, units)
    ensures Labels(done + [e], isComplex, units) == Labels(done, isComplex, units) + EntryLabels(e, isComplex, units)
    ensures Data(done + [e], isComplex, units) == Data(done, isComplex, units) + EntryData(e, isComplex, units)
  {
    assert (done + [e])[..|done|] == done;
  }

  /** A failing iteration after iterations that all succeed is the failure
      the construction reports. */
  lemma ReportedFailure<X>(done: seq<Entry<X>>, e: Entry<X>, rest: seq<Entry<X>>, isComplex: bool, units: seq<string>)
    requires forall k :: 0 <= k < |done| ==> EntryOk(done[k], isComplex, units)
    requires !EntryOk(e, isComplex, units)
    ensures EntryError(done + [e] + rest, isComplex, units) == Some(EntryFailure(e))
  {
    var es := done + [e] + rest;
    var r := EntryError(es, isComplex, units);
    assert es[|done|] == e;
    EntryErrorFirst(es, isComplex, units);
    var k :| 0 <= k < |es| && !EntryOk(es[k], isComplex, units)
             && (forall j :: 0 <= j < k ==> EntryOk(es[j], isComplex, units))
             && r.value == EntryFailure(es[k]);
  }

  /** Iterations that all succeed raise nothing. */
  lemma NoEntryError<X>(es: seq<Entry<X>>, isComplex: bool, units: seq<string>)
    requires forall k :: 0 <= k < |es| ==> EntryOk(es[k], isComplex, units)
    ensures EntryError(es, isComplex, units) == None
  {
    EntryErrorFirst(es, isComplex, units);
  }

  /** Iterations after a failing one change nothing about the failure. */
  lemma {:induction false} ErrorPrefix<X>(es: seq<Entry<X>>, rest: seq<Entry<X>>, isComplex: bool, units: seq<string>)
    requires EntryError(es, isComplex, units).Some?
    ensures EntryError(es + rest, isComplex, units) == EntryError(es, isComplex, units)
  {
    assert (es + rest)[0] == es[0];
    if EntryOk(es[0], isComplex, units) {
      assert (es + rest)[1..] == es[1..] + rest;
      ErrorPrefix(es[1..], rest, isComplex, units);
    }
  }

  /** Every column of a freshly built record holds one reading. */
  lemma {:induction false} DataSingletons<X>(es: seq<Entry<X>>, isComplex: bool, units: seq<string>)
    requires forall k :: 0 <= k < |es| ==> EntryOk(es[k], isComplex, units)
    ensures forall l :: l in Data(es, isComplex, units) ==> |Data(es, isComplex, units)[l]| == 1
  {
    if es != [] {
      DataSingletons(es[..|es| - 1], isComplex, units);
    }
  }

  /** A freshly built record from nodes that list each phase once (and, for
      magnitude/angle records, two distinct units) has a table with one
      column per label, in label order, each holding the one reading that
      the label was built with. */
  lemma BuiltTable<X>(name: string, value: seq<X>, nodes: seq<seq<int>>, isComplex: bool, units: seq<string>)
    requires |nodes| > 0 && RunLength(|value|, |nodes|) > 0
    requires forall k :: 0 <= k < |Entries(value, nodes)| ==> EntryOk(Entries(value, nodes)[k], isComplex, units)
    requires forall i :: 0 <= i < |nodes| ==> Distinct(nodes[i])
    requires !isComplex && |units| >= 2 ==> units[0] != units[1]
    ensures var es := Entries(value, nodes);
            var labels := Labels(es, isComplex, units);
            var d := Data(es, isComplex, units);
            d.Keys == Elements(labels)
            && Table(name, labels, d).Ok?
            && |Table(name, labels, d).value| == Width(isComplex) * |es|
            && forall k :: 0 <= k < |labels| ==>
                 Table(name, labels, d).value[k] == Column(MakeColumn(name, labels[k]), d[labels[k]])
                 && |d[labels[k]]| == 1
  {
    var es := Entries(value, nodes);
    var labels := Labels(es, isComplex, units);
    var d := Data(es, isComplex, units);
    NoRepeatedPhases(value, nodes);
    if es != [] {
      assert EntryOk(es[0], isComplex, units);
      LabelsDistinct(es, isComplex, units);
    }
    DataKeys(es, isComplex, units);
    DataSingletons(es, isComplex, units);
    LabelsLength(es, isComplex, units);
    DedupLength(labels);
    forall k | 0 <= k < |labels| ensures labels[k] in d && |d[labels[k]]| == 1 {
      assert labels[k] in Elements(labels);
    }
    assert SameLengths(d, Dedup(labels));
    TableColumns(name, labels, d);
  }
}
