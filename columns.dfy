/** Column keys of the tables built from value records, and the column
    lookup `_ValueStorageBase.get_columns` (PyDSS/value_storage.py). */
module ColumnKeys {
  import opened Errors
  import opened PyStrings

  /** `_ValueStorageBase.DELIMITER` */
  const DELIMITER: string := "__"

  /** The `label` argument of get_columns, which may be a str or an int.
      The fields of a key are strings, so an int label never equals one. */
  datatype Label = StrLabel(text: string) | IntLabel(number: int)

  /** One column of a table: its key and its values from top to bottom. */
  datatype Column<V> = Column(key: string, values: seq<V>)

  /** A pandas DataFrame, as its columns in table order. */
  type DataFrame<V> = seq<Column<V>>

  /** `df.columns` */
  function Keys<V>(df: DataFrame<V>): seq<string>
  {
    seq(|df|, i requires 0 <= i < |df| => df[i].key)
  }

  /** `DELIMITER.join((name, field))`: the key of a column. */
  function MakeColumn(name: string, field: string): string
  {
    Join([name, field], DELIMITER)
  }

  /** A key built from two safe fields splits back into those two fields. */
  lemma MakeColumnFields(name: string, field: string)
    requires LeadingField(name, DELIMITER) && DelimiterFree(field, DELIMITER)
    ensures Split(MakeColumn(name, field), DELIMITER) == [name, field]
  {
    SplitJoin([name, field], DELIMITER);
  }

  /** The key `key` trips one of the two assertions of get_columns: it has
      fewer than two fields, or a lbl is asked for and the key matches
      (name, prop) without having exactly three fields. */
  predicate KeyFails(key: string, name: string, prop: string, lbl: Option<Label>)
  {
    var f := Split(key, DELIMITER);
    |f| < 2 || (lbl.Some? && f[0] == name && f[1] == prop && |f| != 3)
  }

  /** The key `key` is one that get_columns returns. */
  predicate KeyMatches(key: string, name: string, prop: string, lbl: Option<Label>)
  {
    var f := Split(key, DELIMITER);
    |f| >= 2 && f[0] == name && f[1] == prop
    && (lbl.None? || (|f| == 3 && lbl.value == StrLabel(f[2])))
  }

  /** The index of the first key that trips an assertion. */
  function FirstFailure(keys: seq<string>, name: string, prop: string, lbl: Option<Label>): (r: Option<nat>)
    ensures r.Some? ==> r.value < |keys| && KeyFails(keys[r.value], name, prop, lbl)
                        && forall j :: 0 <= j < r.value ==> !KeyFails(keys[j], name, prop, lbl)
    ensures r.None? ==> forall j :: 0 <= j < |keys| ==> !KeyFails(keys[j], name, prop, lbl)
  {
    if keys == [] then None
    else
      var prefix := keys[..|keys| - 1];
      match FirstFailure(prefix, name, prop, lbl)
      case Some(i) => Some(i)
      case None =>
        if KeyFails(keys[|keys| - 1], name, prop, lbl) then Some(|keys| - 1) else None
  }

  /** A failing key after a prefix without failures is the first failure. */
  lemma FirstFailureAt(keys: seq<string>, i: nat, name: string, prop: string, lbl: Option<Label>)
    requires i < |keys| && FirstFailure(keys[..i], name, prop, lbl) == None
    requires KeyFails(keys[i], name, prop, lbl)
    ensures FirstFailure(keys, name, prop, lbl) == Some(i)
  {
    forall j | 0 <= j < i ensures !KeyFails(keys[j], name, prop, lbl) {
      assert keys[..i][j] == keys[j];
    }
  }

  /** The matching keys, in table order. */
  function Matching(keys: seq<string>, name: string, prop: string, lbl: Option<Label>): seq<string>
  {
    if keys == [] then []
    else
      var last := keys[|keys| - 1];
      Matching(keys[..|keys| - 1], name, prop, lbl)
      + (if KeyMatches(last, name, prop, lbl) then [last] else [])
  }

  /** `str(exc)` of the InvalidParameter that get_columns raises. */
  function NotFoundMessage(name: string): string
  {
    name + " does not exist in DataFrame"
  }

  /** What get_columns returns or raises for a table whose keys are `keys`. */
  function ColumnsFor(keys: seq<string>, name: string, prop: string, lbl: Option<Label>): Result<seq<string>>
  {
    match FirstFailure(keys, name, prop, lbl)
    case Some(i) => Err(AssertionFailed(keys[i]))
    case None =>
      var found := Matching(keys, name, prop, lbl);
      if found == [] then Err(InvalidParameter(NotFoundMessage(name))) else Ok(found)
  }

  /** `_ValueStorageBase.get_columns(df, name, prop, lbl)` */
  method GetColumns<V>(df: DataFrame<V>, name: string, prop: string, lbl: Option<Label>)
    returns (r: Result<seq<string>>)
    ensures r == ColumnsFor(Keys(df), name, prop, lbl)
  {
    ghost var keys := Keys(df);
    var columns: seq<string> := [];
    var i := 0;
    while i < |df|
      invariant 0 <= i <= |df|
      invariant FirstFailure(keys[..i], name, prop, lbl) == None
      invariant columns == Matching(keys[..i], name, prop, lbl)
    {
      var column := df[i].key;
      ColumnsStep(keys, i, name, prop, lbl);
      var fields := Split(column, DELIMITER);
      if |fields| < 2 {
        FirstFailureAt(keys, i, name, prop, lbl);
        return Err(AssertionFailed(column));
      }
      if fields[0] == name && fields[1] == prop {
        if lbl.None? {
          columns := columns + [column];
        } else {
          if |fields| != 3 {
            FirstFailureAt(keys, i, name, prop, lbl);
            return Err(AssertionFailed(column));
          }
          if lbl.value == StrLabel(fields[2]) {
            columns := columns + [column];
          }
        }
      }
      i := i + 1;
    }
    assert keys[..i] == keys;
    if columns == [] {
      return Err(InvalidParameter(NotFoundMessage(name)));
    }
    return Ok(columns);
  }

  /** One more key of the table: it is the first failure when it fails, and
      it is matched when it matches. */
  lemma ColumnsStep(keys: seq<string>, i: nat, name: string, prop: string, lbl: Option<Label>)
    requires i < |keys|
    ensures FirstFailure(keys[..i], name, prop, lbl) == None ==>
              FirstFailure(keys[..i + 1], name, prop, lbl)
              == if KeyFails(keys[i], name, prop, lbl) then Some(i) else None
    ensures Matching(keys[..i + 1], name, prop, lbl)
            == Matching(keys[..i], name, prop, lbl) + (if KeyMatches(keys[i], name, prop, lbl) then [keys[i]] else [])
  {
    assert keys[..i + 1][..i] == keys[..i];
  }

  /** The matching keys are exactly the keys that match. */
  lemma {:induction false} MatchingMembers(keys: seq<string>, name: string, prop: string, lbl: Option<Label>, x: string)
    ensures x in Matching(keys, name, prop, lbl) <==> x in keys && KeyMatches(x, name, prop, lbl)
    decreases |keys|
  {
    if keys != [] {
      var prefix := keys[..|keys| - 1];
      MatchingMembers(prefix, name, prop, lbl, x);
      assert keys == prefix + [keys[|keys| - 1]];
    }
  }

  /** Matching keeps table order: the matches of a table split in two are
      the matches of the first part followed by those of the second. */
  lemma {:induction false} MatchingConcat(a: seq<string>, b: seq<string>, name: string, prop: string, lbl: Option<Label>)
    ensures Matching(a + b, name, prop, lbl) == Matching(a, name, prop, lbl) + Matching(b, name, prop, lbl)
    decreases |b|
  {
    if b != [] {
      var b' := b[..|b| - 1];
      assert (a + b)[..|a + b| - 1] == a + b';
      var last := b[|b| - 1];
      assert (a + b)[|a + b| - 1] == last;
      var tail := if KeyMatches(last, name, prop, lbl) then [last] else [];
      assert Matching(a + b, name, prop, lbl) == Matching(a + b', name, prop, lbl) + tail;
      assert Matching(b, name, prop, lbl) == Matching(b', name, prop, lbl) + tail;
      MatchingConcat(a, b', name, prop, lbl);
    } else {
      assert a + b == a;
    }
  }

  /** get_columns succeeds when no key trips an assertion and some key
      matches; it then returns exactly the matching keys. */
  lemma ColumnsFound(keys: seq<string>, name: string, prop: string, lbl: Option<Label>)
    ensures ColumnsFor(keys, name, prop, lbl).Ok?
            <==> (forall j :: 0 <= j < |keys| ==> !KeyFails(keys[j], name, prop, lbl))
                 && (exists j :: 0 <= j < |keys| && KeyMatches(keys[j], name, prop, lbl))
    ensures ColumnsFor(keys, name, prop, lbl).Ok? ==>
              forall x :: x in ColumnsFor(keys, name, prop, lbl).value
                          <==> x in keys && KeyMatches(x, name, prop, lbl)
  {
    var found := Matching(keys, name, prop, lbl);
    forall x ensures x in found <==> x in keys && KeyMatches(x, name, prop, lbl) {
      MatchingMembers(keys, name, prop, lbl, x);
    }
    if found != [] {
      assert found[0] in found;
    }
    if exists j :: 0 <= j < |keys| && KeyMatches(keys[j], name, prop, lbl) {
      var j :| 0 <= j < |keys| && KeyMatches(keys[j], name, prop, lbl);
      assert keys[j] in found;
    }
  }

  /** get_columns raises InvalidParameter exactly when no key trips an
      assertion and no key matches. */
  lemma ColumnsNotFound(keys: seq<string>, name: string, prop: string, lbl: Option<Label>)
    ensures ColumnsFor(keys, name, prop, lbl) == Err(InvalidParameter(NotFoundMessage(name)))
            <==> (forall j :: 0 <= j < |keys| ==> !KeyFails(keys[j], name, prop, lbl))
                 && (forall j :: 0 <= j < |keys| ==> !KeyMatches(keys[j], name, prop, lbl))
  {
    var found := Matching(keys, name, prop, lbl);
    forall x ensures x in found <==> x in keys && KeyMatches(x, name, prop, lbl) {
      MatchingMembers(keys, name, prop, lbl, x);
    }
    if found != [] {
      assert found[0] in found;
    }
  }

  /** A key `name__prop__label` built from fields without '_' is found both
      by (name, prop) and by (name, prop, lbl), and not under another lbl. */
  lemma ThreeFieldKey(name: string, prop: string, lbl: string, other: string)
    requires forall i :: 0 <= i < |name| ==> name[i] != '_'
    requires forall i :: 0 <= i < |prop| ==> prop[i] != '_'
    requires forall i :: 0 <= i < |lbl| ==> lbl[i] != '_'
    requires other != lbl
    ensures KeyMatches(Join([name, prop, lbl], DELIMITER), name, prop, None)
    ensures KeyMatches(Join([name, prop, lbl], DELIMITER), name, prop, Some(StrLabel(lbl)))
    ensures !KeyFails(Join([name, prop, lbl], DELIMITER), name, prop, Some(StrLabel(other)))
    ensures !KeyMatches(Join([name, prop, lbl], DELIMITER), name, prop, Some(StrLabel(other)))
  {
    UnderscoreFreeField(name);
    UnderscoreFreeField(prop);
    UnderscoreFreeField(lbl);
    SplitJoin([name, prop, lbl], DELIMITER);
  }

  /** An int label is never found: get_columns raises the AssertionError of
      the first key that trips an assertion (a key with fewer than two
      fields, or one matching (name, prop) without a third field), and
      otherwise InvalidParameter. */
  lemma IntLabelNeverFound(keys: seq<string>, name: string, prop: string, n: int)
    ensures var r := ColumnsFor(keys, name, prop, Some(IntLabel(n)));
            match FirstFailure(keys, name, prop, Some(IntLabel(n)))
            case Some(i) => r == Err(AssertionFailed(keys[i]))
            case None => r == Err(InvalidParameter(NotFoundMessage(name)))
    ensures forall j :: 0 <= j < |keys| ==> !KeyMatches(keys[j], name, prop, Some(IntLabel(n)))
  {
    var lbl := Some(IntLabel(n));
    NoMatchIsEmpty(keys, name, prop, lbl);
  }

  /** Nothing is matched when no key matches. */
  lemma {:induction false} NoMatchIsEmpty(keys: seq<string>, name: string, prop: string, lbl: Option<Label>)
    requires forall j :: 0 <= j < |keys| ==> !KeyMatches(keys[j], name, prop, lbl)
    ensures Matching(keys, name, prop, lbl) == []
    decreases |keys|
  {
    if keys != [] {
      NoMatchIsEmpty(keys[..|keys| - 1], name, prop, lbl);
    }
  }
}
