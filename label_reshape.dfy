/** The pure half of `ValueByLabel.__init__` (PyDSS/value_storage.py): how a
    flat vector of raw readings is cut into pairs and per-node runs, and which
    labels and initial columns each consumed pair produces. */
module LabelReshape {
  import opened Errors
  import opened PyStrings
  import opened Sequences

  /** A stored reading: a raw reading, or a complex number built from a pair
      of raw readings (kept as an uninterpreted pair). */
  datatype Reading<X> = Scalar(x: X) | Complex(re: X, im: X)

  /** `phs`: phase code to phase letter. */
  function PhaseLetter(code: int): Option<char>
  {
    if code == 1 then Some('A')
    else if code == 2 then Some('B')
    else if code == 3 then Some('C')
    else if code == 0 then Some('N')
    else None
  }

  /** Distinct phase codes have distinct letters. */
  lemma PhaseLetterInjective(c1: int, c2: int)
    requires PhaseLetter(c1).Some? && PhaseLetter(c2).Some?
    requires PhaseLetter(c1) == PhaseLetter(c2)
    ensures c1 == c2
  {
  }

  // ---------------------------------------------------------------------------
  // Reshaping
  // ---------------------------------------------------------------------------

  /** `[s[i * k:(i + 1) * k] for i in range((len(s) + k - 1) // k)]`: `s` cut
      into runs of `k`, the last one possibly shorter. */
  function Chunks<T>(s: seq<T>, k: nat): seq<seq<T>>
    requires k > 0
    decreases |s|
  {
    if |s| == 0 then []
    else if |s| <= k then [s]
    else [s[..k]] + Chunks(s[k..], k)
  }

  /** Every full run of `k` elements is a chunk. */
  lemma {:induction false} ChunkAt<T>(s: seq<T>, k: nat, i: nat)
    requires k > 0 && (i + 1) * k <= |s|
    ensures i < |Chunks(s, k)| && Chunks(s, k)[i] == s[i * k..(i + 1) * k]
    decreases i
  {
    if i > 0 {
      var lo := (i - 1) * k;
      var hi := i * k;
      assert hi == lo + k && (i + 1) * k == hi + k by {
        MulStep(i - 1, k);
        MulStep(i, k);
      }
      ChunkAt(s[k..], k, i - 1);
      DropSlice(s, k, lo, hi);
    }
  }

  lemma MulStep(i: nat, k: nat)
    ensures (i + 1) * k == i * k + k
  {
  }

  /** A slice of `s[k..]` is a slice of `s` shifted by `k`. */
  lemma DropSlice<T>(s: seq<T>, k: nat, lo: nat, hi: nat)
    requires k <= |s| && lo <= hi <= |s| - k
    ensures s[k..][lo..hi] == s[k + lo..k + hi]
  {
  }

  /** The pair size `n` of the constructor. */
  const PAIR: nat := 2

  /** `m = int(len(value) / (len(Nodes) * n))`: the number of pairs given to
      each node. */
  function RunLength(valueCount: nat, nodeCount: nat): nat
    requires nodeCount > 0
  {
    valueCount / (PAIR * nodeCount)
  }

  /** The value after both reshaping comprehensions: runs of `m` pairs. */
  function Groups<X>(value: seq<X>, m: nat): seq<seq<seq<X>>>
    requires m > 0
  {
    Chunks(Chunks(value, PAIR), m)
  }

  /** One iteration of the inner loop: a phase code, the pair zipped with it
      and the 1-based ordinal of its node. */
  datatype Entry<X> = Entry(code: int, pair: seq<X>, ordinal: nat)

  /** `zip(node, val)` from position `j` on, for the node with ordinal `ordinal`. */
  function NodeFrom<X>(codes: seq<int>, group: seq<seq<X>>, ordinal: nat, j: nat): seq<Entry<X>>
    decreases |codes| - j
  {
    if j >= |codes| || j >= |group| then []
    else [Entry(codes[j], group[j], ordinal)] + NodeFrom(codes, group, ordinal, j + 1)
  }

  /** `enumerate(zip(Nodes, value))` from node `i` on, with the inner zips
      flattened: the iterations of both loops, in order. */
  function EntriesFrom<X>(nodes: seq<seq<int>>, groups: seq<seq<seq<X>>>, i: nat): seq<Entry<X>>
    decreases |nodes| - i
  {
    if i >= |nodes| || i >= |groups| then []
    else NodeFrom(nodes[i], groups[i], i + 1, 0) + EntriesFrom(nodes, groups, i + 1)
  }

  /** The iterations of the constructor's loops. */
  function Entries<X>(value: seq<X>, nodes: seq<seq<int>>): seq<Entry<X>>
    requires |nodes| > 0 && RunLength(|value|, |nodes|) > 0
  {
    EntriesFrom(nodes, Groups(value, RunLength(|value|, |nodes|)), 0)
  }

  lemma MulMonotone(a: nat, b: nat, c: nat)
    requires a <= b
    ensures a * c <= b * c
  {
  }

  /** The runs given to the nodes fit in the value: `2 * len(Nodes) * m`
      readings at most. */
  lemma RunsFit(valueCount: nat, nodeCount: nat)
    requires nodeCount > 0
    ensures 2 * (nodeCount * RunLength(valueCount, nodeCount)) <= valueCount
  {
    var m := RunLength(valueCount, nodeCount);
    assert valueCount == (PAIR * nodeCount) * m + valueCount % (PAIR * nodeCount);
  }

  /** Pair `j` of run `i` lies within the first `n` runs of `m` pairs. */
  lemma RunIndex(i: nat, j: nat, m: nat, n: nat)
    requires i < n && j <= m
    ensures i * m + j <= n * m
  {
    MulMonotone(i + 1, n, m);
    MulStep(i, m);
  }

  /** What the reshape means: node `i` (of the first len(Nodes)) receives a
      full run of `m` pairs, and its `j`-th pair is the raw readings at
      `2 * (i * m + j)` and `2 * (i * m + j) + 1`, within the first
      `2 * len(Nodes) * m` readings. */
  lemma ReshapePair<X>(value: seq<X>, nodes: seq<seq<int>>, i: nat, j: nat)
    requires |nodes| > 0 && RunLength(|value|, |nodes|) > 0 && i < |nodes|
    ensures var m := RunLength(|value|, |nodes|);
            i < |Groups(value, m)| && |Groups(value, m)[i]| == m
            && (j < m ==> 2 * (i * m + j) + 2 <= 2 * (|nodes| * m)
                          && Groups(value, m)[i][j] == value[2 * (i * m + j)..2 * (i * m + j) + 2])
  {
    var n := |nodes|;
    var m := RunLength(|value|, n);
    var pairs := Chunks(value, PAIR);
    var total := n * m;
    var base := i * m;
    assert base + m <= total && 2 * total <= |value| by {
      RunIndex(i, m, m, n);
      RunsFit(|value|, n);
    }
    assert total <= |pairs| by {
      RunIndex(total - 1, 0, 1, total);
      ChunkAt(value, PAIR, total - 1);
    }
    assert (i + 1) * m == base + m by {
      MulStep(i, m);
    }
    ChunkAt(pairs, m, i);
    assert Groups(value, m)[i] == pairs[base..base + m];
    if j < m {
      var q := base + j;
      assert q + 1 <= total by {
        RunIndex(i, j + 1, m, n);
      }
      ChunkAt(value, PAIR, q);
      assert Groups(value, m)[i][j] == pairs[q];
    }
  }

  // ---------------------------------------------------------------------------
  // Labels and initial columns
  // ---------------------------------------------------------------------------

  /** How many labels each consumed pair produces. */
  function Width(isComplex: bool): nat
  {
    if isComplex then 1 else 2
  }

  /** The iteration raises nothing: its code is in `phs`, the units it reads
      exist and its pair has both readings. */
  predicate EntryOk<X>(e: Entry<X>, isComplex: bool, units: seq<string>)
  {
    PhaseLetter(e.code).Some? && |units| >= Width(isComplex) && |e.pair| >= 2
  }

  /** What a failing iteration raises: `phs[v]` is looked up first. */
  function EntryFailure<X>(e: Entry<X>): Error
  {
    if PhaseLetter(e.code).None? then KeyError(IntKey(e.code)) else IndexError
  }

  /** What the loops raise, if anything: the failure of the first failing
      iteration. */
  function EntryError<X>(es: seq<Entry<X>>, isComplex: bool, units: seq<string>): Option<Error>
  {
    if es == [] then None
    else if !EntryOk(es[0], isComplex, units) then Some(EntryFailure(es[0]))
    else EntryError(es[1..], isComplex, units)
  }

  /** The loops raise nothing exactly when every iteration succeeds, and
      otherwise raise the failure of the first iteration that fails. */
  lemma {:induction false} EntryErrorFirst<X>(es: seq<Entry<X>>, isComplex: bool, units: seq<string>)
    ensures EntryError(es, isComplex, units).None? <==> forall k :: 0 <= k < |es| ==> EntryOk(es[k], isComplex, units)
    ensures EntryError(es, isComplex, units).Some? ==>
              exists k :: 0 <= k < |es| && !EntryOk(es[k], isComplex, units)
                          && (forall j :: 0 <= j < k ==> EntryOk(es[j], isComplex, units))
                          && EntryError(es, isComplex, units).value == EntryFailure(es[k])
  {
    if es != [] && EntryOk(es[0], isComplex, units) {
      var tail := es[1..];
      EntryErrorFirst(tail, isComplex, units);
      if EntryError(tail, isComplex, units).Some? {
        var k :| 0 <= k < |tail| && !EntryOk(tail[k], isComplex, units)
                 && (forall j :: 0 <= j < k ==> EntryOk(tail[j], isComplex, units))
                 && EntryError(tail, isComplex, units).value == EntryFailure(tail[k]);
        assert es[k + 1] == tail[k];
        forall j | 0 <= j < k + 1 ensures EntryOk(es[j], isComplex, units) {
          if j > 0 {
            assert es[j] == tail[j - 1];
          }
        }
      } else {
        forall k | 0 <= k < |es| ensures EntryOk(es[k], isComplex, units) {
          if k > 0 {
            assert es[k] == tail[k - 1];
          }
        }
      }
    }
  }

  /** What `ValueByLabel.__init__` raises, if anything. */
  function ConstructError<X>(value: seq<X>, nodes: seq<seq<int>>, isComplex: bool, units: seq<string>): Option<Error>
  {
    if |nodes| == 0 || RunLength(|value|, |nodes|) == 0 then Some(ZeroDivision)
    else EntryError(Entries(value, nodes), isComplex, units)
  }

  /** `'_{}{}'.format(phs[v], str(i + 1))` */
  function BaseLabel(letter: char, ordinal: nat): string
  {
    "_" + [letter] + NatToString(ordinal)
  }

  /** `label + " " + unit` */
  function UnitLabel(letter: char, ordinal: nat, unit: string): string
  {
    BaseLabel(letter, ordinal) + " " + unit
  }

  /** The labels one iteration appends to `_labels`. */
  function EntryLabels<X>(e: Entry<X>, isComplex: bool, units: seq<string>): seq<string>
    requires EntryOk(e, isComplex, units)
  {
    var letter := PhaseLetter(e.code).value;
    if isComplex then [UnitLabel(letter, e.ordinal, units[0])]
    else [UnitLabel(letter, e.ordinal, units[0]), UnitLabel(letter, e.ordinal, units[1])]
  }

  /** The assignments one iteration makes to `_data`. */
  function EntryData<X>(e: Entry<X>, isComplex: bool, units: seq<string>): map<string, seq<Reading<X>>>
    requires EntryOk(e, isComplex, units)
  {
    var ls := EntryLabels(e, isComplex, units);
    if isComplex then map[ls[0] := [Complex(e.pair[0], e.pair[1])]]
    else map[ls[0] := [Scalar(e.pair[0])]][ls[1] := [Scalar(e.pair[1])]]
  }

  /** `_labels` after the iterations `es`. */
  function Labels<X>(es: seq<Entry<X>>, isComplex: bool, units: seq<string>): seq<string>
    requires forall k :: 0 <= k < |es| ==> EntryOk(es[k], isComplex, units)
  {
    if es == [] then []
    else Labels(es[..|es| - 1], isComplex, units) + EntryLabels(es[|es| - 1], isComplex, units)
  }

  /** `_data` after the iterations `es`; a later assignment to a label
      replaces an earlier one. */
  function Data<X>(es: seq<Entry<X>>, isComplex: bool, units: seq<string>): map<string, seq<Reading<X>>>
    requires forall k :: 0 <= k < |es| ==> EntryOk(es[k], isComplex, units)
  {
    if es == [] then map[]
    else Data(es[..|es| - 1], isComplex, units) + EntryData(es[|es| - 1], isComplex, units)
  }

  // ---------------------------------------------------------------------------
  // Properties of the construction
  // ---------------------------------------------------------------------------

  /** The construction divides by zero exactly when there are no nodes or
      fewer than two readings per node. */
  lemma ZeroDivisionWhen<X>(value: seq<X>, nodes: seq<seq<int>>, isComplex: bool, units: seq<string>)
    ensures ConstructError(value, nodes, isComplex, units) == Some(ZeroDivision)
            <==> |nodes| == 0 || |value| < PAIR * |nodes|
  {
    if |nodes| > 0 {
      RunLengthZero(|value|, |nodes|);
      if |value| >= PAIR * |nodes| {
        EntryErrorFirst(Entries(value, nodes), isComplex, units);
      }
    }
  }

  /** No node receives a pair exactly when there are fewer than two
      readings per node. */
  lemma RunLengthZero(valueCount: nat, nodeCount: nat)
    requires nodeCount > 0
    ensures RunLength(valueCount, nodeCount) == 0 <==> valueCount < PAIR * nodeCount
  {
    var d := PAIR * nodeCount;
    var m := valueCount / d;
    assert valueCount == d * m + valueCount % d;
    if m >= 1 {
      MulMonotone(1, m, d);
    }
  }

  /** Ordinals and pair completeness of the iterations of one node. */
  lemma {:induction false} NodeFromShape<X>(codes: seq<int>, group: seq<seq<X>>, ordinal: nat, j: nat)
    ensures |NodeFrom(codes, group, ordinal, j)|
            == if j >= |codes| || j >= |group| then 0
               else (if |codes| < |group| then |codes| else |group|) - j
    ensures forall k :: 0 <= k < |NodeFrom(codes, group, ordinal, j)| ==>
              NodeFrom(codes, group, ordinal, j)[k] == Entry(codes[j + k], group[j + k], ordinal)
    decreases |codes| - j
  {
    if j < |codes| && j < |group| {
      NodeFromShape(codes, group, ordinal, j + 1);
      var rest := NodeFrom(codes, group, ordinal, j + 1);
      var r := NodeFrom(codes, group, ordinal, j);
      assert r == [Entry(codes[j], group[j], ordinal)] + rest;
      forall k | 0 <= k < |r| ensures r[k] == Entry(codes[j + k], group[j + k], ordinal) {
        if k > 0 {
          assert r[k] == rest[k - 1];
        }
      }
    }
  }

  /** Every iteration of the loops from node `i` on belongs to some node
      `i' >= i` within the first len(Nodes), at a phase position below both
      that node's phase count and its run length. */
  lemma {:induction false} EntriesFromShape<X>(nodes: seq<seq<int>>, groups: seq<seq<seq<X>>>, i: nat, k: nat)
    requires k < |EntriesFrom(nodes, groups, i)|
    ensures exists i', j :: i <= i' < |nodes| && i' < |groups| && 0 <= j < |nodes[i']| && j < |groups[i']|
                            && EntriesFrom(nodes, groups, i)[k] == Entry(nodes[i'][j], groups[i'][j], i' + 1)
    decreases |nodes| - i
  {
    var here := NodeFrom(nodes[i], groups[i], i + 1, 0);
    NodeFromShape(nodes[i], groups[i], i + 1, 0);
    if k < |here| {
      assert EntriesFrom(nodes, groups, i)[k] == here[k];
      assert here[k] == Entry(nodes[i][k], groups[i][k], i + 1);
    } else {
      EntriesFromShape(nodes, groups, i + 1, k - |here|);
      var i', j :| i + 1 <= i' < |nodes| && i' < |groups| && 0 <= j < |nodes[i']| && j < |groups[i']|
                   && EntriesFrom(nodes, groups, i + 1)[k - |here|] == Entry(nodes[i'][j], groups[i'][j], i' + 1);
      assert EntriesFrom(nodes, groups, i)[k] == EntriesFrom(nodes, groups, i + 1)[k - |here|];
    }
  }

  /** Every consumed pair is complete, so `x[1]` never fails: the iteration
      `k` belongs to a node `i` and a phase `j < m`, and its pair is pair `j`
      of node `i`'s run (which `ReshapePair` locates in the raw readings). */
  lemma EntryReadings<X>(value: seq<X>, nodes: seq<seq<int>>, k: nat)
    requires |nodes| > 0 && RunLength(|value|, |nodes|) > 0
    requires k < |Entries(value, nodes)|
    ensures var m := RunLength(|value|, |nodes|);
            exists i, j :: 0 <= i < |nodes| && 0 <= j < |nodes[i]| && j < m
                           && i < |Groups(value, m)| && j < |Groups(value, m)[i]|
                           && Entries(value, nodes)[k] == Entry(nodes[i][j], Groups(value, m)[i][j], i + 1)
    ensures |Entries(value, nodes)[k].pair| == 2
  {
    var m := RunLength(|value|, |nodes|);
    var groups := Groups(value, m);
    var es := Entries(value, nodes);
    assert es == EntriesFrom(nodes, groups, 0);
    EntriesFromShape(nodes, groups, 0, k);
    var i, j :| 0 <= i < |nodes| && i < |groups| && 0 <= j < |nodes[i]| && j < |groups[i]|
                && es[k] == Entry(nodes[i][j], groups[i][j], i + 1);
    assert j < m && |groups[i][j]| == 2 by {
      PairLength(value, nodes, i, j);
    }
  }

  /** Every pair of a node's run has two readings. */
  lemma PairLength<X>(value: seq<X>, nodes: seq<seq<int>>, i: nat, j: nat)
    requires |nodes| > 0 && RunLength(|value|, |nodes|) > 0 && i < |nodes|
    requires i < |Groups(value, RunLength(|value|, |nodes|))|
    requires j < |Groups(value, RunLength(|value|, |nodes|))[i]|
    ensures j < RunLength(|value|, |nodes|) && |Groups(value, RunLength(|value|, |nodes|))[i][j]| == 2
  {
    var m := RunLength(|value|, |nodes|);
    ReshapePair(value, nodes, i, j);
    var q := i * m + j;
    assert 2 * q + 2 <= |value|;
    assert |value[2 * q..2 * q + 2]| == 2;
  }

  /** The number of pairs the loops consume from node `i` on: each node
      takes as many pairs as it has phases, at most `m`. */
  function Consumed(nodes: seq<seq<int>>, m: nat, i: nat): nat
    decreases |nodes| - i
  {
    if i >= |nodes| then 0
    else (if |nodes[i]| < m then |nodes[i]| else m) + Consumed(nodes, m, i + 1)
  }

  lemma {:induction false} EntriesFromCount<X>(value: seq<X>, nodes: seq<seq<int>>, i: nat)
    requires |nodes| > 0 && RunLength(|value|, |nodes|) > 0
    ensures var m := RunLength(|value|, |nodes|);
            |EntriesFrom(nodes, Groups(value, m), i)| == Consumed(nodes, m, i)
    decreases |nodes| - i
  {
    var m := RunLength(|value|, |nodes|);
    var groups := Groups(value, m);
    if i < |nodes| {
      ReshapePair(value, nodes, i, 0);
      NodeFromShape(nodes[i], groups[i], i + 1, 0);
      EntriesFromCount(value, nodes, i + 1);
    }
  }

  /** The loops run once per (node, phase) pair, with surplus phases and
      surplus pairs dropped. */
  lemma EntriesCount<X>(value: seq<X>, nodes: seq<seq<int>>)
    requires |nodes| > 0 && RunLength(|value|, |nodes|) > 0
    ensures |Entries(value, nodes)| == Consumed(nodes, RunLength(|value|, |nodes|), 0)
  {
    EntriesFromCount(value, nodes, 0);
  }

  /** Each iteration appends Width labels. */
  lemma {:induction false} LabelsLength<X>(es: seq<Entry<X>>, isComplex: bool, units: seq<string>)
    requires forall k :: 0 <= k < |es| ==> EntryOk(es[k], isComplex, units)
    ensures |Labels(es, isComplex, units)| == Width(isComplex) * |es|
  {
    if es != [] {
      LabelsLength(es[..|es| - 1], isComplex, units);
    }
  }

  /** `_labels` lists the labels of the iterations in loop order: the `t`-th
      label of iteration `k` is at position `Width * k + t`. */
  lemma {:induction false} LabelsAt<X>(es: seq<Entry<X>>, isComplex: bool, units: seq<string>, k: nat, t: nat)
    requires forall k :: 0 <= k < |es| ==> EntryOk(es[k], isComplex, units)
    requires k < |es| && t < Width(isComplex)
    ensures Width(isComplex) * k + t < |Labels(es, isComplex, units)|
    ensures Labels(es, isComplex, units)[Width(isComplex) * k + t] == EntryLabels(es[k], isComplex, units)[t]
  {
    var prefix := es[..|es| - 1];
    LabelsLength(prefix, isComplex, units);
    LabelsLength(es, isComplex, units);
    if k < |prefix| {
      LabelsAt(prefix, isComplex, units, k, t);
      MulMonotone(k + 1, |prefix|, Width(isComplex));
    }
  }

  /** The keys of `_data` are exactly the labels. */
  lemma {:induction false} DataKeys<X>(es: seq<Entry<X>>, isComplex: bool, units: seq<string>)
    requires forall k :: 0 <= k < |es| ==> EntryOk(es[k], isComplex, units)
    ensures Data(es, isComplex, units).Keys == Elements(Labels(es, isComplex, units))
  {
    if es != [] {
      var prefix := es[..|es| - 1];
      DataKeys(prefix, isComplex, units);
      var ls := EntryLabels(es[|es| - 1], isComplex, units);
      assert Elements(Labels(prefix, isComplex, units) + ls)
             == Elements(Labels(prefix, isComplex, units)) + Elements(ls);
    }
  }

  /** Every label of an iteration is in `_labels`. */
  lemma EntryLabelIn<X>(es: seq<Entry<X>>, isComplex: bool, units: seq<string>, k: nat, l: string)
    requires forall k :: 0 <= k < |es| ==> EntryOk(es[k], isComplex, units)
    requires k < |es| && l in EntryLabels(es[k], isComplex, units)
    ensures l in Labels(es, isComplex, units)
  {
    var ls := EntryLabels(es[k], isComplex, units);
    var t :| 0 <= t < |ls| && ls[t] == l;
    LabelsAt(es, isComplex, units, k, t);
  }

  /** With distinct labels, the column of each label holds the reading of
      the one iteration that produced it: `complex(x[0], x[1])`, or `x[0]`
      under the first unit and `x[1]` under the second. */
  lemma {:induction false} DataOfEntry<X>(es: seq<Entry<X>>, isComplex: bool, units: seq<string>, k: nat)
    requires forall k :: 0 <= k < |es| ==> EntryOk(es[k], isComplex, units)
    requires Distinct(Labels(es, isComplex, units))
    requires k < |es|
    ensures forall l :: l in EntryLabels(es[k], isComplex, units) ==>
              l in Data(es, isComplex, units) && Data(es, isComplex, units)[l] == EntryData(es[k], isComplex, units)[l]
  {
    var prefix := es[..|es| - 1];
    var last := es[|es| - 1];
    var lp := Labels(prefix, isComplex, units);
    var ll := EntryLabels(last, isComplex, units);
    assert Labels(es, isComplex, units) == lp + ll;
    if k < |prefix| {
      assert prefix[k] == es[k];
      assert Distinct(lp) by {
        forall i, j | 0 <= i < j < |lp| ensures lp[i] != lp[j] {
          assert (lp + ll)[i] == lp[i] && (lp + ll)[j] == lp[j];
        }
      }
      DataOfEntry(prefix, isComplex, units, k);
      forall l | l in EntryLabels(es[k], isComplex, units)
        ensures l !in EntryData(last, isComplex, units)
      {
        EntryLabelIn(prefix, isComplex, units, k, l);
        var i :| 0 <= i < |lp| && lp[i] == l;
        forall j | 0 <= j < |ll| ensures ll[j] != l {
          assert (lp + ll)[|lp| + j] == ll[j];
          assert (lp + ll)[i] == l;
        }
      }
    }
  }

  /** A label determines the phase letter, the ordinal and the unit it was
      built from. */
  lemma UnitLabelInjective(c1: char, o1: nat, u1: string, c2: char, o2: nat, u2: string)
    requires UnitLabel(c1, o1, u1) == UnitLabel(c2, o2, u2)
    ensures c1 == c2 && o1 == o2 && u1 == u2
  {
    var s1 := UnitLabel(c1, o1, u1);
    var s2 := UnitLabel(c2, o2, u2);
    assert s1[1] == c1 && s2[1] == c2;
    var n1 := NatToString(o1);
    var n2 := NatToString(o2);
    assert s1[2..] == n1 + " " + u1;
    assert s2[2..] == n2 + " " + u2;
    SpaceSeparated(n1, u1, n2, u2);
    NatToStringInjective(o1, o2);
  }

  /** The first space of `a + " " + x` is the one after the numeral `a`. */
  lemma FirstSpace(a: string, x: string)
    requires forall i :: 0 <= i < |a| ==> IsDigit(a[i])
    ensures (a + " " + x)[|a|] == ' '
    ensures forall i :: 0 <= i < |a| ==> (a + " " + x)[i] != ' '
  {
    forall i | 0 <= i < |a| ensures (a + " " + x)[i] != ' ' {
      assert (a + " " + x)[i] == a[i];
    }
  }

  /** Two strings joined by a space split uniquely at the first space when
      the first parts have none. */
  lemma SpaceSeparated(a: string, x: string, b: string, y: string)
    requires forall i :: 0 <= i < |a| ==> IsDigit(a[i])
    requires forall i :: 0 <= i < |b| ==> IsDigit(b[i])
    requires a + " " + x == b + " " + y
    ensures a == b && x == y
  {
    var s := a + " " + x;
    FirstSpace(a, x);
    FirstSpace(b, y);
    assert |a| == |b|;
    assert a == s[..|a|] == b;
    assert x == s[|a| + 1..] == y;
  }

  /** No two iterations share a phase code and a node ordinal. */
  predicate DistinctPhases<X>(es: seq<Entry<X>>)
  {
    forall i, j :: 0 <= i < j < |es| ==> (es[i].code, es[i].ordinal) != (es[j].code, es[j].ordinal)
  }

  /** Distinct (phase, node) pairs, and for magnitude/angle records two
      distinct units, give distinct labels. */
  lemma {:induction false} LabelsDistinct<X>(es: seq<Entry<X>>, isComplex: bool, units: seq<string>)
    requires forall k :: 0 <= k < |es| ==> EntryOk(es[k], isComplex, units)
    requires DistinctPhases(es)
    requires |units| >= Width(isComplex)
    requires !isComplex ==> units[0] != units[1]
    ensures Distinct(Labels(es, isComplex, units))
  {
    if es != [] {
      var prefix := es[..|es| - 1];
      var last := es[|es| - 1];
      assert DistinctPhases(prefix) by {
        forall i, j | 0 <= i < j < |prefix|
          ensures (prefix[i].code, prefix[i].ordinal) != (prefix[j].code, prefix[j].ordinal)
        {
          assert prefix[i] == es[i] && prefix[j] == es[j];
        }
      }
      forall k | 0 <= k < |prefix| ensures (prefix[k].code, prefix[k].ordinal) != (last.code, last.ordinal) {
        assert prefix[k] == es[k];
      }
      LabelsDistinct(prefix, isComplex, units);
      EntryLabelsDistinct(last, isComplex, units);
      LabelsApart(prefix, last, isComplex, units);
      DistinctConcat(Labels(prefix, isComplex, units), EntryLabels(last, isComplex, units));
    }
  }

  /** The labels of one iteration differ when its units do. */
  lemma EntryLabelsDistinct<X>(e: Entry<X>, isComplex: bool, units: seq<string>)
    requires EntryOk(e, isComplex, units)
    requires !isComplex ==> units[0] != units[1]
    ensures Distinct(EntryLabels(e, isComplex, units))
  {
    var ll := EntryLabels(e, isComplex, units);
    if !isComplex {
      var c := PhaseLetter(e.code).value;
      if ll[0] == ll[1] {
        UnitLabelInjective(c, e.ordinal, units[0], c, e.ordinal, units[1]);
      }
    }
  }

  /** An iteration whose (phase, node) pair is new adds labels no earlier
      iteration produced. */
  lemma LabelsApart<X>(prefix: seq<Entry<X>>, last: Entry<X>, isComplex: bool, units: seq<string>)
    requires forall k :: 0 <= k < |prefix| ==> EntryOk(prefix[k], isComplex, units)
    requires EntryOk(last, isComplex, units)
    requires forall k :: 0 <= k < |prefix| ==> (prefix[k].code, prefix[k].ordinal) != (last.code, last.ordinal)
    ensures forall i, t :: 0 <= i < |Labels(prefix, isComplex, units)| && 0 <= t < |EntryLabels(last, isComplex, units)|
              ==> Labels(prefix, isComplex, units)[i] != EntryLabels(last, isComplex, units)[t]
  {
    var lp := Labels(prefix, isComplex, units);
    var ll := EntryLabels(last, isComplex, units);
    var w := Width(isComplex);
    LabelsLength(prefix, isComplex, units);
    forall i, t | 0 <= i < |lp| && 0 <= t < |ll| ensures lp[i] != ll[t] {
      var k := i / w;
      var t' := i % w;
      assert i == w * k + t';
      assert k < |prefix|;
      LabelsAt(prefix, isComplex, units, k, t');
      var e := prefix[k];
      var c1 := PhaseLetter(e.code).value;
      var c2 := PhaseLetter(last.code).value;
      var u1 := units[t'];
      var u2 := units[t];
      assert lp[i] == UnitLabel(c1, e.ordinal, u1);
      assert ll[t] == UnitLabel(c2, last.ordinal, u2);
      if lp[i] == ll[t] {
        UnitLabelInjective(c1, e.ordinal, u1, c2, last.ordinal, u2);
        PhaseLetterInjective(e.code, last.code);
        assert false;
      }
    }
  }

  /** The iterations of one node carry its ordinal and, when the node lists
      each phase once, distinct codes. */
  lemma NodeFromDistinct<X>(codes: seq<int>, group: seq<seq<X>>, ordinal: nat)
    requires Distinct(codes)
    ensures DistinctPhases(NodeFrom(codes, group, ordinal, 0))
    ensures forall k :: 0 <= k < |NodeFrom(codes, group, ordinal, 0)| ==>
              NodeFrom(codes, group, ordinal, 0)[k].ordinal == ordinal
  {
    NodeFromShape(codes, group, ordinal, 0);
  }

  /** The iterations from node `i` on have distinct (code, ordinal) pairs
      and ordinals above `i`. */
  lemma {:induction false} EntriesFromDistinct<X>(nodes: seq<seq<int>>, groups: seq<seq<seq<X>>>, i: nat)
    requires forall i :: 0 <= i < |nodes| ==> Distinct(nodes[i])
    ensures DistinctPhases(EntriesFrom(nodes, groups, i))
    ensures forall k :: 0 <= k < |EntriesFrom(nodes, groups, i)| ==> EntriesFrom(nodes, groups, i)[k].ordinal > i
    decreases |nodes| - i
  {
    if i < |nodes| && i < |groups| {
      var here := NodeFrom(nodes[i], groups[i], i + 1, 0);
      var rest := EntriesFrom(nodes, groups, i + 1);
      NodeFromDistinct(nodes[i], groups[i], i + 1);
      EntriesFromDistinct(nodes, groups, i + 1);
      var es := here + rest;
      assert EntriesFrom(nodes, groups, i) == es;
      forall a, b | 0 <= a < b < |es| ensures (es[a].code, es[a].ordinal) != (es[b].code, es[b].ordinal) {
        if b < |here| {
          assert es[a] == here[a] && es[b] == here[b];
        } else if a < |here| {
          assert es[a] == here[a] && es[b] == rest[b - |here|];
        } else {
          assert es[a] == rest[a - |here|] && es[b] == rest[b - |here|];
        }
      }
      forall k | 0 <= k < |es| ensures es[k].ordinal > i {
        if k < |here| {
          assert es[k] == here[k];
        } else {
          assert es[k] == rest[k - |here|];
        }
      }
    }
  }

  /** When every node lists each phase once, no two iterations share a
      phase code and a node ordinal. */
  lemma NoRepeatedPhases<X>(value: seq<X>, nodes: seq<seq<int>>)
    requires |nodes| > 0 && RunLength(|value|, |nodes|) > 0
    requires forall i :: 0 <= i < |nodes| ==> Distinct(nodes[i])
    ensures DistinctPhases(Entries(value, nodes))
  {
    EntriesFromDistinct(nodes, Groups(value, RunLength(|value|, |nodes|)), 0);
  }
}
