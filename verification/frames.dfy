/** `to_DF` and its two builders, which turn the `output` list of a query
    result into a table. The model keeps the dictionary the builders hand
    to pandas. A multi-key result may be ragged: its entries need not share
    labels, and each row is filled out over the union of all labels. */
module Frames {

  import opened Base
  import opened Seqs
  import opened OrderedDict
  import Text

  /** One element of `rel["output"]`: `rel_key.keys` and `columns`. In a
      multi-key result, `columns[0]` holds the labels and `columns[1]` the
      values. */
  datatype Entry<C> = Entry(keys: seq<string>, columns: seq<seq<C>>)

  /** The dictionary a builder produces: named columns (single key), or one
      row per relation key with a cell per label (multi-key). */
  datatype Frame<C> =
    | Columns(cols: Dict<string, seq<C>>)
    | Rows(rows: Dict<string, seq<Option<C>>>)

  /** `exit()` on mismatched explicit column names is `Exited`. */
  datatype Outcome<C> = Built(frame: Frame<C>) | Exited | Raised(error: PyError)

  function Zip<A, B>(a: seq<A>, b: seq<B>): (r: seq<(A, B)>)
    requires |a| <= |b|
    ensures |r| == |a| && forall i :: 0 <= i < |a| ==> r[i] == (a[i], b[i])
  {
    seq(|a|, i requires 0 <= i < |a| => (a[i], b[i]))
  }

  // ---------------------------------------------------------------------
  // Multi-key
  // ---------------------------------------------------------------------

  function Labels<C>(e: Entry<C>): seq<C> {
    if |e.columns| > 0 then e.columns[0] else []
  }

  /** `reduce(lambda X, Y: X + Y, [x["columns"][0] for x in output])` */
  function AllLabels<C>(output: seq<Entry<C>>): (r: seq<C>)
    ensures forall i, j :: 0 <= i < |output| && 0 <= j < |Labels(output[i])| ==> Labels(output[i])[j] in r
    ensures forall x :: x in r ==> exists i :: 0 <= i < |output| && x in Labels(output[i])
  {
    if output == [] then []
    else
      var rest := AllLabels(output[1..]);
      assert forall i :: 1 <= i < |output| ==> output[i] == output[1..][i - 1];
      Labels(output[0]) + rest
  }

  /** `order` lists the members of `set(labels)`, each once, in the order
      the set iterates them, which the model leaves open. */
  predicate IsSetOrder<C(==)>(order: seq<C>, labels: seq<C>) {
    Distinct(order) && ToSet(order) == ToSet(labels)
  }

  /** `{x: X["columns"][1][i] for (i, x) in enumerate(X["columns"][0])}` */
  function LabelValues<C(==)>(e: Entry<C>): (r: Py<Dict<C, C>>)
    requires |e.columns| > 0
    ensures r.Ok? <==> |e.columns[0]| == 0 || (|e.columns| > 1 && |e.columns[0]| <= |e.columns[1]|)
    ensures r.Raise? ==> r.error == IndexError
  {
    var labels := e.columns[0];
    if |labels| == 0 then Ok([])
    else if |e.columns| < 2 || |e.columns[1]| < |labels| then Raise(IndexError)
    else Ok(FromPairs(Zip(labels, e.columns[1])))
  }

  /** The row of an entry: for each label in `order`, its value, or `None`
      when the entry lacks the label. */
  function Row<C(==)>(kv: Dict<C, C>, order: seq<C>): (r: seq<Option<C>>)
    ensures |r| == |order|
    ensures forall j :: 0 <= j < |order| ==> (r[j].Some? <==> order[j] in Keys(kv))
  {
    seq(|order|, j requires 0 <= j < |order| => Lookup(kv, order[j]))
  }

  /** `X["rel_key"]["keys"][0].replace(":", "")` */
  function RowKey<C>(e: Entry<C>): (r: Py<string>)
    ensures r.Ok? <==> |e.keys| > 0
    ensures r.Ok? ==> ':' !in r.value
    ensures r.Raise? ==> r.error == IndexError
  {
    if |e.keys| == 0 then Raise(IndexError) else Ok(Text.Without(e.keys[0], ':'))
  }

  /** The key is the first relation key with every `:` replaced by the
      empty string, as `str.replace` does it. */
  lemma {:induction false} RowKeyReplaces<C>(e: Entry<C>)
    requires |e.keys| > 0
    ensures RowKey(e) == Ok(Text.ReplaceAll(e.keys[0], ":", ""))
  {
    Text.ReplaceCharIsWithout(e.keys[0], ':');
  }

  /** The assignment one entry makes to `data`. */
  function EntryRow<C(==)>(e: Entry<C>, order: seq<C>): (r: Py<(string, seq<Option<C>>)>)
    requires |e.columns| > 0
    ensures r.Ok? ==> |r.value.1| == |order|
  {
    var kv :- LabelValues(e);
    var key :- RowKey(e);
    Ok((key, Row(kv, order)))
  }

  /** The assignments of all entries, in order; the first failure ends the
      loop. */
  function EntryRows<C(==)>(output: seq<Entry<C>>, order: seq<C>): (r: Py<seq<(string, seq<Option<C>>)>>)
    requires forall i :: 0 <= i < |output| ==> |output[i].columns| > 0
    ensures r.Ok? <==> forall i :: 0 <= i < |output| ==> EntryRow(output[i], order).Ok?
    ensures r.Ok? ==> |r.value| == |output|
                      && forall i :: 0 <= i < |output| ==> r.value[i] == EntryRow(output[i], order).value
    decreases |output|
  {
    if output == [] then Ok([])
    else
      var init := output[..|output| - 1];
      assert forall i :: 0 <= i < |init| ==> init[i] == output[i];
      match EntryRows(init, order)
      case Raise(e) => Raise(e)
      case Ok(rows) =>
        match EntryRow(output[|output| - 1], order)
        case Raise(e) => Raise(e)
        case Ok(last) =>
          assert forall i :: 0 <= i < |output| - 1 ==> (rows + [last])[i] == rows[i];
          Ok(rows + [last])
  }

  /** `multikey_relation_to_DF(rel, return_df=False)` */
  function MultiKey<C(==)>(output: seq<Entry<C>>, order: seq<C>): (r: Outcome<C>)
    requires IsSetOrder(order, AllLabels(output))
    ensures r.Built? ==> r.frame.Rows?
    ensures !r.Exited?
    ensures (exists i :: 0 <= i < |output| && |output[i].columns| == 0) ==> r == Raised(IndexError)
    ensures output == [] ==> r == Raised(TypeError)
  {
    if exists i :: 0 <= i < |output| && |output[i].columns| == 0 then Raised(IndexError)
    else if output == [] then Raised(TypeError)
    else
      match EntryRows(output, order)
      case Raise(e) => Raised(e)
      case Ok(pairs) => Built(Rows(FromPairs(pairs)))
  }

  /** When every entry has columns, the builder fails exactly when some
      entry's assignment fails, and with that entry's exception: a value
      list shorter than the labels, or an empty `keys`, raises IndexError. */
  lemma {:induction false} MultiKeyFailsWithEntry<C>(output: seq<Entry<C>>, order: seq<C>)
    requires IsSetOrder(order, AllLabels(output))
    requires output != [] && forall i :: 0 <= i < |output| ==> |output[i].columns| > 0
    ensures MultiKey(output, order).Built? <==> EntryRows(output, order).Ok?
    ensures MultiKey(output, order).Raised? ==> MultiKey(output, order).error == EntryRows(output, order).error
    ensures MultiKey(output, order).Raised? ==>
              exists i :: 0 <= i < |output| && EntryRow(output[i], order).Raise?
  {
  }

  /** The row stored under `key` is the row of the last entry with that
      normalised key. */
  lemma {:induction false} RowOfKey<C>(output: seq<Entry<C>>, order: seq<C>, key: string)
    requires IsSetOrder(order, AllLabels(output))
    requires MultiKey(output, order).Built?
    requires key in Keys(MultiKey(output, order).frame.rows)
    ensures var pairs := EntryRows(output, order).value;
            var i := LastIndex(pairs, key);
            && 0 <= i < |output|
            && Lookup(MultiKey(output, order).frame.rows, key) == Some(pairs[i].1)
  {
    var pairs := EntryRows(output, order).value;
    FromPairsLookup(pairs, key);
    LastForAt(pairs, key);
  }

  /** Every row has one cell per distinct label, in one shared order. */
  lemma {:induction false} MultiKeyRectangular<C>(output: seq<Entry<C>>, order: seq<C>, key: string)
    requires IsSetOrder(order, AllLabels(output))
    requires MultiKey(output, order).Built?
    requires key in Keys(MultiKey(output, order).frame.rows)
    ensures |Lookup(MultiKey(output, order).frame.rows, key).value| == |order| == |ToSet(AllLabels(output))|
  {
    RowOfKey(output, order, key);
    DistinctCardinality(order);
  }

  /** Entry `i` is the last whose normalised key is `key`. */
  predicate LastWithRowKey<C>(output: seq<Entry<C>>, key: string, i: int) {
    && 0 <= i < |output| && RowKey(output[i]) == Ok(key)
    && forall j :: i < j < |output| && RowKey(output[j]).Ok? ==> RowKey(output[j]).value != key
  }

  /** Every entry's normalised key is assigned in the pairs the
      entries produce. */
  lemma {:induction false} EntryRowsKeyed<C>(output: seq<Entry<C>>, order: seq<C>, i: int)
    requires forall j :: 0 <= j < |output| ==> |output[j].columns| > 0
    requires EntryRows(output, order).Ok? && 0 <= i < |output|
    ensures RowKey(output[i]).Ok?
    ensures RowKey(output[i]).value in Keys(FromPairs(EntryRows(output, order).value))
  {
    var pairs := EntryRows(output, order).value;
    var k := pairs[i].0;
    FromPairsLookup(pairs, k);
    LastForAt(pairs, k);
  }

  /** Each entry contributes a row: its normalised key is a key of the
      result. */
  lemma {:induction false} MultiKeyEveryEntryHasRow<C>(output: seq<Entry<C>>, order: seq<C>)
    requires IsSetOrder(order, AllLabels(output))
    requires MultiKey(output, order).Built?
    ensures forall i :: 0 <= i < |output| ==>
              RowKey(output[i]).Ok? && RowKey(output[i]).value in Keys(MultiKey(output, order).frame.rows)
  {
    MultiKeyBuilt(output, order);
    forall i | 0 <= i < |output| {
      EntryRowsKeyed(output, order, i);
    }
  }

  /** The values of an entry, paired with its labels; missing values are
      left out here and make the builder fail. */
  function LabelPairs<C>(e: Entry<C>): seq<(C, C)> {
    if |e.columns| < 2 then [] else Zip(Labels(e)[..Min(|Labels(e)|, |e.columns[1]|)], e.columns[1])
  }

  function Min(a: int, b: int): int {
    if a < b then a else b
  }

  /** What a successful multi-key build consists of. */
  lemma {:induction false} MultiKeyBuilt<C>(output: seq<Entry<C>>, order: seq<C>)
    requires IsSetOrder(order, AllLabels(output))
    requires MultiKey(output, order).Built?
    ensures forall i :: 0 <= i < |output| ==> |output[i].columns| > 0
    ensures EntryRows(output, order).Ok?
    ensures MultiKey(output, order).frame.rows == FromPairs(EntryRows(output, order).value)
  {
  }

  /** The cell for a label holds the entry's value for the label (the last
      one, should the entry repeat it), or `None` when the entry lacks it. */
  lemma {:induction false} EntryCells<C>(e: Entry<C>, order: seq<C>)
    requires |e.columns| > 0 && EntryRow(e, order).Ok?
    ensures forall j :: 0 <= j < |order| ==> EntryRow(e, order).value.1[j] == LastFor(LabelPairs(e), order[j])
  {
    var kv := LabelValues(e).value;
    forall j | 0 <= j < |order|
      ensures Row(kv, order)[j] == LastFor(LabelPairs(e), order[j])
    {
      if |Labels(e)| > 0 {
        assert LabelPairs(e) == Zip(e.columns[0], e.columns[1]);
        FromPairsLookup(LabelPairs(e), order[j]);
      }
    }
  }

  /** The row stored under a key is that of the last entry with the key:
      a later entry with the same normalised key replaces an earlier one.
      Its cells are that entry's values, label by label. */
  lemma {:induction false} MultiKeyCells<C>(output: seq<Entry<C>>, order: seq<C>, key: string)
    requires IsSetOrder(order, AllLabels(output))
    requires MultiKey(output, order).Built?
    requires key in Keys(MultiKey(output, order).frame.rows)
    ensures exists i :: (LastWithRowKey(output, key, i)
                         && var row := Lookup(MultiKey(output, order).frame.rows, key).value;
                            |row| == |order|
                            && forall j :: 0 <= j < |order| ==> row[j] == LastFor(LabelPairs(output[i]), order[j]))
  {
    MultiKeyBuilt(output, order);
    var pairs := EntryRows(output, order).value;
    RowOfKey(output, order, key);
    var i := LastIndex(pairs, key);
    forall j | i < j < |output| && RowKey(output[j]).Ok?
      ensures RowKey(output[j]).value != key
    {
      assert pairs[j] == EntryRow(output[j], order).value;
    }
    assert pairs[i] == EntryRow(output[i], order).value;
    EntryCells(output[i], order);
    assert LastWithRowKey(output, key, i);
  }

  /** The choice of set order moves cells but changes none: the rows have
      the same keys, in the same order, and a label's cell is the same
      under either order. */
  lemma {:induction false} MultiKeyOrderIndependent<C>(output: seq<Entry<C>>, o1: seq<C>, o2: seq<C>, key: string)
    requires IsSetOrder(o1, AllLabels(output)) && IsSetOrder(o2, AllLabels(output))
    ensures MultiKey(output, o1).Built? <==> MultiKey(output, o2).Built?
    ensures MultiKey(output, o1).Built? ==>
              var r1 := MultiKey(output, o1).frame.rows;
              var r2 := MultiKey(output, o2).frame.rows;
              && Keys(r1) == Keys(r2)
              && (key in Keys(r1) ==>
                    var row1, row2 := Lookup(r1, key).value, Lookup(r2, key).value;
                    && |row1| == |o1| && |row2| == |o2|
                    && forall j1, j2 :: 0 <= j1 < |o1| && 0 <= j2 < |o2| && o1[j1] == o2[j2] ==> row1[j1] == row2[j2])
  {
    if forall i :: 0 <= i < |output| ==> |output[i].columns| > 0 {
      EntryRowsOrderIndependent(output, o1, o2);
      if MultiKey(output, o1).Built? {
        MultiKeyBuilt(output, o1);
        MultiKeyBuilt(output, o2);
        var p1 := EntryRows(output, o1).value;
        var p2 := EntryRows(output, o2).value;
        FromPairsKeysOfKeys(p1, p2);
        if key in Keys(FromPairs(p1)) {
          CellsAgree(output, o1, o2, key);
        }
      }
    }
  }

  lemma {:induction false} CellsAgree<C>(output: seq<Entry<C>>, o1: seq<C>, o2: seq<C>, key: string)
    requires IsSetOrder(o1, AllLabels(output)) && IsSetOrder(o2, AllLabels(output))
    requires MultiKey(output, o1).Built? && MultiKey(output, o2).Built?
    requires key in Keys(MultiKey(output, o1).frame.rows)
    requires Keys(MultiKey(output, o1).frame.rows) == Keys(MultiKey(output, o2).frame.rows)
    ensures var row1 := Lookup(MultiKey(output, o1).frame.rows, key).value;
            var row2 := Lookup(MultiKey(output, o2).frame.rows, key).value;
            && |row1| == |o1| && |row2| == |o2|
            && forall j1, j2 :: 0 <= j1 < |o1| && 0 <= j2 < |o2| && o1[j1] == o2[j2] ==> row1[j1] == row2[j2]
  {
    MultiKeyBuilt(output, o1);
    MultiKeyBuilt(output, o2);
    EntryRowsOrderIndependent(output, o1, o2);
    RowOfKey(output, o1, key);
    RowOfKey(output, o2, key);
    PairsCellsAgree(output, o1, o2, key);
  }

  /** The same, for the assignments before they are collected. */
  lemma {:induction false} PairsCellsAgree<C>(output: seq<Entry<C>>, o1: seq<C>, o2: seq<C>, key: string)
    requires forall i :: 0 <= i < |output| ==> |output[i].columns| > 0
    requires EntryRows(output, o1).Ok? && EntryRows(output, o2).Ok?
    requires Keys(EntryRows(output, o1).value) == Keys(EntryRows(output, o2).value)
    ensures var p1, p2 := EntryRows(output, o1).value, EntryRows(output, o2).value;
            var i := LastIndex(p1, key);
            && LastIndex(p2, key) == i
            && (i >= 0 ==>
                  && |p1[i].1| == |o1| && |p2[i].1| == |o2|
                  && forall j1, j2 :: 0 <= j1 < |o1| && 0 <= j2 < |o2| && o1[j1] == o2[j2] ==> p1[i].1[j1] == p2[i].1[j2])
  {
    var p1, p2 := EntryRows(output, o1).value, EntryRows(output, o2).value;
    LastIndexOfKeys(p1, p2, key);
    var i := LastIndex(p1, key);
    if i >= 0 {
      assert p1[i] == EntryRow(output[i], o1).value;
      assert p2[i] == EntryRow(output[i], o2).value;
    }
  }

  /** Under two set orders the entries fail alike, and succeed with the same
      keys. */
  lemma {:induction false} EntryRowsOrderIndependent<C>(output: seq<Entry<C>>, o1: seq<C>, o2: seq<C>)
    requires forall i :: 0 <= i < |output| ==> |output[i].columns| > 0
    ensures EntryRows(output, o1).Ok? <==> EntryRows(output, o2).Ok?
    ensures EntryRows(output, o1).Ok? ==> Keys(EntryRows(output, o1).value) == Keys(EntryRows(output, o2).value)
  {
    assert forall i :: 0 <= i < |output| ==>
             (EntryRow(output[i], o1).Ok? <==> EntryRow(output[i], o2).Ok?);
    if EntryRows(output, o1).Ok? {
      var p1 := EntryRows(output, o1).value;
      var p2 := EntryRows(output, o2).value;
      assert forall i :: 0 <= i < |p1| ==> Keys(p1)[i] == p1[i].0 == p2[i].0 == Keys(p2)[i];
    }
  }

  // ---------------------------------------------------------------------
  // Single key
  // ---------------------------------------------------------------------

  /** `f"x{i}"` */
  function AutoName(i: nat): string {
    "x" + Text.Dec(i)
  }

  /** `single_key_relation_to_DF(rel, return_df=False, columns)`, where
      `columns` is `None` or a list of names. */
  function SingleKey<C>(e: Entry<C>, names: Option<seq<string>>): (r: Outcome<C>)
    ensures r.Exited? <==> names.Some? && |names.value| != |e.columns|
    ensures !r.Raised?
    ensures r.Built? ==> r.frame.Columns?
    ensures names.Some? && r.Built? ==> r.frame.cols == FromPairs(Zip(names.value, e.columns))
  {
    match names
    case Some(ns) =>
      if |ns| != |e.columns| then Exited
      else Built(Columns(FromPairs(Zip(ns, e.columns))))
    case None =>
      Built(Columns(FromPairs(seq(|e.columns|, i requires 0 <= i < |e.columns| => (AutoName(i), e.columns[i])))))
  }

  /** Without explicit names, column `x{i}` is the entry's i-th column,
      unchanged and in order, and there is no other column. */
  lemma {:induction false} SingleKeyPositional<C>(e: Entry<C>)
    ensures SingleKey(e, None) == Built(Columns(seq(|e.columns|, i requires 0 <= i < |e.columns| => (AutoName(i), e.columns[i]))))
  {
    var ps := seq(|e.columns|, i requires 0 <= i < |e.columns| => (AutoName(i), e.columns[i]));
    forall i, j | 0 <= i < j < |ps|
      ensures Keys(ps)[i] != Keys(ps)[j]
    {
      Text.DecInjective(i, j);
      assert AutoName(i)[1..] == Text.Dec(i) && AutoName(j)[1..] == Text.Dec(j);
    }
    FromDistinctPairs(ps);
  }

  /** With distinct explicit names of the right number, name i holds the
      entry's i-th column. */
  lemma {:induction false} SingleKeyNamed<C>(e: Entry<C>, names: seq<string>)
    requires |names| == |e.columns| && Distinct(names)
    ensures SingleKey(e, Some(names)) == Built(Columns(Zip(names, e.columns)))
  {
    var ps := Zip(names, e.columns);
    assert Keys(ps) == names;
    FromDistinctPairs(ps);
  }

  // ---------------------------------------------------------------------
  // to_DF
  // ---------------------------------------------------------------------

  /** `to_DF(rel, columns, return_df=False)`: the single-key builder for a
      one-entry output, the multi-key builder otherwise. */
  function ToDF<C(==)>(output: seq<Entry<C>>, names: Option<seq<string>>, order: seq<C>): (r: Outcome<C>)
    requires IsSetOrder(order, AllLabels(output))
    ensures r.Built? ==> (r.frame.Columns? <==> |output| == 1)
    ensures r.Exited? ==> |output| == 1 && names.Some?
    ensures r.Raised? ==> |output| != 1
  {
    if |output| == 1 then SingleKey(output[0], names) else MultiKey(output, order)
  }

  /** A one-entry result is its entry's columns: `x{i}` for column i
      without names, name i for column i with distinct names. */
  lemma {:induction false} ToDFOneEntry<C>(e: Entry<C>, names: Option<seq<string>>, order: seq<C>)
    requires IsSetOrder(order, AllLabels([e]))
    ensures names.None? ==>
              ToDF([e], names, order) == Built(Columns(seq(|e.columns|, i requires 0 <= i < |e.columns| => (AutoName(i), e.columns[i]))))
    ensures names.Some? && |names.value| == |e.columns| && Distinct(names.value) ==>
              ToDF([e], names, order) == Built(Columns(Zip(names.value, e.columns)))
    ensures names.Some? && |names.value| != |e.columns| ==> ToDF([e], names, order) == Exited
  {
    if names.None? {
      SingleKeyPositional(e);
    } else if |names.value| == |e.columns| && Distinct(names.value) {
      SingleKeyNamed(e, names.value);
    }
  }

  /** A result of several entries is keyed rows: every entry's key has a
      row, and a row's cells are those of the last entry with its key. */
  lemma {:induction false} ToDFSeveralEntries<C>(output: seq<Entry<C>>, names: Option<seq<string>>, order: seq<C>, key: string)
    requires IsSetOrder(order, AllLabels(output)) && |output| > 1
    requires ToDF(output, names, order).Built?
    ensures ToDF(output, names, order).frame.Rows?
    ensures forall i :: 0 <= i < |output| ==>
              RowKey(output[i]).Ok? && RowKey(output[i]).value in Keys(ToDF(output, names, order).frame.rows)
    ensures key in Keys(ToDF(output, names, order).frame.rows) ==>
              exists i :: (LastWithRowKey(output, key, i)
                           && var row := Lookup(ToDF(output, names, order).frame.rows, key).value;
                              |row| == |order|
                              && forall j :: 0 <= j < |order| ==> row[j] == LastFor(LabelPairs(output[i]), order[j]))
  {
    assert ToDF(output, names, order) == MultiKey(output, order);
    MultiKeyEveryEntryHasRow(output, order);
    if key in Keys(MultiKey(output, order).frame.rows) {
      MultiKeyCells(output, order, key);
    }
  }
}
