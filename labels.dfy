/**
 * The multi-label codec: label sets become 0/1 indicator rows over the label
 * universe, and an indicator row becomes the set of labels whose bit is 1.
 */
module Labels {
  import opened IdTable
  import opened Results

  /** The label sets laid end to end, in input order. */
  function Flatten<L>(opList: seq<seq<L>>): seq<L>
    decreases |opList|
  {
    if opList == [] then []
    else Flatten(opList[..|opList| - 1]) + opList[|opList| - 1]
  }

  /** Every label of every label set is among the flattened labels. */
  lemma {:induction false} FlattenContains<L>(opList: seq<seq<L>>)
    ensures forall i, k :: 0 <= i < |opList| && 0 <= k < |opList[i]| ==> opList[i][k] in Flatten(opList)
    decreases |opList|
  {
    if opList != [] {
      var init := opList[..|opList| - 1];
      FlattenContains(init);
      forall i, k | 0 <= i < |opList| && 0 <= k < |opList[i]|
        ensures opList[i][k] in Flatten(opList)
      {
        if i < |init| {
          assert opList[i] == init[i];
          assert opList[i][k] in Flatten(init);
        } else {
          assert opList[i][k] in opList[|opList| - 1];
        }
      }
    }
  }

  lemma FlattenSnoc<L>(opList: seq<seq<L>>, ops: seq<L>)
    ensures Flatten(opList + [ops]) == Flatten(opList) + ops
  {
    assert (opList + [ops])[..|opList|] == opList;
  }

  /** One row of `label_binarize(..., multilabel=True, classes=range(n))`. */
  function BinarizeRow(indices: seq<nat>, n: nat): (r: seq<int>)
    ensures |r| == n
    ensures forall j :: 0 <= j < n ==> (r[j] == 0 || r[j] == 1) && (r[j] == 1 <==> j in indices)
  {
    seq(n, j requires 0 <= j < n => if j in indices then 1 else 0)
  }

  /** `label_binarize(rows, multilabel=True, classes=range(n))`. */
  function Binarize(rows: seq<seq<nat>>, n: nat): (r: seq<seq<int>>)
    ensures |r| == |rows| && forall i :: 0 <= i < |rows| ==> |r[i]| == n
  {
    seq(|rows|, i requires 0 <= i < |rows| => BinarizeRow(rows[i], n))
  }

  /** The indices of a label set, in its own order, duplicates kept. */
  function Indices<L>(m: map<L, nat>, ops: seq<L>): seq<nat>
    requires forall k :: 0 <= k < |ops| ==> ops[k] in m
  {
    seq(|ops|, k requires 0 <= k < |ops| => m[ops[k]])
  }

  /**
   * The label table and label count after `_encode_opinions`: every label not
   * yet in the table gets the current count, which starts at 0 on every call.
   */
  function EncodeTable<L>(m: map<L, nat>, opList: seq<seq<L>>): (r: (map<L, nat>, nat))
    ensures r.0.Keys == m.Keys + SetOf(Flatten(opList))
    ensures forall y :: y in m ==> r.0[y] == m[y]
  {
    RegisterAllCountedKeys(m, 0, Flatten(opList));
    RegisterAllCounted(m, 0, Flatten(opList))
  }

  /** Every label of every label set has an index in `m`. */
  ghost predicate Covers<L>(m: map<L, nat>, opList: seq<seq<L>>)
  {
    forall i, k :: 0 <= i < |opList| && 0 <= k < |opList[i]| ==> opList[i][k] in m
  }

  /** The index rows of the label sets, before binarization. */
  function IndexRows<L>(m: map<L, nat>, opList: seq<seq<L>>): seq<seq<nat>>
    requires Covers(m, opList)
  {
    seq(|opList|, i requires 0 <= i < |opList| => Indices(m, opList[i]))
  }

  /** The table after an encoding covers every label it has seen. */
  lemma EncodeTableCovers<L>(m: map<L, nat>, opList: seq<seq<L>>)
    ensures Covers(EncodeTable(m, opList).0, opList)
  {
    FlattenContains(opList);
    RegisterAllCountedKeys(m, 0, Flatten(opList));
  }

  /** The indicator matrix `_encode_opinions` returns. */
  function EncodeRows<L>(m: map<L, nat>, opList: seq<seq<L>>): (r: seq<seq<int>>)
    ensures |r| == |opList| && forall i :: 0 <= i < |opList| ==> |r[i]| == EncodeTable(m, opList).1
  {
    EncodeTableCovers(m, opList);
    Binarize(IndexRows(EncodeTable(m, opList).0, opList), EncodeTable(m, opList).1)
  }

  /**
   * One more label set: rows computed against an older table stay the same
   * under a table that only grew, and the new row is appended.
   */
  lemma IndexRowsStep<L>(m: map<L, nat>, m': map<L, nat>, opList: seq<seq<L>>, i: nat)
    requires i < |opList|
    requires Covers(m, opList[..i])
    requires forall y :: y in m ==> y in m' && m'[y] == m[y]
    requires forall k :: 0 <= k < |opList[i]| ==> opList[i][k] in m'
    ensures Covers(m', opList[..i + 1])
    ensures IndexRows(m', opList[..i + 1]) == IndexRows(m, opList[..i]) + [Indices(m', opList[i])]
  {
    assert opList[..i + 1] == opList[..i] + [opList[i]];
    forall p | 0 <= p < i
      ensures Indices(m', opList[p]) == Indices(m, opList[p])
    {
      assert opList[p] == opList[..i][p];
    }
  }

  /**
   * `_decode_opinions`: the labels whose index has bit 1. A label whose index
   * is outside the vector is an index error.
   */
  function Decode<L>(m: map<L, nat>, bvect: seq<int>): (r: Result<set<L>>)
    ensures r.Err? ==> r.error == IndexError
    ensures r.Ok? ==> r.value <= m.Keys
  {
    if exists x :: x in m && m[x] >= |bvect| then Err(IndexError)
    else Ok(set x | x in m && bvect[m[x]] == 1)
  }

  /** On an empty label table, the encoding numbers the distinct labels 0 .. count-1 in first-seen order. */
  lemma FreshEncodeTable<L>(opList: seq<seq<L>>)
    ensures var (t, n) := EncodeTable(map[], opList);
      && t == RegisterAll(map[], Flatten(opList))
      && t.Keys == SetOf(Flatten(opList))
      && n == |t|
      && Dense(t)
      && (forall j :: j in t.Values <==> 0 <= j < n)
      && (forall i, k :: 0 <= i < |opList| && 0 <= k < |opList[i]| ==> opList[i][k] in t)
      && (forall x, y :: x in t && y in t ==>
            (t[x] < t[y] <==> FirstIndex(Flatten(opList), x) < FirstIndex(Flatten(opList), y)))
  {
    CountedIsRegister(map[], 0, Flatten(opList));
    FreshTableFirstSeen(Flatten(opList));
    FlattenContains(opList);
  }

  /** The i-th encoded row is the indicator row of the i-th label set's indices. */
  lemma EncodeRowAt<L>(m: map<L, nat>, opList: seq<seq<L>>, i: nat)
    requires i < |opList|
    ensures forall k :: 0 <= k < |opList[i]| ==> opList[i][k] in EncodeTable(m, opList).0
    ensures |EncodeRows(m, opList)| == |opList|
    ensures EncodeRows(m, opList)[i]
      == BinarizeRow(Indices(EncodeTable(m, opList).0, opList[i]), EncodeTable(m, opList).1)
  {
    EncodeTableCovers(m, opList);
  }

  /**
   * On an empty label table, the encoding has one row per label set, each as
   * wide as the label count, holding only 0 and 1; the bit of label `x` in row
   * `i` is 1 exactly when `x` occurs in the i-th label set.
   */
  lemma FreshEncodeRows<L>(opList: seq<seq<L>>)
    ensures var t := EncodeTable(map[], opList).0;
            var rows := EncodeRows(map[], opList);
      && |rows| == |opList|
      && Dense(t)
      && (forall i :: 0 <= i < |rows| ==> |rows[i]| == |t|)
      && (forall i, j :: 0 <= i < |rows| && 0 <= j < |rows[i]| ==> rows[i][j] == 0 || rows[i][j] == 1)
      && (forall i, x :: 0 <= i < |rows| && x in t ==> (rows[i][t[x]] == 1 <==> x in opList[i]))
  {
    var t := EncodeTable(map[], opList).0;
    var rows := EncodeRows(map[], opList);
    FreshEncodeTable(opList);
    forall i | 0 <= i < |rows|
      ensures |rows[i]| == |t|
      ensures forall j :: 0 <= j < |rows[i]| ==> rows[i][j] == 0 || rows[i][j] == 1
      ensures forall x :: x in t ==> (rows[i][t[x]] == 1 <==> x in opList[i])
    {
      EncodeRowAt(map[], opList, i);
      forall x | x in t
        ensures rows[i][t[x]] == 1 <==> x in opList[i]
      {
        BitOfLabel(t, opList[i], x);
      }
    }
  }

  /** In an injective table, the bit of a label is set exactly when the label is listed. */
  lemma BitOfLabel<L>(t: map<L, nat>, ops: seq<L>, x: L)
    requires Dense(t) && x in t
    requires forall k :: 0 <= k < |ops| ==> ops[k] in t
    ensures BinarizeRow(Indices(t, ops), |t|)[t[x]] == 1 <==> x in ops
  {
    var idx := Indices(t, ops);
    if t[x] in idx {
      var k :| 0 <= k < |idx| && idx[k] == t[x];
      assert ops[k] == x;
    }
    if x in ops {
      var k :| 0 <= k < |ops| && ops[k] == x;
      assert idx[k] == t[x];
    }
  }

  /**
   * Decoding the indicator row of a registered label set gives back that label
   * set, as a set: duplicates collapse and order is lost.
   */
  lemma DecodeBinarized<L>(t: map<L, nat>, ops: seq<L>)
    requires Dense(t)
    requires forall k :: 0 <= k < |ops| ==> ops[k] in t
    ensures Decode(t, BinarizeRow(Indices(t, ops), |t|)) == Ok(SetOf(ops))
  {
    var row := BinarizeRow(Indices(t, ops), |t|);
    assert !exists x :: x in t && t[x] >= |row|;
    var s := set x | x in t && row[t[x]] == 1;
    forall x
      ensures x in s <==> x in ops
    {
      if x in t {
        BitOfLabel(t, ops, x);
      }
    }
    assert s == SetOf(ops);
    assert Decode(t, row) == Ok(s);
  }

  /** Round trip: on an empty label table, decoding the i-th encoded row gives the i-th label set. */
  lemma DecodeEncodeRoundTrip<L>(opList: seq<seq<L>>, i: nat)
    requires i < |opList|
    ensures Decode(EncodeTable(map[], opList).0, EncodeRows(map[], opList)[i]) == Ok(SetOf(opList[i]))
  {
    var (t, n) := EncodeTable(map[], opList);
    FreshEncodeTable(opList);
    EncodeRowAt(map[], opList, i);
    DecodeBinarized(t, opList[i]);
  }

  /** After an encoding on an empty table, decoding fails exactly on vectors shorter than the label count. */
  lemma DecodeFailsOnShortVector<L>(opList: seq<seq<L>>, bvect: seq<int>)
    ensures var t := EncodeTable(map[], opList).0;
      Decode(t, bvect) == Err(IndexError) <==> |bvect| < |t|
  {
    var t := EncodeTable(map[], opList).0;
    FreshEncodeTable(opList);
    if |bvect| < |t| {
      assert |bvect| in t.Values;
    }
  }
}
