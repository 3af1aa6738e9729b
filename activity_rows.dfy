/** Flattening a patient's stored score documents into one row list
    (create_activity_rows). */
module ActivityRows {
  import opened Scores

  /** The order in which the known activities are taken out of one document. */
  const FlattenOrder: seq<string> := [FeetTogether, Tandem, Instep, OneFoot]

  /** The entries of `d` under `keys`, in the order of `keys`; an absent key
      contributes nothing. */
  function Pick(d: ScoreDocument, keys: seq<string>): (r: seq<Row>)
    ensures |r| <= |keys|
  {
    if keys == [] then []
    else (if keys[0] in d then [d[keys[0]]] else []) + Pick(d, keys[1..])
  }

  /** The rows one document contributes: at most one per known activity. */
  function DocRows(d: ScoreDocument): (r: seq<Row>)
    ensures |r| <= |FlattenOrder|
  {
    Pick(d, FlattenOrder)
  }

  /** Every document's rows, documents in their stored order: at most four
      per document. */
  function Flatten(docs: seq<ScoreDocument>): (r: seq<Row>)
    ensures |r| <= 4 * |docs|
  {
    if docs == [] then []
    else Flatten(docs[..|docs| - 1]) + DocRows(docs[|docs| - 1])
  }

  /** The number of known activity keys present, summed over the documents. */
  function KnownKeyCount(docs: seq<ScoreDocument>): nat
  {
    if docs == [] then 0
    else KnownKeyCount(docs[..|docs| - 1]) + |docs[|docs| - 1].Keys * KnownActivities|
  }

  /** The entry under `key` as a zero- or one-element list. */
  function Entry(d: ScoreDocument, key: string): seq<Row> {
    if key in d then [d[key]] else []
  }

  method CreateActivityRows(patientScores: seq<ScoreDocument>) returns (rows: seq<Row>)
    ensures rows == Flatten(patientScores)
  {
    rows := [];
    for n := 0 to |patientScores|
      invariant rows == Flatten(patientScores[..n])
    {
      var data := patientScores[n];
      ghost var before := rows;
      if FeetTogether in data {
        rows := rows + [data[FeetTogether]];
      }
      if Tandem in data {
        rows := rows + [data[Tandem]];
      }
      if Instep in data {
        rows := rows + [data[Instep]];
      }
      if OneFoot in data {
        rows := rows + [data[OneFoot]];
      }
      DocRowsOrder(data);
      assert rows == before + DocRows(data);
      assert patientScores[..n + 1][..n] == patientScores[..n];
      assert Flatten(patientScores[..n + 1]) == Flatten(patientScores[..n]) + DocRows(data);
    }
    assert patientScores[..|patientScores|] == patientScores;
  }

  /** Within one document the keys are taken in the fixed order
      feet-together, Tandem, Instep, one-foot. */
  lemma {:induction false} DocRowsOrder(d: ScoreDocument)
    ensures DocRows(d) == Entry(d, FeetTogether) + Entry(d, Tandem) + Entry(d, Instep) + Entry(d, OneFoot)
  {
    var ks := FlattenOrder;
    assert ks[1..] == [Tandem, Instep, OneFoot];
    assert ks[1..][1..] == [Instep, OneFoot];
    assert ks[1..][1..][1..] == [OneFoot];
    assert ks[1..][1..][1..][1..] == [];
    assert Pick(d, [OneFoot]) == Entry(d, OneFoot);
    assert Pick(d, [Instep, OneFoot]) == Entry(d, Instep) + Entry(d, OneFoot);
    assert Pick(d, [Tandem, Instep, OneFoot]) == Entry(d, Tandem) + Entry(d, Instep) + Entry(d, OneFoot);
  }

  /** Flattening distributes over concatenation of document lists. */
  lemma {:induction false} FlattenAppend(a: seq<ScoreDocument>, b: seq<ScoreDocument>)
    ensures Flatten(a + b) == Flatten(a) + Flatten(b)
    decreases |b|
  {
    if b == [] {
      assert a + b == a;
    } else {
      var b' := b[..|b| - 1];
      assert (a + b)[..|a + b| - 1] == a + b';
      assert (a + b)[|a + b| - 1] == b[|b| - 1];
      FlattenAppend(a, b');
    }
  }

  /** Document i's rows sit after those of every earlier document and
      before those of every later one. */
  lemma {:induction false} FlattenSplit(docs: seq<ScoreDocument>, i: nat)
    requires i < |docs|
    ensures Flatten(docs) == Flatten(docs[..i]) + DocRows(docs[i]) + Flatten(docs[i + 1..])
  {
    var pre, mid, post := docs[..i], [docs[i]], docs[i + 1..];
    assert docs == (pre + mid) + post;
    FlattenAppend(pre + mid, post);
    FlattenAppend(pre, mid);
    FlattenSingle(docs[i]);
  }

  lemma {:induction false} FlattenSingle(d: ScoreDocument)
    ensures Flatten([d]) == DocRows(d)
  {
    assert [d][..0] == [];
  }

  ghost predicate Distinct(keys: seq<string>) {
    forall i, j :: 0 <= i < j < |keys| ==> keys[i] != keys[j]
  }

  function SetOf(keys: seq<string>): set<string> {
    set k | k in keys
  }

  lemma {:induction false} DistinctCons(keys: seq<string>)
    requires keys != [] && Distinct(keys)
    ensures Distinct(keys[1..])
    ensures keys[0] !in SetOf(keys[1..])
    ensures SetOf(keys) == {keys[0]} + SetOf(keys[1..])
  {
    var rest := keys[1..];
    forall i, j | 0 <= i < j < |rest| ensures rest[i] != rest[j] {
      assert rest[i] == keys[i + 1] && rest[j] == keys[j + 1];
    }
    assert forall j :: 0 <= j < |rest| ==> rest[j] == keys[j + 1];
  }

  lemma {:induction false} PickLength(d: ScoreDocument, keys: seq<string>)
    requires Distinct(keys)
    ensures |Pick(d, keys)| == |d.Keys * SetOf(keys)|
  {
    if keys != [] {
      var rest := keys[1..];
      DistinctCons(keys);
      PickLength(d, rest);
      var known := d.Keys * SetOf(rest);
      assert keys[0] !in known;
      if keys[0] in d {
        assert d.Keys * SetOf(keys) == known + {keys[0]};
      } else {
        assert d.Keys * SetOf(keys) == known;
      }
    }
  }

  /** A document contributes exactly one row per known key it holds. */
  lemma {:induction false} DocRowsLength(d: ScoreDocument)
    ensures |DocRows(d)| == |d.Keys * KnownActivities|
  {
    NamesDistinct();
    assert Distinct(FlattenOrder);
    PickLength(d, FlattenOrder);
    assert SetOf(FlattenOrder) == KnownActivities;
  }

  /** The flattened list has one row per known key present, over all
      documents. */
  lemma {:induction false} FlattenLength(docs: seq<ScoreDocument>)
    ensures |Flatten(docs)| == KnownKeyCount(docs)
  {
    if docs != [] {
      FlattenLength(docs[..|docs| - 1]);
      DocRowsLength(docs[|docs| - 1]);
    }
  }

  lemma {:induction false} PickIgnores(d: ScoreDocument, keys: seq<string>, k: string, v: Row)
    requires k !in keys
    ensures Pick(d[k := v], keys) == Pick(d, keys)
  {
    if keys != [] {
      assert keys[0] != k;
      PickIgnores(d, keys[1..], k, v);
    }
  }

  /** An entry under any other key contributes no row. */
  lemma {:induction false} OtherKeyIgnored(d: ScoreDocument, k: string, v: Row)
    requires k !in KnownActivities
    ensures DocRows(d[k := v]) == DocRows(d)
  {
    PickIgnores(d, FlattenOrder, k, v);
  }

  lemma {:induction false} PickMember(d: ScoreDocument, keys: seq<string>, r: Row)
    ensures r in Pick(d, keys) <==> exists k :: k in keys && k in d && d[k] == r
  {
    if keys != [] {
      PickMember(d, keys[1..], r);
      if keys[0] in d && d[keys[0]] == r {
        assert keys[0] in keys;
      }
      assert forall k :: k in keys <==> k == keys[0] || k in keys[1..];
    }
  }

  /** A row is in the flattened list exactly when some document holds it
      under one of the four known keys. */
  lemma {:induction false} FlattenMember(docs: seq<ScoreDocument>, r: Row)
    ensures r in Flatten(docs) <==>
      exists i, k :: 0 <= i < |docs| && k in KnownActivities && k in docs[i] && docs[i][k] == r
  {
    if docs != [] {
      var init, last := docs[..|docs| - 1], docs[|docs| - 1];
      FlattenMember(init, r);
      PickMember(last, FlattenOrder, r);
      assert forall k :: k in FlattenOrder <==> k in KnownActivities;
      if exists i, k :: 0 <= i < |docs| && k in KnownActivities && k in docs[i] && docs[i][k] == r {
        var i, k :| 0 <= i < |docs| && k in KnownActivities && k in docs[i] && docs[i][k] == r;
        if i < |docs| - 1 {
          assert init[i] == docs[i];
        }
      }
      if r in Flatten(init) {
        var i, k :| 0 <= i < |init| && k in KnownActivities && k in init[i] && init[i][k] == r;
        assert docs[i] == init[i];
      }
    }
  }
}
