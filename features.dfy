/**
  The extracted-features endpoint: given a patient's full name it looks up
  that patient's row of the extracted-features table and answers with the
  features marked "yes", as a JSON object in column order.
 */
module ExtractedFeatures {
  import opened Seqs

  /** A column value as the database driver hands it over. */
  datatype SqlValue = Text(text: string) | Integer(n: int) | Null

  /** One table row: its columns in table order. */
  type Row = seq<(string, SqlValue)>

  /** A JSON object with string values, its entries in insertion order. */
  type Entries = seq<(string, string)>

  /** The keys of an object or a row. */
  function KeysOf<V>(o: seq<(string, V)>): set<string> {
    set i | 0 <= i < |o| :: o[i].0
  }

  lemma KeysOfConcat<V>(a: seq<(string, V)>, b: seq<(string, V)>)
    ensures KeysOf(a + b) == KeysOf(a) + KeysOf(b)
  {
    forall k | k in KeysOf(a + b) ensures k in KeysOf(a) + KeysOf(b) {
      var i :| 0 <= i < |a + b| && (a + b)[i].0 == k;
      if i >= |a| {
        assert b[i - |a|].0 == k;
      }
    }
    forall k | k in KeysOf(a) ensures k in KeysOf(a + b) {
      var i :| 0 <= i < |a| && a[i].0 == k;
      assert (a + b)[i].0 == k;
    }
    forall k | k in KeysOf(b) ensures k in KeysOf(a + b) {
      var i :| 0 <= i < |b| && b[i].0 == k;
      assert (a + b)[|a| + i].0 == k;
    }
  }

  predicate DistinctKeys<V>(o: seq<(string, V)>) {
    forall i, j :: 0 <= i < j < |o| ==> o[i].0 != o[j].0
  }

  /**
    `o[k] = v` on a JavaScript object: an existing key keeps its place and
    takes the new value, a new key goes to the end.
   */
  function Put(o: Entries, k: string, v: string): Entries
    decreases |o|
  {
    if o == [] then [(k, v)]
    else if o[0].0 == k then [(k, v)] + o[1..]
    else [o[0]] + Put(o[1..], k, v)
  }

  lemma KeysOfCons<V>(x: (string, V), o: seq<(string, V)>)
    ensures KeysOf([x] + o) == {x.0} + KeysOf(o)
  {
    KeysOfConcat([x], o);
    assert KeysOf([x]) == {x.0} by {
      assert [x][0] == x;
    }
  }

  /** After the assignment the object has its old keys and `k`. */
  lemma {:induction false} PutKeys(o: Entries, k: string, v: string)
    ensures KeysOf(Put(o, k, v)) == KeysOf(o) + {k}
    decreases |o|
  {
    if o == [] {
      KeysOfCons((k, v), []);
    } else {
      assert o == [o[0]] + o[1..];
      KeysOfCons(o[0], o[1..]);
      if o[0].0 == k {
        KeysOfCons((k, v), o[1..]);
      } else {
        PutKeys(o[1..], k, v);
        KeysOfCons(o[0], Put(o[1..], k, v));
      }
    }
  }

  /** A key already present is updated in place; a new key is appended. */
  lemma {:induction false} PutPlaces(o: Entries, k: string, v: string)
    ensures k in KeysOf(o) ==> |Put(o, k, v)| == |o|
    ensures k !in KeysOf(o) ==> Put(o, k, v) == o + [(k, v)]
    ensures forall i :: 0 <= i < |Put(o, k, v)| ==> Put(o, k, v)[i] == (k, v) || Put(o, k, v)[i] in o
    decreases |o|
  {
    if o != [] {
      assert o == [o[0]] + o[1..];
      KeysOfCons(o[0], o[1..]);
      if o[0].0 != k {
        PutPlaces(o[1..], k, v);
        var r := Put(o, k, v);
        assert r == [o[0]] + Put(o[1..], k, v);
        forall i | 1 <= i < |r| ensures r[i] == (k, v) || r[i] in o {
          assert r[i] == Put(o[1..], k, v)[i - 1];
        }
      }
    }
  }

  /** The assignment keeps keys distinct. */
  lemma {:induction false} PutDistinct(o: Entries, k: string, v: string)
    requires DistinctKeys(o)
    ensures DistinctKeys(Put(o, k, v))
    decreases |o|
  {
    if o != [] && o[0].0 != k {
      var tail := o[1..];
      assert DistinctKeys(tail) by {
        forall i, j | 0 <= i < j < |tail| ensures tail[i].0 != tail[j].0 {
          assert tail[i] == o[i + 1] && tail[j] == o[j + 1];
        }
      }
      PutDistinct(tail, k, v);
      PutKeys(tail, k, v);
      assert o[0].0 !in KeysOf(tail) by {
        forall i | 0 <= i < |tail| ensures tail[i].0 != o[0].0 {
          assert tail[i] == o[i + 1];
        }
      }
      var rest := Put(tail, k, v);
      assert o[0].0 !in KeysOf(rest);
      forall j | 0 <= j < |rest| ensures rest[j].0 != o[0].0 {
        assert rest[j].0 in KeysOf(rest);
      }
    }
  }

  /** The loop's test: the value is exactly the text "yes" and the column is not `full_name`. */
  predicate Kept(e: (string, SqlValue)) {
    e.1 == Text("yes") && e.0 != "full_name"
  }

  /**
    The `yesFeatures` object the loop builds from the columns of `row`,
    taken in order.
   */
  function YesFeatures(row: Row): Entries
    decreases |row|
  {
    if row == [] then []
    else
      var e := row[|row| - 1];
      var prev := YesFeatures(row[..|row| - 1]);
      if Kept(e) then Put(prev, e.0, "yes") else prev
  }

  /** Every entry of the answer has the value "yes" and is not the `full_name` column. */
  lemma {:induction false} YesFeaturesValues(row: Row)
    ensures forall i :: 0 <= i < |YesFeatures(row)| ==> YesFeatures(row)[i].1 == "yes" && YesFeatures(row)[i].0 != "full_name"
    decreases |row|
  {
    if row != [] {
      var front := row[..|row| - 1];
      var e := row[|row| - 1];
      YesFeaturesValues(front);
      if Kept(e) {
        PutPlaces(YesFeatures(front), e.0, "yes");
      }
    }
  }

  /** The answer's keys are exactly the names of the kept columns. */
  lemma {:induction false} YesFeaturesKeys(row: Row)
    ensures forall k :: k in KeysOf(YesFeatures(row)) <==> exists i :: 0 <= i < |row| && Kept(row[i]) && row[i].0 == k
    decreases |row|
  {
    if row != [] {
      var front := row[..|row| - 1];
      var e := row[|row| - 1];
      YesFeaturesKeys(front);
      assert forall i :: 0 <= i < |front| ==> front[i] == row[i];
      if Kept(e) {
        PutKeys(YesFeatures(front), e.0, "yes");
        assert Kept(row[|row| - 1]);
      }
    }
  }

  /** Each key appears once, so the answer is no longer than the row. */
  lemma {:induction false} YesFeaturesDistinct(row: Row)
    ensures DistinctKeys(YesFeatures(row))
    ensures |YesFeatures(row)| <= |row|
    decreases |row|
  {
    if row != [] {
      var front := row[..|row| - 1];
      var e := row[|row| - 1];
      YesFeaturesDistinct(front);
      if Kept(e) {
        PutPlaces(YesFeatures(front), e.0, "yes");
        PutDistinct(YesFeatures(front), e.0, "yes");
      }
    }
  }

  /** Every column of the answer is a column of the row. */
  lemma YesFeaturesKeysFromRow(row: Row)
    ensures KeysOf(YesFeatures(row)) <= KeysOf(row)
  {
    YesFeaturesKeys(row);
    forall k | k in KeysOf(YesFeatures(row)) ensures k in KeysOf(row) {
      var i :| 0 <= i < |row| && Kept(row[i]) && row[i].0 == k;
    }
  }

  /** The answer read back as a row. */
  function AsRow(o: Entries): (r: Row)
    ensures |r| == |o|
    ensures forall i :: 0 <= i < |o| ==> r[i] == (o[i].0, Text(o[i].1))
  {
    Map((e: (string, string)) => (e.0, Text(e.1)), o)
  }

  lemma AsRowSnoc(o: Entries, e: (string, string))
    ensures AsRow(o + [e]) == AsRow(o) + [(e.0, Text(e.1))]
  {
  }

  /** One more column appended to a row adds at most that column to the answer. */
  lemma YesFeaturesSnoc(row: Row, e: (string, SqlValue))
    ensures YesFeatures(row + [e]) == if Kept(e) then Put(YesFeatures(row), e.0, "yes") else YesFeatures(row)
  {
    assert (row + [e])[..|row|] == row;
  }

  /** An object of "yes" features, filtered again, comes back unchanged. */
  lemma {:induction false} FilterFixesAnswer(o: Entries)
    requires DistinctKeys(o)
    requires forall i :: 0 <= i < |o| ==> o[i].1 == "yes" && o[i].0 != "full_name"
    ensures YesFeatures(AsRow(o)) == o
    decreases |o|
  {
    if o != [] {
      var front := o[..|o| - 1];
      var k := o[|o| - 1].0;
      assert o == front + [(k, "yes")];
      AsRowSnoc(front, (k, "yes"));
      FilterFixesAnswer(front);
      YesFeaturesSnoc(AsRow(front), (k, Text("yes")));
      assert k !in KeysOf(front) by {
        forall i | 0 <= i < |front| ensures front[i].0 != k {
          assert front[i] == o[i];
        }
      }
      PutPlaces(front, k, "yes");
    }
  }

  /** Filtering the answer again returns it unchanged. */
  lemma YesFeaturesIdempotent(row: Row)
    ensures YesFeatures(AsRow(YesFeatures(row))) == YesFeatures(row)
  {
    YesFeaturesValues(row);
    YesFeaturesDistinct(row);
    FilterFixesAnswer(YesFeatures(row));
  }

  /** The value of column `name` in `row`: the first entry under that name. */
  function Column(row: Row, name: string): (r: Option<SqlValue>)
    ensures r.Some? <==> name in KeysOf(row)
  {
    if row == [] then None
    else if row[0].0 == name then Some(row[0].1)
    else
      assert KeysOf(row) == {row[0].0} + KeysOf(row[1..]);
      Column(row[1..], name)
  }

  /** `SELECT * FROM extracted_features WHERE full_name = ?` with `.get`: the first matching row. */
  function FindRow(table: seq<Row>, fullName: string): (r: Option<Row>)
    ensures r.Some? ==> r.value in table && Column(r.value, "full_name") == Some(Text(fullName))
    ensures r.None? ==> forall i :: 0 <= i < |table| ==> Column(table[i], "full_name") != Some(Text(fullName))
  {
    if table == [] then None
    else if Column(table[0], "full_name") == Some(Text(fullName)) then Some(table[0])
    else FindRow(table[1..], fullName)
  }

  /** What the endpoint answers: the feature object, or an HTTP error status with its message. */
  datatype Response = Features(entries: Entries) | Failure(status: int, error: string)

  /**
    `GET /api/extracted_features?full_name=…`. The query parameter is
    `fullName` (None when absent); the table is `None` when opening or
    querying the database throws.
   */
  method Get(fullName: Option<string>, table: Option<seq<Row>>) returns (resp: Response)
    ensures (fullName.None? || fullName == Some("")) ==> resp == Failure(400, "Missing full_name")
    ensures fullName.Some? && fullName.value != "" && table.None? ==>
      resp == Failure(500, "Internal Server Error")
    ensures (fullName.Some? && fullName.value != "" && table.Some? &&
             FindRow(table.value, fullName.value).None?) ==> resp == Failure(404, "Patient not found")
    ensures (fullName.Some? && fullName.value != "" && table.Some? &&
             FindRow(table.value, fullName.value).Some?) ==>
      resp == Features(YesFeatures(FindRow(table.value, fullName.value).value))
  {
    if fullName.None? || fullName.value == "" {
      return Failure(400, "Missing full_name");
    }
    if table.None? {
      return Failure(500, "Internal Server Error");
    }
    var found := FindRow(table.value, fullName.value);
    if found.None? {
      return Failure(404, "Patient not found");
    }
    var row := found.value;
    var yesFeatures: Entries := [];
    for i := 0 to |row|
      invariant yesFeatures == YesFeatures(row[..i])
    {
      assert row[..i + 1][..i] == row[..i];
      var (key, value) := row[i];
      if value == Text("yes") && key != "full_name" {
        yesFeatures := Put(yesFeatures, key, "yes");
      }
    }
    assert row[..|row|] == row;
    return Features(yesFeatures);
  }
}
