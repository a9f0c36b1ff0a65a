/**
 * The JSON values the dashboard receives from the backend. A row object
 * holds its properties in the order they were created, which is the order
 * of the JSON text; `Object.keys` lists them in property order (section
 * 10.1.11.1 of ECMA-262): array-index keys first in ascending numeric
 * order, then every other key in creation order.
 */
module JsValues {
  import opened Outcomes

  /** A cell value as seen by the frontend. `Undefined` is what a missing key reads as. */
  datatype Cell = Undefined | Null | Text(s: string) | Num(n: int)

  /** One key of a row object and its value. */
  datatype Field = Field(name: string, value: Cell)

  /** A row object, its properties in creation order. */
  type Row = seq<Field>

  /** A backend response body: the frontend only ever reads its `data` member. */
  datatype Payload = Payload(data: Option<seq<Row>>)

  /** The keys of a row in creation order. */
  function Names(row: Row): (ks: seq<string>)
    ensures |ks| == |row|
    ensures forall i :: 0 <= i < |row| ==> ks[i] == row[i].name
  {
    if row == [] then [] else [row[0].name] + Names(row[1..])
  }

  // ---------------------------------------------------------------------------
  // Property order

  predicate IsDigit(c: char) {
    '0' <= c <= '9'
  }

  /** The number a string of decimal digits denotes. */
  function DecimalValue(k: string): nat
    decreases |k|
  {
    if k == [] then 0
    else DecimalValue(k[..|k| - 1]) * 10 + (if IsDigit(k[|k| - 1]) then k[|k| - 1] as int - '0' as int else 0)
  }

  /**
   * An array index: the canonical decimal text (no sign, no leading zero)
   * of an integer below 2^32 - 1. Such keys are ordered by value.
   */
  predicate IsArrayIndex(k: string) {
    && |k| > 0
    && (forall i :: 0 <= i < |k| ==> IsDigit(k[i]))
    && (k[0] != '0' || |k| == 1)
    && DecimalValue(k) < 0xFFFF_FFFF
  }

  /** The array-index keys of `ks`, in their order there. */
  function IndexKeys(ks: seq<string>): (r: seq<string>)
    ensures forall i :: 0 <= i < |r| ==> IsArrayIndex(r[i])
  {
    if ks == [] then []
    else (if IsArrayIndex(ks[0]) then [ks[0]] else []) + IndexKeys(ks[1..])
  }

  /** The keys of `ks` that are not array indices, in their order there. */
  function OtherKeys(ks: seq<string>): (r: seq<string>)
    ensures forall i :: 0 <= i < |r| ==> !IsArrayIndex(r[i])
  {
    if ks == [] then []
    else (if IsArrayIndex(ks[0]) then [] else [ks[0]]) + OtherKeys(ks[1..])
  }

  /** Keys ordered by their numeric value. */
  predicate Ascending(ks: seq<string>) {
    forall i, j :: 0 <= i < j < |ks| ==> DecimalValue(ks[i]) <= DecimalValue(ks[j])
  }

  /** `k` placed into `ks` before the first key worth more. */
  function Insert(k: string, ks: seq<string>): (r: seq<string>)
    ensures |r| == |ks| + 1
  {
    if ks == [] then [k]
    else if DecimalValue(k) <= DecimalValue(ks[0]) then [k] + ks
    else [ks[0]] + Insert(k, ks[1..])
  }

  /** Inserting adds exactly `k`, and the result starts with `k` or with the old first key. */
  lemma {:induction false} InsertKeys(k: string, ks: seq<string>)
    ensures multiset(Insert(k, ks)) == multiset(ks) + multiset{k}
    ensures Insert(k, ks)[0] == k || (ks != [] && Insert(k, ks)[0] == ks[0])
  {
    if ks != [] && DecimalValue(ks[0]) < DecimalValue(k) {
      InsertKeys(k, ks[1..]);
      assert ks == [ks[0]] + ks[1..];
    }
  }

  /** Inserting into an ascending sequence keeps it ascending. */
  lemma {:induction false} InsertSorted(k: string, ks: seq<string>)
    requires Ascending(ks)
    ensures Ascending(Insert(k, ks))
  {
    if ks != [] && DecimalValue(ks[0]) < DecimalValue(k) {
      var rest := Insert(k, ks[1..]);
      assert Ascending(ks[1..]) by {
        forall i, j | 0 <= i < j < |ks[1..]| ensures DecimalValue(ks[1..][i]) <= DecimalValue(ks[1..][j]) {
          assert ks[1..][i] == ks[i + 1] && ks[1..][j] == ks[j + 1];
        }
      }
      InsertSorted(k, ks[1..]);
      InsertKeys(k, ks[1..]);
      var low := DecimalValue(ks[0]);
      assert low <= DecimalValue(rest[0]) by {
        if rest[0] != k { assert rest[0] == ks[1..][0] == ks[1]; }
      }
      var r := [ks[0]] + rest;
      assert Insert(k, ks) == r;
      forall i, j | 0 <= i < j < |r| ensures DecimalValue(r[i]) <= DecimalValue(r[j]) {
        assert r[j] == rest[j - 1];
        if i == 0 {
          assert r[i] == ks[0];
          if j > 1 { assert DecimalValue(rest[0]) <= DecimalValue(rest[j - 1]); }
        } else {
          assert r[i] == rest[i - 1];
        }
      }
    } else if ks != [] {
      var r := [k] + ks;
      assert Insert(k, ks) == r;
      forall i, j | 0 <= i < j < |r| ensures DecimalValue(r[i]) <= DecimalValue(r[j]) {
        assert r[j] == ks[j - 1];
        if i > 0 { assert r[i] == ks[i - 1]; } else { assert DecimalValue(ks[0]) <= DecimalValue(ks[j - 1]); }
      }
    }
  }

  /** Insertion sort by numeric value. */
  function SortByValue(ks: seq<string>): (r: seq<string>)
    ensures |r| == |ks|
  {
    if ks == [] then [] else Insert(ks[0], SortByValue(ks[1..]))
  }

  /** The sorted keys are ascending and are the same keys. */
  lemma {:induction false} SortSorted(ks: seq<string>)
    ensures Ascending(SortByValue(ks))
    ensures multiset(SortByValue(ks)) == multiset(ks)
  {
    if ks != [] {
      SortSorted(ks[1..]);
      InsertSorted(ks[0], SortByValue(ks[1..]));
      InsertKeys(ks[0], SortByValue(ks[1..]));
      assert ks == [ks[0]] + ks[1..];
    }
  }

  lemma {:induction false} OtherKeysAppend(a: seq<string>, b: seq<string>)
    ensures OtherKeys(a + b) == OtherKeys(a) + OtherKeys(b)
    decreases |a|
  {
    if a != [] {
      var head := if IsArrayIndex(a[0]) then [] else [a[0]];
      assert (a + b)[0] == a[0];
      assert (a + b)[1..] == a[1..] + b;
      OtherKeysAppend(a[1..], b);
      assert OtherKeys(a + b) == head + OtherKeys(a[1..] + b);
      assert OtherKeys(a) == head + OtherKeys(a[1..]);
    } else {
      assert a + b == b;
    }
  }

  /** Keeping and dropping the array indices splits a sequence's multiset in two. */
  lemma {:induction false} PartitionKeys(ks: seq<string>)
    ensures multiset(IndexKeys(ks)) + multiset(OtherKeys(ks)) == multiset(ks)
  {
    if ks != [] {
      PartitionKeys(ks[1..]);
      assert ks == [ks[0]] + ks[1..];
    }
  }

  lemma {:induction false} OtherKeysOfIndices(ks: seq<string>)
    requires forall i :: 0 <= i < |ks| ==> IsArrayIndex(ks[i])
    ensures OtherKeys(ks) == []
  {
    if ks != [] {
      OtherKeysOfIndices(ks[1..]);
    }
  }

  lemma {:induction false} OtherKeysIdempotent(ks: seq<string>)
    ensures OtherKeys(OtherKeys(ks)) == OtherKeys(ks)
  {
    if ks != [] {
      OtherKeysIdempotent(ks[1..]);
      OtherKeysAppend(if IsArrayIndex(ks[0]) then [] else [ks[0]], OtherKeys(ks[1..]));
    }
  }

  /** The property order of the keys `names` listed in creation order. */
  function PropertyOrder(names: seq<string>): seq<string> {
    SortByValue(IndexKeys(names)) + OtherKeys(names)
  }

  lemma PropertyOrderSound(names: seq<string>)
    ensures multiset(PropertyOrder(names)) == multiset(names)
    ensures forall i, j :: 0 <= i < j < |PropertyOrder(names)| && IsArrayIndex(PropertyOrder(names)[j]) ==>
              IsArrayIndex(PropertyOrder(names)[i]) && DecimalValue(PropertyOrder(names)[i]) <= DecimalValue(PropertyOrder(names)[j])
    ensures OtherKeys(PropertyOrder(names)) == OtherKeys(names)
  {
    var front := SortByValue(IndexKeys(names));
    var back := OtherKeys(names);
    SortSorted(IndexKeys(names));
    PartitionKeys(names);
    forall i | 0 <= i < |front| ensures IsArrayIndex(front[i]) {
      assert front[i] in multiset(IndexKeys(names));
    }
    OtherKeysOfIndices(front);
    OtherKeysAppend(front, back);
    OtherKeysIdempotent(names);
  }

  /**
   * `Object.keys(row)`: the row's keys in property order. The array-index
   * keys come first, in ascending numeric order; after them come the other
   * keys in creation order; no key is added or lost.
   */
  function Keys(row: Row): (ks: seq<string>)
    ensures |ks| == |row|
    ensures multiset(ks) == multiset(Names(row))
    ensures forall i, j :: 0 <= i < j < |ks| && IsArrayIndex(ks[j]) ==>
              IsArrayIndex(ks[i]) && DecimalValue(ks[i]) <= DecimalValue(ks[j])
    ensures OtherKeys(ks) == OtherKeys(Names(row))
  {
    PropertyOrderSound(Names(row));
    assert |multiset(PropertyOrder(Names(row)))| == |Names(row)|;
    PropertyOrder(Names(row))
  }

  /** `row[key]`: the value stored under `key`, or `Undefined` when there is none. */
  function Lookup(row: Row, key: string): (c: Cell)
    ensures (forall i :: 0 <= i < |row| ==> row[i].name != key) ==> c == Undefined
    ensures forall i ::
      (0 <= i < |row| && row[i].name == key && forall j :: 0 <= j < i ==> row[j].name != key)
      ==> c == row[i].value
  {
    if row == [] then Undefined
    else if row[0].name == key then row[0].value
    else Lookup(row[1..], key)
  }

  lemma YearValues()
    ensures IsArrayIndex("2023") && IsArrayIndex("2024") && !IsArrayIndex("Mes")
    ensures DecimalValue("2023") == 2023 && DecimalValue("2024") == 2024
  {
    assert "2023"[..3] == "202" && "2024"[..3] == "202" && "202"[..2] == "20" && "20"[..1] == "2" && "2"[..0] == "";
  }

  lemma YearSplit()
    ensures IndexKeys(["Mes", "2024", "2023"]) == ["2024", "2023"]
    ensures OtherKeys(["Mes", "2024", "2023"]) == ["Mes"]
  {
    YearValues();
    var names := ["Mes", "2024", "2023"];
    assert names[1..] == ["2024", "2023"] && names[1..][1..] == ["2023"] && names[1..][1..][1..] == [];
  }

  lemma YearSort()
    ensures SortByValue(["2024", "2023"]) == ["2023", "2024"]
  {
    YearValues();
    assert ["2024", "2023"][1..] == ["2023"] && ["2023"][1..] == [];
    assert SortByValue(["2023"]) == Insert("2023", []) == ["2023"];
    assert Insert("2024", ["2023"]) == ["2023"] + Insert("2024", []);
  }

  lemma YearOrder()
    ensures PropertyOrder(["Mes", "2024", "2023"]) == ["2023", "2024", "Mes"]
  {
    YearSplit();
    YearSort();
  }

  /**
   * A sheet whose columns are a month name and two years lists the years
   * first: the header and the column choices read `2023, 2024, Mes`.
   */
  lemma YearColumnsComeFirst()
    ensures Keys([Field("Mes", Text("enero")), Field("2024", Num(5)), Field("2023", Num(3))]) == ["2023", "2024", "Mes"]
  {
    var row := [Field("Mes", Text("enero")), Field("2024", Num(5)), Field("2023", Num(3))];
    assert Names(row) == ["Mes", "2024", "2023"];
    YearOrder();
  }

  /** The rows of a response, when it carries any (`data.data && data.data.length > 0`). */
  predicate HasRows(p: Payload) {
    p.data.Some? && |p.data.value| > 0
  }
}
