/** `save_to_csv` (data_collection/nextdoor_generator.py): the header is the
    sorted union of all keys, and every row is written with one cell per
    header field, empty where the record lacks the key. The file itself is
    left out; the header and the rows are the result. */
module CsvExport {
  import opened Generator

  // ---- Python's string order ----------------------------------------------

  /** `a < b` on Python strings: code point by code point, a proper prefix
      first. */
  predicate Less(a: string, b: string)
    decreases |a|
  {
    |b| > 0 && (|a| == 0 || a[0] < b[0] || (a[0] == b[0] && Less(a[1..], b[1..])))
  }

  lemma {:induction false} LessIrreflexive(a: string)
    ensures !Less(a, a)
    decreases |a|
  {
    if |a| > 0 {
      LessIrreflexive(a[1..]);
    }
  }

  lemma {:induction false} LessTransitive(a: string, b: string, c: string)
    requires Less(a, b) && Less(b, c)
    ensures Less(a, c)
    decreases |a|
  {
    if |a| > 0 && a[0] == b[0] && b[0] == c[0] {
      LessTransitive(a[1..], b[1..], c[1..]);
    }
  }

  /** Distinct strings are ordered one way or the other. */
  lemma {:induction false} LessTotal(a: string, b: string)
    requires a != b
    ensures Less(a, b) || Less(b, a)
    decreases |a|
  {
    if |a| > 0 && |b| > 0 && a[0] == b[0] {
      assert a == [a[0]] + a[1..] && b == [b[0]] + b[1..];
      LessTotal(a[1..], b[1..]);
    }
  }

  lemma {:induction false} LessAsymmetric(a: string, b: string)
    ensures !(Less(a, b) && Less(b, a))
    decreases |a|
  {
    if |a| > 0 && |b| > 0 && a[0] == b[0] {
      LessAsymmetric(a[1..], b[1..]);
    }
  }

  predicate Sorted(ks: seq<string>) {
    forall i, j :: 0 <= i < j < |ks| ==> Less(ks[i], ks[j])
  }

  // ---- The header ---------------------------------------------------------

  /** `k` added to a sorted list of distinct keys, unless it is there. */
  function Insert(ks: seq<string>, k: string): (r: seq<string>)
    requires Sorted(ks)
    ensures Sorted(r)
    ensures forall x :: x in r <==> x in ks || x == k
  {
    if |ks| == 0 then [k]
    else if k == ks[0] then ks
    else if Less(k, ks[0]) then
      assert forall j :: 0 < j < |ks| ==> Less(k, ks[j]) by {
        forall j | 0 < j < |ks| ensures Less(k, ks[j]) {
          LessTransitive(k, ks[0], ks[j]);
        }
      }
      [k] + ks
    else
      LessTotal(k, ks[0]);
      var rest := Insert(ks[1..], k);
      assert forall x :: x in ks <==> x == ks[0] || x in ks[1..] by {
        assert ks == [ks[0]] + ks[1..];
      }
      assert forall j :: 0 <= j < |rest| ==> Less(ks[0], rest[j]) by {
        forall j | 0 <= j < |rest| ensures Less(ks[0], rest[j]) {
          assert rest[j] in rest;
          if rest[j] != k {
            var i :| 0 <= i < |ks[1..]| && ks[1..][i] == rest[j];
            assert ks[i + 1] == rest[j];
          }
        }
      }
      [ks[0]] + rest
  }

  /** The keys of one record added to `ks`. */
  function AddKeys(ks: seq<string>, row: Dict): (r: seq<string>)
    requires Sorted(ks)
    ensures Sorted(r)
    ensures forall x :: x in r <==> x in ks || x in Keys(row)
    decreases |row|
  {
    if |row| == 0 then ks
    else
      assert forall x :: x in Keys(row) <==> x == row[0].0 || x in Keys(row[1..]) by {
        assert Keys(row) == [row[0].0] + Keys(row[1..]);
      }
      AddKeys(Insert(ks, row[0].0), row[1..])
  }

  predicate HasKey(rows: seq<Dict>, k: string) {
    exists i :: 0 <= i < |rows| && k in Keys(rows[i])
  }

  /** `sorted(all_fieldnames)`: every key of every record, sorted, once. */
  function Header(rows: seq<Dict>): (h: seq<string>)
    ensures Sorted(h)
    ensures forall k :: k in h <==> HasKey(rows, k)
  {
    if |rows| == 0 then []
    else
      var init := rows[..|rows| - 1];
      var earlier := Header(init);
      assert forall i :: 0 <= i < |init| ==> init[i] == rows[i];
      AddKeys(earlier, rows[|rows| - 1])
  }

  lemma Nonempty(a: seq<string>)
    ensures |a| == 0 <==> forall x :: x !in a
  {
    if |a| > 0 {
      assert a[0] in a;
    }
  }

  /** In a sorted list the first element precedes all others. */
  lemma MemberTail(a: seq<string>, x: string)
    requires Sorted(a) && |a| > 0
    ensures x in a ==> x == a[0] || Less(a[0], x)
    ensures x in a[1..] <==> x in a && x != a[0]
  {
    LessIrreflexive(a[0]);
    assert a == [a[0]] + a[1..];
    if x in a[1..] {
      var i :| 0 <= i < |a| - 1 && a[1..][i] == x;
      assert a[i + 1] == x;
    }
  }

  /** A sorted list without repetitions is fixed by its elements. */
  lemma {:induction false} SortedUnique(a: seq<string>, b: seq<string>)
    requires Sorted(a) && Sorted(b)
    requires forall x :: x in a <==> x in b
    ensures a == b
    decreases |a|
  {
    Nonempty(a);
    Nonempty(b);
    if |a| > 0 && |b| > 0 {
      assert a[0] in a && b[0] in b;
      MemberTail(b, a[0]);
      MemberTail(a, b[0]);
      LessAsymmetric(a[0], b[0]);
      forall x ensures x in a[1..] <==> x in b[1..] {
        MemberTail(a, x);
        MemberTail(b, x);
      }
      assert Sorted(a[1..]) && Sorted(b[1..]);
      SortedUnique(a[1..], b[1..]);
      assert a == [a[0]] + a[1..] && b == [b[0]] + b[1..];
    }
  }

  /** The header is the one sorted list of the union of the keys, however the
      records are ordered. */
  lemma HeaderIgnoresOrder(rows: seq<Dict>, other: seq<Dict>)
    requires multiset(rows) == multiset(other)
    ensures Header(rows) == Header(other)
  {
    forall k ensures HasKey(rows, k) <==> HasKey(other, k) {
      if HasKey(rows, k) {
        var i :| 0 <= i < |rows| && k in Keys(rows[i]);
        assert rows[i] in multiset(other);
        var j :| 0 <= j < |other| && other[j] == rows[i];
      }
      if HasKey(other, k) {
        var i :| 0 <= i < |other| && k in Keys(other[i]);
        assert other[i] in multiset(rows);
        var j :| 0 <= j < |rows| && rows[j] == other[i];
      }
    }
    SortedUnique(Header(rows), Header(other));
  }

  // ---- The rows -----------------------------------------------------------

  /** `row.get(field, '')`. */
  function Get(row: Dict, field: string): (v: Value)
    ensures Lookup(row, field).Some? ==> v == Lookup(row, field).value
    ensures Lookup(row, field).None? ==> v == Str("")
  {
    match Lookup(row, field)
    case Some(v) => v
    case None => Str("")
  }

  /** `complete_row`, as the cells in header order. */
  function CompleteRow(row: Dict, header: seq<string>): (cells: seq<Value>)
    ensures |cells| == |header|
    ensures forall i :: 0 <= i < |header| ==> cells[i] == Get(row, header[i])
  {
    seq(|header|, i requires 0 <= i < |header| => Get(row, header[i]))
  }

  datatype Table = Table(header: seq<string>, rows: seq<seq<Value>>)

  /** `save_to_csv`: nothing is written for an empty list; otherwise the
      header and one completed row per record, in order. */
  function SaveToCsv(data: seq<Dict>): (t: Option<Table>)
    ensures t.None? <==> |data| == 0
    ensures t.Some? ==> Sorted(t.value.header) && |t.value.rows| == |data|
    ensures t.Some? ==> forall k :: k in t.value.header <==> HasKey(data, k)
    ensures t.Some? ==> forall r :: 0 <= r < |data| ==> |t.value.rows[r]| == |t.value.header|
  {
    if |data| == 0 then None
    else
      var header := Header(data);
      Some(Table(header, seq(|data|, r requires 0 <= r < |data| => CompleteRow(data[r], header))))
  }

  /** A written row keeps each value the record has under a header field and
      leaves the other cells empty. */
  lemma RowCells(data: seq<Dict>, r: nat, i: nat)
    requires r < |data|
    requires SaveToCsv(data).Some? && i < |SaveToCsv(data).value.header|
    ensures var t := SaveToCsv(data).value;
      var cell := t.rows[r][i];
      (Lookup(data[r], t.header[i]).Some? ==> cell == Lookup(data[r], t.header[i]).value)
      && (Lookup(data[r], t.header[i]).None? ==> cell == Str(""))
  {
  }
}
