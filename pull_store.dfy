/**
 * The local store: the single `pulls` table, keyed by pull-request number.
 * The table's contents are a map from number to row; the queries the
 * program runs against it are functions of that map, and the statements
 * that change it are the methods of PullsTable.
 */
module PullStore {
  import opened Wrappers
  import opened Timestamps

  /** One row of `pulls`. `state` is NULL when the upstream item had none. */
  datatype PullRecord = PullRecord(number: int,
                                   mergedAt: Option<DateTime>,
                                   createdAt: Option<DateTime>,
                                   closedAt: Option<DateTime>,
                                   state: Option<string>,
                                   merged: bool)

  type Rows = map<int, PullRecord>

  /** `number` is the primary key: each row is stored under its own number. */
  ghost predicate KeyedByNumber(rows: Rows) {
    forall k :: k in rows ==> rows[k].number == k
  }

  // ---------------------------------------------------------------------
  // Finite sets of keys

  lemma EmptyIfNoMember(s: set<int>)
    requires forall y :: y !in s
    ensures s == {}
  {
    assert forall y :: y in s <==> y in {};
  }

  lemma Pick(s: set<int>) returns (x: int)
    requires s != {}
    ensures x in s
  {
    if forall y :: y !in s {
      EmptyIfNoMember(s);
      assert false;
    }
    x :| x in s;
  }

  predicate IsMax(s: set<int>, m: int) {
    m in s && forall k :: k in s ==> k <= m
  }

  predicate IsMin(s: set<int>, m: int) {
    m in s && forall k :: k in s ==> m <= k
  }

  lemma {:induction false} MaxAndMinExist(s: set<int>)
    requires s != {}
    ensures exists m :: IsMax(s, m)
    ensures exists m :: IsMin(s, m)
    decreases |s|
  {
    var x := Pick(s);
    if s - {x} == {} {
      assert IsMax(s, x) && IsMin(s, x) by {
        forall k | k in s ensures k == x {
          assert k !in s - {x};
        }
      }
    } else {
      MaxAndMinExist(s - {x});
      var hi :| IsMax(s - {x}, hi);
      var lo :| IsMin(s - {x}, lo);
      var m1 := if x > hi then x else hi;
      var m2 := if x < lo then x else lo;
      assert IsMax(s, m1) && IsMin(s, m2) by {
        forall k | k in s ensures m2 <= k <= m1 {
          if k != x { assert k in s - {x}; }
        }
      }
    }
  }

  // ---------------------------------------------------------------------
  // SELECT MAX(number) FROM pulls

  /** The cached frontier: the largest stored number, or NULL on an empty table. */
  function MaxNumber(rows: Rows): (r: Option<int>)
    ensures r.None? <==> rows == map[]
    ensures r.Some? ==> r.value in rows && forall k :: k in rows ==> k <= r.value
  {
    if rows.Keys == {} then
      assert rows == map[];
      None
    else
      MaxAndMinExist(rows.Keys);
      var m :| IsMax(rows.Keys, m);
      Some(m)
  }

  // ---------------------------------------------------------------------
  // INSERT OR REPLACE INTO pulls ... (executemany over a batch)

  /** The batch's rows applied in order, each replacing any row with its number. */
  function Upsert(rows: Rows, batch: seq<PullRecord>): (r: Rows)
    ensures KeyedByNumber(rows) ==> KeyedByNumber(r)
    decreases |batch|
  {
    if batch == [] then rows
    else Upsert(rows[batch[0].number := batch[0]], batch[1..])
  }

  /** Position of the last row of `batch` whose number is `k`; -1 when there is none. */
  function LastIndexOf(batch: seq<PullRecord>, k: int): (i: int)
    ensures -1 <= i < |batch|
    ensures i >= 0 ==> batch[i].number == k
    ensures forall j :: i < j < |batch| ==> batch[j].number != k
    decreases |batch|
  {
    if batch == [] then -1
    else
      var j := LastIndexOf(batch[1..], k);
      if j >= 0 then j + 1
      else if batch[0].number == k then 0
      else -1
  }

  /**
   * What an upsert leaves under each number: the batch's last row with that
   * number if there is one, the old row otherwise; nothing else appears.
   */
  lemma {:induction false} UpsertAt(rows: Rows, batch: seq<PullRecord>, k: int)
    ensures var r, i := Upsert(rows, batch), LastIndexOf(batch, k);
            && (k in r <==> k in rows || i >= 0)
            && (i >= 0 ==> r[k] == batch[i])
            && (i < 0 && k in rows ==> r[k] == rows[k])
    decreases |batch|
  {
    if batch != [] {
      UpsertAt(rows[batch[0].number := batch[0]], batch[1..], k);
    }
  }

  /** Upserting the same batch a second time changes nothing. */
  lemma UpsertIdempotent(rows: Rows, batch: seq<PullRecord>)
    ensures Upsert(Upsert(rows, batch), batch) == Upsert(rows, batch)
  {
    var once := Upsert(rows, batch);
    var twice := Upsert(once, batch);
    forall k ensures (k in twice <==> k in once) && (k in once ==> twice[k] == once[k]) {
      UpsertAt(rows, batch, k);
      UpsertAt(once, batch, k);
    }
  }

  /** Two upserts in a row are one upsert of the concatenated batches. */
  lemma {:induction false} UpsertConcat(rows: Rows, a: seq<PullRecord>, b: seq<PullRecord>)
    ensures Upsert(Upsert(rows, a), b) == Upsert(rows, a + b)
    decreases |a|
  {
    if a == [] {
      assert a + b == b;
    } else {
      assert (a + b)[1..] == a[1..] + b;
      UpsertConcat(rows[a[0].number := a[0]], a[1..], b);
    }
  }

  // ---------------------------------------------------------------------
  // SELECT merged_at FROM pulls WHERE merged = TRUE AND merged_at IS NOT NULL ORDER BY merged_at

  /** The query's WHERE clause. */
  predicate Selected(p: PullRecord) {
    p.merged && p.mergedAt.Some?
  }

  /** Numbers of the rows the query returns with merge time `t`. */
  ghost function SelectedAt(rows: Rows, t: DateTime): set<int> {
    set k | k in rows && Selected(rows[k]) && rows[k].mergedAt == Some(t)
  }

  predicate StrictlyIncreasing(ks: seq<int>) {
    forall i, j :: 0 <= i < j < |ks| ==> ks[i] < ks[j]
  }

  /** The keys of a table in ascending order. */
  function SortedKeys(s: set<int>): (ks: seq<int>)
    ensures StrictlyIncreasing(ks)
    ensures forall k :: k in ks <==> k in s
    decreases |s|
  {
    if s == {} then []
    else
      MaxAndMinExist(s);
      var m :| IsMin(s, m);
      [m] + SortedKeys(s - {m})
  }

  /** The merge times of the selected rows among `ks`, in the order of `ks`. */
  function MergedColumn(rows: Rows, ks: seq<int>): seq<DateTime>
    requires forall i :: 0 <= i < |ks| ==> ks[i] in rows
  {
    if ks == [] then []
    else
      var p := rows[ks[0]];
      (if Selected(p) then [p.mergedAt.value] else []) + MergedColumn(rows, ks[1..])
  }

  /** Numbers among `ks` of the rows the query returns with merge time `t`. */
  ghost function SelectedAmong(rows: Rows, ks: seq<int>, t: DateTime): set<int> {
    set k | k in ks && k in rows && Selected(rows[k]) && rows[k].mergedAt == Some(t)
  }

  lemma SelectedAmongCons(rows: Rows, ks: seq<int>, t: DateTime)
    requires ks != [] && ks[0] in rows
    ensures var p := rows[ks[0]];
            SelectedAmong(rows, ks, t)
            == SelectedAmong(rows, ks[1..], t) + (if Selected(p) && p.mergedAt == Some(t) then {ks[0]} else {})
  {
    assert forall k :: k in ks <==> k == ks[0] || k in ks[1..] by {
      assert ks == [ks[0]] + ks[1..];
    }
  }

  lemma {:induction false} MergedColumnCounts(rows: Rows, ks: seq<int>, t: DateTime)
    requires forall i :: 0 <= i < |ks| ==> ks[i] in rows
    requires StrictlyIncreasing(ks)
    ensures multiset(MergedColumn(rows, ks))[t] == |SelectedAmong(rows, ks, t)|
    decreases |ks|
  {
    if ks != [] {
      var rest := ks[1..];
      MergedColumnCounts(rows, rest, t);
      SelectedAmongCons(rows, ks, t);
      assert ks[0] !in SelectedAmong(rows, rest, t);
    }
  }

  predicate Ascending(s: seq<DateTime>) {
    forall i, j :: 0 <= i < j < |s| ==> AtOrBefore(s[i], s[j])
  }

  /** An element at or before every element of an ascending sequence can go in front of it. */
  lemma AscendingPrepend(x: DateTime, s: seq<DateTime>)
    requires Ascending(s)
    requires forall i :: 0 <= i < |s| ==> AtOrBefore(x, s[i])
    ensures Ascending([x] + s)
  {
    assert forall i :: 0 < i < |[x] + s| ==> ([x] + s)[i] == s[i - 1];
  }

  /** Places `t` into a sequence, after every leading element that does not follow it. */
  function InsertAscending(s: seq<DateTime>, t: DateTime): seq<DateTime>
    decreases |s|
  {
    if s == [] then [t]
    else if AtOrBefore(t, s[0]) then [t] + s
    else [s[0]] + InsertAscending(s[1..], t)
  }

  lemma {:induction false} InsertAscendingMultiset(s: seq<DateTime>, t: DateTime)
    ensures multiset(InsertAscending(s, t)) == multiset(s) + multiset{t}
    decreases |s|
  {
    if s != [] && !AtOrBefore(t, s[0]) {
      InsertAscendingMultiset(s[1..], t);
      assert s == [s[0]] + s[1..];
    }
  }

  /** A lower bound of `t` and of every element of `s` bounds the result too. */
  lemma {:induction false} InsertAscendingBounded(s: seq<DateTime>, t: DateTime, x: DateTime)
    requires AtOrBefore(x, t)
    requires forall i :: 0 <= i < |s| ==> AtOrBefore(x, s[i])
    ensures forall i :: 0 <= i < |InsertAscending(s, t)| ==> AtOrBefore(x, InsertAscending(s, t)[i])
    decreases |s|
  {
    if s != [] && !AtOrBefore(t, s[0]) {
      InsertAscendingBounded(s[1..], t, x);
      var r := InsertAscending(s, t);
      assert forall i :: 0 < i < |r| ==> r[i] == InsertAscending(s[1..], t)[i - 1];
    }
  }

  /** Inserting into an ascending sequence keeps it ascending. */
  lemma {:induction false} InsertAscendingSorted(s: seq<DateTime>, t: DateTime)
    requires Ascending(s)
    ensures Ascending(InsertAscending(s, t))
    decreases |s|
  {
    if s == [] {
    } else if AtOrBefore(t, s[0]) {
      assert forall i :: 0 <= i < |s| ==> AtOrBefore(t, s[i]) by {
        forall i | 0 <= i < |s| ensures AtOrBefore(t, s[i]) {
          AtOrBeforeTransitive(t, s[0], s[i]);
        }
      }
      AscendingPrepend(t, s);
    } else {
      var rest := InsertAscending(s[1..], t);
      InsertAscendingSorted(s[1..], t);
      Trichotomy(t, s[0]);
      assert forall i :: 0 <= i < |s[1..]| ==> AtOrBefore(s[0], s[1..][i]) by {
        forall i | 0 <= i < |s[1..]| ensures AtOrBefore(s[0], s[1..][i]) {
          assert s[1..][i] == s[i + 1];
        }
      }
      InsertAscendingBounded(s[1..], t, s[0]);
      AscendingPrepend(s[0], rest);
    }
  }

  /** ORDER BY: the same timestamps, in ascending order. */
  function SortAscending(s: seq<DateTime>): (r: seq<DateTime>)
    ensures Ascending(r)
    ensures multiset(r) == multiset(s)
    decreases |s|
  {
    if s == [] then []
    else
      assert s == [s[0]] + s[1..];
      InsertAscendingSorted(SortAscending(s[1..]), s[0]);
      InsertAscendingMultiset(SortAscending(s[1..]), s[0]);
      InsertAscending(SortAscending(s[1..]), s[0])
  }

  /**
   * The loader's query: the merge time of every selected row, each as often
   * as rows carry it, in ascending order.
   */
  function MergedDates(rows: Rows): (r: seq<DateTime>)
    ensures Ascending(r)
    ensures forall t :: multiset(r)[t] == |SelectedAt(rows, t)|
  {
    var ks := SortedKeys(rows.Keys);
    var column := MergedColumn(rows, ks);
    assert forall t :: multiset(column)[t] == |SelectedAt(rows, t)| by {
      forall t ensures multiset(column)[t] == |SelectedAt(rows, t)| {
        MergedColumnCounts(rows, ks, t);
        assert SelectedAmong(rows, ks, t) == SelectedAt(rows, t);
      }
    }
    SortAscending(column)
  }

  /** A timestamp is loaded exactly when some selected row carries it. */
  lemma MergedDatesMembers(rows: Rows, t: DateTime)
    ensures t in MergedDates(rows) <==> exists k :: k in rows && Selected(rows[k]) && rows[k].mergedAt == Some(t)
  {
    var r := MergedDates(rows);
    assert t in r <==> multiset(r)[t] > 0;
    if exists k :: k in rows && Selected(rows[k]) && rows[k].mergedAt == Some(t) {
      var k :| k in rows && Selected(rows[k]) && rows[k].mergedAt == Some(t);
      assert k in SelectedAt(rows, t);
    } else {
      assert SelectedAt(rows, t) == {};
    }
  }

  /** The loader finds nothing exactly when no row is selected, an empty table in particular. */
  lemma MergedDatesEmpty(rows: Rows)
    ensures MergedDates(rows) == [] <==> forall k :: k in rows ==> !Selected(rows[k])
  {
    forall k | k in rows && Selected(rows[k]) ensures MergedDates(rows) != [] {
      MergedDatesMembers(rows, rows[k].mergedAt.value);
    }
    if MergedDates(rows) != [] {
      MergedDatesMembers(rows, MergedDates(rows)[0]);
    }
  }

  // ---------------------------------------------------------------------
  // The table itself

  /** The `pulls` table of one database file, changed in place by the fetcher. */
  class PullsTable {
    var rows: Rows

    ghost predicate Valid()
      reads this
    {
      KeyedByNumber(rows)
    }

    /** Opens the table with what the database file already holds. */
    constructor (stored: Rows)
      requires KeyedByNumber(stored)
      ensures Valid() && rows == stored
    {
      rows := stored;
    }

    /** insert_prs: an empty batch is a no-op; otherwise every row is upserted in order. */
    method InsertPrs(prs: seq<PullRecord>)
      requires Valid()
      modifies this
      ensures Valid()
      ensures rows == Upsert(old(rows), prs)
      ensures prs == [] ==> rows == old(rows)
    {
      if prs == [] {
        return;
      }
      rows := Upsert(rows, prs);
    }

    /** DELETE FROM pulls. */
    method DeleteAll()
      requires Valid()
      modifies this
      ensures Valid() && rows == map[]
    {
      rows := map[];
    }
  }
}
