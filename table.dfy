/** The table operations the store performs on its rows: hour-key and
    exact-timestamp membership, the batch filter, sorting by timestamp and
    age-based pruning. */
module Table {
  import opened Timestamps
  import opened Records

  /** `hour in df['timestamp'].str[:13].values` */
  predicate HourTaken(rows: seq<Record>, hour: string)
  {
    exists i :: 0 <= i < |rows| && HourKey(rows[i].timestamp) == hour
  }

  /** `set(df['timestamp'].values)` */
  function Stamps(rows: seq<Record>): set<string>
  {
    set r | r in rows :: r.timestamp
  }

  /** A row appended with a timestamp in `hour` makes that hour taken. */
  lemma AppendTakesHour(rows: seq<Record>, r: Record, hour: string)
    requires HourKey(r.timestamp) == hour
    ensures HourTaken(rows + [r], hour)
  {
    assert (rows + [r])[|rows|] == r;
  }

  /** A taken hour stays taken while no row is removed: after any later
      single append, and after a batch write, which keeps every old row. */
  lemma HourTakenGrows(rows: seq<Record>, rows': seq<Record>, hour: string)
    requires HourTaken(rows, hour)
    requires multiset(rows) <= multiset(rows')
    ensures HourTaken(rows', hour)
  {
    var i :| 0 <= i < |rows| && HourKey(rows[i].timestamp) == hour;
    assert rows[i] in multiset(rows');
    var j :| 0 <= j < |rows'| && rows'[j] == rows[i];
  }

  /** `df_new[~df_new['timestamp'].isin(stamps)]`: the batch records whose
      timestamp is not in `stamps`, in batch order. Duplicates inside the
      batch are kept, as many times as they occur. */
  function NewRecords(batch: seq<Record>, stamps: set<string>): (added: seq<Record>)
    ensures |added| <= |batch|
    ensures forall r :: r in added <==> r in batch && r.timestamp !in stamps
    ensures forall r :: multiset(added)[r] == if r.timestamp in stamps then 0 else multiset(batch)[r]
  {
    if batch == [] then []
    else
      var rest := NewRecords(batch[1..], stamps);
      assert batch == [batch[0]] + batch[1..];
      if batch[0].timestamp in stamps then rest else [batch[0]] + rest
  }

  /** Rows in non-decreasing timestamp order. */
  predicate Sorted(rows: seq<Record>)
  {
    forall i, j :: 0 <= i < j < |rows| ==> Le(rows[i].timestamp, rows[j].timestamp)
  }

  /** The rows after the first stay sorted. */
  lemma SortedTail(rows: seq<Record>)
    requires Sorted(rows) && rows != []
    ensures Sorted(rows[1..])
  {
    forall i, j | 0 <= i < j < |rows| - 1
      ensures Le(rows[1..][i].timestamp, rows[1..][j].timestamp)
    {
      assert rows[1..][i] == rows[i + 1] && rows[1..][j] == rows[j + 1];
    }
  }

  /** A row no later than every row of a sorted sequence can lead it. */
  lemma ConsSorted(x: Record, rows: seq<Record>)
    requires Sorted(rows)
    requires forall i :: 0 <= i < |rows| ==> Le(x.timestamp, rows[i].timestamp)
    ensures Sorted([x] + rows)
  {
    var out := [x] + rows;
    forall i, j | 0 <= i < j < |out| ensures Le(out[i].timestamp, out[j].timestamp) {
      assert out[j] == rows[j - 1];
      if i > 0 { assert out[i] == rows[i - 1]; }
    }
  }

  /** Inserts `r` into sorted `rows` before the first row it does not follow. */
  function Insert(r: Record, rows: seq<Record>): (out: seq<Record>)
    requires Sorted(rows)
    ensures Sorted(out)
    ensures multiset(out) == multiset(rows) + multiset{r}
  {
    if rows == [] then [r]
    else if Le(r.timestamp, rows[0].timestamp) then
      forall j | 0 <= j < |rows| ensures Le(r.timestamp, rows[j].timestamp) {
        if j > 0 { LeTransitive(r.timestamp, rows[0].timestamp, rows[j].timestamp); }
      }
      ConsSorted(r, rows);
      [r] + rows
    else
      SortedTail(rows);
      var rest := Insert(r, rows[1..]);
      assert rows == [rows[0]] + rows[1..];
      LeTotal(r.timestamp, rows[0].timestamp);
      forall i | 0 <= i < |rest| ensures Le(rows[0].timestamp, rest[i].timestamp) {
        var x := rest[i];
        assert x in multiset(rest);
        if x != r {
          assert x in multiset(rows[1..]);
          var k :| 0 <= k < |rows[1..]| && rows[1..][k] == x;
          assert rows[k + 1] == x;
        }
      }
      ConsSorted(rows[0], rest);
      [rows[0]] + rest
  }

  /** `df.sort_values('timestamp')`. pandas' default sort is not stable, so
      only the order of distinct timestamps is determined: the contract is a
      sorted permutation, and this insertion sort is one such. */
  function SortByTimestamp(rows: seq<Record>): (out: seq<Record>)
    ensures Sorted(out)
    ensures multiset(out) == multiset(rows)
  {
    if rows == [] then []
    else
      assert rows == [rows[0]] + rows[1..];
      Insert(rows[0], SortByTimestamp(rows[1..]))
  }

  /** `df[df['timestamp'] >= cutoff]`: the rows at or after the cutoff, in
      their original order. */
  function Recent(rows: seq<Record>, cutoff: string): (kept: seq<Record>)
    ensures |kept| <= |rows|
    ensures forall r :: r in kept <==> r in rows && Le(cutoff, r.timestamp)
  {
    if rows == [] then []
    else
      var rest := Recent(rows[1..], cutoff);
      assert rows == [rows[0]] + rows[1..];
      if Le(cutoff, rows[0].timestamp) then [rows[0]] + rest else rest
  }

  /** The rows that pruning removes: those strictly before the cutoff. */
  function Older(rows: seq<Record>, cutoff: string): (gone: seq<Record>)
    ensures forall r :: r in gone <==> r in rows && Lt(r.timestamp, cutoff)
  {
    if rows == [] then []
    else
      var rest := Older(rows[1..], cutoff);
      assert rows == [rows[0]] + rows[1..];
      LeTotal(cutoff, rows[0].timestamp);
      LeReflexive(cutoff);
      if Le(cutoff, rows[0].timestamp) then
        assert !Lt(rows[0].timestamp, cutoff) by {
          if Lt(rows[0].timestamp, cutoff) { LeAntisymmetric(cutoff, rows[0].timestamp); }
        }
        rest
      else [rows[0]] + rest
  }

  /** Pruning splits the rows into the kept and the removed: the removed
      count is the number of rows strictly before the cutoff. */
  lemma {:induction false} PruneSplits(rows: seq<Record>, cutoff: string)
    ensures |Recent(rows, cutoff)| + |Older(rows, cutoff)| == |rows|
    ensures multiset(Recent(rows, cutoff)) + multiset(Older(rows, cutoff)) == multiset(rows)
  {
    if rows != [] {
      PruneSplits(rows[1..], cutoff);
      assert rows == [rows[0]] + rows[1..];
    }
  }

  /** With well-formed timestamps, pruning keeps exactly the rows whose
      date-time is not before the cutoff's, as the source's datetime
      comparison does. */
  lemma PruneIsChronological(rows: seq<Record>, cutoff: string)
    requires IsStamp(cutoff)
    requires forall i :: 0 <= i < |rows| ==> IsStamp(rows[i].timestamp)
    ensures forall r :: r in Recent(rows, cutoff) <==>
      r in rows && NotAfter(Parse(cutoff), Parse(r.timestamp))
  {
    forall r | r in rows ensures Le(cutoff, r.timestamp) <==> NotAfter(Parse(cutoff), Parse(r.timestamp)) {
      var i :| 0 <= i < |rows| && rows[i] == r;
      StampOrderIsChronological(cutoff, r.timestamp);
    }
  }

  /** Pruning keeps every qualifying row as many times as it occurs. */
  lemma {:induction false} RecentCounts(rows: seq<Record>, cutoff: string)
    ensures forall r :: multiset(Recent(rows, cutoff))[r] == if Le(cutoff, r.timestamp) then multiset(rows)[r] else 0
  {
    if rows != [] {
      RecentCounts(rows[1..], cutoff);
      assert rows == [rows[0]] + rows[1..];
    }
  }

  /** Pruning keeps relative order: it distributes over concatenation. */
  lemma {:induction false} RecentAppend(a: seq<Record>, b: seq<Record>, cutoff: string)
    ensures Recent(a + b, cutoff) == Recent(a, cutoff) + Recent(b, cutoff)
  {
    if a == [] {
      assert a + b == b;
    } else {
      assert (a + b)[0] == a[0] && (a + b)[1..] == a[1..] + b;
      RecentAppend(a[1..], b, cutoff);
    }
  }

  /** A row stamped exactly at the cutoff is retained. */
  lemma CutoffRowKept(rows: seq<Record>, r: Record, cutoff: string)
    requires r in rows && r.timestamp == cutoff
    ensures r in Recent(rows, cutoff)
  {
    LeReflexive(cutoff);
  }

  /** Every row is at or after the cutoff iff the first is and every later one is. */
  lemma AllAtOrAfterCons(rows: seq<Record>, cutoff: string)
    requires rows != []
    ensures (forall i :: 0 <= i < |rows| ==> Le(cutoff, rows[i].timestamp)) <==>
      Le(cutoff, rows[0].timestamp) && forall i :: 0 <= i < |rows[1..]| ==> Le(cutoff, rows[1..][i].timestamp)
  {
    assert forall i :: 0 <= i < |rows[1..]| ==> rows[1..][i] == rows[i + 1];
  }

  /** Nothing is removed exactly when every row is at or after the cutoff,
      and then pruning leaves the rows as they were. */
  lemma {:induction false} RecentAll(rows: seq<Record>, cutoff: string)
    ensures |Recent(rows, cutoff)| == |rows| <==> forall i :: 0 <= i < |rows| ==> Le(cutoff, rows[i].timestamp)
    ensures |Recent(rows, cutoff)| == |rows| ==> Recent(rows, cutoff) == rows
  {
    if rows != [] {
      var tail := rows[1..];
      RecentAll(tail, cutoff);
      AllAtOrAfterCons(rows, cutoff);
      if Le(cutoff, rows[0].timestamp) {
        assert Recent(rows, cutoff) == [rows[0]] + Recent(tail, cutoff);
        assert rows == [rows[0]] + tail;
      } else {
        assert Recent(rows, cutoff) == Recent(tail, cutoff);
      }
    }
  }

  /** Pruning twice with one cutoff removes nothing more. */
  lemma {:induction false} RecentIdempotent(rows: seq<Record>, cutoff: string)
    ensures Recent(Recent(rows, cutoff), cutoff) == Recent(rows, cutoff)
  {
    var kept := Recent(rows, cutoff);
    forall i | 0 <= i < |kept| ensures Le(cutoff, kept[i].timestamp) {
      assert kept[i] in kept;
    }
    RecentAll(kept, cutoff);
    assert |Recent(kept, cutoff)| == |kept|;
  }

  /** On sorted rows pruning drops a prefix: what is kept is a suffix. */
  lemma {:induction false} RecentOfSortedIsSuffix(rows: seq<Record>, cutoff: string)
    requires Sorted(rows)
    ensures exists k :: 0 <= k <= |rows| && Recent(rows, cutoff) == rows[k..]
  {
    if rows == [] {
      assert Recent(rows, cutoff) == rows[0..];
    } else if Le(cutoff, rows[0].timestamp) {
      forall i | 0 <= i < |rows| ensures Le(cutoff, rows[i].timestamp) {
        if i > 0 { LeTransitive(cutoff, rows[0].timestamp, rows[i].timestamp); }
      }
      RecentAll(rows, cutoff);
      assert Recent(rows, cutoff) == rows[0..];
    } else {
      assert Sorted(rows[1..]) by {
        forall i, j | 0 <= i < j < |rows[1..]|
          ensures Le(rows[1..][i].timestamp, rows[1..][j].timestamp)
        {
          assert rows[1..][i] == rows[i + 1] && rows[1..][j] == rows[j + 1];
        }
      }
      RecentOfSortedIsSuffix(rows[1..], cutoff);
      var k :| 0 <= k <= |rows[1..]| && Recent(rows[1..], cutoff) == rows[1..][k..];
      assert rows[1..][k..] == rows[k + 1..];
    }
  }

  lemma SuffixSorted(rows: seq<Record>, k: nat)
    requires Sorted(rows) && k <= |rows|
    ensures Sorted(rows[k..])
  {
    forall i, j | 0 <= i < j < |rows| - k
      ensures Le(rows[k..][i].timestamp, rows[k..][j].timestamp)
    {
      assert rows[k..][i] == rows[k + i] && rows[k..][j] == rows[k + j];
    }
  }

  /** Pruning a sorted file leaves it sorted. */
  lemma RecentKeepsSorted(rows: seq<Record>, cutoff: string)
    requires Sorted(rows)
    ensures Sorted(Recent(rows, cutoff))
  {
    RecentOfSortedIsSuffix(rows, cutoff);
    var k :| 0 <= k <= |rows| && Recent(rows, cutoff) == rows[k..];
    SuffixSorted(rows, k);
  }

  /** Every batch timestamp is in the store once the new records are added. */
  lemma BatchStampsCovered(rows: seq<Record>, batch: seq<Record>, after: seq<Record>)
    requires multiset(after) == multiset(rows + NewRecords(batch, Stamps(rows)))
    ensures forall r :: r in batch ==> r.timestamp in Stamps(after)
  {
    forall r | r in batch ensures r.timestamp in Stamps(after) {
      var added := NewRecords(batch, Stamps(rows));
      if r.timestamp in Stamps(rows) {
        var s :| s in rows && s.timestamp == r.timestamp;
        assert s in multiset(rows + added);
        assert s in after;
      } else {
        assert r in added;
        assert r in multiset(rows + added);
        assert r in after;
      }
    }
  }

  /** Filtering a batch already covered by the store leaves nothing. */
  lemma NothingNewWhenCovered(batch: seq<Record>, stamps: set<string>)
    requires forall r :: r in batch ==> r.timestamp in stamps
    ensures NewRecords(batch, stamps) == []
  {
    if NewRecords(batch, stamps) != [] {
      assert NewRecords(batch, stamps)[0] in NewRecords(batch, stamps);
    }
  }
}
