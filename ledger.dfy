/**
 * The ordering of the shared usage ledger: after a merge the ledger is
 * stably sorted by timestamp string (Rust's `sort_by` on `String::cmp`).
 */
module Ledger {
  import opened TextOrder
  import opened Models

  predicate SortedByTimestamp(s: seq<UsageEntry>) {
    forall i, j :: 0 <= i < j < |s| ==> StrLe(s[i].timestamp, s[j].timestamp)
  }

  /** Puts `x` before the first element whose timestamp is not below its own. */
  function Insert(x: UsageEntry, s: seq<UsageEntry>): (r: seq<UsageEntry>)
    ensures multiset(r) == multiset(s) + multiset{x}
    ensures |r| == |s| + 1
    ensures r[0] == x || (s != [] && r[0] == s[0])
  {
    if s == [] then [x]
    else if StrLe(x.timestamp, s[0].timestamp) then [x] + s
    else
      assert s == [s[0]] + s[1..];
      [s[0]] + Insert(x, s[1..])
  }

  /** Stable insertion sort: each element goes in front of the equal ones that followed it. */
  function SortByTimestamp(s: seq<UsageEntry>): (r: seq<UsageEntry>)
    ensures multiset(r) == multiset(s)
    ensures |r| == |s|
  {
    if s == [] then []
    else
      assert s == [s[0]] + s[1..];
      Insert(s[0], SortByTimestamp(s[1..]))
  }

  lemma {:induction false} InsertKeepsSorted(x: UsageEntry, s: seq<UsageEntry>)
    requires SortedByTimestamp(s)
    ensures SortedByTimestamp(Insert(x, s))
    decreases |s|
  {
    var r := Insert(x, s);
    if s == [] {
    } else if StrLe(x.timestamp, s[0].timestamp) {
      forall i, j | 0 <= i < j < |r| ensures StrLe(r[i].timestamp, r[j].timestamp) {
        if i == 0 && j > 1 {
          StrLeTransitive(x.timestamp, s[0].timestamp, s[j - 1].timestamp);
        }
      }
    } else {
      var rest := Insert(x, s[1..]);
      InsertKeepsSorted(x, s[1..]);
      StrLeTotal(x.timestamp, s[0].timestamp);
      assert r == [s[0]] + rest;
      forall k | 0 <= k < |rest| ensures StrLe(s[0].timestamp, rest[k].timestamp) {
        assert rest[k] in multiset(rest);
        if rest[k] != x {
          assert rest[k] in multiset(s[1..]);
          var m :| 0 <= m < |s[1..]| && s[1..][m] == rest[k];
          assert s[m + 1] == rest[k];
        }
      }
      forall i, j | 0 <= i < j < |r| ensures StrLe(r[i].timestamp, r[j].timestamp) {
        if i == 0 {
          assert r[j] == rest[j - 1];
        } else {
          assert r[i] == rest[i - 1] && r[j] == rest[j - 1];
        }
      }
    }
  }

  lemma {:induction false} SortIsSorted(s: seq<UsageEntry>)
    ensures SortedByTimestamp(SortByTimestamp(s))
    decreases |s|
  {
    if s != [] {
      SortIsSorted(s[1..]);
      InsertKeepsSorted(s[0], SortByTimestamp(s[1..]));
    }
  }

  /** Sorting an already sorted ledger leaves it as it is. */
  lemma {:induction false} SortOfSortedIsIdentity(s: seq<UsageEntry>)
    requires SortedByTimestamp(s)
    ensures SortByTimestamp(s) == s
    decreases |s|
  {
    if s != [] {
      assert SortedByTimestamp(s[1..]) by {
        forall i, j | 0 <= i < j < |s[1..]| ensures StrLe(s[1..][i].timestamp, s[1..][j].timestamp) {
          assert s[1..][i] == s[i + 1] && s[1..][j] == s[j + 1];
        }
      }
      SortOfSortedIsIdentity(s[1..]);
      if |s| > 1 {
        assert StrLe(s[0].timestamp, s[1].timestamp);
        assert s == [s[0]] + s[1..];
      }
    }
  }
}
