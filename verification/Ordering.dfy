/** Text order as SQLite's BINARY collation has it, and lists sorted by a nullable text column. */
module Ordering {
  import opened Wrappers

  /** Strict lexicographic order by code point, which is also the order of the UTF-8 bytes. */
  predicate Less(a: string, b: string) {
    if b == "" then false
    else if a == "" then true
    else a[0] < b[0] || (a[0] == b[0] && Less(a[1..], b[1..]))
  }

  lemma {:induction false} LessTotal(a: string, b: string)
    ensures Less(a, b) || a == b || Less(b, a)
    ensures !(Less(a, b) && Less(b, a)) && !Less(a, a)
  {
    if a != "" && b != "" {
      LessTotal(a[1..], b[1..]);
      LessTotal(a[1..], a[1..]);
      assert a == [a[0]] + a[1..] && b == [b[0]] + b[1..];
    } else if a != "" {
      LessTotal(a[1..], a[1..]);
    }
  }

  /** The common prefix and what follows it decide. */
  ghost predicate DiffersAt(a: string, b: string, k: nat) {
    && k <= |a| && k < |b| && a[..k] == b[..k] && (k < |a| ==> a[k] < b[k])
  }

  /** Text order by positions: at the first difference `a` has ended or has the smaller character. */
  lemma {:induction false} LessIff(a: string, b: string)
    ensures Less(a, b) <==> exists k: nat :: DiffersAt(a, b, k)
  {
    if a == "" || b == "" || a[0] != b[0] {
      if Less(a, b) { assert DiffersAt(a, b, 0); }
      assert forall k: nat :: k > 0 && DiffersAt(a, b, k) ==> a[..k][0] == b[..k][0];
    } else {
      LessIff(a[1..], b[1..]);
      if k: nat :| DiffersAt(a[1..], b[1..], k) {
        assert a[..k + 1] == [a[0]] + a[1..][..k] && b[..k + 1] == [b[0]] + b[1..][..k];
        assert DiffersAt(a, b, k + 1);
      }
      if k: nat :| DiffersAt(a, b, k) {
        assert k > 0;
        assert a[1..][..k - 1] == a[..k][1..] && b[1..][..k - 1] == b[..k][1..];
        assert DiffersAt(a[1..], b[1..], k - 1);
      }
    }
  }

  lemma {:induction false} LessTransitive(a: string, b: string, c: string)
    requires Less(a, b) && Less(b, c)
    ensures Less(a, c)
  {
    if a != "" && a[0] == b[0] && b[0] == c[0] {
      LessTransitive(a[1..], b[1..], c[1..]);
    }
  }

  /** ORDER BY on a nullable column: NULL first, then ascending. */
  predicate NullsFirst(a: Option<string>, b: Option<string>) {
    a.None? || (b.Some? && !Less(b.value, a.value))
  }

  lemma {:induction false} NullsFirstTransitive(a: Option<string>, b: Option<string>, c: Option<string>)
    requires NullsFirst(a, b) && NullsFirst(b, c)
    ensures NullsFirst(a, c)
  {
    if a.Some? {
      LessTotal(a.value, b.value);
      LessTotal(b.value, c.value);
      if a.value != b.value && b.value != c.value {
        LessTransitive(a.value, b.value, c.value);
        LessTotal(a.value, c.value);
      }
    }
  }

  lemma {:induction false} NullsFirstTotal(a: Option<string>, b: Option<string>)
    ensures NullsFirst(a, b) || NullsFirst(b, a)
  {
    if a.Some? && b.Some? { LessTotal(a.value, b.value); }
  }

  ghost predicate Sorted<T>(rows: seq<T>, key: T -> Option<string>) {
    forall i, j :: 0 <= i < j < |rows| ==> NullsFirst(key(rows[i]), key(rows[j]))
  }

  ghost predicate Distinct<T>(rows: seq<T>) {
    forall i, j :: 0 <= i < j < |rows| ==> rows[i] != rows[j]
  }

  /**
   The rows of `found`, each once, in the order of `key`. SQL leaves the order of equal keys open, so
   this is a predicate and not a function.
   */
  ghost predicate Listing<T(!new)>(rows: seq<T>, found: set<T>, key: T -> Option<string>) {
    Distinct(rows) && (forall x :: x in rows <==> x in found) && Sorted(rows, key)
  }

  /** Put `x` behind every row that may stand before it. */
  function Insert<T>(rows: seq<T>, x: T, key: T -> Option<string>): seq<T> {
    if rows == [] then [x]
    else if NullsFirst(key(rows[0]), key(x)) then [rows[0]] + Insert(rows[1..], x, key)
    else [x] + rows
  }

  lemma {:induction false} InsertMember<T>(rows: seq<T>, x: T, key: T -> Option<string>, y: T)
    ensures y in Insert(rows, x, key) <==> y == x || y in rows
  {
    if rows != [] { InsertMember(rows[1..], x, key, y); }
  }

  lemma {:induction false} InsertSorts<T>(rows: seq<T>, x: T, key: T -> Option<string>)
    requires Sorted(rows, key) && Distinct(rows) && x !in rows
    ensures Sorted(Insert(rows, x, key), key) && Distinct(Insert(rows, x, key))
  {
    if rows != [] {
      if NullsFirst(key(rows[0]), key(x)) {
        InsertSorts(rows[1..], x, key);
        var rest := Insert(rows[1..], x, key);
        forall j | 0 <= j < |rest|
          ensures NullsFirst(key(rows[0]), key(rest[j])) && rest[j] != rows[0]
        {
          InsertMember(rows[1..], x, key, rest[j]);
        }
      } else {
        NullsFirstTotal(key(rows[0]), key(x));
        forall j | 0 <= j < |rows|
          ensures NullsFirst(key(x), key(rows[j]))
        {
          if j > 0 { NullsFirstTransitive(key(x), key(rows[0]), key(rows[j])); }
        }
      }
    }
  }

  lemma {:induction false} InsertExtendsListing<T(!new)>(rows: seq<T>, found: set<T>, x: T, key: T -> Option<string>)
    requires Listing(rows, found, key) && x !in found
    ensures Listing(Insert(rows, x, key), found + {x}, key)
  {
    InsertSorts(rows, x, key);
    forall y
      ensures y in Insert(rows, x, key) <==> y in found + {x}
    {
      InsertMember(rows, x, key, y);
    }
  }

  /** The rows that satisfy `keep`, in their order. */
  function Filter<T>(rows: seq<T>, keep: T -> bool): seq<T> {
    if rows == [] then []
    else if keep(rows[0]) then [rows[0]] + Filter(rows[1..], keep)
    else Filter(rows[1..], keep)
  }

  lemma {:induction false} FilterMember<T>(rows: seq<T>, keep: T -> bool, x: T)
    ensures x in Filter(rows, keep) <==> x in rows && keep(x)
  {
    if rows != [] { FilterMember(rows[1..], keep, x); }
  }

  lemma {:induction false} FilterAppend<T>(rows: seq<T>, more: seq<T>, keep: T -> bool)
    ensures Filter(rows + more, keep) == Filter(rows, keep) + Filter(more, keep)
  {
    if rows == [] {
      assert rows + more == more;
    } else {
      assert (rows + more)[1..] == rows[1..] + more;
      FilterAppend(rows[1..], more, keep);
    }
  }

  lemma {:induction false} FilterSorts<T>(rows: seq<T>, key: T -> Option<string>, keep: T -> bool)
    requires Sorted(rows, key) && Distinct(rows)
    ensures Sorted(Filter(rows, keep), key) && Distinct(Filter(rows, keep))
  {
    if rows != [] {
      FilterSorts(rows[1..], key, keep);
      var rest := Filter(rows[1..], keep);
      forall j | 0 <= j < |rest|
        ensures NullsFirst(key(rows[0]), key(rest[j])) && rest[j] != rows[0]
      {
        FilterMember(rows[1..], keep, rest[j]);
      }
    }
  }

  /** A WHERE clause picks an ordered sublist: filtering a listing lists the filtered rows. */
  lemma {:induction false} FilterKeepsListing<T(!new)>(rows: seq<T>, found: set<T>, key: T -> Option<string>,
      keep: T -> bool)
    requires Listing(rows, found, key)
    ensures Listing(Filter(rows, keep), set x | x in found && keep(x) :: x, key)
  {
    FilterSorts(rows, key, keep);
    forall x
      ensures x in Filter(rows, keep) <==> x in found && keep(x)
    {
      FilterMember(rows, keep, x);
    }
  }

  lemma {:induction false} NullsFirstBothWays(a: Option<string>, b: Option<string>)
    requires NullsFirst(a, b) && NullsFirst(b, a)
    ensures a == b
  {
    if a.Some? && b.Some? { LessTotal(a.value, b.value); }
  }

  /** Without equal keys there is only one order. */
  ghost predicate DistinctKeys<T(!new)>(found: set<T>, key: T -> Option<string>) {
    forall x, y :: x in found && y in found && key(x) == key(y) ==> x == y
  }

  lemma {:induction false} FoundIsThere<T(!new)>(rows: seq<T>, found: set<T>, key: T -> Option<string>)
    requires Listing(rows, found, key) && rows != []
    ensures found != {}
  {
    assert rows[0] in rows;
  }

  lemma {:induction false} ListingUnique<T(!new)>(a: seq<T>, b: seq<T>, found: set<T>, key: T -> Option<string>)
    requires Listing(a, found, key) && Listing(b, found, key) && DistinctKeys(found, key)
    ensures a == b
    decreases |a|
  {
    if a == [] {
      if b != [] { FoundIsThere(b, found, key); }
    } else {
      assert a[0] in a && a[0] in b && b != [] && b[0] in b && b[0] in a;
      SameFirst(a, b, found, key);
      ListingTail(a, found, key);
      ListingTail(b, found, key);
      ListingUnique(a[1..], b[1..], found - {a[0]}, key);
    }
  }

  lemma {:induction false} SameFirst<T(!new)>(a: seq<T>, b: seq<T>, found: set<T>, key: T -> Option<string>)
    requires Listing(a, found, key) && Listing(b, found, key) && DistinctKeys(found, key)
    requires a != [] && b != [] && a[0] in b && b[0] in a
    ensures a[0] == b[0]
  {
    var i :| 0 <= i < |a| && a[i] == b[0];
    var j :| 0 <= j < |b| && b[j] == a[0];
    if i > 0 && j > 0 { NullsFirstBothWays(key(a[0]), key(b[0])); }
  }

  lemma {:induction false} ListingTail<T(!new)>(rows: seq<T>, found: set<T>, key: T -> Option<string>)
    requires Listing(rows, found, key) && rows != []
    ensures Listing(rows[1..], found - {rows[0]}, key)
  {
  }

  /** ORDER BY: the rows of a result set in the order of a column. */
  method OrderBy<T(==,!new)>(found: set<T>, key: T -> Option<string>) returns (rows: seq<T>)
    ensures Listing(rows, found, key)
  {
    var pending := found;
    rows := [];
    while pending != {}
      invariant pending <= found && Listing(rows, found - pending, key)
      decreases |pending|
    {
      var x :| x in pending;
      InsertExtendsListing(rows, found - pending, x, key);
      rows := Insert(rows, x, key);
      assert found - pending + {x} == found - (pending - {x});
      pending := pending - {x};
    }
    assert found - pending == found;
  }

  /** A stable sort of distinct rows. */
  method SortBy<T(==,!new)>(rows: seq<T>, key: T -> Option<string>) returns (sorted: seq<T>)
    requires Distinct(rows)
    ensures Listing(sorted, set x | x in rows :: x, key)
  {
    sorted := [];
    ghost var done: set<T> := {};
    for i := 0 to |rows|
      invariant Listing(sorted, done, key)
      invariant forall x :: x in done <==> x in rows[..i]
    {
      InsertExtendsListing(sorted, done, rows[i], key);
      sorted := Insert(sorted, rows[i], key);
      done := done + {rows[i]};
      assert rows[..i + 1] == rows[..i] + [rows[i]];
    }
    assert rows[..|rows|] == rows;
  }
}
