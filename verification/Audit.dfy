/** Listing denials: one query per denial event, concatenated, sorted in place and cut to the limit. */
module Audit {
  import opened Bytes
  import opened Strings

  /** `seqno` is assigned on insert and only grows. */
  datatype Row = Row(seqno: nat, event: Text, at: int, actorID: Text, deviceID: Text)

  const DEFAULT_LIMIT: nat := 100
  const MAX_LIMIT: nat := 10000

  ghost predicate Trail(rows: seq<Row>) {
    forall i, j | 0 <= i < j < |rows| :: rows[i].seqno < rows[j].seqno
  }

  function Effective(limit: int): nat {
    if limit <= 0 then DEFAULT_LIMIT else if limit > MAX_LIMIT then MAX_LIMIT else limit
  }

  /** The newest `n` rows that match, newest first. */
  function Newest(rows: seq<Row>, wanted: Row -> bool, n: nat): seq<Row> {
    if rows == [] || n == 0 then []
    else
      var last := rows[|rows| - 1];
      if wanted(last) then [last] + Newest(rows[..|rows| - 1], wanted, n - 1)
      else Newest(rows[..|rows| - 1], wanted, n)
  }

  function Query(rows: seq<Row>, wanted: Row -> bool, limit: int): seq<Row> {
    Newest(rows, wanted, Effective(limit))
  }

  /** Rows that pass the rest of the filter and carry this event. */
  function Named(filter: Row -> bool, name: Text): Row -> bool {
    (r: Row) => filter(r) && r.event == name
  }

  function AnyOf(filter: Row -> bool, names: seq<Text>): Row -> bool {
    (r: Row) => filter(r) && r.event in names
  }

  // Sorting

  /** Where the inner loop leaves a row among sorted ones: it moves past every row strictly older. */
  function Insert(s: seq<Row>, r: Row): seq<Row> {
    if s != [] && r.seqno > s[|s| - 1].seqno then Insert(s[..|s| - 1], r) + [s[|s| - 1]] else s + [r]
  }

  function Sorted(s: seq<Row>): seq<Row> {
    if s == [] then [] else Insert(Sorted(s[..|s| - 1]), s[|s| - 1])
  }

  method SortBySeqDesc(a: array<Row>)
    modifies a
    ensures a[..] == Sorted(old(a[..]))
  {
    ghost var was := a[..];
    if a.Length == 0 {
      return;
    }
    assert was[..1] == [was[0]] && was[..1][..0] == [];
    for i := 1 to a.Length
      invariant a[..i] == Sorted(was[..i]) && a[i..] == was[i..]
    {
      MoveLeft(a, i);
      assert was[..i + 1][..i] == was[..i] && was[..i + 1][i] == was[i];
      assert a[i + 1..] == was[i + 1..];
    }
    assert a[..a.Length] == a[..] && was[..a.Length] == was;
  }

  /** A row goes right after the last one that is not older, if all those after that are. */
  lemma {:induction false} InsertAt(s: seq<Row>, r: Row, j: nat)
    requires j <= |s| && (j > 0 ==> r.seqno <= s[j - 1].seqno)
    requires forall k | j <= k < |s| :: r.seqno > s[k].seqno
    ensures Insert(s, r) == s[..j] + [r] + s[j..]
    decreases |s|
  {
    if j < |s| {
      var n := |s| - 1;
      var front := s[..n];
      InsertAt(front, r, j);
      assert front[..j] == s[..j] && front[j..] + [s[n]] == s[j..];
    }
  }

  /** Row i is at j, what was between is moved up by one, and nothing else has moved. */
  lemma Placed(was: seq<Row>, now: seq<Row>, i: nat, j: nat)
    requires j <= i < |was| == |now| && now[j] == was[i] && (j > 0 ==> was[i].seqno <= was[j - 1].seqno)
    requires forall k | 0 <= k < j || i < k < |was| :: now[k] == was[k]
    requires forall k | j < k <= i :: now[k] == was[k - 1] && was[i].seqno > now[k].seqno
    ensures now[..i + 1] == Insert(was[..i], was[i]) && now[i + 1..] == was[i + 1..]
  {
    var s := was[..i];
    forall k | j <= k < i ensures was[i].seqno > s[k].seqno {
      assert now[k + 1] == s[k];
    }
    InsertAt(s, was[i], j);
    assert now[..i + 1] == s[..j] + [was[i]] + s[j..];
  }

  /** The inner loop: swaps row i down to its place. */
  method MoveLeft(a: array<Row>, i: nat)
    requires i < a.Length
    modifies a
    ensures a[..i + 1] == Insert(old(a[..i]), old(a[i]))
    ensures a[i + 1..] == old(a[i + 1..])
  {
    var j := i;
    while j > 0 && a[j].seqno > a[j - 1].seqno
      invariant 0 <= j <= i && a[j] == old(a[i])
      invariant forall k | 0 <= k < j || i < k < a.Length :: a[k] == old(a[k])
      invariant forall k | j < k <= i :: a[k] == old(a[k - 1]) && old(a[i]).seqno > a[k].seqno
    {
      a[j], a[j - 1] := a[j - 1], a[j];
      j := j - 1;
    }
    Placed(old(a[..]), a[..], i, j);
    assert a[..][..i + 1] == a[..i + 1] && a[..][i + 1..] == a[i + 1..];
  }

  /** Strictly newest first. */
  ghost predicate Descending(s: seq<Row>) {
    forall i, j | 0 <= i < j < |s| :: s[i].seqno > s[j].seqno
  }

  ghost predicate Distinct(s: seq<Row>) {
    forall i, j | 0 <= i < j < |s| :: s[i].seqno != s[j].seqno
  }

  lemma {:induction false} InsertSorts(s: seq<Row>, r: Row)
    requires Descending(s) && forall i | 0 <= i < |s| :: s[i].seqno != r.seqno
    ensures Descending(Insert(s, r))
    ensures forall x :: x in Insert(s, r) <==> x in s || x == r
  {
    if s != [] {
      var last := s[|s| - 1];
      var front := s[..|s| - 1];
      assert s == front + [last];
      if r.seqno > last.seqno {
        InsertSorts(front, r);
        var t := Insert(front, r);
        forall i | 0 <= i < |t| ensures t[i].seqno > last.seqno {
          assert t[i] in t;
        }
      }
    }
  }

  /** The sort yields the same rows, strictly newest first. */
  lemma {:induction false} SortedSorts(s: seq<Row>)
    requires Distinct(s)
    ensures Descending(Sorted(s))
    ensures forall x :: x in Sorted(s) <==> x in s
  {
    if s != [] {
      var last := s[|s| - 1];
      var front := s[..|s| - 1];
      assert s == front + [last];
      SortedSorts(front);
      var t := Sorted(front);
      forall i | 0 <= i < |t| ensures t[i].seqno != last.seqno {
        assert t[i] in front;
      }
      InsertSorts(t, last);
    }
  }

  // The listing

  const DENIALS: seq<Text> := [Ascii("grant.denied"), Ascii("stream.denied"), Ascii("enroll.denied"), Ascii("operator.login_denied")]

  /** One query per name, one after another. */
  function Batches(rows: seq<Row>, filter: Row -> bool, names: seq<Text>, limit: int): seq<Row> {
    if names == [] then []
    else
      var n := |names| - 1;
      Batches(rows, filter, names[..n], limit) + Query(rows, Named(filter, names[n]), limit)
  }

  /** Sorted and cut. None stands for the panic of cutting to a negative length. */
  function Listing(rows: seq<Row>, filter: Row -> bool, names: seq<Text>, limit: int): Option<seq<Row>> {
    var all := Sorted(Batches(rows, filter, names, limit));
    if |all| <= limit then Some(all) else if limit < 0 then None else Some(all[..limit])
  }

  method ListDenials(rows: seq<Row>, filter: Row -> bool, names: seq<Text>, limit: int) returns (r: Option<seq<Row>>)
    ensures r == Listing(rows, filter, names, limit)
    ensures r.None? <==> limit < 0
    ensures Trail(rows) && Different(names) && 1 <= limit <= MAX_LIMIT ==>
              r == Some(Query(rows, AnyOf(filter, names), limit))
  {
    var events := [];
    for i := 0 to |names|
      invariant events == Batches(rows, filter, names[..i], limit)
    {
      assert names[..i + 1][..i] == names[..i];
      events := events + Query(rows, Named(filter, names[i]), limit);
    }
    assert names[..|names|] == names;
    var a := new Row[|events|](i requires 0 <= i < |events| => events[i]);
    assert a[..] == events;
    SortBySeqDesc(a);
    events := a[..];
    if Trail(rows) && Different(names) && 1 <= limit <= MAX_LIMIT {
      ListingIsOneQuery(rows, filter, names, limit);
    }
    if |events| > limit {
      if limit < 0 {
        return None;
      }
      events := events[..limit];
    }
    return Some(events);
  }

  /** The newest matching rows: matching rows of the trail, strictly newest first. */
  lemma {:induction false} NewestAre(rows: seq<Row>, wanted: Row -> bool, n: nat)
    requires Trail(rows)
    ensures Descending(Newest(rows, wanted, n)) && |Newest(rows, wanted, n)| <= n
    ensures forall r | r in Newest(rows, wanted, n) :: r in rows && wanted(r)
    decreases |rows|
  {
    if rows != [] && n > 0 {
      var last := rows[|rows| - 1];
      var front := rows[..|rows| - 1];
      assert rows == front + [last];
      var m: nat := if wanted(last) then n - 1 else n;
      NewestAre(front, wanted, m);
      forall r | r in Newest(front, wanted, m) ensures r.seqno < last.seqno {
        var i :| 0 <= i < |front| && front[i] == r;
        assert rows[i] == r;
      }
    }
  }

  /** And they are the newest: a matching row left out is older than every row returned, and leaves no room. */
  lemma {:induction false} NewestComeFirst(rows: seq<Row>, wanted: Row -> bool, n: nat, r: Row)
    requires Trail(rows) && r in rows && wanted(r) && r !in Newest(rows, wanted, n)
    ensures |Newest(rows, wanted, n)| == n && forall x | x in Newest(rows, wanted, n) :: x.seqno > r.seqno
    decreases |rows|
  {
    if n > 0 {
      var last := rows[|rows| - 1];
      var front := rows[..|rows| - 1];
      assert rows == front + [last];
      var m: nat := if wanted(last) then n - 1 else n;
      assert r in front;
      NewestComeFirst(front, wanted, m, r);
      var i :| 0 <= i < |front| && front[i] == r;
      assert rows[i] == r;
    }
  }

  lemma SameSeqSameRow(rows: seq<Row>, r: Row, x: Row)
    requires Trail(rows) && r in rows && x in rows && r.seqno == x.seqno
    ensures r == x
  {
    var i :| 0 <= i < |rows| && rows[i] == r;
    var j :| 0 <= j < |rows| && rows[j] == x;
  }

  ghost predicate Different(names: seq<Text>) {
    forall i, j | 0 <= i < j < |names| :: names[i] != names[j]
  }

  /** A row is in the batches exactly when it is in the batch of one of the names. */
  ghost predicate InSome(rows: seq<Row>, filter: Row -> bool, names: seq<Text>, limits: seq<nat>, r: Row)
    requires |limits| == |names|
  {
    exists k | 0 <= k < |names| :: r in Newest(rows, Named(filter, names[k]), limits[k])
  }

  lemma {:induction false} BatchesAre(rows: seq<Row>, filter: Row -> bool, names: seq<Text>, limit: int)
    requires Trail(rows) && Different(names)
    ensures Distinct(Batches(rows, filter, names, limit))
    ensures forall r | r in Batches(rows, filter, names, limit) :: r in rows && r.event in names
    ensures forall r :: r in Batches(rows, filter, names, limit) <==>
                        exists k | 0 <= k < |names| :: r in Query(rows, Named(filter, names[k]), limit)
    decreases |names|
  {
    if names != [] {
      var n := |names| - 1;
      var front, name := names[..n], names[n];
      assert names == front + [name];
      BatchesAre(rows, filter, front, limit);
      var a, b := Batches(rows, filter, front, limit), Query(rows, Named(filter, name), limit);
      NewestAre(rows, Named(filter, name), Effective(limit));
      DistinctJoin(rows, a, b, front, name);
      forall r ensures r in a + b <==> exists k | 0 <= k < |names| :: r in Query(rows, Named(filter, names[k]), limit) {
        if k :| 0 <= k < |names| && r in Query(rows, Named(filter, names[k]), limit) {
          assert k < n ==> front[k] == names[k];
        }
        if r in a {
          var k :| 0 <= k < |front| && r in Query(rows, Named(filter, front[k]), limit);
          assert names[k] == front[k];
        }
      }
    }
  }

  lemma DistinctJoin(rows: seq<Row>, a: seq<Row>, b: seq<Row>, names: seq<Text>, name: Text)
    requires Trail(rows) && Distinct(a) && Descending(b) && name !in names
    requires forall r | r in a :: r in rows && r.event in names
    requires forall r | r in b :: r in rows && r.event == name
    ensures Distinct(a + b)
  {
    forall i, j | 0 <= i < |a| && 0 <= j < |b| ensures a[i].seqno != b[j].seqno {
      if a[i].seqno == b[j].seqno {
        assert a[i] in a && b[j] in b;
        SameSeqSameRow(rows, a[i], b[j]);
      }
    }
  }

  /** Of a strictly descending list holding, for each name, at least the newest n rows of that name, the first n
      are the newest n rows of any of the names. */
  lemma {:induction false} FirstAreNewest(rows: seq<Row>, filter: Row -> bool, names: seq<Text>, limits: seq<nat>, n: nat, l: seq<Row>)
    requires Trail(rows) && Different(names) && |limits| == |names| && Descending(l)
    requires forall k | 0 <= k < |limits| :: limits[k] >= n
    requires forall r :: r in l <==> InSome(rows, filter, names, limits, r)
    ensures l[..Min(n, |l|)] == Newest(rows, AnyOf(filter, names), n)
    decreases |rows|
  {
    if rows == [] {
      assert l != [] ==> l[0] in l;
    } else if n > 0 {
      var last := rows[|rows| - 1];
      var front := rows[..|rows| - 1];
      assert rows == front + [last];
      if filter(last) && last.event in names {
        var k :| 0 <= k < |names| && names[k] == last.event;
        var limits' := limits[k := limits[k] - 1];
        WithLast(rows, filter, names, limits, k, l);
        FirstAreNewest(front, filter, names, limits', n - 1, l[1..]);
        assert l[..Min(n, |l|)] == [last] + l[1..][..Min(n - 1, |l[1..]|)];
      } else {
        forall r ensures r in l <==> InSome(front, filter, names, limits, r) {
          assert forall k | 0 <= k < |names| && limits[k] > 0 ::
              Newest(rows, Named(filter, names[k]), limits[k]) == Newest(front, Named(filter, names[k]), limits[k]);
        }
        FirstAreNewest(front, filter, names, limits, n, l);
      }
    }
  }

  /** The last row of the trail, if it is of some name, heads the list; the rest is the same question about the
      trail without it. */
  lemma WithLast(rows: seq<Row>, filter: Row -> bool, names: seq<Text>, limits: seq<nat>, k: nat, l: seq<Row>)
    requires Trail(rows) && rows != [] && Different(names) && |limits| == |names| && Descending(l)
    requires k < |names| && limits[k] > 0
    requires filter(rows[|rows| - 1]) && rows[|rows| - 1].event == names[k]
    requires forall r :: r in l <==> InSome(rows, filter, names, limits, r)
    ensures l != [] && l[0] == rows[|rows| - 1]
    ensures forall r :: r in l[1..] <==> InSome(rows[..|rows| - 1], filter, names, limits[k := limits[k] - 1], r)
  {
    var last := rows[|rows| - 1];
    var front := rows[..|rows| - 1];
    assert rows == front + [last];
    var limits' := limits[k := limits[k] - 1];
    forall r ensures InSome(rows, filter, names, limits, r) <==> r == last || InSome(front, filter, names, limits', r) {
      SomeWithLast(rows, filter, names, limits, k, r);
    }
    assert last in l;
    forall r | InSome(front, filter, names, limits', r) ensures r.seqno < last.seqno {
      var j :| 0 <= j < |names| && r in Newest(front, Named(filter, names[j]), limits'[j]);
      NewestAre(front, Named(filter, names[j]), limits'[j]);
      var i :| 0 <= i < |front| && front[i] == r;
      assert rows[i] == r;
    }
    HeadIsGreatest(l, last);
  }

  lemma SomeWithLast(rows: seq<Row>, filter: Row -> bool, names: seq<Text>, limits: seq<nat>, k: nat, r: Row)
    requires Trail(rows) && rows != [] && Different(names) && |limits| == |names| && k < |names| && limits[k] > 0
    requires filter(rows[|rows| - 1]) && rows[|rows| - 1].event == names[k]
    ensures InSome(rows, filter, names, limits, r) <==>
            r == rows[|rows| - 1] || InSome(rows[..|rows| - 1], filter, names, limits[k := limits[k] - 1], r)
  {
    var last := rows[|rows| - 1];
    var front := rows[..|rows| - 1];
    var limits' := limits[k := limits[k] - 1];
    assert Newest(rows, Named(filter, names[k]), limits[k]) == [last] + Newest(front, Named(filter, names[k]), limits[k] - 1);
    forall j | 0 <= j < |names| && j != k
      ensures Newest(rows, Named(filter, names[j]), limits[j]) == Newest(front, Named(filter, names[j]), limits'[j])
    {
    }
    if InSome(rows, filter, names, limits, r) {
      var j :| 0 <= j < |names| && r in Newest(rows, Named(filter, names[j]), limits[j]);
      assert r == last || r in Newest(front, Named(filter, names[j]), limits'[j]);
    }
    if InSome(front, filter, names, limits', r) {
      var j :| 0 <= j < |names| && r in Newest(front, Named(filter, names[j]), limits'[j]);
      assert r in Newest(rows, Named(filter, names[j]), limits[j]);
    }
    assert last in Newest(rows, Named(filter, names[k]), limits[k]);
  }

  lemma HeadIsGreatest(l: seq<Row>, x: Row)
    requires Descending(l) && x in l && forall r | r in l :: r == x || r.seqno < x.seqno
    ensures l != [] && l[0] == x && forall r :: r in l[1..] <==> r in l && r != x
  {
    assert l[0] in l;
    var i :| 0 <= i < |l| && l[i] == x;
    assert i == 0;
    assert l == [x] + l[1..];
    forall r | r in l[1..] ensures r != x {
      var j :| 0 <= j < |l[1..]| && l[1..][j] == r;
      assert l[j + 1] == r;
    }
  }

  /** For every limit from 1 to the maximum, on a fixed trail: taking the newest rows of each denial event,
      concatenating, sorting and cutting gives what one query over all denial events would. */
  lemma ListingIsOneQuery(rows: seq<Row>, filter: Row -> bool, names: seq<Text>, limit: nat)
    requires Trail(rows) && Different(names) && 1 <= limit <= MAX_LIMIT
    ensures Listing(rows, filter, names, limit) == Some(Query(rows, AnyOf(filter, names), limit))
  {
    var batches := Batches(rows, filter, names, limit);
    var all := Sorted(batches);
    BatchesAre(rows, filter, names, limit);
    SortedSorts(batches);
    var limits := seq(|names|, _ => limit);
    forall r ensures r in all <==> InSome(rows, filter, names, limits, r) {
      if r in all {
        var k :| 0 <= k < |names| && r in Query(rows, Named(filter, names[k]), limit);
        assert r in Newest(rows, Named(filter, names[k]), limits[k]);
      }
      if InSome(rows, filter, names, limits, r) {
        var k :| 0 <= k < |names| && r in Newest(rows, Named(filter, names[k]), limits[k]);
        assert r in Query(rows, Named(filter, names[k]), limit);
      }
    }
    FirstAreNewest(rows, filter, names, limits, limit, all);
    assert |all| <= limit ==> all[..Min(limit, |all|)] == all;
  }

  // Other limits

  lemma {:induction false} InsertLength(s: seq<Row>, r: Row)
    ensures |Insert(s, r)| == |s| + 1
  {
    if s != [] && r.seqno > s[|s| - 1].seqno {
      InsertLength(s[..|s| - 1], r);
    }
  }

  lemma {:induction false} SortedLength(s: seq<Row>)
    ensures |Sorted(s)| == |s|
  {
    if s != [] {
      SortedLength(s[..|s| - 1]);
      InsertLength(Sorted(s[..|s| - 1]), s[|s| - 1]);
    }
  }

  lemma {:induction false} NewestOfAll(rows: seq<Row>, wanted: Row -> bool, n: nat)
    requires n <= |rows| && forall r | r in rows :: wanted(r)
    ensures |Newest(rows, wanted, n)| == n
    decreases |rows|
  {
    if n > 0 {
      var front := rows[..|rows| - 1];
      assert forall r | r in front :: r in rows;
      assert rows[|rows| - 1] in rows;
      NewestOfAll(front, wanted, n - 1);
    }
  }

  lemma {:induction false} NewestAtMost(rows: seq<Row>, wanted: Row -> bool, n: nat)
    ensures |Newest(rows, wanted, n)| <= n
    decreases |rows|
  {
    if rows != [] && n > 0 {
      var front := rows[..|rows| - 1];
      NewestAtMost(front, wanted, n);
      NewestAtMost(front, wanted, n - 1);
    }
  }

  /** A full batch of one name, then one row of another. */
  function Crowded(name: Text, other: Text): seq<Row> {
    seq(MAX_LIMIT, (i: nat) => Row(i, name, 0, [], [])) + [Row(MAX_LIMIT, other, 0, [], [])]
  }

  lemma CrowdedBatches(names: seq<Text>, limit: int, filter: Row -> bool)
    requires |names| >= 2 && Different(names) && limit > MAX_LIMIT && forall r :: filter(r)
    ensures var rows := Crowded(names[|names| - 2], names[|names| - 1]);
            Trail(rows) && |Batches(rows, filter, names, limit)| > MAX_LIMIT
  {
    var n := |names| - 1;
    var name, other := names[n - 1], names[n];
    var rows := Crowded(name, other);
    var front, last := rows[..MAX_LIMIT], rows[MAX_LIMIT];
    assert rows == front + [last];
    NewestOfAll(front, Named(filter, name), MAX_LIMIT);
    assert Query(rows, Named(filter, name), limit) == Newest(front, Named(filter, name), MAX_LIMIT);
    assert last in Query(rows, Named(filter, other), limit);
    assert names[..n][..n - 1] == names[..n - 1] && names[..n][n - 1] == name;
    assert Batches(rows, filter, names[..n], limit) ==
           Batches(rows, filter, names[..n - 1], limit) + Query(rows, Named(filter, name), limit);
  }

  /** For several events, the listing is one query on every trail exactly for limits from 1 to the maximum: a
      limit of zero lists nothing, a negative one panics, and a greater one lists more than a query returns. */
  lemma ListingIsOneQueryExactly(names: seq<Text>, limit: int)
    requires |names| >= 2 && Different(names)
    ensures 1 <= limit <= MAX_LIMIT <==>
            forall rows, filter: Row -> bool | Trail(rows) ::
              Listing(rows, filter, names, limit) == Some(Query(rows, AnyOf(filter, names), limit))
  {
    var any := (r: Row) => true;
    if 1 <= limit <= MAX_LIMIT {
      forall rows, filter: Row -> bool | Trail(rows)
        ensures Listing(rows, filter, names, limit) == Some(Query(rows, AnyOf(filter, names), limit))
      {
        ListingIsOneQuery(rows, filter, names, limit);
      }
    } else if limit <= 0 {
      var r := Row(0, names[0], 0, [], []);
      assert Trail([r]) && names[0] in names;
      assert Query([r], AnyOf(any, names), limit) != [];
      assert Listing([r], any, names, limit) != Some(Query([r], AnyOf(any, names), limit));
    } else {
      var rows := Crowded(names[|names| - 2], names[|names| - 1]);
      CrowdedBatches(names, limit, any);
      SortedLength(Batches(rows, any, names, limit));
      NewestAtMost(rows, AnyOf(any, names), MAX_LIMIT);
      assert Listing(rows, any, names, limit) != Some(Query(rows, AnyOf(any, names), limit));
    }
  }

  lemma DenialsDiffer()
    ensures Different(DENIALS)
  {
    assert |DENIALS[0]| == 12 && |DENIALS[1]| == 13 && |DENIALS[2]| == 13 && |DENIALS[3]| == 21;
    assert DENIALS[1][0] == 's' as int && DENIALS[2][0] == 'e' as int;
  }
}
