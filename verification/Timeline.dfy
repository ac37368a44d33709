/**
  The customer timeline: the newest `limit` rows of each of three tables, merged, sorted newest
  first and cut to `limit`. Truncating each source before the merge loses nothing.
 */
module Timeline {

  datatype Row = Row(tenant: string, customer: string, id: nat, stamp: int)

  datatype Kind = Audit | Evaluation | Document

  datatype Event = Event(kind: Kind, artifact: nat, stamp: int)

  // ---------------------------------------------------------------------------
  // Sorting newest first
  // ---------------------------------------------------------------------------

  /** Put a time in front of the first one that is not newer. */
  function Insert(x: int, s: seq<int>): (r: seq<int>)
    ensures |r| == |s| + 1
  {
    if s == [] || s[0] <= x then [x] + s else [s[0]] + Insert(x, s[1..])
  }

  function InsertAll(xs: seq<int>, s: seq<int>): (r: seq<int>)
    ensures |r| == |xs| + |s|
  {
    if xs == [] then s else Insert(xs[0], InsertAll(xs[1..], s))
  }

  function Sort(xs: seq<int>): (r: seq<int>)
    ensures |r| == |xs|
  {
    InsertAll(xs, [])
  }

  function Take<T>(s: seq<T>, limit: nat): seq<T> {
    if |s| <= limit then s else s[..limit]
  }

  predicate Descending(s: seq<int>) {
    forall i, j | 0 <= i < j < |s| :: s[i] >= s[j]
  }

  lemma {:induction false} InsertKeepsContents(x: int, s: seq<int>)
    ensures multiset(Insert(x, s)) == multiset{x} + multiset(s)
  {
    if s != [] {
      TailMultiset(s);
      if s[0] > x {
        InsertKeepsContents(x, s[1..]);
      }
    }
  }

  /** A bound on the contents bounds what an insertion gives. */
  lemma {:induction false} InsertBelow(x: int, s: seq<int>, top: int)
    requires x <= top && forall i | 0 <= i < |s| :: s[i] <= top
    ensures forall i | 0 <= i < |Insert(x, s)| :: Insert(x, s)[i] <= top
  {
    if s != [] && s[0] > x {
      InsertBelow(x, s[1..], top);
    }
  }

  lemma {:induction false} PrependDescends(x: int, s: seq<int>)
    requires Descending(s) && forall i | 0 <= i < |s| :: s[i] <= x
    ensures Descending([x] + s)
  {
    forall i, j | 0 <= i < j < |s| + 1 ensures ([x] + s)[i] >= ([x] + s)[j] {
      if i > 0 { assert s[i - 1] >= s[j - 1]; }
    }
  }

  lemma {:induction false} InsertDescends(x: int, s: seq<int>)
    requires Descending(s)
    ensures Descending(Insert(x, s))
  {
    if s == [] || s[0] <= x {
      PrependDescends(x, s);
    } else {
      TailDescends(s);
      InsertDescends(x, s[1..]);
      InsertBelow(x, s[1..], s[0]);
      PrependDescends(s[0], Insert(x, s[1..]));
    }
  }

  lemma {:induction false} InsertAllDescends(xs: seq<int>, s: seq<int>)
    requires Descending(s)
    ensures Descending(InsertAll(xs, s)) && multiset(InsertAll(xs, s)) == multiset(xs) + multiset(s)
  {
    if xs != [] {
      InsertAllDescends(xs[1..], s);
      InsertDescends(xs[0], InsertAll(xs[1..], s));
      InsertKeepsContents(xs[0], InsertAll(xs[1..], s));
      TailMultiset(xs);
    }
  }

  lemma {:induction false} HeadIsHighest(s: seq<int>, x: int)
    requires Descending(s) && x in multiset(s)
    ensures s != [] && x <= s[0]
  {
    assert x in s;
  }

  lemma {:induction false} SameHead(s: seq<int>, t: seq<int>)
    requires Descending(s) && Descending(t) && multiset(s) == multiset(t) && s != []
    ensures t != [] && s[0] == t[0]
  {
    assert s[0] in multiset(t);
    HeadIsHighest(t, s[0]);
    assert t[0] in multiset(s);
    HeadIsHighest(s, t[0]);
  }

  lemma {:induction false} SameTail(s: seq<int>, t: seq<int>)
    requires s != [] && t != [] && s[0] == t[0] && multiset(s) == multiset(t)
    ensures multiset(s[1..]) == multiset(t[1..])
  {
    TailMultiset(s);
    TailMultiset(t);
  }

  /** A multiset of times has one descending enumeration. */
  lemma {:induction false} DescendingIsUnique(s: seq<int>, t: seq<int>)
    requires Descending(s) && Descending(t) && multiset(s) == multiset(t)
    ensures s == t
  {
    if s == [] {
      assert |multiset(t)| == |t|;
    } else {
      SameHead(s, t);
      SameTail(s, t);
      TailDescends(s);
      TailDescends(t);
      DescendingIsUnique(s[1..], t[1..]);
      assert s == [s[0]] + s[1..] && t == [t[0]] + t[1..];
    }
  }

  lemma {:induction false} TailDescends(s: seq<int>)
    requires s != [] && Descending(s)
    ensures Descending(s[1..])
  {
    forall i, j | 0 <= i < j < |s| - 1 ensures s[1..][i] >= s[1..][j] {
      assert s[i + 1] >= s[j + 1];
    }
  }

  lemma {:induction false} TailMultiset<T>(s: seq<T>)
    requires s != []
    ensures multiset(s) == multiset{s[0]} + multiset(s[1..]) && multiset(s[1..]) == multiset(s) - multiset{s[0]}
  {
    assert s == [s[0]] + s[1..];
  }

  lemma {:induction false} SortIs(xs: seq<int>, s: seq<int>)
    requires Descending(s) && multiset(s) == multiset(xs)
    ensures Sort(xs) == s
  {
    InsertAllDescends(xs, []);
    DescendingIsUnique(Sort(xs), s);
  }

  // ---------------------------------------------------------------------------
  // Truncating first
  // ---------------------------------------------------------------------------

  lemma {:induction false} TakeFront(x: int, s: seq<int>, limit: nat)
    requires limit > 0
    ensures Take([x] + s, limit) == [x] + Take(s, limit - 1)
  {
  }

  lemma {:induction false} TakeTwice(s: seq<int>, less: nat, limit: nat)
    requires less <= limit
    ensures Take(Take(s, limit), less) == Take(s, less)
  {
  }

  lemma {:induction false} InsertThenTake(x: int, s: seq<int>, limit: nat)
    ensures Take(Insert(x, s), limit) == Take(Insert(x, Take(s, limit)), limit)
  {
    if limit == 0 {
    } else if s == [] || s[0] <= x {
      TakeFront(x, s, limit);
      TakeFront(x, Take(s, limit), limit);
      TakeTwice(s, limit - 1, limit);
    } else {
      InsertThenTake(x, s[1..], limit - 1);
      assert s == [s[0]] + s[1..];
      TakeFront(s[0], s[1..], limit);
      assert Take(s, limit)[1..] == Take(s[1..], limit - 1);
      TakeFront(s[0], Insert(x, s[1..]), limit);
      TakeFront(s[0], Insert(x, Take(s[1..], limit - 1)), limit);
    }
  }

  lemma {:induction false} InsertAllThenTake(xs: seq<int>, s: seq<int>, limit: nat)
    ensures Take(InsertAll(xs, s), limit) == Take(InsertAll(xs, Take(s, limit)), limit)
  {
    if xs != [] {
      InsertAllThenTake(xs[1..], s, limit);
      InsertThenTake(xs[0], InsertAll(xs[1..], s), limit);
      InsertThenTake(xs[0], InsertAll(xs[1..], Take(s, limit)), limit);
    }
  }

  lemma {:induction false} TakeDescends(s: seq<int>, limit: nat)
    requires Descending(s)
    ensures Descending(Take(s, limit))
  {
  }

  /** Of one source in a merge, only its newest `limit` matter. */
  lemma {:induction false} NewestOfOneSource(a: seq<int>, rest: seq<int>, newest: seq<int>, limit: nat)
    requires newest == Take(Sort(a), limit)
    ensures Take(Sort(a + rest), limit) == Take(Sort(newest + rest), limit)
  {
    InsertAllDescends(a, []);
    TakeDescends(Sort(a), limit);
    InsertAllDescends(rest, Sort(a));
    SortIs(a + rest, InsertAll(rest, Sort(a)));
    InsertAllDescends(rest, newest);
    SortIs(newest + rest, InsertAll(rest, newest));
    InsertAllThenTake(rest, Sort(a), limit);
  }

  lemma {:induction false} SortPermutation(a: seq<int>, b: seq<int>)
    requires multiset(a) == multiset(b)
    ensures Sort(a) == Sort(b)
  {
    InsertAllDescends(b, []);
    SortIs(a, Sort(b));
  }

  /** The same for three sources at once. */
  lemma {:induction false} NewestOfThree(a: seq<int>, b: seq<int>, c: seq<int>, x: seq<int>, y: seq<int>, z: seq<int>,
                                         limit: nat)
    requires x == Take(Sort(a), limit) && y == Take(Sort(b), limit) && z == Take(Sort(c), limit)
    ensures Take(Sort(x + y + z), limit) == Take(Sort(a + b + c), limit)
  {
    NewestOfOneSource(a, b + c, x, limit);
    assert a + (b + c) == a + b + c && x + (b + c) == x + b + c;
    SortPermutation(x + b + c, b + (x + c));
    NewestOfOneSource(b, x + c, y, limit);
    SortPermutation(y + (x + c), c + (x + y));
    NewestOfOneSource(c, x + y, z, limit);
    SortPermutation(z + (x + y), x + y + z);
  }

  // ---------------------------------------------------------------------------
  // Sorting rows and events by time
  // ---------------------------------------------------------------------------

  function Stamps<T>(s: seq<T>, stamp: T -> int): (r: seq<int>)
    ensures |r| == |s| && forall i | 0 <= i < |r| :: r[i] == stamp(s[i])
  {
    seq(|s|, i requires 0 <= i < |s| => stamp(s[i]))
  }

  /** Put x in front of the first element that is not newer. */
  function InsertBy<T>(x: T, s: seq<T>, stamp: T -> int): (r: seq<T>)
    ensures |r| == |s| + 1
  {
    if s == [] || stamp(s[0]) <= stamp(x) then [x] + s else [s[0]] + InsertBy(x, s[1..], stamp)
  }

  lemma {:induction false} InsertByStamps<T>(x: T, s: seq<T>, stamp: T -> int)
    ensures Stamps(InsertBy(x, s, stamp), stamp) == Insert(stamp(x), Stamps(s, stamp))
  {
    if s == [] || stamp(s[0]) <= stamp(x) {
      assert Stamps([x] + s, stamp) == [stamp(x)] + Stamps(s, stamp);
    } else {
      InsertByStamps(x, s[1..], stamp);
      assert Stamps(s, stamp)[1..] == Stamps(s[1..], stamp);
      assert Stamps([s[0]] + InsertBy(x, s[1..], stamp), stamp) == [stamp(s[0])] + Stamps(InsertBy(x, s[1..], stamp), stamp);
    }
  }

  lemma {:induction false} InsertByPermutes<T>(x: T, s: seq<T>, stamp: T -> int)
    ensures multiset(InsertBy(x, s, stamp)) == multiset{x} + multiset(s)
  {
    if s != [] {
      assert s == [s[0]] + s[1..];
      InsertByPermutes(x, s[1..], stamp);
    }
  }

  method SortNewestFirst<T>(s: seq<T>, stamp: T -> int) returns (r: seq<T>)
    ensures multiset(r) == multiset(s)
    ensures Stamps(r, stamp) == Sort(Stamps(s, stamp))
  {
    r := [];
    var i := |s|;
    while i > 0
      invariant 0 <= i <= |s|
      invariant multiset(r) == multiset(s[i..])
      invariant Stamps(r, stamp) == Sort(Stamps(s[i..], stamp))
    {
      i := i - 1;
      assert s[i..] == [s[i]] + s[i + 1..];
      assert Stamps(s[i..], stamp) == [stamp(s[i])] + Stamps(s[i + 1..], stamp);
      InsertByStamps(s[i], r, stamp);
      InsertByPermutes(s[i], r, stamp);
      r := InsertBy(s[i], r, stamp);
    }
    assert s[0..] == s;
  }

  // ---------------------------------------------------------------------------
  // The service
  // ---------------------------------------------------------------------------

  function Matching(rows: seq<Row>, tenant: string, customer: string): seq<Row> {
    if rows == [] then []
    else
      Matching(rows[..|rows| - 1], tenant, customer)
      + if rows[|rows| - 1].tenant == tenant && rows[|rows| - 1].customer == customer then [rows[|rows| - 1]] else []
  }

  function RowStamps(rows: seq<Row>): seq<int> {
    Stamps(rows, (r: Row) => r.stamp)
  }

  function EventStamps(events: seq<Event>): seq<int> {
    Stamps(events, (e: Event) => e.stamp)
  }

  /**
    What `where(...).order_by(stamp.desc()).limit(limit)` may return: some of the matching rows, whose times
    are the newest ones. Rows with equal times may come in any order and be cut anywhere.
   */
  predicate IsNewest(result: seq<Row>, matching: seq<Row>, limit: nat) {
    multiset(result) <= multiset(matching) && RowStamps(result) == Take(Sort(RowStamps(matching)), limit)
  }

  method SelectRows(table: seq<Row>, tenant: string, customer: string) returns (rows: seq<Row>)
    ensures rows == Matching(table, tenant, customer)
  {
    rows := [];
    for i := 0 to |table|
      invariant rows == Matching(table[..i], tenant, customer)
    {
      assert table[..i + 1][..i] == table[..i];
      if table[i].tenant == tenant && table[i].customer == customer {
        rows := rows + [table[i]];
      }
    }
    assert table[..|table|] == table;
  }

  method NewestRows(table: seq<Row>, tenant: string, customer: string, limit: nat) returns (result: seq<Row>)
    ensures IsNewest(result, Matching(table, tenant, customer), limit)
  {
    var rows := SelectRows(table, tenant, customer);
    var stamp := (r: Row) => r.stamp;
    var sorted := SortNewestFirst(rows, stamp);
    TakeIsPart(sorted, limit);
    TakeStamps(sorted, limit, stamp);
    result := Take(sorted, limit);
  }

  lemma {:induction false} TakeIsPart<T>(s: seq<T>, limit: nat)
    ensures multiset(Take(s, limit)) <= multiset(s)
  {
    if |s| > limit {
      assert s == s[..limit] + s[limit..];
    }
  }

  lemma {:induction false} TakeStamps<T>(s: seq<T>, limit: nat, stamp: T -> int)
    ensures Stamps(Take(s, limit), stamp) == Take(Stamps(s, stamp), limit)
  {
  }

  function EventOf(kind: Kind, row: Row): Event {
    Event(kind, row.id, row.stamp)
  }

  function EventsOf(kind: Kind, rows: seq<Row>): (r: seq<Event>)
    ensures |r| == |rows| && forall i | 0 <= i < |r| :: r[i] == EventOf(kind, rows[i])
  {
    seq(|rows|, i requires 0 <= i < |rows| => EventOf(kind, rows[i]))
  }

  method AppendRows(events: seq<Event>, kind: Kind, rows: seq<Row>) returns (r: seq<Event>)
    ensures r == events + EventsOf(kind, rows)
  {
    r := events;
    for i := 0 to |rows|
      invariant r == events + EventsOf(kind, rows)[..i]
    {
      r := r + [EventOf(kind, rows[i])];
    }
  }

  /** Every time the customer has, in table order. */
  function AllStamps(audits: seq<Row>, evaluations: seq<Row>, documents: seq<Row>, tenant: string, customer: string): seq<int> {
    RowStamps(Matching(audits, tenant, customer)) + RowStamps(Matching(evaluations, tenant, customer))
    + RowStamps(Matching(documents, tenant, customer))
  }

  /** The events are the customer's own rows, no row more often than it occurs. */
  predicate OwnEvents(events: multiset<Event>, audits: seq<Row>, evaluations: seq<Row>, documents: seq<Row>, tenant: string,
                      customer: string)
  {
    events <= multiset(EventsOf(Audit, Matching(audits, tenant, customer))
                       + EventsOf(Evaluation, Matching(evaluations, tenant, customer))
                       + EventsOf(Document, Matching(documents, tenant, customer)))
  }

  lemma {:induction false} EventsOfPart(kind: Kind, rows: seq<Row>, all: seq<Row>)
    requires multiset(rows) <= multiset(all)
    ensures multiset(EventsOf(kind, rows)) <= multiset(EventsOf(kind, all))
  {
    if rows != [] {
      TailMultiset(rows);
      assert rows[0] in multiset(all);
      var i :| 0 <= i < |all| && all[i] == rows[0];
      var others := all[..i] + all[i + 1..];
      assert all == all[..i] + [all[i]] + all[i + 1..];
      assert multiset(all) == multiset(others) + multiset{rows[0]};
      EventsOfPart(kind, rows[1..], others);
      EventsOfSplit(kind, rows, 0);
      EventsOfSplit(kind, all, i);
    }
  }

  lemma {:induction false} EventsOfSplit(kind: Kind, rows: seq<Row>, i: nat)
    requires i < |rows|
    ensures multiset(EventsOf(kind, rows)) == multiset{EventOf(kind, rows[i])} + multiset(EventsOf(kind, rows[..i] + rows[i + 1..]))
    ensures i == 0 ==> rows[..i] + rows[i + 1..] == rows[1..]
  {
    var es := EventsOf(kind, rows);
    assert es == es[..i] + [es[i]] + es[i + 1..];
    assert EventsOf(kind, rows[..i] + rows[i + 1..]) == es[..i] + es[i + 1..];
  }

  lemma {:induction false} EventStampsOf(a: seq<Row>, b: seq<Row>, c: seq<Row>)
    ensures EventStamps(EventsOf(Audit, a) + EventsOf(Evaluation, b) + EventsOf(Document, c))
         == RowStamps(a) + RowStamps(b) + RowStamps(c)
  {
  }

  /** The timeline shows the newest `limit` times of the full history, on events that are the customer's own rows. */
  method GetCustomerTimeline(audits: seq<Row>, evaluations: seq<Row>, documents: seq<Row>, tenant: string,
                             customer: string, limit: nat) returns (timeline: seq<Event>)
    ensures EventStamps(timeline) == Take(Sort(AllStamps(audits, evaluations, documents, tenant, customer)), limit)
    ensures OwnEvents(multiset(timeline), audits, evaluations, documents, tenant, customer)
  {
    var auditRows := NewestRows(audits, tenant, customer, limit);
    var events := AppendRows([], Audit, auditRows);
    var evaluationRows := NewestRows(evaluations, tenant, customer, limit);
    events := AppendRows(events, Evaluation, evaluationRows);
    var documentRows := NewestRows(documents, tenant, customer, limit);
    events := AppendRows(events, Document, documentRows);
    var stamp := (e: Event) => e.stamp;
    var sorted := SortNewestFirst(events, stamp);
    timeline := Take(sorted, limit);
    MergedTimeline(audits, evaluations, documents, tenant, customer, limit, auditRows, evaluationRows, documentRows,
                   events, sorted);
  }

  lemma {:induction false} MergedTimeline(audits: seq<Row>, evaluations: seq<Row>, documents: seq<Row>, tenant: string,
                                          customer: string, limit: nat, a: seq<Row>, b: seq<Row>, c: seq<Row>,
                                          events: seq<Event>, sorted: seq<Event>)
    requires IsNewest(a, Matching(audits, tenant, customer), limit)
    requires IsNewest(b, Matching(evaluations, tenant, customer), limit)
    requires IsNewest(c, Matching(documents, tenant, customer), limit)
    requires events == EventsOf(Audit, a) + EventsOf(Evaluation, b) + EventsOf(Document, c)
    requires multiset(sorted) == multiset(events) && EventStamps(sorted) == Sort(EventStamps(events))
    ensures EventStamps(Take(sorted, limit)) == Take(Sort(AllStamps(audits, evaluations, documents, tenant, customer)), limit)
    ensures OwnEvents(multiset(Take(sorted, limit)), audits, evaluations, documents, tenant, customer)
  {
    EventStampsOf(a, b, c);
    NewestOfThree(RowStamps(Matching(audits, tenant, customer)), RowStamps(Matching(evaluations, tenant, customer)),
                  RowStamps(Matching(documents, tenant, customer)), RowStamps(a), RowStamps(b), RowStamps(c), limit);
    TakeStamps(sorted, limit, (e: Event) => e.stamp);
    TakeIsPart(sorted, limit);
    EventsOfPart(Audit, a, Matching(audits, tenant, customer));
    EventsOfPart(Evaluation, b, Matching(evaluations, tenant, customer));
    EventsOfPart(Document, c, Matching(documents, tenant, customer));
  }
}
