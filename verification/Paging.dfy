/**
  Paging through the time-ordered notifications (api/src/notification_list.ts).

  The sort of the runtime is known only to be stable, which determines its outcome.
*/
module Paging {
  import opened Prelude

  /** A notification with the time of its business event. */
  datatype Notification = Notification(id: string, time: int)

  predicate SortedByTime(s: seq<Notification>) {
    forall i, j :: 0 <= i < j < |s| ==> s[i].time <= s[j].time
  }

  function At(time: int, s: seq<Notification>): seq<Notification> {
    if s == [] then [] else IfAt(time, s[0]) + At(time, s[1..])
  }

  function IfAt(time: int, x: Notification): seq<Notification> {
    if x.time == time then [x] else []
  }

  /** What a stable sort by byEventTime may return: in order, and in the old order among those of one time. */
  ghost predicate StableSort(s: seq<Notification>, r: seq<Notification>) {
    SortedByTime(r) && forall time :: At(time, r) == At(time, s)
  }

  /** The notification before the first one that is not earlier. */
  function Insert(x: Notification, s: seq<Notification>): seq<Notification> {
    if s == [] || x.time <= s[0].time then [x] + s else [s[0]] + Insert(x, s[1..])
  }

  /** The stable sort, by insertion from the back. */
  function SortByEventTime(s: seq<Notification>): seq<Notification> {
    if s == [] then [] else Insert(s[0], SortByEventTime(s[1..]))
  }

  /** The array slice of JavaScript, for an index that is not negative. */
  function Slice<T>(s: seq<T>, start: nat, end: Option<nat>): seq<T> {
    var from := if start < |s| then start else |s|;
    var to := if end.Some? && end.value < |s| then end.value else |s|;
    if from <= to then s[from..to] else []
  }

  function OffsetIndex(offset: int, length: nat): nat {
    if offset < 0 then (if length + offset < 0 then 0 else length + offset) else offset
  }

  datatype Reply = Page(notifications: seq<Notification>) | BadRequest

  /**
    The handler; the loop that exposes each notification keeps its place.  A limit that is not positive is refused.
  */
  method List(notifications: seq<Notification>, offset: int, limit: Option<int>) returns (r: Reply)
    ensures r == if limit.Some? && limit.value <= 0 then BadRequest
                 else Page(Requested(SortByEventTime(notifications), offset, limit))
  {
    if limit.Some? && limit.value <= 0 {
      return BadRequest;
    }
    var sorted := SortByEventTime(notifications);
    var offsetIndex := OffsetIndex(offset, |sorted|);
    var slice := Slice(sorted, offsetIndex, if limit.None? then None else Some(offsetIndex + limit.value));
    var exposed: seq<Notification> := [];
    for i := 0 to |slice|
      invariant exposed == slice[..i]
    {
      exposed := exposed + [slice[i]];
    }
    assert slice[..|slice|] == slice;
    SliceIsRequested(sorted, offset, limit);
    r := Page(exposed);
  }

  lemma SliceIsRequested(sorted: seq<Notification>, offset: int, limit: Option<int>)
    requires limit.Some? ==> limit.value > 0
    ensures var from := OffsetIndex(offset, |sorted|);
            Slice(sorted, from, if limit.None? then None else Some(from + limit.value)) ==
            Requested(sorted, offset, limit)
  {
  }

  /** The notifications a request names: up to `limit` of them from the offset, or from the end if it is negative. */
  function Requested(sorted: seq<Notification>, offset: int, limit: Option<int>): seq<Notification>
    requires limit.Some? ==> limit.value > 0
  {
    var n := |sorted|;
    var first := if offset >= n then n else if offset >= 0 then offset else if offset >= -n then n + offset else 0;
    var rest := sorted[first..];
    if limit.Some? && limit.value < |rest| then rest[..limit.value] else rest
  }

  // ---------------------------------------------------------------- theorems

  lemma {:induction false} AtMember(time: int, s: seq<Notification>, x: Notification)
    ensures x in At(time, s) <==> x in s && x.time == time
  {
    if s != [] {
      AtMember(time, s[1..], x);
    }
  }

  lemma {:induction false} AtCount(s: seq<Notification>, x: Notification)
    ensures multiset(At(x.time, s))[x] == multiset(s)[x]
  {
    if s != [] {
      AtCount(s[1..], x);
      assert s == [s[0]] + s[1..];
      assert multiset(s) == multiset{s[0]} + multiset(s[1..]);
      if s[0].time == x.time {
        assert multiset(At(x.time, s)) == multiset{s[0]} + multiset(At(x.time, s[1..]));
      } else {
        assert At(x.time, s) == At(x.time, s[1..]);
      }
    }
  }

  lemma {:induction false} InsertKeeps(x: Notification, s: seq<Notification>, time: int)
    requires SortedByTime(s)
    ensures At(time, Insert(x, s)) == IfAt(time, x) + At(time, s)
  {
    if s == [] || x.time <= s[0].time {
      assert ([x] + s)[1..] == s;
    } else {
      InsertKeeps(x, s[1..], time);
      assert ([s[0]] + Insert(x, s[1..]))[1..] == Insert(x, s[1..]);
      ConcatAssoc(IfAt(time, s[0]), IfAt(time, x), At(time, s[1..]));
    }
  }

  lemma {:induction false} InsertSorts(x: Notification, s: seq<Notification>)
    requires SortedByTime(s)
    ensures SortedByTime(Insert(x, s))
    ensures Insert(x, s) != [] && forall y :: y in Insert(x, s) <==> y == x || y in s
  {
    if s != [] && s[0].time < x.time {
      InsertSorts(x, s[1..]);
      var rest := Insert(x, s[1..]);
      forall j | 0 <= j < |rest|
        ensures s[0].time <= rest[j].time
      {
        assert rest[j] in rest;
      }
      assert forall y :: y in s <==> y == s[0] || y in s[1..];
    }
  }

  /** There is a stable sort, so requests are answered. */
  lemma {:induction false} SortIsStable(s: seq<Notification>)
    ensures StableSort(s, SortByEventTime(s))
    ensures var r := SortByEventTime(s); forall i, j :: 0 <= i < j < |r| ==> r[i].time <= r[j].time
  {
    if s != [] {
      var rest := SortByEventTime(s[1..]);
      SortIsStable(s[1..]);
      InsertSorts(s[0], rest);
      forall time
        ensures At(time, SortByEventTime(s)) == At(time, s)
      {
        InsertKeeps(s[0], rest, time);
        assert At(time, rest) == At(time, s[1..]);
      }
    }
  }

  /** A stable sort is a permutation. */
  lemma StableSortPermutes(s: seq<Notification>, r: seq<Notification>)
    requires StableSort(s, r)
    ensures multiset(r) == multiset(s)
  {
    forall x: Notification
      ensures multiset(r)[x] == multiset(s)[x]
    {
      AtCount(s, x);
      AtCount(r, x);
      assert At(x.time, r) == At(x.time, s);
    }
  }

  /** The stable sort of a list is unique, so pages of separate requests fit together. */
  lemma {:induction false} StableSortUnique(s: seq<Notification>, a: seq<Notification>, b: seq<Notification>)
    requires StableSort(s, a) && StableSort(s, b)
    ensures a == b
  {
    SameByTimes(a, b);
  }

  /** The first of a sorted list is the first of its time, and no time in the list is earlier. */
  lemma HeadOfTimes(a: seq<Notification>, b: seq<Notification>)
    requires a != [] && SortedByTime(b) && forall time :: At(time, a) == At(time, b)
    ensures b != [] && b[0].time <= a[0].time
    ensures At(a[0].time, a)[0] == a[0]
  {
    AtMember(a[0].time, a, a[0]);
    AtMember(a[0].time, b, a[0]);
  }

  lemma CancelFront<T>(p: seq<T>, u: seq<T>, v: seq<T>)
    requires p + u == p + v
    ensures u == v
  {
    assert u == (p + u)[|p|..] && v == (p + v)[|p|..];
  }

  lemma {:induction false} SameByTimes(a: seq<Notification>, b: seq<Notification>)
    requires SortedByTime(a) && SortedByTime(b) && forall time :: At(time, a) == At(time, b)
    ensures a == b
  {
    if a == [] {
      if b != [] {
        HeadOfTimes(b, a);
      }
    } else {
      HeadOfTimes(a, b);
      HeadOfTimes(b, a);
      assert a[0] == b[0];
      forall time
        ensures At(time, a[1..]) == At(time, b[1..])
      {
        assert At(time, a) == At(time, b);
        CancelFront(IfAt(time, a[0]), At(time, a[1..]), At(time, b[1..]));
      }
      SameByTimes(a[1..], b[1..]);
    }
  }

  function Pages(sorted: seq<Notification>, limit: nat, n: nat): seq<Notification>
    requires limit > 0
  {
    if n == 0 then [] else Pages(sorted, limit, n - 1) + Requested(sorted, (n - 1) * limit, Some(limit))
  }

  lemma Multiples(n: nat, limit: nat)
    requires n > 0
    ensures (n - 1) * limit >= 0 && n * limit == (n - 1) * limit + limit
  {
  }

  function UpTo(sorted: seq<Notification>, n: nat): seq<Notification> {
    sorted[..if n < |sorted| then n else |sorted|]
  }

  lemma PageFollows(sorted: seq<Notification>, before: nat, limit: nat)
    requires limit > 0
    ensures UpTo(sorted, before) + Requested(sorted, before, Some(limit)) == UpTo(sorted, before + limit)
  {
    var page := Requested(sorted, before, Some(limit));
    if before < |sorted| {
      var after := if before + limit < |sorted| then before + limit else |sorted|;
      assert page == sorted[before..after];
    } else {
      assert page == [];
    }
  }

  /** Pages at offsets 0, limit, 2 * limit, ... put together are the list up to there, without gap or overlap. */
  lemma {:induction false} PagesCover(sorted: seq<Notification>, limit: nat, n: nat)
    requires limit > 0
    ensures Pages(sorted, limit, n) == UpTo(sorted, n * limit)
  {
    if n > 0 {
      PagesCover(sorted, limit, n - 1);
      Multiples(n, limit);
      PageFollows(sorted, (n - 1) * limit, limit);
    } else {
      assert n * limit == 0;
    }
  }

  function Min(a: nat, b: nat): nat {
    if a < b then a else b
  }

  /** An offset of -n selects the last n notifications, or all of them, and a limit the first ones of these. */
  lemma LastOnes(sorted: seq<Notification>, n: nat, limit: nat)
    requires n > 0
    ensures var from := OffsetIndex(0 - n, |sorted|);
            var page := Slice(sorted, from, None);
            && sorted == sorted[..|sorted| - |page|] + page && |page| == Min(n, |sorted|)
            && Slice(sorted, from, Some(from + limit)) == page[..Min(limit, |page|)]
  {
    var from := OffsetIndex(0 - n, |sorted|);
    assert from == |sorted| - Min(n, |sorted|);
    assert Slice(sorted, from, None) == sorted[from..];
  }

  /** Without a limit a request selects everything from the offset on. */
  lemma WithoutLimit(sorted: seq<Notification>, offset: nat)
    ensures UpTo(sorted, offset) + Requested(sorted, offset, None) == sorted
    ensures |UpTo(sorted, offset)| == Min(offset, |sorted|)
  {
  }

  /** The notifications of one time, in their order. */
  lemma {:induction false} AtFilters(time: int, s: seq<Notification>, p: Notification -> bool)
    requires forall x: Notification :: p(x) <==> x.time == time
    ensures At(time, s) == Filter(s, p)
  {
    if s != [] {
      AtFilters(time, s[1..], p);
    }
  }
}
