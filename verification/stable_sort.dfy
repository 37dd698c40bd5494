/** Listing entries by time, latest first: a stable sort, and the stable merge of two sorted listings. */
module StableSort {
  import opened Common

  /** An entry to be listed; a missing time counts as the earliest. */
  datatype Entry<T> = Entry(time: Option<int>, value: T)

  /** `a` is listed no later than `b` would be: its time is at least as late. */
  predicate Geq(a: Option<int>, b: Option<int>) {
    b.None? || (a.Some? && a.value >= b.value)
  }

  ghost predicate LatestFirst<T>(s: seq<Entry<T>>) {
    forall i, j :: 0 <= i < j < |s| ==> Geq(s[i].time, s[j].time)
  }

  function Insert<T>(x: Entry<T>, s: seq<Entry<T>>): seq<Entry<T>> {
    if s == [] then [x]
    else if Geq(x.time, s[0].time) then [x] + s
    else [s[0]] + Insert(x, s[1..])
  }

  /** Sorts latest first and keeps entries of equal time in their original order. */
  function Sort<T>(s: seq<Entry<T>>): seq<Entry<T>> {
    if s == [] then [] else Insert(s[0], Sort(s[1..]))
  }

  /** The entries with a given time, in order. */
  function At<T>(s: seq<Entry<T>>, time: Option<int>): seq<Entry<T>> {
    if s == [] then []
    else (if s[0].time == time then [s[0]] else []) + At(s[1..], time)
  }

  lemma InsertKeeps<T>(x: Entry<T>, s: seq<Entry<T>>, time: Option<int>)
    requires LatestFirst(s)
    ensures LatestFirst(Insert(x, s)) && |Insert(x, s)| == |s| + 1
    ensures forall e :: e in Insert(x, s) <==> e == x || e in s
    ensures At(Insert(x, s), time) == (if x.time == time then [x] else []) + At(s, time)
  {
    InsertSorts(x, s);
    InsertMembers(x, s);
    InsertAt(x, s, time);
  }

  lemma {:induction false} InsertSorts<T>(x: Entry<T>, s: seq<Entry<T>>)
    requires LatestFirst(s)
    ensures LatestFirst(Insert(x, s)) && |Insert(x, s)| == |s| + 1
    ensures Insert(x, s)[0] == x || (s != [] && Insert(x, s)[0] == s[0])
  {
    if s != [] && !Geq(x.time, s[0].time) {
      InsertSorts(x, s[1..]);
      var rest := Insert(x, s[1..]);
      assert Geq(s[0].time, rest[0].time);
      assert forall j :: 0 <= j < |rest| ==> Geq(s[0].time, rest[j].time);
    }
  }

  lemma {:induction false} InsertMembers<T>(x: Entry<T>, s: seq<Entry<T>>)
    ensures forall e :: e in Insert(x, s) <==> e == x || e in s
  {
    if s != [] && !Geq(x.time, s[0].time) {
      InsertMembers(x, s[1..]);
    }
  }

  lemma {:induction false} InsertAt<T>(x: Entry<T>, s: seq<Entry<T>>, time: Option<int>)
    requires LatestFirst(s)
    ensures At(Insert(x, s), time) == (if x.time == time then [x] else []) + At(s, time)
  {
    if s == [] {
    } else if Geq(x.time, s[0].time) {
      AtCons(x, s, time);
    } else {
      var rest := Insert(x, s[1..]);
      InsertAt(x, s[1..], time);
      AtCons(s[0], rest, time);
      if s[0].time == time {
        assert x.time != time;
      }
    }
  }

  lemma AtCons<T>(x: Entry<T>, s: seq<Entry<T>>, time: Option<int>)
    ensures At([x] + s, time) == (if x.time == time then [x] else []) + At(s, time)
  {
    assert ([x] + s)[1..] == s;
  }

  /** The sort orders the entries, keeps them all, and is stable. */
  lemma {:induction false} SortIsStable<T>(s: seq<Entry<T>>, time: Option<int>)
    ensures LatestFirst(Sort(s)) && |Sort(s)| == |s|
    ensures At(Sort(s), time) == At(s, time)
  {
    if s != [] {
      SortIsStable(s[1..], time);
      InsertKeeps(s[0], Sort(s[1..]), time);
    }
  }

  lemma {:induction false} AtHead<T>(s: seq<Entry<T>>, e: Entry<T>)
    requires e in s
    ensures At(s, e.time) != [] && At(s, e.time)[0] in s && At(s, e.time)[0].time == e.time
  {
    if s[0].time != e.time {
      AtHead(s[1..], e);
    }
  }

  lemma {:induction false} AtMember<T>(s: seq<Entry<T>>, time: Option<int>)
    requires At(s, time) != []
    ensures exists e :: e in s && e.time == time
  {
    if s[0].time == time {
      assert s[0] in s;
    } else {
      AtMember(s[1..], time);
      var e :| e in s[1..] && e.time == time;
      assert e in s;
    }
  }

  /** Nothing else is a stable sort: order and per-time subsequences determine the listing. */
  lemma {:induction false} SortedIsUnique<T>(s: seq<Entry<T>>, t: seq<Entry<T>>)
    requires LatestFirst(s) && LatestFirst(t) && forall time :: At(s, time) == At(t, time)
    ensures s == t
  {
    if s == [] {
      if t != [] {
        AtHead(t, t[0]);
      }
    } else {
      AtHead(s, s[0]);
      AtMember(t, s[0].time);
      AtHead(t, t[0]);
      AtMember(s, t[0].time);
      assert s[0].time == t[0].time;
      assert At(s, s[0].time)[0] == s[0] && At(t, s[0].time)[0] == t[0];
      forall time
        ensures At(s[1..], time) == At(t[1..], time)
      {
        var head := if s[0].time == time then [s[0]] else [];
        assert At(s, time) == head + At(s[1..], time) && At(t, time) == head + At(t[1..], time);
        assert At(s[1..], time) == At(s, time)[|head|..] && At(t[1..], time) == At(t, time)[|head|..];
      }
      SortedIsUnique(s[1..], t[1..]);
    }
  }

  // ---------------------------------------------------------------------------
  // Merging two sorted listings
  // ---------------------------------------------------------------------------

  function Merge<T>(a: seq<Entry<T>>, b: seq<Entry<T>>): seq<Entry<T>>
    decreases |a| + |b|
  {
    if a == [] then b
    else if b == [] then a
    else if Geq(a[0].time, b[0].time) then [a[0]] + Merge(a[1..], b)
    else [b[0]] + Merge(a, b[1..])
  }

  lemma {:induction false} MergeSize<T>(a: seq<Entry<T>>, b: seq<Entry<T>>)
    ensures |Merge(a, b)| == |a| + |b|
    decreases |a| + |b|
  {
    if a != [] && b != [] {
      if Geq(a[0].time, b[0].time) { MergeSize(a[1..], b); } else { MergeSize(a, b[1..]); }
    }
  }

  lemma {:induction false} InsertIntoMerge<T>(x: Entry<T>, a: seq<Entry<T>>, b: seq<Entry<T>>)
    requires LatestFirst([x] + a) && LatestFirst(b)
    ensures Insert(x, Merge(a, b)) == Merge([x] + a, b)
    decreases |b|
  {
    var xa := [x] + a;
    assert xa[1..] == a;
    if a != [] {
      assert xa[0] == x && xa[1] == a[0];
    }
    if b != [] && !Geq(x.time, b[0].time) {
      InsertIntoMerge(x, a, b[1..]);
    }
  }

  lemma {:induction false} SortOfSorted<T>(s: seq<Entry<T>>)
    requires LatestFirst(s)
    ensures Sort(s) == s
  {
    if s != [] {
      SortOfSorted(s[1..]);
    }
  }

  /** Sorting after putting a sorted listing in front is merging it with the sorted rest. */
  lemma {:induction false} SortAfterSorted<T>(a: seq<Entry<T>>, s: seq<Entry<T>>)
    requires LatestFirst(a)
    ensures Sort(a + s) == Merge(a, Sort(s))
  {
    SortIsStable(s, None);
    if a == [] {
      assert a + s == s;
    } else {
      assert (a + s)[1..] == a[1..] + s && a == [a[0]] + a[1..];
      SortAfterSorted(a[1..], s);
      InsertIntoMerge(a[0], a[1..], Sort(s));
    }
  }

  /** Sorting the concatenation of two sorted listings is merging them. */
  lemma SortIsMerge<T>(a: seq<Entry<T>>, b: seq<Entry<T>>)
    requires LatestFirst(a) && LatestFirst(b)
    ensures Sort(a + b) == Merge(a, b)
  {
    SortAfterSorted(a, b);
    SortOfSorted(b);
  }

  function Take<T>(s: seq<T>, n: nat): seq<T> {
    if |s| <= n then s else s[..n]
  }

  lemma TakeMembers<T>(s: seq<T>, n: nat)
    ensures forall x :: x in Take(s, n) ==> x in s
  {
  }

  lemma MergeTail<T>(a: seq<Entry<T>>, b: seq<Entry<T>>)
    requires a != [] && b != [] && !Geq(a[0].time, b[0].time)
    ensures Merge(a, b) == [b[0]] + Merge(a, b[1..])
  {
  }

  lemma TakeHead<T>(a: seq<Entry<T>>, b: seq<Entry<T>>, s: seq<Entry<T>>, t: seq<Entry<T>>, n: nat)
    requires n > 0 && a != [] && s != [] && a[0] == s[0] && b != [] && Geq(a[0].time, b[0].time)
    requires (t == [] || t[0] == b[0]) && Take(Merge(a[1..], b), n - 1) == Take(Merge(s[1..], t), n - 1)
    ensures Take(Merge(a, b), n) == Take(Merge(s, t), n)
  {
    MergeHead(a, b);
    MergeHead(s, t);
    TakeCons(a[0], Merge(a[1..], b), n);
    TakeCons(a[0], Merge(s[1..], t), n);
  }

  lemma TakeTail<T>(a: seq<Entry<T>>, b: seq<Entry<T>>, s: seq<Entry<T>>, t: seq<Entry<T>>, n: nat)
    requires n > 0 && a != [] && s != [] && a[0] == s[0] && b != [] && t != [] && b[0] == t[0]
    requires !Geq(a[0].time, b[0].time) && Take(Merge(a, b[1..]), n - 1) == Take(Merge(s, t[1..]), n - 1)
    ensures Take(Merge(a, b), n) == Take(Merge(s, t), n)
  {
    MergeTail(a, b);
    MergeTail(s, t);
    TakeCons(b[0], Merge(a, b[1..]), n);
    TakeCons(b[0], Merge(s, t[1..]), n);
  }

  lemma TakeRest<T>(s: seq<T>, n: nat)
    requires s != [] && n > 0
    ensures Take(s, n) != [] && Take(s, n)[0] == s[0] && Take(s, n)[1..] == Take(s[1..], n - 1)
  {
  }

  lemma TakeOfTake<T>(s: seq<T>, n: nat, p: nat)
    requires n <= p
    ensures Take(Take(s, p), n) == Take(s, n)
  {
  }

  /** The first n entries of a merge come from the first n of each side. */
  lemma {:induction false} TakeOfMerge<T>(a: seq<Entry<T>>, b: seq<Entry<T>>, n: nat, p: nat, q: nat)
    requires n <= p && n <= q
    ensures Take(Merge(a, b), n) == Take(Merge(Take(a, p), Take(b, q)), n)
    decreases n
  {
    var s, t := Take(a, p), Take(b, q);
    if n == 0 {
    } else if a == [] {
      TakeOfTake(b, n, q);
    } else if b == [] {
      TakeOfTake(a, n, p);
    } else {
      TakeRest(a, p);
      TakeRest(b, q);
      if Geq(a[0].time, b[0].time) {
        TakeOfMerge(a[1..], b, n - 1, p - 1, q);
        TakeHead(a, b, s, t, n);
      } else {
        TakeOfMerge(a, b[1..], n - 1, p, q - 1);
        TakeTail(a, b, s, t, n);
      }
    }
  }

  lemma TakeCons<T>(x: T, s: seq<T>, n: nat)
    requires n > 0
    ensures Take([x] + s, n) == [x] + Take(s, n - 1)
  {
  }

  /** A page: `limit` entries from position `offset`. */
  function Slice<T>(s: seq<T>, offset: nat, limit: nat): seq<T> {
    Take(if |s| <= offset then [] else s[offset..], limit)
  }

  lemma SliceIsTail<T>(s: seq<T>, offset: nat, limit: nat)
    ensures var p := Take(s, offset + limit);
            Slice(s, offset, limit) == if |p| <= offset then [] else p[offset..]
  {
    var p := Take(s, offset + limit);
    if offset < |s| {
      assert s[offset..][..|p| - offset] == p[offset..];
    }
  }

  lemma SliceOfTake<T>(s: seq<T>, t: seq<T>, offset: nat, limit: nat)
    requires Take(s, offset + limit) == Take(t, offset + limit)
    ensures Slice(s, offset, limit) == Slice(t, offset, limit)
  {
    SliceIsTail(s, offset, limit);
    SliceIsTail(t, offset, limit);
  }

  /**
   Truncating both sources to offset + limit rows before merging, sorting and slicing gives exactly the page
   of the full listing, for every pair of sorted sources and every page.
   */
  lemma TruncatedPageIsFullPage<T>(a: seq<Entry<T>>, b: seq<Entry<T>>, offset: nat, limit: nat)
    requires LatestFirst(a) && LatestFirst(b)
    ensures Slice(Sort(Take(a, offset + limit) + Take(b, offset + limit)), offset, limit)
            == Slice(Sort(a + b), offset, limit)
  {
    var n := offset + limit;
    SortIsMerge(a, b);
    SortIsMerge(Take(a, n), Take(b, n));
    TakeOfMerge(a, b, n, n, n);
    SliceOfTake(Merge(a, b), Merge(Take(a, n), Take(b, n)), offset, limit);
  }

  // ---------------------------------------------------------------------------
  // Entries without a time: the database lists them first, the sort puts them last
  // ---------------------------------------------------------------------------

  ghost predicate Timed<T>(s: seq<Entry<T>>) {
    forall i :: 0 <= i < |s| ==> s[i].time.Some?
  }

  ghost predicate Untimed<T>(s: seq<Entry<T>>) {
    forall i :: 0 <= i < |s| ==> s[i].time.None?
  }

  lemma {:induction false} InsertBeforeUntimed<T>(x: Entry<T>, s: seq<Entry<T>>, u: seq<Entry<T>>)
    requires x.time.Some? && Untimed(u)
    ensures Insert(x, s + u) == Insert(x, s) + u
  {
    if s == [] {
      assert s + u == u;
    } else {
      assert (s + u)[1..] == s[1..] + u;
      if !Geq(x.time, s[0].time) {
        InsertBeforeUntimed(x, s[1..], u);
      }
    }
  }

  lemma {:induction false} InsertUntimed<T>(x: Entry<T>, t: seq<Entry<T>>, u: seq<Entry<T>>)
    requires x.time.None? && Timed(t) && Untimed(u)
    ensures Insert(x, t + u) == t + ([x] + u)
  {
    if t == [] {
      assert t + u == u && t + ([x] + u) == [x] + u;
    } else {
      assert (t + u)[1..] == t[1..] + u;
      InsertUntimed(x, t[1..], u);
    }
  }

  lemma {:induction false} SortUntimedFirst<T>(u: seq<Entry<T>>, t: seq<Entry<T>>)
    requires Untimed(u) && Timed(t) && LatestFirst(t)
    ensures Sort(u + t) == t + u
  {
    if u == [] {
      assert u + t == t && t + u == t;
      SortOfSorted(t);
    } else {
      assert (u + t)[1..] == u[1..] + t;
      SortUntimedFirst(u[1..], t);
      InsertUntimed(u[0], t, u[1..]);
      assert [u[0]] + u[1..] == u;
    }
  }

  lemma ConsAppend<T>(x: T, s: seq<T>, u: seq<T>)
    ensures [x] + (s + u) == ([x] + s) + u
  {
  }

  lemma HeadBeforeUntimed<T>(a: seq<Entry<T>>, t: seq<Entry<T>>, u: seq<Entry<T>>)
    requires Timed(a) && Untimed(u) && a != [] && t + u != [] && (t == [] || Geq(a[0].time, t[0].time))
    requires Merge(a[1..], t + u) == Merge(a[1..], t) + u
    ensures Merge(a, t + u) == Merge(a, t) + u
  {
    MergeHead(a, t + u);
    MergeHead(a, t);
    ConsAppend(a[0], Merge(a[1..], t), u);
  }

  lemma TailBeforeUntimed<T>(a: seq<Entry<T>>, t: seq<Entry<T>>, u: seq<Entry<T>>)
    requires a != [] && t != [] && !Geq(a[0].time, t[0].time)
    requires Merge(a, t[1..] + u) == Merge(a, t[1..]) + u
    ensures Merge(a, t + u) == Merge(a, t) + u
  {
    assert (t + u)[1..] == t[1..] + u;
    MergeTail(a, t + u);
    MergeTail(a, t);
    ConsAppend(t[0], Merge(a, t[1..]), u);
  }

  lemma {:induction false} MergeBeforeUntimed<T>(a: seq<Entry<T>>, t: seq<Entry<T>>, u: seq<Entry<T>>)
    requires Timed(a) && Untimed(u)
    ensures Merge(a, t + u) == Merge(a, t) + u
    decreases |a| + |t|
  {
    if a == [] {
    } else if t == [] && u == [] {
      assert t + u == [] && a + [] == a;
    } else if t == [] || Geq(a[0].time, t[0].time) {
      MergeBeforeUntimed(a[1..], t, u);
      HeadBeforeUntimed(a, t, u);
    } else {
      MergeBeforeUntimed(a, t[1..], u);
      TailBeforeUntimed(a, t, u);
    }
  }

  /** The listing of timed rows `a` and of rows `u + t` that the database put untimed first. */
  lemma SortUntimed<T>(a: seq<Entry<T>>, u: seq<Entry<T>>, t: seq<Entry<T>>)
    requires LatestFirst(a) && Timed(a) && Untimed(u) && LatestFirst(t) && Timed(t)
    ensures Sort(a + (u + t)) == Merge(a, t) + u
  {
    SortAfterSorted(a, u + t);
    SortUntimedFirst(u, t);
    MergeBeforeUntimed(a, t, u);
  }

  /** How many leading entries of `a` are listed before the first of `b`. */
  function Lead<T>(a: seq<Entry<T>>, b: seq<Entry<T>>): (k: nat)
    ensures k <= |a|
    ensures b != [] && k < |a| ==> !Geq(a[k].time, b[0].time)
  {
    if a == [] || b == [] || !Geq(a[0].time, b[0].time) then 0 else 1 + Lead(a[1..], b)
  }

  lemma LeadStep<T>(a: seq<Entry<T>>, b: seq<Entry<T>>)
    requires b != [] && Lead(a, b) > 0
    ensures a != [] && Geq(a[0].time, b[0].time) && Lead(a, b) == Lead(a[1..], b) + 1
  {
  }

  /** Entries of `b` may be cut earlier by as many places as entries of `a` come before all of `b`. */
  lemma {:induction false} TakeOfMergeWithLead<T>(a: seq<Entry<T>>, b: seq<Entry<T>>, n: nat, p: nat, q: nat)
    requires b != [] && n <= p && n <= q + Lead(a, b)
    ensures Take(Merge(a, b), n) == Take(Merge(Take(a, p), Take(b, q)), n)
    decreases n
  {
    if n <= q {
      TakeOfMerge(a, b, n, p, q);
    } else {
      var s, cut := Take(a, p), Take(b, q);
      LeadStep(a, b);
      TakeOfMergeWithLead(a[1..], b, n - 1, p - 1, q);
      TakeRest(a, p);
      assert cut == [] || cut[0] == b[0];
      TakeHead(a, b, s, cut, n);
    }
  }

  lemma MergeHead<T>(a: seq<Entry<T>>, b: seq<Entry<T>>)
    requires a != [] && (b == [] || Geq(a[0].time, b[0].time))
    ensures Merge(a, b) == [a[0]] + Merge(a[1..], b)
  {
  }

  lemma {:induction false} MergeAtLead<T>(a: seq<Entry<T>>, b: seq<Entry<T>>)
    requires b != []
    ensures Lead(a, b) < |Merge(a, b)| && Merge(a, b)[Lead(a, b)] == b[0]
  {
    if a != [] && Geq(a[0].time, b[0].time) {
      MergeAtLead(a[1..], b);
    }
  }

  lemma TakeOfUntimedFirst<T>(u: seq<Entry<T>>, t: seq<Entry<T>>, n: nat)
    ensures Take(u + t, n) == Take(u, n) + Take(t, if n > |u| then n - |u| else 0)
  {
  }

  lemma TakeOfAppend<T>(s: seq<T>, s': seq<T>, u: seq<T>, n: nat)
    requires Take(s, n) == Take(s', n)
    ensures Take(s + u, n) == Take(s' + Take(u, n), n)
  {
  }

  /** Whether the first n entries survive the truncation when the database lists untimed rows first. */
  lemma UntimedPrefix<T>(a: seq<Entry<T>>, u: seq<Entry<T>>, t: seq<Entry<T>>, n: nat)
    requires LatestFirst(a) && Timed(a) && Untimed(u) && LatestFirst(t) && Timed(t)
    requires t == [] || |u| <= Lead(a, t)
    ensures Take(Sort(Take(a, n) + Take(u + t, n)), n) == Take(Sort(a + (u + t)), n)
  {
    var q := if n > |u| then n - |u| else 0;
    TakeOfUntimedFirst(u, t, n);
    SortUntimed(a, u, t);
    SortUntimed(Take(a, n), Take(u, n), Take(t, q));
    if t != [] {
      TakeOfMergeWithLead(a, t, n, n, q);
    }
    TakeOfAppend(Merge(a, t), Merge(Take(a, n), Take(t, q)), u, n);
  }

  /**
   Every page is the page of the full listing exactly when there are no timed rows beside the untimed ones of
   the second source, or at most as many untimed rows as first-source rows listed before all its timed ones.
   */
  lemma PagesRightExactlyWhen<T>(a: seq<Entry<T>>, u: seq<Entry<T>>, t: seq<Entry<T>>)
    requires LatestFirst(a) && Timed(a) && Untimed(u) && LatestFirst(t) && Timed(t)
    ensures (forall offset: nat, limit: nat :: PageIsRight(a, u + t, offset, limit))
            <==> (t == [] || |u| <= Lead(a, t))
  {
    if t == [] || |u| <= Lead(a, t) {
      forall offset: nat, limit: nat
        ensures PageIsRight(a, u + t, offset, limit)
      {
        UntimedPrefix(a, u, t, offset + limit);
        SliceOfTake(Sort(Take(a, offset + limit) + Take(u + t, offset + limit)), Sort(a + (u + t)), offset, limit);
      }
    } else {
      PageWrong(a, u, t);
    }
  }

  /** The page offset, limit computed from truncated sources is that page of the full listing. */
  ghost predicate PageIsRight<T>(a: seq<Entry<T>>, b: seq<Entry<T>>, offset: nat, limit: nat) {
    Slice(Sort(Take(a, offset + limit) + Take(b, offset + limit)), offset, limit) == Slice(Sort(a + b), offset, limit)
  }

  predicate Lists<T(==)>(s: seq<T>, k: nat, e: T) {
    k < |s| && s[k] == e
  }

  /** The full listing has the first timed row of the second source at its lead. */
  lemma FullAtLead<T>(a: seq<Entry<T>>, u: seq<Entry<T>>, t: seq<Entry<T>>)
    requires LatestFirst(a) && Timed(a) && Untimed(u) && LatestFirst(t) && Timed(t) && t != []
    ensures Lists(Sort(a + (u + t)), Lead(a, t), t[0])
  {
    SortUntimed(a, u, t);
    MergeAtLead(a, t);
  }

  /** Cut among the untimed rows, the second source contributes only those, and they come last. */
  lemma CutAmongUntimed<T>(a: seq<Entry<T>>, u: seq<Entry<T>>, t: seq<Entry<T>>, n: nat)
    requires LatestFirst(a) && Timed(a) && Untimed(u) && n <= |u|
    ensures Sort(Take(a, n) + Take(u + t, n)) == Take(a, n) + Take(u, n)
  {
    TakeOfUntimedFirst(u, t, n);
    assert Take(t, 0) == [] && Take(u, n) + [] == Take(u, n);
    SortUntimed(Take(a, n), Take(u, n), []);
  }

  lemma AtLead<T>(a: seq<Entry<T>>, u: seq<Entry<T>>, t: seq<Entry<T>>)
    requires Untimed(u) && Timed(t) && t != [] && |u| > Lead(a, t)
    ensures !Lists(Take(a, Lead(a, t) + 1) + Take(u, Lead(a, t) + 1), Lead(a, t), t[0])
  {
    var k, s := Lead(a, t), Take(a, Lead(a, t) + 1) + Take(u, Lead(a, t) + 1);
    if k < |a| {
      assert s[k] == a[k] && !Geq(a[k].time, t[0].time);
    } else {
      assert s[k] == u[0];
    }
  }

  lemma CutAtLead<T>(a: seq<Entry<T>>, u: seq<Entry<T>>, t: seq<Entry<T>>)
    requires LatestFirst(a) && Timed(a) && Untimed(u) && Timed(t) && t != [] && |u| > Lead(a, t)
    ensures !Lists(Sort(Take(a, Lead(a, t) + 1) + Take(u + t, Lead(a, t) + 1)), Lead(a, t), t[0])
  {
    CutAmongUntimed(a, u, t, Lead(a, t) + 1);
    AtLead(a, u, t);
  }

  lemma NotRight<T>(a: seq<Entry<T>>, b: seq<Entry<T>>, k: nat, e: Entry<T>)
    requires Lists(Sort(a + b), k, e) && !Lists(Sort(Take(a, k + 1) + Take(b, k + 1)), k, e)
    ensures !PageIsRight(a, b, k, 1)
  {
    SliceLists(Sort(a + b), k, e);
    SliceLists(Sort(Take(a, k + 1) + Take(b, k + 1)), k, e);
  }

  lemma SliceLists<T>(s: seq<T>, k: nat, e: T)
    ensures Lists(s, k, e) <==> Slice(s, k, 1) == [e]
  {
    if k < |s| {
      assert s[k..][0] == s[k];
      assert Slice(s, k, 1) == [s[k]];
    }
  }

  lemma PageWrong<T>(a: seq<Entry<T>>, u: seq<Entry<T>>, t: seq<Entry<T>>)
    requires LatestFirst(a) && Timed(a) && Untimed(u) && LatestFirst(t) && Timed(t)
    requires t != [] && |u| > Lead(a, t)
    ensures !PageIsRight(a, u + t, Lead(a, t), 1)
  {
    FullAtLead(a, u, t);
    CutAtLead(a, u, t);
    NotRight(a, u + t, Lead(a, t), t[0]);
  }
}
