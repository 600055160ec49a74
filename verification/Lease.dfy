/**
 Leases: grants, renewals and expiry as functions of clock readings, and the
 exclusion they give over whole runs of grants.
 */
module Lease {
  /** A lease on a chunk, valid for `duration` from `grantedAt` on. */
  datatype Terms = Terms(holder: string, grantedAt: int, duration: int, version: int)

  /** The leases of all chunks. */
  type Book = map<string, Terms>

  predicate IsValid(l: Terms, now: int) {
    now - l.grantedAt < l.duration
  }

  function Renewed(l: Terms, now: int): Terms {
    l.(grantedAt := now, version := l.version + 1)
  }

  /** A request reads the clock once to check the present lease, and again for the start of what it is given. */
  datatype Request = Request(chunk: string, node: string, checked: int, started: int)

  /** The book after a grant, and whether it was given: a valid lease of another node stands in the way. */
  function Granted(book: Book, duration: int, q: Request): (Book, bool) {
    if q.chunk in book && IsValid(book[q.chunk], q.checked) then
      if book[q.chunk].holder != q.node then (book, false)
      else (book[q.chunk := Renewed(book[q.chunk], q.started)], true)
    else (book[q.chunk := Terms(q.node, q.started, duration, 1)], true)
  }

  predicate Holds(book: Book, chunk: string, node: string, now: int) {
    chunk in book && book[chunk].holder == node && IsValid(book[chunk], now)
  }

  // ---- runs of grants ----

  /** What a given grant entitles to: the chunk, from the grant on, for the duration. */
  datatype Interval = Interval(chunk: string, node: string, from: int, until: int)

  function Given(q: Request, duration: int): Interval {
    Interval(q.chunk, q.node, q.started, q.started + duration)
  }

  datatype Run = Run(book: Book, intervals: seq<Interval>)

  function Next(r: Run, duration: int, q: Request): Run {
    var (book, given) := Granted(r.book, duration, q);
    Run(book, if given then r.intervals + [Given(q, duration)] else r.intervals)
  }

  function After(duration: int, requests: seq<Request>): Run {
    if requests == [] then Run(map[], [])
    else Next(After(duration, requests[..|requests| - 1]), duration, requests[|requests| - 1])
  }

  /** Requests are handled one after the other, and clock readings never fall. */
  ghost predicate Ordered(requests: seq<Request>) {
    && (forall i :: 0 <= i < |requests| ==> requests[i].checked <= requests[i].started)
    && (forall i, j :: 0 <= i < j < |requests| ==> requests[i].started <= requests[j].checked)
  }

  predicate Inside(v: Interval, t: int) {
    v.from <= t < v.until
  }

  ghost predicate Exclusive(intervals: seq<Interval>) {
    forall i, j :: 0 <= i < j < |intervals| ==> Follows(intervals[i], intervals[j])
  }

  /** The later of two intervals of different nodes on one chunk starts when the earlier one is over. */
  predicate Follows(v: Interval, w: Interval) {
    v.chunk == w.chunk && v.node != w.node ==> v.until <= w.from
  }

  /** The interval is over by the current lease's start, or belongs to its holder and ends no later than the lease. */
  predicate Behind(v: Interval, book: Book) {
    && v.chunk in book
    && var l := book[v.chunk];
       v.from <= l.grantedAt && v.until <= l.grantedAt + l.duration && (v.node != l.holder ==> v.until <= l.grantedAt)
  }

  ghost predicate AllBehind(intervals: seq<Interval>, book: Book) {
    forall i :: 0 <= i < |intervals| ==> Behind(intervals[i], book)
  }

  function IntervalOf(chunk: string, l: Terms): Interval {
    Interval(chunk, l.holder, l.grantedAt, l.grantedAt + l.duration)
  }

  /** Every lease in the book was given, by now, for the one duration. */
  ghost predicate AllGiven(book: Book, intervals: seq<Interval>, duration: int, now: int) {
    forall c :: c in book ==>
      book[c].grantedAt <= now && book[c].duration == duration && IntervalOf(c, book[c]) in intervals
  }

  ghost predicate Inv(r: Run, duration: int, now: int) {
    Exclusive(r.intervals) && AllBehind(r.intervals, r.book) && AllGiven(r.book, r.intervals, duration, now)
  }

  /** A grant moves the chunk's lease to a later start, and to another holder only when it had run out. */
  lemma GrantMoves(book: Book, duration: int, now: int, q: Request, v: Interval)
    requires now <= q.checked <= q.started && Granted(book, duration, q).1
    requires Behind(v, book) && book[v.chunk].grantedAt <= now && book[v.chunk].duration == duration
    ensures Behind(v, Granted(book, duration, q).0)
    ensures Follows(v, Given(q, duration))
  {
  }

  lemma ExclusiveGrows(intervals: seq<Interval>, v: Interval)
    requires Exclusive(intervals) && forall i :: 0 <= i < |intervals| ==> Follows(intervals[i], v)
    ensures Exclusive(intervals + [v])
  {
  }

  lemma BehindGrows(intervals: seq<Interval>, v: Interval, book: Book)
    requires Behind(v, book) && forall i :: 0 <= i < |intervals| ==> Behind(intervals[i], book)
    ensures AllBehind(intervals + [v], book)
  {
  }

  lemma GivenStays(book: Book, intervals: seq<Interval>, duration: int, now: int, q: Request)
    requires AllGiven(book, intervals, duration, now) && now <= q.checked <= q.started
    requires Granted(book, duration, q).1
    ensures AllGiven(Granted(book, duration, q).0,
                     intervals + [Given(q, duration)], duration, q.started)
  {
  }

  lemma GivenKeeps(r: Run, duration: int, now: int, q: Request)
    requires Inv(r, duration, now) && now <= q.checked <= q.started && Granted(r.book, duration, q).1
    ensures var v := Given(q, duration);
            Exclusive(r.intervals + [v]) && AllBehind(r.intervals + [v], Granted(r.book, duration, q).0)
  {
    var book, v := Granted(r.book, duration, q).0, Given(q, duration);
    forall i | 0 <= i < |r.intervals|
      ensures Behind(r.intervals[i], book) && Follows(r.intervals[i], v)
    {
      assert Behind(r.intervals[i], r.book);
      GrantMoves(r.book, duration, now, q, r.intervals[i]);
    }
    ExclusiveGrows(r.intervals, v);
    BehindGrows(r.intervals, v, book);
  }

  lemma TimePasses(r: Run, duration: int, now: int, later: int)
    requires Inv(r, duration, now) && now <= later
    ensures Inv(r, duration, later)
  {
  }

  lemma NextIs(r: Run, duration: int, q: Request)
    ensures var (book, given) := Granted(r.book, duration, q);
            Next(r, duration, q)
            == if given then Run(book, r.intervals + [Given(q, duration)]) else r
  {
  }

  lemma StepKeeps(r: Run, duration: int, now: int, q: Request)
    requires Inv(r, duration, now) && now <= q.checked <= q.started
    ensures Inv(Next(r, duration, q), duration, q.started)
  {
    NextIs(r, duration, q);
    if Granted(r.book, duration, q).1 {
      GivenKeeps(r, duration, now, q);
      GivenStays(r.book, r.intervals, duration, now, q);
    } else {
      TimePasses(r, duration, now, q.started);
    }
  }

  lemma {:induction false} RunKeeps(duration: int, requests: seq<Request>, now: int)
    requires Ordered(requests) && forall i :: 0 <= i < |requests| ==> requests[i].started <= now
    ensures Inv(After(duration, requests), duration, now)
  {
    if requests != [] {
      var last := requests[|requests| - 1];
      RunKeeps(duration, requests[..|requests| - 1], last.checked);
      StepKeeps(After(duration, requests[..|requests| - 1]), duration, last.checked, last);
      TimePasses(After(duration, requests), duration, last.started, now);
    }
  }

  /** The intervals that different nodes hold on one chunk never overlap, renewals included. */
  lemma LeasesExclude(duration: int, requests: seq<Request>, i: nat, j: nat, t: int)
    requires Ordered(requests)
    requires i < |After(duration, requests).intervals| && j < |After(duration, requests).intervals|
    requires var v, w := After(duration, requests).intervals[i], After(duration, requests).intervals[j];
             v.chunk == w.chunk && v.node != w.node
    ensures !(Inside(After(duration, requests).intervals[i], t) && Inside(After(duration, requests).intervals[j], t))
  {
    RunKeeps(duration, requests, LatestOf(requests));
    var intervals := After(duration, requests).intervals;
    if i < j {
      assert Follows(intervals[i], intervals[j]);
    } else {
      assert Follows(intervals[j], intervals[i]);
    }
  }

  /** A clock reading that no request comes after. */
  function LatestOf(requests: seq<Request>): (now: int)
    requires Ordered(requests)
    ensures forall i :: 0 <= i < |requests| ==> requests[i].started <= now
  {
    if requests == [] then 0 else requests[|requests| - 1].started
  }

  /** Asking for the holder answers whether the moment lies in one of the node's intervals. */
  lemma HolderIsInside(duration: int, requests: seq<Request>, chunk: string, node: string, now: int)
    requires Ordered(requests) && forall i :: 0 <= i < |requests| ==> requests[i].started <= now
    ensures Holds(After(duration, requests).book, chunk, node, now) <==>
            exists v :: v in After(duration, requests).intervals && v.chunk == chunk && v.node == node && Inside(v, now)
  {
    var r := After(duration, requests);
    RunKeeps(duration, requests, now);
    if Holds(r.book, chunk, node, now) {
      var v := IntervalOf(chunk, r.book[chunk]);
      assert v in r.intervals && Inside(v, now);
    }
    if v :| v in r.intervals && v.chunk == chunk && v.node == node && Inside(v, now) {
      var i :| 0 <= i < |r.intervals| && r.intervals[i] == v;
      assert Behind(r.intervals[i], r.book);
    }
  }

  // ---- when a lease must be given ----

  lemma OrderedFront(requests: seq<Request>, q: Request)
    requires Ordered(requests + [q])
    ensures Ordered(requests) && forall i :: 0 <= i < |requests| ==> requests[i].started <= q.checked
  {
    var all := requests + [q];
    assert forall i :: 0 <= i < |requests| ==> requests[i] == all[i];
    assert all[|requests|] == q;
  }

  lemma AfterOneMore(duration: int, requests: seq<Request>, q: Request)
    ensures After(duration, requests + [q]) == Next(After(duration, requests), duration, q)
  {
    assert (requests + [q])[..|requests|] == requests;
  }

  /**
   A request is given exactly when no interval given so far to another node on that
   chunk contains the moment it is checked. It then gets the interval of the common
   duration from its own start, and nothing else changes.
   */
  lemma GivenIffFree(duration: int, requests: seq<Request>, q: Request)
    requires Ordered(requests + [q])
    ensures var before, after := After(duration, requests).intervals, After(duration, requests + [q]).intervals;
            after == if exists v :: v in before && v.chunk == q.chunk && v.node != q.node && Inside(v, q.checked)
                     then before
                     else before + [Interval(q.chunk, q.node, q.started, q.started + duration)]
  {
    var r := After(duration, requests);
    OrderedFront(requests, q);
    AfterOneMore(duration, requests, q);
    RunKeeps(duration, requests, q.checked);
    if Granted(r.book, duration, q).1 {
      forall v | v in r.intervals && v.chunk == q.chunk && v.node != q.node
        ensures !Inside(v, q.checked)
      {
        var i :| 0 <= i < |r.intervals| && r.intervals[i] == v;
        assert Behind(r.intervals[i], r.book);
      }
    } else {
      var v := IntervalOf(q.chunk, r.book[q.chunk]);
      assert v in r.intervals && v.node != q.node && Inside(v, q.checked);
    }
  }

  /** A lease's version counts up while its holder renews it in time, and starts at 1 otherwise. */
  lemma VersionCountsRenewals(duration: int, requests: seq<Request>, q: Request)
    requires Ordered(requests + [q])
    requires |After(duration, requests + [q]).intervals| > |After(duration, requests).intervals|
    ensures var before, after := After(duration, requests), After(duration, requests + [q]);
            && q.chunk in after.book
            && ((exists v :: v in before.intervals && v.chunk == q.chunk && v.node == q.node && Inside(v, q.checked))
                ==> q.chunk in before.book && after.book[q.chunk].version == before.book[q.chunk].version + 1)
            && (!(exists v :: v in before.intervals && v.chunk == q.chunk && v.node == q.node && Inside(v, q.checked))
                ==> after.book[q.chunk].version == 1)
  {
    OrderedFront(requests, q);
    AfterOneMore(duration, requests, q);
    HolderIsInside(duration, requests, q.chunk, q.node, q.checked);
  }
}

/** The lease manager as an object that holds lease objects and renews them in place. */
module LeaseManager {
  import Spec = Lease

  class Lease {
    const chunk: string
    var holder: string
    var grantedAt: int
    var duration: int
    var version: int

    ghost function Terms(): Spec.Terms
      reads this
    {
      Spec.Terms(holder, grantedAt, duration, version)
    }

    constructor (chunk: string, holder: string, duration: int, now: int)
      ensures this.chunk == chunk && Terms() == Spec.Terms(holder, now, duration, 1)
    {
      this.chunk := chunk;
      this.holder := holder;
      this.grantedAt := now;
      this.duration := duration;
      this.version := 1;
    }

    method IsValid(now: int) returns (valid: bool)
      ensures valid == Spec.IsValid(Terms(), now)
    {
      return now - grantedAt < duration;
    }

    method Renew(now: int)
      modifies this
      ensures Terms() == Spec.Renewed(old(Terms()), now)
    {
      grantedAt := now;
      version := version + 1;
    }
  }

  class Manager {
    var leases: map<string, Lease>
    const duration: int

    /** A lease is kept under the name of its chunk, so no two chunks share one. */
    ghost predicate Valid()
      reads this
    {
      forall c :: c in leases ==> leases[c].chunk == c
    }

    ghost function Book(): Spec.Book
      reads this, leases.Values
    {
      map c | c in leases :: leases[c].Terms()
    }

    constructor (duration: int)
      ensures Valid() && Book() == map[] && this.duration == duration
    {
      this.leases := map[];
      this.duration := duration;
    }

    /** A new lease, a renewed one, or none when another node holds the chunk. */
    method Grant(chunk: string, node: string, checked: int, started: int) returns (lease: Lease?)
      requires Valid()
      modifies this, leases.Values
      ensures Valid()
      ensures (Book(), lease != null)
              == Spec.Granted(old(Book()), duration, Spec.Request(chunk, node, checked, started))
      ensures lease != null ==> chunk in leases && lease == leases[chunk]
    {
      if chunk in leases {
        var existing := leases[chunk];
        var valid := existing.IsValid(checked);
        if valid {
          if existing.holder != node {
            return null;
          }
          existing.Renew(started);
          assert forall c :: c in leases && c != chunk ==> leases[c] != existing;
          assert Book() == old(Book())[chunk := Spec.Renewed(old(existing.Terms()), started)];
          return existing;
        }
      }
      var created := new Lease(chunk, node, duration, started);
      leases := leases[chunk := created];
      assert Book() == old(Book())[chunk := Spec.Terms(node, started, duration, 1)];
      return created;
    }

    method CheckHolder(chunk: string, node: string, now: int) returns (held: bool)
      requires Valid()
      ensures held == Spec.Holds(Book(), chunk, node, now)
    {
      if chunk !in leases {
        return false;
      }
      var lease := leases[chunk];
      var valid := lease.IsValid(now);
      return lease.holder == node && valid;
    }
  }
}
