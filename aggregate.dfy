/** The aggregation step of my-gh-comments.ts (lines 115-121): the records of
    every pull request the search returned are flattened in search order,
    filtered to the current user's own records, and sorted by time with the
    stable `toSorted`. */
module Aggregate {
  import opened Comments
  import opened Sequences

  /** What the two queries for one pull request returned. */
  datatype Fetched = Fetched(detail: PullRequestDetail, reviewComments: seq<ReviewComment>)

  /** How many records one pull request contributes. */
  function Count(f: Fetched): nat
  {
    |f.detail.comments| + |f.detail.reviews| + |f.reviewComments|
  }

  function TotalCount(fs: seq<Fetched>): nat
  {
    if fs == [] then 0 else Count(fs[0]) + TotalCount(fs[1..])
  }

  /** The record belongs to the pull request at its index in the search result. */
  predicate FromSearch(c: GenericComment, prs: seq<PullRequest>)
  {
    c.pullRequest.index < |prs| && c.pullRequest.pr == prs[c.pullRequest.index]
  }

  /** `commentedPrs.map(getComments)`: the normalised records of each pull
      request, one list per search result, the i-th tagged with identity i. */
  function PerPullRequest(prs: seq<PullRequest>, fetched: seq<Fetched>, parse: TimeParser)
    : (r: seq<seq<GenericComment>>)
    requires |fetched| == |prs|
    ensures |r| == |prs|
    ensures forall i :: 0 <= i < |r| ==> |r[i]| == Count(fetched[i])
    ensures forall i, k :: 0 <= i < |r| && 0 <= k < |r[i]| ==> r[i][k].pullRequest == PrRef(i, prs[i])
  {
    seq(|prs|, i requires 0 <= i < |prs| =>
      Normalize(PrRef(i, prs[i]), fetched[i].detail, fetched[i].reviewComments, parse))
  }

  lemma {:induction false} SumLengthsCount(xss: seq<seq<GenericComment>>, fs: seq<Fetched>)
    requires |xss| == |fs|
    requires forall i :: 0 <= i < |xss| ==> |xss[i]| == Count(fs[i])
    ensures SumLengths(xss) == TotalCount(fs)
  {
    if xss != [] {
      SumLengthsCount(xss[1..], fs[1..]);
    }
  }

  /** The flattened records of all pull requests. */
  function Gather(prs: seq<PullRequest>, fetched: seq<Fetched>, parse: TimeParser): (r: seq<GenericComment>)
    requires |fetched| == |prs|
    ensures |r| == TotalCount(fetched)
    ensures forall k :: 0 <= k < |r| ==> FromSearch(r[k], prs)
  {
    var xss := PerPullRequest(prs, fetched, parse);
    SumLengthsCount(xss, fetched);
    GatherFromSearch(prs, fetched, parse);
    Flatten(xss)
  }

  lemma GatherFromSearch(prs: seq<PullRequest>, fetched: seq<Fetched>, parse: TimeParser)
    requires |fetched| == |prs|
    ensures forall c :: c in Flatten(PerPullRequest(prs, fetched, parse)) ==> FromSearch(c, prs)
  {
    var xss := PerPullRequest(prs, fetched, parse);
    forall c | c in Flatten(xss) ensures FromSearch(c, prs) {
      FlattenMember(xss, c);
      var i :| 0 <= i < |xss| && c in xss[i];
    }
  }

  /** The pull requests keep their search order: the j-th record of the i-th
      pull request comes right after the records of the pull requests before it. */
  lemma GatherOrder(prs: seq<PullRequest>, fetched: seq<Fetched>, parse: TimeParser, i: nat, j: nat)
    requires |fetched| == |prs|
    requires i < |prs| && j < Count(fetched[i])
    ensures TotalCount(fetched[..i]) + j < |Gather(prs, fetched, parse)|
    ensures Gather(prs, fetched, parse)[TotalCount(fetched[..i]) + j]
         == Normalize(PrRef(i, prs[i]), fetched[i].detail, fetched[i].reviewComments, parse)[j]
  {
    var xss := PerPullRequest(prs, fetched, parse);
    FlattenAt(xss, i, j);
    SumLengthsCount(xss[..i], fetched[..i]);
  }

  /** The test `comment.username === username`. */
  function ByLogin(login: Login): GenericComment -> bool
  {
    (c: GenericComment) => c.username == login
  }

  /** The current user's own records, in their flattened order. */
  function Mine(cs: seq<GenericComment>, login: Login): (r: seq<GenericComment>)
    ensures |r| <= |cs|
    ensures forall k :: 0 <= k < |r| ==> r[k] in cs && r[k].username == login
  {
    Filter(cs, ByLogin(login))
  }

  /** The filter keeps every record of the user, as often as it occurs, and
      nothing else. */
  lemma MineCount(cs: seq<GenericComment>, login: Login, c: GenericComment)
    ensures multiset(Mine(cs, login))[c] == if c.username == login then multiset(cs)[c] else 0
  {
    FilterCount(cs, ByLogin(login), c);
  }

  /** The login comparison is exact: a differently cased login is not the user. */
  lemma MineIsCaseSensitive(pr: PrRef, t: int)
    ensures Mine([GenericComment(pr, "Alice", "hi", t)], "alice") == []
  {
    var c := GenericComment(pr, "Alice", "hi", t);
    assert c.username[0] != "alice"[0];
    assert !ByLogin("alice")(c);
    assert [c][1..] == [];
    assert Filter([c], ByLogin("alice")) == Filter([], ByLogin("alice")) == [];
  }

  /** Timestamps never decrease along the sequence. */
  predicate SortedByTime(s: seq<GenericComment>)
  {
    forall i, j :: 0 <= i < j < |s| ==> s[i].timestamp <= s[j].timestamp
  }

  /** Places `c` before the first element of `s` whose time is not earlier. */
  function Insert(c: GenericComment, s: seq<GenericComment>): (r: seq<GenericComment>)
    ensures multiset(r) == multiset(s) + multiset{c}
  {
    if s == [] || c.timestamp <= s[0].timestamp then [c] + s
    else
      assert s == [s[0]] + s[1..];
      [s[0]] + Insert(c, s[1..])
  }

  /** Every element of `s` is at least `b`. */
  predicate AllFrom(s: seq<GenericComment>, b: int)
  {
    forall k :: 0 <= k < |s| ==> b <= s[k].timestamp
  }

  lemma {:induction false} InsertFrom(c: GenericComment, s: seq<GenericComment>, b: int)
    requires AllFrom(s, b) && b <= c.timestamp
    ensures AllFrom(Insert(c, s), b)
  {
    if s != [] && c.timestamp > s[0].timestamp {
      InsertFrom(c, s[1..], b);
    }
  }

  /** Inserting into a sorted sequence keeps it sorted. */
  lemma {:induction false} InsertSorted(c: GenericComment, s: seq<GenericComment>)
    requires SortedByTime(s)
    ensures SortedByTime(Insert(c, s))
  {
    if s != [] && c.timestamp > s[0].timestamp {
      InsertSorted(c, s[1..]);
      InsertFrom(c, s[1..], s[0].timestamp);
    }
  }

  /** `toSorted` by ascending `getTime()`; the sort is stable, so records with
      equal times keep their order. */
  function SortByTime(s: seq<GenericComment>): (r: seq<GenericComment>)
    ensures SortedByTime(r)
    ensures multiset(r) == multiset(s)
  {
    if s == [] then []
    else
      assert s == [s[0]] + s[1..];
      InsertSorted(s[0], SortByTime(s[1..]));
      Insert(s[0], SortByTime(s[1..]))
  }

  function HasTime(t: int): GenericComment -> bool
  {
    (c: GenericComment) => c.timestamp == t
  }

  /** The records that carry timestamp `t`, in order. */
  function AtTime(s: seq<GenericComment>, t: int): seq<GenericComment>
  {
    Filter(s, HasTime(t))
  }

  lemma {:induction false} InsertAtTime(c: GenericComment, s: seq<GenericComment>, t: int)
    ensures AtTime(Insert(c, s), t) == (if c.timestamp == t then [c] else []) + AtTime(s, t)
  {
    if s != [] && c.timestamp > s[0].timestamp {
      InsertAtTime(c, s[1..], t);
    }
  }

  /** Stability: among records with one timestamp, the sorted order is the input order. */
  lemma {:induction false} SortStable(s: seq<GenericComment>, t: int)
    ensures AtTime(SortByTime(s), t) == AtTime(s, t)
  {
    if s != [] {
      SortStable(s[1..], t);
      InsertAtTime(s[0], SortByTime(s[1..]), t);
    }
  }

  lemma AtTimeCons(s: seq<GenericComment>, t: int)
    requires s != []
    ensures AtTime(s, t) == (if s[0].timestamp == t then [s[0]] else []) + AtTime(s[1..], t)
  {
  }

  /** A sorted sequence has no record earlier than its first. */
  lemma AtTimeSortedBound(s: seq<GenericComment>, t: int)
    requires SortedByTime(s) && s != [] && AtTime(s, t) != []
    ensures s[0].timestamp <= t
  {
    var x := AtTime(s, t)[0];
    FilterMember(s, HasTime(t), x);
    var k :| 0 <= k < |s| && s[k] == x;
  }

  /** Sorted and stable fix the order completely: two sorted sequences that
      agree on the order of the records of every timestamp are equal. */
  lemma {:induction false} SortUnique(a: seq<GenericComment>, b: seq<GenericComment>)
    requires SortedByTime(a) && SortedByTime(b)
    requires forall t :: AtTime(a, t) == AtTime(b, t)
    ensures a == b
  {
    if a != [] && b == [] {
      AtTimeCons(a, a[0].timestamp);
    } else if a == [] && b != [] {
      AtTimeCons(b, b[0].timestamp);
    } else if a != [] {
      var ta, tb := a[0].timestamp, b[0].timestamp;
      AtTimeCons(a, ta);
      AtTimeCons(b, tb);
      AtTimeSortedBound(b, ta);
      AtTimeSortedBound(a, tb);
      assert a[0] == AtTime(a, ta)[0] == AtTime(b, tb)[0] == b[0];
      forall t ensures AtTime(a[1..], t) == AtTime(b[1..], t) {
        AtTimeCons(a, t);
        AtTimeCons(b, t);
        if a[0].timestamp == t {
          assert AtTime(a[1..], t) == AtTime(a, t)[1..];
          assert AtTime(b[1..], t) == AtTime(b, t)[1..];
        }
      }
      SortUnique(a[1..], b[1..]);
      assert a == [a[0]] + a[1..] && b == [b[0]] + b[1..];
    }
  }

  /** `SortByTime` is the one stable sort: any sorted arrangement that keeps
      the order of equal-time records is its result. */
  lemma SortCharacterized(s: seq<GenericComment>, r: seq<GenericComment>)
    requires SortedByTime(r)
    requires forall t :: AtTime(r, t) == AtTime(s, t)
    ensures r == SortByTime(s)
  {
    forall t ensures AtTime(r, t) == AtTime(SortByTime(s), t) {
      SortStable(s, t);
    }
    SortUnique(r, SortByTime(s));
  }

  /** Sorting an already sorted list changes nothing. */
  lemma SortSorted(s: seq<GenericComment>)
    requires SortedByTime(s)
    ensures SortByTime(s) == s
  {
    SortCharacterized(s, s);
  }

  /** Times 3, 1, 2 come out as 1, 2, 3. */
  lemma SortExample(c1: GenericComment, c2: GenericComment, c3: GenericComment)
    requires c1.timestamp < c2.timestamp < c3.timestamp
    ensures SortByTime([c3, c1, c2]) == [c1, c2, c3]
  {
    assert [c2][1..] == [];
    assert SortByTime([c2]) == [c2];
    assert [c1, c2][1..] == [c2];
    assert SortByTime([c1, c2]) == Insert(c1, [c2]) == [c1, c2];
    assert [c3, c1, c2][1..] == [c1, c2];
    assert [c1, c2][1..] == [c2];
    assert Insert(c3, [c2]) == [c2, c3];
    assert SortByTime([c3, c1, c2]) == Insert(c3, [c1, c2]) == [c1] + Insert(c3, [c2]);
  }

  /** The list the report prints: the user's own records from every pull
      request found, earliest first. */
  function MyComments(login: Login, prs: seq<PullRequest>, fetched: seq<Fetched>, parse: TimeParser)
    : (r: seq<GenericComment>)
    requires |fetched| == |prs|
    ensures SortedByTime(r)
    ensures forall k :: 0 <= k < |r| ==> r[k].username == login && FromSearch(r[k], prs)
    ensures multiset(r) == multiset(Mine(Gather(prs, fetched, parse), login))
  {
    var all := Gather(prs, fetched, parse);
    var mine := Mine(all, login);
    var r := SortByTime(mine);
    assert forall k :: 0 <= k < |r| ==> r[k] in multiset(mine);
    r
  }
}
