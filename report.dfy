/** The grouped report printed at the end of my-gh-comments.ts (lines
    123-138). The output is the sequence of strings passed to `console.log`,
    one per call; `console.log()` with no argument writes the empty string. */
module Report {
  import opened Comments

  datatype Option<T> = None | Some(value: T)

  /** Printed above each pull-request header: 70 equals signs. */
  const PullRequestSeparator: string := "======================================================================"

  /** Printed above each comment: 50 hyphens. */
  const CommentSeparator: string := "--------------------------------------------------"

  /** `Date.prototype.toLocaleString` on a time in milliseconds, passed in as
      an uninterpreted function. */
  type TimeFormatter = int -> string

  function Header(pr: PrRef): seq<string>
  {
    [PullRequestSeparator, pr.pr.title, pr.pr.url, ""]
  }

  function Block(c: GenericComment, fmt: TimeFormatter): seq<string>
  {
    [CommentSeparator, c.username + " (" + fmt(c.timestamp) + ")", c.body, ""]
  }

  /** Comment `i` starts a new group: it is the first comment, or its pull
      request is not the one of the comment just before it. */
  predicate NewGroup(cs: seq<GenericComment>, i: nat)
    requires i < |cs|
  {
    i == 0 || cs[i].pullRequest.index != cs[i - 1].pullRequest.index
  }

  /** The lines printed for comment `i`: a header when it starts a group, then its block. */
  function Entry(cs: seq<GenericComment>, i: nat, fmt: TimeFormatter): seq<string>
    requires i < |cs|
  {
    (if NewGroup(cs, i) then Header(cs[i].pullRequest) else []) + Block(cs[i], fmt)
  }

  /** The whole report, entry by entry: four lines per header and four per
      comment, so nothing at all for no comments. */
  function Lines(cs: seq<GenericComment>, fmt: TimeFormatter): (r: seq<string>)
    ensures |r| == 4 * |cs| + 4 * HeaderCount(cs)
  {
    if cs == [] then [] else Lines(cs[..|cs| - 1], fmt) + Entry(cs, |cs| - 1, fmt)
  }

  /** How many pull-request headers the report holds. */
  function HeaderCount(cs: seq<GenericComment>): nat
  {
    if cs == [] then 0
    else HeaderCount(cs[..|cs| - 1]) + (if NewGroup(cs, |cs| - 1) then 1 else 0)
  }

  /** The print loop. `previousPr` starts as "none" and always holds the pull
      request of the comment printed last. */
  method PrintReport(cs: seq<GenericComment>, fmt: TimeFormatter) returns (out: seq<string>)
    ensures out == Lines(cs, fmt)
  {
    var previousPr: Option<nat> := None;
    out := [];
    for i := 0 to |cs|
      invariant out == Lines(cs[..i], fmt)
      invariant previousPr == if i == 0 then None else Some(cs[i - 1].pullRequest.index)
    {
      var comment := cs[i];
      if previousPr != Some(comment.pullRequest.index) {
        out := out + [PullRequestSeparator, comment.pullRequest.pr.title, comment.pullRequest.pr.url, ""];
        previousPr := Some(comment.pullRequest.index);
      }
      out := out + [CommentSeparator, comment.username + " (" + fmt(comment.timestamp) + ")", comment.body, ""];
      assert cs[..i + 1][..i] == cs[..i];
    }
    assert cs[..|cs|] == cs;
  }

  /** A non-empty report has at least one header and at most one per comment. */
  lemma {:induction false} HeaderCountBounds(cs: seq<GenericComment>)
    ensures HeaderCount(cs) <= |cs|
    ensures cs != [] ==> 1 <= HeaderCount(cs)
  {
    if cs != [] {
      HeaderCountBounds(cs[..|cs| - 1]);
    }
  }

  /** Printing is incremental: the report of a prefix of the comments is a
      prefix of the whole report, and comment `i`'s entry follows it. */
  lemma {:induction false} LinesPrefix(cs: seq<GenericComment>, i: nat, fmt: TimeFormatter)
    requires i < |cs|
    ensures Lines(cs[..i], fmt) + Entry(cs, i, fmt) <= Lines(cs, fmt)
  {
    var n := |cs| - 1;
    assert Lines(cs, fmt) == Lines(cs[..n], fmt) + Entry(cs, n, fmt);
    if i < n {
      var p := cs[..n];
      LinesPrefix(p, i, fmt);
      assert p[..i] == cs[..i];
      assert Entry(p, i, fmt) == Entry(cs, i, fmt);
      var front := Lines(cs[..i], fmt) + Entry(cs, i, fmt);
      assert front <= Lines(p, fmt);
      assert front <= Lines(p, fmt) + Entry(cs, n, fmt);
    }
  }

  /** The identities of the pull requests that occur in `cs`. */
  function PrIds(cs: seq<GenericComment>): set<nat>
  {
    set k | 0 <= k < |cs| :: cs[k].pullRequest.index
  }

  lemma PrIdsSnoc(cs: seq<GenericComment>)
    requires cs != []
    ensures PrIds(cs) == PrIds(cs[..|cs| - 1]) + {cs[|cs| - 1].pullRequest.index}
  {
    var p := cs[..|cs| - 1];
    forall x | x in PrIds(cs) ensures x in PrIds(p) + {cs[|cs| - 1].pullRequest.index} {
      var k :| 0 <= k < |cs| && cs[k].pullRequest.index == x;
      if k < |cs| - 1 {
        assert p[k] == cs[k];
      }
    }
    forall x | x in PrIds(p) ensures x in PrIds(cs) {
      var k :| 0 <= k < |p| && p[k].pullRequest.index == x;
      assert cs[k] == p[k];
    }
  }

  /** Every pull request that occurs gets at least one header. */
  lemma {:induction false} EveryPullRequestHasHeader(cs: seq<GenericComment>)
    ensures |PrIds(cs)| <= HeaderCount(cs)
  {
    if cs != [] {
      var n := |cs| - 1;
      var p := cs[..n];
      EveryPullRequestHasHeader(p);
      PrIdsSnoc(cs);
      if cs[n].pullRequest.index !in PrIds(p) && n > 0 {
        assert cs[n - 1].pullRequest.index in PrIds(p) by {
          assert p[n - 1] == cs[n - 1];
        }
      }
    }
  }

  /** The comments of each pull request are next to each other. */
  predicate Contiguous(cs: seq<GenericComment>)
  {
    forall i, j, k :: 0 <= i < j < k < |cs| && cs[i].pullRequest.index == cs[k].pullRequest.index
      ==> cs[j].pullRequest.index == cs[i].pullRequest.index
  }

  lemma ContiguousPrefix(cs: seq<GenericComment>, n: nat)
    requires Contiguous(cs) && n <= |cs|
    ensures Contiguous(cs[..n])
  {
    var p := cs[..n];
    forall i, j, k | 0 <= i < j < k < |p| && p[i].pullRequest.index == p[k].pullRequest.index
      ensures p[j].pullRequest.index == p[i].pullRequest.index
    {
      assert p[i] == cs[i] && p[j] == cs[j] && p[k] == cs[k];
    }
  }

  /** In a contiguous sequence, a comment that starts a group has a pull
      request no earlier comment has. */
  lemma ContiguousFresh(cs: seq<GenericComment>)
    requires Contiguous(cs) && |cs| >= 2 && NewGroup(cs, |cs| - 1)
    ensures cs[|cs| - 1].pullRequest.index !in PrIds(cs[..|cs| - 1])
  {
    var n := |cs| - 1;
    var p := cs[..n];
    forall i | 0 <= i < |p| ensures p[i].pullRequest.index != cs[n].pullRequest.index {
      assert p[i] == cs[i];
    }
  }

  /** When each pull request's comments are contiguous, every pull request
      gets exactly one header. */
  lemma {:induction false} ContiguousOneHeaderEach(cs: seq<GenericComment>)
    requires Contiguous(cs)
    ensures HeaderCount(cs) == |PrIds(cs)|
  {
    if cs != [] {
      var n := |cs| - 1;
      var p := cs[..n];
      ContiguousPrefix(cs, n);
      ContiguousOneHeaderEach(p);
      PrIdsSnoc(cs);
      if n == 0 {
        assert PrIds(p) == {};
      } else if NewGroup(cs, n) {
        ContiguousFresh(cs);
      } else {
        assert cs[n].pullRequest.index in PrIds(p) by {
          assert p[n - 1] == cs[n - 1];
        }
        assert PrIds(p) + {cs[n].pullRequest.index} == PrIds(p);
      }
    }
  }

  /** Every comment is printed under the header of its own pull request: the
      latest header at or before comment `i` was printed for comment `i`'s
      pull request, and no header lies between them. */
  lemma {:induction false} UnderOwnHeader(cs: seq<GenericComment>, i: nat)
    requires i < |cs|
    ensures exists j ::
              && 0 <= j <= i && NewGroup(cs, j)
              && (forall k :: j <= k <= i ==> cs[k].pullRequest.index == cs[i].pullRequest.index)
  {
    if !NewGroup(cs, i) {
      UnderOwnHeader(cs, i - 1);
      var j :| 0 <= j <= i - 1 && NewGroup(cs, j)
        && forall k :: j <= k <= i - 1 ==> cs[k].pullRequest.index == cs[i - 1].pullRequest.index;
      assert forall k :: j <= k <= i ==> cs[k].pullRequest.index == cs[i].pullRequest.index;
    }
  }

  /** Comments for pull requests A, A, B, A print three headers, the last one
      for A again, since only the immediately preceding comment is compared. */
  lemma GroupingExample(a: PrRef, b: PrRef, c1: GenericComment, c2: GenericComment,
                        c3: GenericComment, c4: GenericComment, fmt: TimeFormatter)
    requires a.index != b.index
    requires c1.pullRequest == a && c2.pullRequest == a && c3.pullRequest == b && c4.pullRequest == a
    ensures Lines([c1, c2, c3, c4], fmt)
         == Header(a) + Block(c1, fmt) + Block(c2, fmt) + Header(b) + Block(c3, fmt) + Header(a) + Block(c4, fmt)
    ensures HeaderCount([c1, c2, c3, c4]) == 3
  {
    var s1, s2, s3, s4 := [c1], [c1, c2], [c1, c2, c3], [c1, c2, c3, c4];
    assert s1[..0] == [] && s2[..1] == s1 && s3[..2] == s2 && s4[..3] == s3;
    assert HeaderCount(s1[..0]) == 0;
    assert NewGroup(s1, 0);
    assert HeaderCount(s1) == HeaderCount(s1[..0]) + 1;
    assert Lines(s1, fmt) == Header(a) + Block(c1, fmt) && HeaderCount(s1) == 1;
    assert Lines(s2, fmt) == Lines(s1, fmt) + Block(c2, fmt) && HeaderCount(s2) == 1;
    assert Lines(s3, fmt) == Lines(s2, fmt) + Header(b) + Block(c3, fmt) && HeaderCount(s3) == 2;
    assert Lines(s4, fmt) == Lines(s3, fmt) + Header(a) + Block(c4, fmt) && HeaderCount(s4) == 3;
  }

  /** No comments, no output. */
  lemma EmptyReport(fmt: TimeFormatter)
    ensures Lines([], fmt) == []
  {
  }
}
