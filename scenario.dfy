/** The whole pipeline on one worked case: the current user's issue comment
    and inline comment on one pull request, and another user's review. */
module Scenario {
  import opened Comments
  import opened Sequences
  import opened Aggregate
  import opened Report

  /** The report for the current user's own records from every pull request
      found: one four-line block per record of the user, and nothing at all
      exactly when the user wrote none of the records fetched. */
  function RunReport(login: Login, prs: seq<PullRequest>, fetched: seq<Fetched>, parse: TimeParser,
                     fmt: TimeFormatter): (r: seq<string>)
    requires |fetched| == |prs|
    ensures var mine := Mine(Gather(prs, fetched, parse), login);
      |r| == 4 * |mine| + 4 * HeaderCount(MyComments(login, prs, fetched, parse))
    ensures r == [] <==> forall c :: c in Gather(prs, fetched, parse) ==> c.username != login
  {
    var all := Gather(prs, fetched, parse);
    var mine := Mine(all, login);
    var cs := MyComments(login, prs, fetched, parse);
    assert |cs| == |mine| by {
      assert |multiset(cs)| == |multiset(mine)|;
    }
    NoneMine(all, login);
    Lines(cs, fmt)
  }

  /** The user has no record in `cs` exactly when the filter keeps nothing. */
  lemma NoneMine(cs: seq<GenericComment>, login: Login)
    ensures Mine(cs, login) == [] <==> forall c :: c in cs ==> c.username != login
  {
    forall c | c in cs && c.username == login ensures Mine(cs, login) != [] {
      MineCount(cs, login, c);
      assert c in multiset(cs);
    }
    if Mine(cs, login) != [] {
      assert Mine(cs, login)[0] in cs;
    }
  }

  const Day1: string := "2024-01-01T00:00:00Z"
  const Day2: string := "2024-01-02T00:00:00Z"
  const Day3: string := "2024-01-03T00:00:00Z"

  /** "alice" wrote "fixed" on the first day and the inline "lgtm" on the
      second; "bob" approved on the third. The report shows one header and
      alice's two records, earliest first. */
  lemma OnePullRequestExample(url: string, parse: TimeParser, fmt: TimeFormatter)
    requires parse(Day1) < parse(Day2)
    ensures RunReport("alice", [PullRequest(1, Repository("repo", "owner/repo"), "Fix bug", url)],
                      [Fetched(PullRequestDetail([Comment(User("alice"), "fixed", Day1)],
                                                 [Review(User("bob"), "", "APPROVED", Day3)]),
                               [ReviewComment(User("alice"), "lgtm", Day2)])], parse, fmt)
         == [PullRequestSeparator, "Fix bug", url, "",
             CommentSeparator, "alice" + " (" + fmt(parse(Day1)) + ")", "fixed", "",
             CommentSeparator, "alice" + " (" + fmt(parse(Day2)) + ")", "lgtm", ""]
  {
    assert "bob" != "alice" by {
      assert "bob"[0] != "alice"[0];
    }
    OnePullRequest("alice", PullRequest(1, Repository("repo", "owner/repo"), "Fix bug", url),
      Comment(User("alice"), "fixed", Day1), Review(User("bob"), "", "APPROVED", Day3),
      ReviewComment(User("alice"), "lgtm", Day2), parse, fmt);
  }

  /** One pull request with one issue comment and one inline comment by the
      user, written in that order, and one review by someone else. */
  lemma OnePullRequest(login: Login, pr: PullRequest, c: Comment, v: Review, rc: ReviewComment,
                       parse: TimeParser, fmt: TimeFormatter)
    requires c.author.login == login && v.author.login != login && rc.user.login == login
    requires parse(c.createdAt) <= parse(rc.created_at)
    ensures RunReport(login, [pr], [Fetched(PullRequestDetail([c], [v]), [rc])], parse, fmt)
         == [PullRequestSeparator, pr.title, pr.url, "",
             CommentSeparator, login + " (" + fmt(parse(c.createdAt)) + ")", c.body, "",
             CommentSeparator, login + " (" + fmt(parse(rc.created_at)) + ")", rc.body, ""]
  {
    var detail := PullRequestDetail([c], [v]);
    var ref := PrRef(0, pr);
    var g1 := FromComment(ref, c, parse);
    var gv := FromReview(ref, v, parse);
    var g2 := FromReviewComment(ref, rc, parse);
    GatherOne(pr, Fetched(detail, [rc]), parse);
    assert Normalize(ref, detail, [rc], parse) == [g1, gv, g2];
    MineOfThree(g1, gv, g2, login);
    SortTwo(g1, g2);
    LinesOneGroup(g1, g2, fmt);
  }

  lemma GatherOne(pr: PullRequest, f: Fetched, parse: TimeParser)
    ensures Gather([pr], [f], parse) == Normalize(PrRef(0, pr), f.detail, f.reviewComments, parse)
  {
    var xs := Normalize(PrRef(0, pr), f.detail, f.reviewComments, parse);
    assert PerPullRequest([pr], [f], parse) == [xs];
    assert [xs][1..] == [];
    assert Flatten([xs]) == xs + Flatten([]);
  }

  lemma MineOfThree(g1: GenericComment, gv: GenericComment, g2: GenericComment, login: Login)
    requires g1.username == login && gv.username != login && g2.username == login
    ensures Mine([g1, gv, g2], login) == [g1, g2]
  {
    var p := ByLogin(login);
    assert p(g1) && !p(gv) && p(g2);
    assert [g1, gv, g2][1..] == [gv, g2] && [gv, g2][1..] == [g2] && [g2][1..] == [];
    assert Filter([gv, g2], p) == Filter([g2], p) == [g2] + Filter([], p);
  }

  lemma SortTwo(g1: GenericComment, g2: GenericComment)
    requires g1.timestamp <= g2.timestamp
    ensures SortByTime([g1, g2]) == [g1, g2]
  {
    assert [g1, g2][1..] == [g2] && [g2][1..] == [];
    assert SortByTime([g2]) == Insert(g2, []) == [g2];
  }

  lemma LinesOneGroup(g1: GenericComment, g2: GenericComment, fmt: TimeFormatter)
    requires g1.pullRequest == g2.pullRequest
    ensures Lines([g1, g2], fmt) == Header(g1.pullRequest) + Block(g1, fmt) + Block(g2, fmt)
  {
    assert [g1, g2][..1] == [g1] && [g1][..0] == [];
    assert Lines([g1], fmt) == Header(g1.pullRequest) + Block(g1, fmt);
  }
}
