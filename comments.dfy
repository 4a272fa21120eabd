/** The record shapes returned by the code-hosting client and their
    normalisation into one comment record (my-gh-comments.ts, `getComments`). */
module Comments {

  type Login = string

  datatype User = User(login: Login)

  datatype Repository = Repository(name: string, nameWithOwner: string)

  /** A pull request as the search returns it. */
  datatype PullRequest = PullRequest(number: int, repository: Repository, title: string, url: string)

  /** A pull request together with its identity in this run. Every record built
      from one search result shares that one object, and the report compares
      those objects by reference; the identity here is the position of the pull
      request in the search result. */
  datatype PrRef = PrRef(index: nat, pr: PullRequest)

  /** An issue comment; `createdAt` is an ISO-8601 string. */
  datatype Comment = Comment(author: User, body: string, createdAt: string)

  /** A formal review with its state label, such as "APPROVED". */
  datatype Review = Review(author: User, body: string, state: string, submittedAt: string)

  /** An inline review comment; the same meaning as `Comment` under other field names. */
  datatype ReviewComment = ReviewComment(user: User, body: string, created_at: string)

  /** The pull-request detail query returns issue comments and reviews together. */
  datatype PullRequestDetail = PullRequestDetail(comments: seq<Comment>, reviews: seq<Review>)

  /** The unified record. The timestamp is in milliseconds, as `getTime()` gives it. */
  datatype GenericComment = GenericComment(pullRequest: PrRef, username: Login, body: string, timestamp: int)

  /** Parsing an ISO-8601 string into milliseconds (`new Date(s)`) is passed in
      as an uninterpreted function. */
  type TimeParser = string -> int

  /** The body shown for a review: its state in brackets, a space, then its body. */
  function ReviewBody(state: string, body: string): (r: string)
    ensures |r| == |state| + |body| + 3
    ensures r[0] == '[' && r[|state| + 1] == ']' && r[|state| + 2] == ' '
    ensures r[1..|state| + 1] == state && r[|state| + 3..] == body
  {
    "[" + state + "] " + body
  }

  function FromComment(pr: PrRef, c: Comment, parse: TimeParser): GenericComment
  {
    GenericComment(pr, c.author.login, c.body, parse(c.createdAt))
  }

  function FromReview(pr: PrRef, v: Review, parse: TimeParser): GenericComment
  {
    GenericComment(pr, v.author.login, ReviewBody(v.state, v.body), parse(v.submittedAt))
  }

  function FromReviewComment(pr: PrRef, c: ReviewComment, parse: TimeParser): GenericComment
  {
    GenericComment(pr, c.user.login, c.body, parse(c.created_at))
  }

  /** All records of one pull request: its issue comments, then its reviews,
      then its inline comments, each group in the order the client returned it. */
  function Normalize(pr: PrRef, detail: PullRequestDetail, reviewComments: seq<ReviewComment>, parse: TimeParser)
    : (r: seq<GenericComment>)
    ensures |r| == |detail.comments| + |detail.reviews| + |reviewComments|
    ensures forall k :: 0 <= k < |r| ==> r[k].pullRequest == pr
    ensures forall k :: 0 <= k < |detail.comments| ==>
      var c := detail.comments[k];
      r[k].username == c.author.login && r[k].body == c.body && r[k].timestamp == parse(c.createdAt)
    ensures forall k :: 0 <= k < |detail.reviews| ==>
      var v, g := detail.reviews[k], r[|detail.comments| + k];
      g.username == v.author.login && g.body == "[" + v.state + "] " + v.body && g.timestamp == parse(v.submittedAt)
    ensures forall k :: 0 <= k < |reviewComments| ==>
      var c, g := reviewComments[k], r[|detail.comments| + |detail.reviews| + k];
      g.username == c.user.login && g.body == c.body && g.timestamp == parse(c.created_at)
  {
    seq(|detail.comments|, k requires 0 <= k < |detail.comments| => FromComment(pr, detail.comments[k], parse))
    + seq(|detail.reviews|, k requires 0 <= k < |detail.reviews| => FromReview(pr, detail.reviews[k], parse))
    + seq(|reviewComments|, k requires 0 <= k < |reviewComments| => FromReviewComment(pr, reviewComments[k], parse))
  }

  /** A review's body is rewritten even when it is empty. */
  lemma EmptyReviewBody(state: string)
    ensures ReviewBody(state, "") == "[" + state + "] "
  {
  }

  /** The example of a review approved with "looks good". */
  lemma ApprovedReviewBody()
    ensures ReviewBody("APPROVED", "looks good") == "[APPROVED] looks good"
  {
  }

  /** The rewritten body determines both its state and its original body, once
      the length of the state is known. */
  lemma {:induction false} ReviewBodyInjective(s1: string, b1: string, s2: string, b2: string)
    requires |s1| == |s2| && ReviewBody(s1, b1) == ReviewBody(s2, b2)
    ensures s1 == s2 && b1 == b2
  {
    var r := ReviewBody(s1, b1);
    assert s1 == r[1..|s1| + 1] == s2;
    assert b1 == r[|s1| + 3..] == b2;
  }
}
