/** The review tool's tables as values: generic searching, filtering and
    counting over rows, the lookups and aggregates the commands query, and
    the integrity constraints the schema and the commands maintain. */
module ReviewTables {
  import opened Values
  import opened ReviewRules

  // ---- generic row queries ----

  /** The first row satisfying `p` (`fetchone`). */
  function Find<T>(s: seq<T>, p: T -> bool): (r: Option<nat>)
    ensures r.Some? ==> r.value < |s| && p(s[r.value]) && forall j :: 0 <= j < r.value ==> !p(s[j])
    ensures r.None? <==> forall j :: 0 <= j < |s| ==> !p(s[j])
    decreases |s|
  {
    if s == [] then None
    else if p(s[0]) then Some(0)
    else match Find(s[1..], p)
      case None => None
      case Some(k) => Some(k + 1)
  }

  /** The rows satisfying `p`, in table order (`fetchall` of a `WHERE`). */
  function Filter<T(!new)>(s: seq<T>, p: T -> bool): (r: seq<T>)
    ensures |r| <= |s|
    ensures forall x :: x in r <==> x in s && p(x)
    decreases |s|
  {
    if s == [] then []
    else Filter(s[..|s| - 1], p) + (if p(s[|s| - 1]) then [s[|s| - 1]] else [])
  }

  lemma FilterAppend<T(!new)>(s: seq<T>, x: T, p: T -> bool)
    ensures Filter(s + [x], p) == Filter(s, p) + (if p(x) then [x] else [])
  {
    assert (s + [x])[..|s|] == s;
  }

  /** No row satisfies `p`: nothing is selected. */
  lemma {:induction false} FilterNone<T(!new)>(s: seq<T>, p: T -> bool)
    requires forall i :: 0 <= i < |s| ==> !p(s[i])
    ensures Filter(s, p) == []
    decreases |s|
  {
    if s != [] {
      var init := s[..|s| - 1];
      assert forall i :: 0 <= i < |init| ==> init[i] == s[i];
      FilterNone(init, p);
    }
  }

  /** The rows of `s` are in strictly ascending `key` order. */
  ghost predicate Ascending<T>(s: seq<T>, key: T -> int) {
    forall i, j :: 0 <= i < j < |s| ==> key(s[i]) < key(s[j])
  }

  /** Filtering keeps the table order: rows in ascending `key` order stay
      in ascending order. */
  lemma {:induction false} FilterAscending<T(!new)>(s: seq<T>, p: T -> bool, key: T -> int)
    requires Ascending(s, key)
    ensures Ascending(Filter(s, p), key)
    decreases |s|
  {
    if s != [] {
      var init := s[..|s| - 1];
      var x := s[|s| - 1];
      assert Ascending(init, key) by {
        forall i, j | 0 <= i < j < |init| ensures key(init[i]) < key(init[j]) {
          assert init[i] == s[i] && init[j] == s[j];
        }
      }
      FilterAscending(init, p, key);
      var f := Filter(init, p);
      forall y | y in f ensures key(y) < key(x) {
        var i :| 0 <= i < |init| && init[i] == y;
        assert s[i] == y;
      }
      var r := Filter(s, p);
      assert r == f + (if p(x) then [x] else []);
      forall i, j | 0 <= i < j < |r| ensures key(r[i]) < key(r[j]) {
        if j < |f| {
          assert r[i] == f[i] && r[j] == f[j];
        } else {
          assert r[i] == f[i] && f[i] in f && r[j] == x;
        }
      }
    }
  }

  // ---- lookups ----

  function FindReview(rs: seq<Review>, issue: int, task: int): (r: Option<nat>)
    ensures r.Some? ==> r.value < |rs| && rs[r.value].issue == issue && rs[r.value].task == task
    ensures r.None? <==> forall j :: 0 <= j < |rs| ==> !(rs[j].issue == issue && rs[j].task == task)
  {
    Find(rs, (x: Review) => x.issue == issue && x.task == task)
  }

  function FindOpenReview(rs: seq<Review>, issue: int): (r: Option<nat>)
    ensures r.Some? ==> r.value < |rs| && rs[r.value].issue == issue && rs[r.value].status == ReviewOpen
    ensures r.None? <==> forall j :: 0 <= j < |rs| ==> !(rs[j].issue == issue && rs[j].status == ReviewOpen)
  {
    Find(rs, (x: Review) => x.issue == issue && x.status == ReviewOpen)
  }

  /** `fetch_review_by_id`. */
  function FindReviewById(rs: seq<Review>, id: nat): (r: Option<nat>)
    ensures r.Some? ==> r.value < |rs| && rs[r.value].id == id
    ensures r.None? <==> forall j :: 0 <= j < |rs| ==> rs[j].id != id
  {
    Find(rs, (x: Review) => x.id == id)
  }

  function FindParticipant(ps: seq<Participant>, token: string): (r: Option<nat>)
    ensures r.Some? ==> r.value < |ps| && ps[r.value].token == token
    ensures r.None? <==> forall j :: 0 <= j < |ps| ==> ps[j].token != token
  {
    Find(ps, (x: Participant) => x.token == token)
  }

  /** Moving a participant's cursor does not change which row its token
      finds. */
  lemma FindParticipantAfterCursor(ps: seq<Participant>, pi: nat, last: nat)
    requires pi < |ps|
    ensures FindParticipant(ps[pi := ps[pi].(lastEventId := last)], ps[pi].token) == FindParticipant(ps, ps[pi].token)
  {
    var q := ps[pi := ps[pi].(lastEventId := last)];
    assert forall j :: 0 <= j < |q| ==> q[j].token == ps[j].token;
  }

  function FindThread(ts: seq<Thread>, reviewId: nat, number: int): (r: Option<nat>)
    ensures r.Some? ==> r.value < |ts| && ts[r.value].reviewId == reviewId && ts[r.value].number == number
    ensures r.None? <==> forall j :: 0 <= j < |ts| ==> !(ts[j].reviewId == reviewId && ts[j].number == number)
  {
    Find(ts, (x: Thread) => x.reviewId == reviewId && x.number == number)
  }

  /** With distinct tokens, a participant's token finds that participant. */
  lemma FindParticipantUnique(ps: seq<Participant>, pi: nat)
    requires pi < |ps|
    requires forall i, j :: 0 <= i < j < |ps| ==> ps[i].token != ps[j].token
    ensures FindParticipant(ps, ps[pi].token) == Some(pi)
  {
    var f := FindParticipant(ps, ps[pi].token);
    assert f.Some?;
  }

  /** The names already given out in a review. */
  function UsedNames(ps: seq<Participant>, reviewId: nat): (used: set<string>)
    ensures forall i :: 0 <= i < |ps| && ps[i].reviewId == reviewId ==> ps[i].name in used
    ensures forall n :: n in used ==> exists i :: 0 <= i < |ps| && ps[i].reviewId == reviewId && ps[i].name == n
  {
    set i | 0 <= i < |ps| && ps[i].reviewId == reviewId :: ps[i].name
  }

  // ---- aggregates ----

  /** `COALESCE(MAX(thread_no), -1)` over a review's threads. */
  function MaxThreadNo(ts: seq<Thread>, reviewId: nat): (m: int)
    ensures m >= -1
    ensures forall i :: 0 <= i < |ts| && ts[i].reviewId == reviewId ==> ts[i].number <= m
    ensures m != -1 ==> exists i :: 0 <= i < |ts| && ts[i].reviewId == reviewId && ts[i].number == m
    decreases |ts|
  {
    if ts == [] then -1
    else
      var m := MaxThreadNo(ts[..|ts| - 1], reviewId);
      var x := ts[|ts| - 1];
      assert forall i :: 0 <= i < |ts| - 1 ==> ts[..|ts| - 1][i] == ts[i];
      if x.reviewId == reviewId && x.number > m then x.number else m
  }

  /** The number a new thread gets: one past the review's largest, 0 for the
      first; it differs from every number in use in the review. */
  function NextThreadNo(ts: seq<Thread>, reviewId: nat): (n: int)
    ensures n >= 0
    ensures forall i :: 0 <= i < |ts| && ts[i].reviewId == reviewId ==> ts[i].number < n
    ensures (forall i :: 0 <= i < |ts| ==> ts[i].reviewId != reviewId) ==> n == 0
    ensures n > 0 ==> exists i :: 0 <= i < |ts| && ts[i].reviewId == reviewId && ts[i].number == n - 1
  {
    MaxThreadNo(ts, reviewId) + 1
  }

  /** `COALESCE(MAX(id), 0)` over a review's events. */
  function MaxEventId(es: seq<Event>, reviewId: nat): (m: nat)
    ensures forall i :: 0 <= i < |es| && es[i].reviewId == reviewId ==> es[i].id <= m
    ensures m != 0 ==> exists i :: 0 <= i < |es| && es[i].reviewId == reviewId && es[i].id == m
    decreases |es|
  {
    if es == [] then 0
    else
      var m := MaxEventId(es[..|es| - 1], reviewId);
      var x := es[|es| - 1];
      assert forall i :: 0 <= i < |es| - 1 ==> es[..|es| - 1][i] == es[i];
      if x.reviewId == reviewId && x.id > m then x.id else m
  }

  function CommentsOf(cs: seq<Comment>, threadId: nat): seq<Comment> {
    Filter(cs, (c: Comment) => c.threadId == threadId)
  }

  /** `count_comments_for_thread`. */
  function CountComments(cs: seq<Comment>, threadId: nat): nat {
    |CommentsOf(cs, threadId)|
  }

  /** Adding a comment raises its own thread's count by one and no other. */
  lemma CountCommentsAppend(cs: seq<Comment>, c: Comment, threadId: nat)
    ensures CountComments(cs + [c], threadId) == CountComments(cs, threadId) + (if c.threadId == threadId then 1 else 0)
  {
    FilterAppend(cs, c, (x: Comment) => x.threadId == threadId);
  }

  /** A thread no comment refers to has none. */
  lemma CountCommentsNone(cs: seq<Comment>, threadId: nat)
    requires forall i :: 0 <= i < |cs| ==> cs[i].threadId != threadId
    ensures CountComments(cs, threadId) == 0
  {
    FilterNone(cs, (c: Comment) => c.threadId == threadId);
  }

  /** `count_threads`. */
  function CountThreads(ts: seq<Thread>, reviewId: nat): nat {
    |Filter(ts, (t: Thread) => t.reviewId == reviewId)|
  }

  /** The open threads of a review, as counted by `cmd_close`. */
  function CountOpenThreads(ts: seq<Thread>, reviewId: nat): (n: nat)
    ensures n == 0 <==> forall i :: 0 <= i < |ts| ==> !(ts[i].reviewId == reviewId && ts[i].status == ThreadOpen)
  {
    var f := Filter(ts, (t: Thread) => t.reviewId == reviewId && t.status == ThreadOpen);
    assert f != [] ==> f[0] in f;
    assert forall i :: 0 <= i < |ts| ==> ts[i] in ts;
    |f|
  }

  /** `count_participants` with a role. */
  function CountRole(ps: seq<Participant>, reviewId: nat, role: Role): nat {
    |Filter(ps, (p: Participant) => p.reviewId == reviewId && p.role == role)|
  }

  /** The ids of a review's threads. */
  function ThreadIds(ts: seq<Thread>, reviewId: nat): (ids: set<nat>)
    ensures forall i :: 0 <= i < |ts| && ts[i].reviewId == reviewId ==> ts[i].id in ids
    ensures forall id :: id in ids ==> exists i :: 0 <= i < |ts| && ts[i].reviewId == reviewId && ts[i].id == id
  {
    set i | 0 <= i < |ts| && ts[i].reviewId == reviewId :: ts[i].id
  }

  /** `count_comments_for_review`: comments joined with their threads. */
  function CountReviewComments(cs: seq<Comment>, ts: seq<Thread>, reviewId: nat): nat {
    var ids := ThreadIds(ts, reviewId);
    |Filter(cs, (c: Comment) => c.threadId in ids)|
  }

  /** The events of a review after the cursor `last`, in id order. */
  function NewEvents(es: seq<Event>, reviewId: nat, last: nat): (r: seq<Event>)
    ensures forall e :: e in r <==> e in es && e.reviewId == reviewId && e.id > last
  {
    Filter(es, (e: Event) => e.reviewId == reviewId && e.id > last)
  }

  // ---- integrity ----

  /** `AUTOINCREMENT` with no deletions: the id of a row is its position + 1. */
  ghost predicate ReviewIds(rs: seq<Review>) {
    forall i :: 0 <= i < |rs| ==> rs[i].id == i + 1
  }

  ghost predicate ParticipantIds(ps: seq<Participant>) {
    forall i :: 0 <= i < |ps| ==> ps[i].id == i + 1
  }

  ghost predicate ThreadIdsAreRows(ts: seq<Thread>) {
    forall i :: 0 <= i < |ts| ==> ts[i].id == i + 1
  }

  ghost predicate CommentIds(cs: seq<Comment>) {
    forall i :: 0 <= i < |cs| ==> cs[i].id == i + 1
  }

  ghost predicate EventIds(es: seq<Event>) {
    forall i :: 0 <= i < |es| ==> es[i].id == i + 1
  }

  ghost predicate RowIds(t: Tables) {
    && ReviewIds(t.reviews)
    && ParticipantIds(t.participants)
    && ThreadIdsAreRows(t.threads)
    && CommentIds(t.comments)
    && EventIds(t.events)
  }

  /** `UNIQUE(issue, task)`, the partial unique index on open reviews per
      issue, and the non-negative issue and task the commands validate. */
  ghost predicate ReviewsOk(rs: seq<Review>) {
    && (forall i, j :: 0 <= i < j < |rs| ==> !(rs[i].issue == rs[j].issue && rs[i].task == rs[j].task))
    && (forall i, j :: 0 <= i < j < |rs| && rs[i].status == ReviewOpen && rs[j].status == ReviewOpen ==>
          rs[i].issue != rs[j].issue)
    && (forall i :: 0 <= i < |rs| ==> rs[i].issue >= 0 && rs[i].task >= 0)
  }

  /** A participant row whose review exists and whose name comes from the
      pool. */
  ghost predicate Enrolled(rs: seq<Review>, p: Participant) {
    && 1 <= p.reviewId <= |rs|
    && p.name in NAME_POOL
  }

  /** The token of participant row `p` is `name-issue-task` of its review. */
  ghost predicate TokenMatches(rs: seq<Review>, p: Participant) {
    && 1 <= p.reviewId <= |rs|
    && p.token == Token(p.name, rs[p.reviewId - 1].issue, rs[p.reviewId - 1].task)
  }

  /** The first `n` participant rows carry the tokens of their names and
      reviews, stated row by row from row `n` back; `TokensMatchAt` reads
      it at any one row. */
  ghost predicate TokensMatch(rs: seq<Review>, ps: seq<Participant>, n: nat)
    requires n <= |ps|
    decreases n
  {
    n == 0 || (TokensMatch(rs, ps, n - 1) && TokenMatches(rs, ps[n - 1]))
  }

  lemma {:induction false} TokensMatchAt(rs: seq<Review>, ps: seq<Participant>, n: nat, i: nat)
    requires n <= |ps| && TokensMatch(rs, ps, n) && i < n
    ensures TokenMatches(rs, ps[i])
    decreases n
  {
    if i < n - 1 {
      TokensMatchAt(rs, ps, n - 1, i);
    }
  }

  /** Tokens still match when no review changes its issue or task, rows are
      only appended to `reviews`, and none of the first `n` participant rows
      changes its review, name or token. */
  lemma {:induction false} TokensMatchFrame(rs: seq<Review>, rs': seq<Review>, ps: seq<Participant>, ps': seq<Participant>, n: nat)
    requires n <= |ps| && n <= |ps'| && TokensMatch(rs, ps, n)
    requires |rs| <= |rs'| && forall i :: 0 <= i < |rs| ==> rs'[i].issue == rs[i].issue && rs'[i].task == rs[i].task
    requires forall i :: 0 <= i < n ==>
      ps'[i].reviewId == ps[i].reviewId && ps'[i].name == ps[i].name && ps'[i].token == ps[i].token
    ensures TokensMatch(rs', ps', n)
    decreases n
  {
    if n > 0 {
      TokensMatchFrame(rs, rs', ps, ps', n - 1);
      TokenMatchesFrame(rs, rs', ps[n - 1], ps'[n - 1]);
    }
  }

  lemma TokenMatchesFrame(rs: seq<Review>, rs': seq<Review>, p: Participant, p': Participant)
    requires TokenMatches(rs, p)
    requires |rs| <= |rs'| && forall i :: 0 <= i < |rs| ==> rs'[i].issue == rs[i].issue && rs'[i].task == rs[i].task
    requires p'.reviewId == p.reviewId && p'.name == p.name && p'.token == p.token
    ensures TokenMatches(rs', p')
  {
    var k := p.reviewId - 1;
    assert rs'[k].issue == rs[k].issue && rs'[k].task == rs[k].task;
  }

  /** Pool names are distinct within a review. */
  ghost predicate NamesDistinct(ps: seq<Participant>) {
    forall i, j :: 0 <= i < j < |ps| && ps[i].reviewId == ps[j].reviewId ==> ps[i].name != ps[j].name
  }

  ghost predicate ParticipantsOk(rs: seq<Review>, ps: seq<Participant>) {
    && (forall i :: 0 <= i < |ps| ==> Enrolled(rs, ps[i]))
    && NamesDistinct(ps)
    && TokensMatch(rs, ps, |ps|)
  }

  /** The foreign key to `reviews`, `UNIQUE(review_id, thread_no)`, and
      non-negative thread numbers. */
  ghost predicate ThreadsOk(rs: seq<Review>, ts: seq<Thread>) {
    && (forall i :: 0 <= i < |ts| ==> 1 <= ts[i].reviewId <= |rs| && ts[i].number >= 0)
    && (forall i, j :: 0 <= i < j < |ts| && ts[i].reviewId == ts[j].reviewId ==> ts[i].number != ts[j].number)
  }

  ghost predicate CommentsOk(ts: seq<Thread>, cs: seq<Comment>) {
    forall i :: 0 <= i < |cs| ==> 1 <= cs[i].threadId <= |ts|
  }

  ghost predicate EventsOk(rs: seq<Review>, es: seq<Event>) {
    forall i :: 0 <= i < |es| ==> 1 <= es[i].reviewId <= |rs|
  }

  /** The database state: the five tables. */
  datatype Tables = Tables(reviews: seq<Review>, participants: seq<Participant>, threads: seq<Thread>,
                           comments: seq<Comment>, events: seq<Event>)

  ghost predicate Consistent(t: Tables) {
    && RowIds(t)
    && ReviewsOk(t.reviews)
    && ParticipantsOk(t.reviews, t.participants)
    && ThreadsOk(t.reviews, t.threads)
    && CommentsOk(t.threads, t.comments)
    && EventsOk(t.reviews, t.events)
  }

  /** Two enrolled participants that differ in review or in name hold
      different tokens. */
  lemma EnrolledTokensDiffer(rs: seq<Review>, p: Participant, q: Participant)
    requires ReviewsOk(rs) && Enrolled(rs, p) && Enrolled(rs, q) && TokenMatches(rs, p) && TokenMatches(rs, q)
    requires p.reviewId != q.reviewId || p.name != q.name
    ensures p.token != q.token
  {
    var a, b := p.reviewId - 1, q.reviewId - 1;
    PoolNameNoDash(p.name);
    PoolNameNoDash(q.name);
    if p.token == q.token {
      TokenInjective(p.name, rs[a].issue, rs[a].task, q.name, rs[b].issue, rs[b].task);
    }
  }

  /** The `UNIQUE` constraint on tokens is implied by the token format: a
      token names its participant's review and a name used once in it. */
  lemma TokensUnique(rs: seq<Review>, ps: seq<Participant>)
    requires ReviewsOk(rs) && ParticipantsOk(rs, ps)
    ensures forall i, j :: 0 <= i < j < |ps| ==> ps[i].token != ps[j].token
  {
    forall i, j | 0 <= i < j < |ps| ensures ps[i].token != ps[j].token {
      TokensMatchAt(rs, ps, |ps|, i);
      TokensMatchAt(rs, ps, |ps|, j);
      EnrolledTokensDiffer(rs, ps[i], ps[j]);
    }
  }

  /** The events of a review are in ascending id order in the log. */
  lemma EventsAscending(t: Tables)
    requires RowIds(t)
    ensures forall i, j :: 0 <= i < j < |t.events| ==> t.events[i].id < t.events[j].id
  {
  }
}
