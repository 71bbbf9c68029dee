/** The review commands as transitions of the table state. Each command runs
    inside one write transaction: it either raises, and the transaction
    rolls back so the tables are as they were, or it succeeds with what it
    prints and the tables after its inserts and updates. Row ids are handed
    out as the next row number, as `AUTOINCREMENT` does on tables that are
    never deleted from. */
module ReviewSteps {
  import opened Values
  import opened Text
  import opened ReviewRules
  import opened ReviewTables

  datatype Transition<+T> = Transition(result: Result<T>, after: Tables)

  /** A command that raises: the error, and the tables rolled back. */
  function Refuse<T>(e: ReviewError, t: Tables): (s: Transition<T>)
    ensures s.result.Failure? && s.result.error == e && s.after == t
  {
    Transition(Failure(e), t)
  }

  /** What `cmd_join` prints. */
  datatype JoinSummary = JoinSummary(token: string, threads: nat, reviewers: nat, reviewees: nat)

  /** What `cmd_close` prints. */
  datatype CloseSummary = CloseSummary(issue: int, task: int, threads: nat, comments: nat, reviewers: nat, reviewees: nat)

  // ---- reviews ----

  ghost predicate HasReview(rs: seq<Review>, issue: int, task: int) {
    exists j :: 0 <= j < |rs| && rs[j].issue == issue && rs[j].task == task
  }

  ghost predicate HasOpenReview(rs: seq<Review>, issue: int) {
    exists j :: 0 <= j < |rs| && rs[j].issue == issue && rs[j].status == ReviewOpen
  }

  /** The three outcomes of looking a review up for `ensure_review` and
      `cmd_create`: the open review found, a review to be inserted, or the
      error raised. */
  datatype Lookup = Existing(index: nat) | Created | Refused(error: ReviewError)

  function LookupReview(rs: seq<Review>, issue: int, task: int, allowCreate: bool): (l: Lookup)
    ensures l.Existing? ==>
      l.index < |rs| && rs[l.index].issue == issue && rs[l.index].task == task && rs[l.index].status == ReviewOpen
    ensures HasReview(rs, issue, task) <==> l.Existing? || l == Refused(ReviewAlreadyClosed)
    ensures l == Refused(ReviewAlreadyClosed) ==>
      exists j :: 0 <= j < |rs| && rs[j].issue == issue && rs[j].task == task && rs[j].status == ReviewClosed
    ensures l == Refused(ReviewMissing) <==> !HasReview(rs, issue, task) && !allowCreate
    ensures l.Refused? && l.error.ActiveReview? <==> !HasReview(rs, issue, task) && allowCreate && HasOpenReview(rs, issue)
    ensures l.Refused? && l.error.ActiveReview? ==>
      l.error.issue == issue &&
      exists j :: 0 <= j < |rs| && rs[j].issue == issue && rs[j].status == ReviewOpen && rs[j].task == l.error.task
    ensures l.Created? <==> !HasReview(rs, issue, task) && allowCreate && !HasOpenReview(rs, issue)
  {
    match FindReview(rs, issue, task)
    case Some(k) =>
      if rs[k].status == ReviewOpen then Existing(k)
      else assert rs[k].status == ReviewClosed; Refused(ReviewAlreadyClosed)
    case None =>
      if !allowCreate then Refused(ReviewMissing)
      else match FindOpenReview(rs, issue)
        case Some(j) => Refused(ActiveReview(issue, rs[j].task))
        case None => Created
  }

  /** The `INSERT INTO reviews` of a new open review. */
  function AddReview(t: Tables, issue: int, task: int): (u: Tables)
    ensures u.reviews == t.reviews + [Review(|t.reviews| + 1, issue, task, ReviewOpen)]
    ensures u.participants == t.participants && u.threads == t.threads
    ensures u.comments == t.comments && u.events == t.events
  {
    t.(reviews := t.reviews + [Review(|t.reviews| + 1, issue, task, ReviewOpen)])
  }

  /** `ensure_review`: the position of the open review of (issue, task),
      inserted first when it is missing and creation is allowed. */
  function EnsureReview(t: Tables, issue: int, task: int, allowCreate: bool): (s: Transition<nat>)
    ensures s.result.Failure? ==> s.after == t
    ensures s.result.Success? ==>
      var k := s.result.value;
      && k < |s.after.reviews|
      && s.after.reviews[k].issue == issue && s.after.reviews[k].task == task
      && s.after.reviews[k].status == ReviewOpen
    ensures s.after == t || s.after == AddReview(t, issue, task)
  {
    match LookupReview(t.reviews, issue, task, allowCreate)
    case Existing(k) => Transition(Success(k), t)
    case Refused(e) => Refuse(e, t)
    case Created => Transition(Success(|t.reviews|), AddReview(t, issue, task))
  }

  /** `cmd_create`: validate, then leave an open review alone, refuse a closed
      one or a second open review of the issue, and insert otherwise. */
  function CreateStep(t: Tables, issue: int, task: int): (s: Transition<()>)
    ensures s.result.Failure? ==> s.after == t
    ensures s.result.Success? <==>
      issue >= 0 && task >= 0 && (LookupReview(t.reviews, issue, task, true).Existing? || LookupReview(t.reviews, issue, task, true).Created?)
  {
    var v := ValidateNonNegative(issue, "issue");
    if v.Failure? then Refuse(v.error, t)
    else
      var w := ValidateNonNegative(task, "task");
      if w.Failure? then Refuse(w.error, t)
      else match LookupReview(t.reviews, issue, task, true)
        case Existing(_) => Transition(Success(()), t)
        case Refused(e) => Refuse(e, t)
        case Created => Transition(Success(()), AddReview(t, issue, task))
  }

  // ---- participants ----

  /** The participant row `cmd_join` inserts into review `k` of `t`. */
  function NewParticipant(t: Tables, k: nat, name: string, role: Role): (p: Participant)
    requires k < |t.reviews|
    ensures p.reviewId == t.reviews[k].id && p.name == name && p.role == role
    ensures p.token == Token(name, t.reviews[k].issue, t.reviews[k].task)
  {
    var r := t.reviews[k];
    Participant(|t.participants| + 1, r.id, Token(name, r.issue, r.task), name, role, MaxEventId(t.events, r.id))
  }

  /** `cmd_join`: find or create the review, then enroll a participant in
      it; when the name pool is exhausted, the review created on the way is
      rolled back with the rest of the transaction. */
  function JoinStep(t: Tables, issue: int, task: int, role: Role, create: bool): (s: Transition<JoinSummary>)
    ensures s.result.Failure? ==> s.after == t
    ensures s.result.Success? ==> |s.after.participants| == |t.participants| + 1
  {
    var v := ValidateNonNegative(issue, "issue");
    if v.Failure? then Refuse(v.error, t)
    else
      var w := ValidateNonNegative(task, "task");
      if w.Failure? then Refuse(w.error, t)
      else
        var e := EnsureReview(t, issue, task, create);
        if e.result.Failure? then Refuse(e.result.error, t)
        else
          var j := Enroll(e.after, e.result.value, role);
          if j.result.Failure? then Refuse(j.result.error, t) else j
  }

  /** Enrolling a participant in review `k`: the first pool name the review
      does not use yet, the token built from it, and an event cursor at the
      review's latest event; refused when all 16 names are taken. */
  function Enroll(u: Tables, k: nat, role: Role): (s: Transition<JoinSummary>)
    requires k < |u.reviews|
    ensures s.result.Failure? ==> s.after == u && s.result.error == NamePoolExhausted
    ensures s.result.Failure? <==> forall i :: 0 <= i < |NAME_POOL| ==> NAME_POOL[i] in UsedNames(u.participants, u.reviews[k].id)
    ensures s.result.Success? ==> |s.after.participants| == |u.participants| + 1
  {
    var rid := u.reviews[k].id;
    var n := FirstUnused(UsedNames(u.participants, rid));
    if n == |NAME_POOL| then Refuse(NamePoolExhausted, u)
    else
      var p := NewParticipant(u, k, NAME_POOL[n], role);
      var ps := u.participants + [p];
      Transition(
        Success(JoinSummary(p.token, CountThreads(u.threads, rid), CountRole(ps, rid, Reviewer), CountRole(ps, rid, Reviewee))),
        u.(participants := ps))
  }

  // ---- comments and threads ----

  /** The comment to insert, unless `thread` is negative: `parse_comment`
      with `required` set, then `validate_non_negative` of the thread. */
  function CommentText(parts: seq<string>, thread: Option<int>): (r: Result<string>)
    ensures r.Success? ==> thread.None? || thread.value >= 0
  {
    var c := ParseComment(parts, true);
    if c.Failure? then Failure(c.error)
    else if c.value.None? then Failure(CommentRequired)
    else if thread.Some? && ValidateNonNegative(thread.value, "thread").Failure? then Failure(NegativeValue("thread"))
    else Success(c.value.value)
  }

  /** Opening a thread in review `rid`: the thread numbered one past the
      review's largest, its first comment, and a `thread_created` event. */
  function StartThread(t: Tables, p: Participant, rid: nat, text: string, now: string): (s: Transition<nat>)
    ensures s.result.Failure? <==> p.role != Reviewer
    ensures s.result.Failure? ==> s.after == t && s.result.error == RevieweeCannotCreateThread
  {
    if p.role != Reviewer then Refuse(RevieweeCannotCreateThread, t)
    else
      var n := NextThreadNo(t.threads, rid);
      var th := Thread(|t.threads| + 1, rid, n, ThreadOpen, p.token);
      var cs := t.comments + [Comment(|t.comments| + 1, th.id, p.token, text, now)];
      var count := CountComments(cs, th.id);
      var ev := Event(|t.events| + 1, rid, ThreadCreatedEvent, Some(n), Some(p.token), Some(count), 0);
      Transition(Success(count), t.(threads := t.threads + [th], comments := cs, events := t.events + [ev]))
  }

  /** Replying in thread `number` of review `rid`: refused when there is no
      such thread or it is resolved; otherwise a comment and a `comment`
      event. */
  function Reply(t: Tables, p: Participant, rid: nat, number: int, text: string, now: string): (s: Transition<nat>)
    ensures s.result.Failure? ==> s.after == t
    ensures s.result == Failure(ThreadMissing) <==> FindThread(t.threads, rid, number).None?
    ensures FindThread(t.threads, rid, number).Some? && t.threads[FindThread(t.threads, rid, number).value].status == ThreadResolved ==>
      s.result == Failure(ThreadIsResolved)
    ensures s.result.Success? ==>
      var ti := FindThread(t.threads, rid, number).value;
      t.threads[ti].status == ThreadOpen && s.after.threads == t.threads
  {
    match FindThread(t.threads, rid, number)
    case None => Refuse(ThreadMissing, t)
    case Some(ti) =>
      var th := t.threads[ti];
      if th.status == ThreadResolved then Refuse(ThreadIsResolved, t)
      else
        var cs := t.comments + [Comment(|t.comments| + 1, th.id, p.token, text, now)];
        var count := CountComments(cs, th.id);
        var ev := Event(|t.events| + 1, rid, CommentEvent, Some(th.number), Some(p.token), Some(count), 0);
        Transition(Success(count), t.(comments := cs, events := t.events + [ev]))
  }

  /** `cmd_comment`: a new thread when no thread number is given, a reply
      otherwise, by a valid token of an open review. */
  function CommentStep(t: Tables, token: string, thread: Option<int>, parts: seq<string>, now: string): (s: Transition<nat>)
    ensures s.result.Failure? ==> s.after == t
    ensures s.result == Failure(InvalidToken) <==>
      CommentText(parts, thread).Success? && FindParticipant(t.participants, token).None?
    ensures s.result.Success? ==>
      && CommentText(parts, thread).Success?
      && FindParticipant(t.participants, token).Some?
      && (thread.None? ==> t.participants[FindParticipant(t.participants, token).value].role == Reviewer)
  {
    var c := CommentText(parts, thread);
    if c.Failure? then Refuse(c.error, t)
    else match FindParticipant(t.participants, token)
      case None => Refuse(InvalidToken, t)
      case Some(pi) =>
        var p := t.participants[pi];
        match FindReviewById(t.reviews, p.reviewId)
        case None => Refuse(ReviewIsClosed, t)
        case Some(ri) =>
          var r := t.reviews[ri];
          if r.status == ReviewClosed then Refuse(ReviewIsClosed, t)
          else if thread.None? then StartThread(t, p, r.id, c.value, now)
          else Reply(t, p, r.id, thread.value, c.value, now)
  }

  /** `cmd_resolve`: the thread's author marks an open thread resolved,
      optionally adding a closing comment, and a `thread_resolved` event
      records whether one was added. */
  function ResolveStep(t: Tables, token: string, thread: int, parts: seq<string>, now: string): (s: Transition<nat>)
    ensures thread < 0 ==> s == Refuse(NegativeValue("thread"), t)
    ensures thread >= 0 && FindParticipant(t.participants, token).None? ==> s == Refuse(InvalidToken, t)
  {
    var v := ValidateNonNegative(thread, "thread");
    if v.Failure? then Refuse(v.error, t)
    else
      // not required, so `parse_comment` cannot raise here
      var comment := ParseComment(parts, false).value;
      match FindParticipant(t.participants, token)
      case None => Refuse(InvalidToken, t)
      case Some(pi) => ResolveBy(t, t.participants[pi], thread, comment, now)
  }

  /** A refused `resolve` rolls back, and it is refused for a negative
      thread number exactly when the thread number is negative. */
  lemma ResolveRefusal(t: Tables, token: string, thread: int, parts: seq<string>, now: string)
    ensures var s := ResolveStep(t, token, thread, parts, now);
      && (s.result.Failure? ==> s.after == t)
      && (s.result == Failure(NegativeValue("thread")) <==> thread < 0)
  {
    var s := ResolveStep(t, token, thread, parts, now);
    if thread >= 0 {
      var comment := ParseComment(parts, false).value;
      match FindParticipant(t.participants, token)
      case None =>
      case Some(pi) =>
        assert s == ResolveBy(t, t.participants[pi], thread, comment, now);
    }
  }

  /** What a permitted `resolve` passed: a comment parse, the token's
      participant, its open review and the numbered thread, open and by
      this token; the writes are then `ResolveThread`'s. */
  lemma ResolveShape(t: Tables, token: string, thread: int, parts: seq<string>, now: string)
    requires ResolveStep(t, token, thread, parts, now).result.Success?
    ensures ParseComment(parts, false).Success?
    ensures FindParticipant(t.participants, token).Some?
    ensures var p := t.participants[FindParticipant(t.participants, token).value];
      && FindReviewById(t.reviews, p.reviewId).Some?
      && t.reviews[FindReviewById(t.reviews, p.reviewId).value].status == ReviewOpen
      && FindThread(t.threads, p.reviewId, thread).Some?
      && var ti := FindThread(t.threads, p.reviewId, thread).value;
         && t.threads[ti].status == ThreadOpen && t.threads[ti].author == token
         && ResolveStep(t, token, thread, parts, now) == ResolveThread(t, p, ti, ParseComment(parts, false).value, now)
  {
    var pi := FindParticipant(t.participants, token).value;
    var p := t.participants[pi];
    var ri := FindReviewById(t.reviews, p.reviewId).value;
    assert t.reviews[ri].id == p.reviewId;
  }

  /** The checks `cmd_resolve` makes of the review and the thread once the
      token has found participant `p`: the review is open, the thread
      exists, is open, and was opened by `p`. */
  function ResolveBy(t: Tables, p: Participant, thread: int, comment: Option<string>, now: string): (s: Transition<nat>)
    ensures s.result.Failure? ==> s.after == t && !s.result.error.NegativeValue?
  {
    match FindReviewById(t.reviews, p.reviewId)
    case None => Refuse(ReviewIsClosed, t)
    case Some(ri) =>
      var r := t.reviews[ri];
      if r.status == ReviewClosed then Refuse(ReviewIsClosed, t)
      else match FindThread(t.threads, r.id, thread)
        case None => Refuse(ThreadMissing, t)
        case Some(ti) =>
          var th := t.threads[ti];
          if th.status == ThreadResolved then Refuse(ThreadIsResolved, t)
          else if th.author != p.token then Refuse(CannotResolve, t)
          else ResolveThread(t, p, ti, comment, now)
  }

  /** The writes of a permitted resolution of thread `ti`: the optional
      closing comment, the status change, and the event. */
  function ResolveThread(t: Tables, p: Participant, ti: nat, comment: Option<string>, now: string): (s: Transition<nat>)
    requires ti < |t.threads|
    ensures s.result.Success?
  {
    var th := t.threads[ti];
    var cs := if comment.Some? then t.comments + [Comment(|t.comments| + 1, th.id, p.token, comment.value, now)]
              else t.comments;
    var count := CountComments(cs, th.id);
    var ev := Event(|t.events| + 1, th.reviewId, ThreadResolvedEvent, Some(th.number), Some(p.token), Some(count),
                    if comment.Some? then 1 else 0);
    Transition(Success(count),
      t.(threads := t.threads[ti := th.(status := ThreadResolved)], comments := cs, events := t.events + [ev]))
  }

  // ---- closing ----

  /** `cmd_close`: a reviewer closes an open review none of whose threads is
      open, logging a `review_closed` event. */
  function CloseStep(t: Tables, token: string): (s: Transition<CloseSummary>)
    ensures s.result.Failure? ==> s.after == t
    ensures s.result == Failure(InvalidToken) <==> FindParticipant(t.participants, token).None?
  {
    match FindParticipant(t.participants, token)
    case None => Refuse(InvalidToken, t)
    case Some(pi) =>
      var p := t.participants[pi];
      if p.role != Reviewer then Refuse(CannotClose, t)
      else match FindReviewById(t.reviews, p.reviewId)
        case None => Refuse(ReviewIsClosed, t)
        case Some(ri) =>
          if t.reviews[ri].status == ReviewClosed then Refuse(ReviewIsClosed, t)
          else if CountOpenThreads(t.threads, t.reviews[ri].id) > 0 then Refuse(ThreadsStillOpen, t)
          else CloseReview(t, p, ri)
  }

  /** The writes of a permitted close of review `ri`, and the summary
      printed after them. */
  function CloseReview(t: Tables, p: Participant, ri: nat): (s: Transition<CloseSummary>)
    requires ri < |t.reviews|
    ensures s.result.Success?
  {
    var r := t.reviews[ri];
    var ev := Event(|t.events| + 1, r.id, ReviewClosedEvent, None, Some(p.token), None, 0);
    var u := t.(reviews := t.reviews[ri := r.(status := ReviewClosed)], events := t.events + [ev]);
    Transition(
      Success(CloseSummary(r.issue, r.task, CountThreads(u.threads, r.id), CountReviewComments(u.comments, u.threads, r.id),
                           CountRole(u.participants, r.id, Reviewer), CountRole(u.participants, r.id, Reviewee))),
      u)
  }

  // ---- waiting ----

  /** One pass of the polling loop of `cmd_wait`: the review's events past
      the participant's cursor, the cursor moved to the last of them; when
      there are none, `review is closed` for a closed review and otherwise
      nothing (the loop sleeps and polls again). */
  function PollStep(t: Tables, token: string): (s: Transition<seq<Event>>)
    ensures s.result.Failure? ==> s.after == t
    ensures s.result.Success? && s.result.value == [] ==> s.after == t
  {
    match FindParticipant(t.participants, token)
    case None => Refuse(InvalidToken, t)
    case Some(pi) =>
      var p := t.participants[pi];
      var evs := NewEvents(t.events, p.reviewId, p.lastEventId);
      if evs != [] then
        Transition(Success(evs), t.(participants := t.participants[pi := p.(lastEventId := evs[|evs| - 1].id)]))
      else match FindReviewById(t.reviews, p.reviewId)
        case None => Refuse(ReviewIsClosed, t)
        case Some(ri) =>
          if t.reviews[ri].status == ReviewClosed then Refuse(ReviewIsClosed, t)
          else Transition(Success([]), t)
  }

  /** `cmd_wait` up to its first poll: the token and the review's status are
      checked once before the loop starts. */
  function WaitStep(t: Tables, token: string): (s: Transition<seq<Event>>)
    ensures s.result.Failure? ==> s.after == t
    ensures s.result == Failure(InvalidToken) <==> FindParticipant(t.participants, token).None?
  {
    match FindParticipant(t.participants, token)
    case None => Refuse(InvalidToken, t)
    case Some(pi) =>
      match FindReviewById(t.reviews, t.participants[pi].reviewId)
      case None => Refuse(ReviewIsClosed, t)
      case Some(ri) =>
        if t.reviews[ri].status == ReviewClosed then Refuse(ReviewIsClosed, t)
        else PollStep(t, token)
  }
}
