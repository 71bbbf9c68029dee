/** What the review commands promise their users: how reviews are created
    and refused, how names, tokens and cursors are handed out, how threads
    are numbered and counted, that closing is final, and that waiting
    delivers each event once and in order. */
module ReviewProperties {
  import opened Values
  import opened Text
  import opened ReviewRules
  import opened ReviewTables
  import opened ReviewSteps
  import opened ReviewInvariants

  // ---- creating reviews ----

  /** With unique (issue, task) pairs, looking a pair up finds the row that
      holds it. */
  lemma FindReviewAt(t: Tables, j: nat)
    requires Consistent(t) && j < |t.reviews|
    ensures FindReview(t.reviews, t.reviews[j].issue, t.reviews[j].task) == Some(j)
  {
    var r := FindReview(t.reviews, t.reviews[j].issue, t.reviews[j].task);
    assert r.Some?;
  }

  /** `create` on an open (issue, task) changes nothing and succeeds. */
  lemma CreateOpenIsNoop(t: Tables, j: nat)
    requires Consistent(t) && j < |t.reviews| && t.reviews[j].status == ReviewOpen
    ensures CreateStep(t, t.reviews[j].issue, t.reviews[j].task) == Transition(Success(()), t)
  {
    FindReviewAt(t, j);
  }

  /** `create` is idempotent: repeating a successful `create` is a no-op. */
  lemma CreateIdempotent(t: Tables, issue: int, task: int)
    requires Consistent(t)
    requires CreateStep(t, issue, task).result.Success?
    ensures var u := CreateStep(t, issue, task).after;
      CreateStep(u, issue, task) == Transition(Success(()), u)
  {
    var u := CreateStep(t, issue, task).after;
    CreatePreserves(t, issue, task);
    var l := LookupReview(t.reviews, issue, task, true);
    if l.Existing? {
      CreateOpenIsNoop(u, l.index);
    } else {
      assert u.reviews[|t.reviews|] == Review(|t.reviews| + 1, issue, task, ReviewOpen);
      CreateOpenIsNoop(u, |t.reviews|);
    }
  }

  /** A closed (issue, task) cannot be created or joined again. */
  lemma ClosedReviewNotReopened(t: Tables, j: nat, role: Role, create: bool)
    requires Consistent(t) && j < |t.reviews| && t.reviews[j].status == ReviewClosed
    ensures var r := t.reviews[j];
      && CreateStep(t, r.issue, r.task) == Refuse(ReviewAlreadyClosed, t)
      && JoinStep(t, r.issue, r.task, role, create) == Refuse(ReviewAlreadyClosed, t)
  {
    FindReviewAt(t, j);
  }

  /** While an issue has an open review for one task, a review for another
      task of the same issue is refused, naming the open task; without
      `--create`, joining a review that does not exist is refused. */
  lemma SecondTaskRefused(t: Tables, j: nat, task: int, role: Role)
    requires Consistent(t) && j < |t.reviews| && t.reviews[j].status == ReviewOpen
    requires task >= 0 && !HasReview(t.reviews, t.reviews[j].issue, task)
    ensures var issue := t.reviews[j].issue;
      && CreateStep(t, issue, task) == Refuse(ActiveReview(issue, t.reviews[j].task), t)
      && JoinStep(t, issue, task, role, true) == Refuse(ActiveReview(issue, t.reviews[j].task), t)
      && JoinStep(t, issue, task, role, false) == Refuse(ReviewMissing, t)
  {
    var issue := t.reviews[j].issue;
    var f := FindOpenReview(t.reviews, issue);
    assert f.Some?;
    assert f.value == j;
  }

  // ---- joining ----

  /** The events of a review past its latest event: none. */
  lemma NothingPastMaxEvent(es: seq<Event>, rid: nat)
    ensures NewEvents(es, rid, MaxEventId(es, rid)) == []
  {
    FilterNone(es, (e: Event) => e.reviewId == rid && e.id > MaxEventId(es, rid));
  }

  /** Enrolling in review `k` appends one participant: the first pool name
      not used in that review, the token `name-issue-task` of the review,
      the requested role, and a cursor at the review's latest event. The
      summary printed is that token and the counts after the insert, in
      which the requested role has one member more. */
  lemma EnrollRegisters(u: Tables, k: nat, role: Role)
    requires Consistent(u) && k < |u.reviews|
    requires Enroll(u, k, role).result.Success?
    ensures var s := Enroll(u, k, role);
      var p := s.after.participants[|u.participants|];
      && s.after.participants == u.participants + [p]
      && s.after.reviews == u.reviews && s.after.events == u.events
      && p.reviewId == k + 1
      && p.role == role
      && p.name == NAME_POOL[FirstUnused(UsedNames(u.participants, k + 1))]
      && p.token == Token(p.name, u.reviews[k].issue, u.reviews[k].task) == s.result.value.token
      && p.lastEventId == MaxEventId(u.events, k + 1)
      && s.result.value == JoinSummary(p.token, CountThreads(u.threads, k + 1),
           CountRole(s.after.participants, k + 1, Reviewer), CountRole(s.after.participants, k + 1, Reviewee))
      && CountRole(s.after.participants, k + 1, role) == CountRole(u.participants, k + 1, role) + 1
  {
    assert u.reviews[k].id == k + 1;
    var s := Enroll(u, k, role);
    var p := s.after.participants[|u.participants|];
    FilterAppend(u.participants, p, (x: Participant) => x.reviewId == k + 1 && x.role == role);
  }

  /** A successful `join` enrolls a participant in the open review of
      (issue, task), which it creates first when asked to and allowed. */
  lemma JoinRegisters(t: Tables, issue: int, task: int, role: Role, create: bool)
    requires JoinStep(t, issue, task, role, create).result.Success?
    ensures var e := EnsureReview(t, issue, task, create);
      && e.result.Success?
      && e.after.reviews[e.result.value].issue == issue && e.after.reviews[e.result.value].task == task
      && e.after.reviews[e.result.value].status == ReviewOpen
      && JoinStep(t, issue, task, role, create) == Enroll(e.after, e.result.value, role)
  {
    assert ValidateNonNegative(issue, "issue").Success? && ValidateNonNegative(task, "task").Success?;
    var e := EnsureReview(t, issue, task, create);
    assert e.result.Success?;
  }

  /** With the 16 pool names used in a review, `join` is refused and no
      review or participant is added. */
  lemma JoinPoolExhausted(t: Tables, j: nat, role: Role, create: bool)
    requires Consistent(t) && j < |t.reviews| && t.reviews[j].status == ReviewOpen
    requires forall k :: 0 <= k < |NAME_POOL| ==> NAME_POOL[k] in UsedNames(t.participants, j + 1)
    ensures JoinStep(t, t.reviews[j].issue, t.reviews[j].task, role, create) == Refuse(NamePoolExhausted, t)
  {
    FindReviewAt(t, j);
  }

  /** A participant of an open review whose cursor is at the review's
      latest event polls nothing. */
  lemma PollAtEnd(t: Tables, pi: nat)
    requires Consistent(t) && pi < |t.participants|
    requires t.participants[pi].lastEventId == MaxEventId(t.events, t.participants[pi].reviewId)
    requires t.reviews[t.participants[pi].reviewId - 1].status == ReviewOpen
    ensures PollStep(t, t.participants[pi].token) == Transition(Success([]), t)
  {
    var p := t.participants[pi];
    ParticipantReview(t, pi);
    NothingPastMaxEvent(t.events, p.reviewId);
    PollShape(t, pi, p.reviewId - 1);
  }

  /** Right after enrolling, the new participant has nothing to read. */
  lemma EnrollCursorAtEnd(u: Tables, k: nat, role: Role)
    requires Consistent(u) && k < |u.reviews| && u.reviews[k].status == ReviewOpen
    requires Enroll(u, k, role).result.Success?
    ensures var s := Enroll(u, k, role);
      PollStep(s.after, s.result.value.token) == Transition(Success([]), s.after)
  {
    EnrollRegisters(u, k, role);
    EnrollPreserves(u, k, role);
    PollAtEnd(Enroll(u, k, role).after, |u.participants|);
  }

  /** Right after `join`, the new participant has nothing to read: one poll
      finds the participant by its token and returns no events. */
  lemma JoinCursorAtEnd(t: Tables, issue: int, task: int, role: Role, create: bool)
    requires Consistent(t)
    requires JoinStep(t, issue, task, role, create).result.Success?
    ensures var s := JoinStep(t, issue, task, role, create);
      PollStep(s.after, s.result.value.token) == Transition(Success([]), s.after)
  {
    var e := EnsureReview(t, issue, task, create);
    EnsurePreserves(t, issue, task, create);
    EnrollCursorAtEnd(e.after, e.result.value, role);
  }

  // ---- threads and comments ----

  /** Opening a thread by a reviewer: the thread numbered `NextThreadNo`,
      exactly one comment in it, and a `thread_created` event with count 1. */
  lemma StartThreadFacts(t: Tables, p: Participant, rid: nat, text: string, now: string)
    requires Consistent(t) && p.role == Reviewer
    ensures var s := StartThread(t, p, rid, text, now);
      var n := NextThreadNo(t.threads, rid);
      var th := Thread(|t.threads| + 1, rid, n, ThreadOpen, p.token);
      && s.result == Success(1)
      && s.after.threads == t.threads + [th]
      && s.after.comments == t.comments + [Comment(|t.comments| + 1, th.id, p.token, text, now)]
      && s.after.events == t.events + [Event(|t.events| + 1, rid, ThreadCreatedEvent, Some(n), Some(p.token), Some(1), 0)]
      && s.after.reviews == t.reviews && s.after.participants == t.participants
  {
    var id := |t.threads| + 1;
    var c := Comment(|t.comments| + 1, id, p.token, text, now);
    CountCommentsNone(t.comments, id);
    CountCommentsAppend(t.comments, c, id);
  }

  /** `comment` without a thread number: only a reviewer opens a thread; it
      is numbered one past the review's largest (0 for the first), starts
      with the one comment, and logs `thread_created` with count 1. */
  lemma NewThread(t: Tables, token: string, parts: seq<string>, now: string)
    requires Consistent(t)
    requires CommentStep(t, token, None, parts, now).result.Success?
    ensures var s := CommentStep(t, token, None, parts, now);
      var p := t.participants[FindParticipant(t.participants, token).value];
      var n := NextThreadNo(t.threads, p.reviewId);
      var th := Thread(|t.threads| + 1, p.reviewId, n, ThreadOpen, token);
      && p.role == Reviewer
      && s.result == Success(1)
      && s.after.threads == t.threads + [th]
      && s.after.comments == t.comments + [Comment(|t.comments| + 1, th.id, token, CommentText(parts, None).value, now)]
      && s.after.events == t.events + [Event(|t.events| + 1, p.reviewId, ThreadCreatedEvent, Some(n), Some(token), Some(1), 0)]
  {
    var pi := FindParticipant(t.participants, token).value;
    var p := t.participants[pi];
    ParticipantReview(t, pi);
    assert CommentStep(t, token, None, parts, now) == StartThread(t, p, p.reviewId, CommentText(parts, None).value, now);
    StartThreadFacts(t, p, p.reviewId, CommentText(parts, None).value, now);
  }

  /** A reply goes into an open thread of the token's review: one comment
      more, reported in the count and in a `comment` event. */
  lemma NewReply(t: Tables, token: string, number: int, parts: seq<string>, now: string)
    requires Consistent(t)
    requires CommentStep(t, token, Some(number), parts, now).result.Success?
    ensures var s := CommentStep(t, token, Some(number), parts, now);
      var p := t.participants[FindParticipant(t.participants, token).value];
      FindThread(t.threads, p.reviewId, number).Some? &&
      var th := t.threads[FindThread(t.threads, p.reviewId, number).value];
      var count := CountComments(t.comments, th.id) + 1;
      && th.status == ThreadOpen
      && s.result == Success(count)
      && s.after.threads == t.threads
      && s.after.comments == t.comments + [Comment(|t.comments| + 1, th.id, token, CommentText(parts, Some(number)).value, now)]
      && s.after.events == t.events + [Event(|t.events| + 1, p.reviewId, CommentEvent, Some(number), Some(token), Some(count), 0)]
  {
    var pi := FindParticipant(t.participants, token).value;
    var p := t.participants[pi];
    ParticipantReview(t, pi);
    var text := CommentText(parts, Some(number)).value;
    assert CommentStep(t, token, Some(number), parts, now) == Reply(t, p, p.reviewId, number, text, now);
    var th := t.threads[FindThread(t.threads, p.reviewId, number).value];
    CountCommentsAppend(t.comments, Comment(|t.comments| + 1, th.id, p.token, text, now), th.id);
  }

  // ---- resolving ----

  /** A resolution is by the thread's author, of an open thread; the thread
      becomes resolved, the reported count includes the closing comment if
      there is one, and the event's `with_comment` is 1 exactly when a
      non-blank comment was given. */
  lemma Resolved(t: Tables, token: string, thread: int, parts: seq<string>, now: string)
    requires ResolveStep(t, token, thread, parts, now).result.Success?
    ensures FindParticipant(t.participants, token).Some?
    ensures var s := ResolveStep(t, token, thread, parts, now);
      var p := t.participants[FindParticipant(t.participants, token).value];
      FindThread(t.threads, p.reviewId, thread).Some? &&
      var ti := FindThread(t.threads, p.reviewId, thread).value;
      var th := t.threads[ti];
      var given := !forall k :: 0 <= k < |parts| ==> AllSpace(parts[k]);
      var count := CountComments(t.comments, th.id) + (if given then 1 else 0);
      && th.author == token && th.status == ThreadOpen
      && s.after.threads == t.threads[ti := th.(status := ThreadResolved)]
      && s.result == Success(count)
      && s.after.events == t.events + [Event(|t.events| + 1, p.reviewId, ThreadResolvedEvent, Some(thread), Some(token),
                                             Some(count), if given then 1 else 0)]
  {
    ResolveShape(t, token, thread, parts, now);
    var p := t.participants[FindParticipant(t.participants, token).value];
    var ti := FindThread(t.threads, p.reviewId, thread).value;
    var th := t.threads[ti];
    var c := ParseComment(parts, false).value;
    if c.Some? {
      CountCommentsAppend(t.comments, Comment(|t.comments| + 1, th.id, p.token, c.value, now), th.id);
    }
  }

  // ---- closing ----

  /** What a permitted `close` passed: the token's participant is a
      reviewer, its review is open and has no open thread; the writes are
      then `CloseReview`'s. */
  lemma CloseShape(t: Tables, token: string)
    requires CloseStep(t, token).result.Success?
    ensures FindParticipant(t.participants, token).Some?
    ensures var p := t.participants[FindParticipant(t.participants, token).value];
      && p.role == Reviewer
      && FindReviewById(t.reviews, p.reviewId).Some?
      && var ri := FindReviewById(t.reviews, p.reviewId).value;
         && t.reviews[ri].status == ReviewOpen
         && CountOpenThreads(t.threads, p.reviewId) == 0
         && CloseStep(t, token) == CloseReview(t, p, ri)
  {
    var p := t.participants[FindParticipant(t.participants, token).value];
    var ri := FindReviewById(t.reviews, p.reviewId).value;
    assert t.reviews[ri].id == p.reviewId;
  }

  /** A close is by a reviewer, of an open review none of whose threads is
      open; exactly that review becomes closed, a `review_closed` event
      is logged, and the summary gives the review's issue, task and counts. */
  lemma Closed(t: Tables, token: string)
    requires RowIds(t)
    requires CloseStep(t, token).result.Success?
    ensures FindParticipant(t.participants, token).Some?
    ensures var s := CloseStep(t, token);
      var p := t.participants[FindParticipant(t.participants, token).value];
      var ri := p.reviewId - 1;
      && 0 <= ri < |t.reviews|
      && p.role == Reviewer
      && t.reviews[ri].status == ReviewOpen
      && (forall i :: 0 <= i < |t.threads| && t.threads[i].reviewId == p.reviewId ==> t.threads[i].status == ThreadResolved)
      && s.after.reviews == t.reviews[ri := t.reviews[ri].(status := ReviewClosed)]
      && s.after.events == t.events + [Event(|t.events| + 1, p.reviewId, ReviewClosedEvent, None, Some(token), None, 0)]
      && s.after.participants == t.participants && s.after.threads == t.threads && s.after.comments == t.comments
      && s.result.value == CloseSummary(t.reviews[ri].issue, t.reviews[ri].task,
           CountThreads(t.threads, p.reviewId), CountReviewComments(t.comments, t.threads, p.reviewId),
           CountRole(t.participants, p.reviewId, Reviewer), CountRole(t.participants, p.reviewId, Reviewee))
  {
    CloseShape(t, token);
    var p := t.participants[FindParticipant(t.participants, token).value];
    ReviewAtId(t, p.reviewId);
  }

  /** With the review of participant `pi` closed, every command carrying
      that participant's token is refused. */
  lemma ClosedRefusesToken(t: Tables, pi: nat, ri: nat, thread: Option<int>, number: int, parts: seq<string>, now: string)
    requires pi < |t.participants| && FindParticipant(t.participants, t.participants[pi].token) == Some(pi)
    requires FindReviewById(t.reviews, t.participants[pi].reviewId) == Some(ri)
    requires t.reviews[ri].status == ReviewClosed
    ensures var token := t.participants[pi].token;
      && CommentStep(t, token, thread, parts, now).result.Failure?
      && ResolveStep(t, token, number, parts, now).result.Failure?
      && CloseStep(t, token).result.Failure?
      && WaitStep(t, token) == Refuse(ReviewIsClosed, t)
  {
  }

  /** Once its review is closed, every command with a participant's token
      is refused. */
  lemma ClosedReviewRefuses(t: Tables, pi: nat, thread: Option<int>, number: int, parts: seq<string>, now: string)
    requires Consistent(t) && pi < |t.participants|
    requires t.reviews[t.participants[pi].reviewId - 1].status == ReviewClosed
    ensures var token := t.participants[pi].token;
      && CommentStep(t, token, thread, parts, now).result.Failure?
      && ResolveStep(t, token, number, parts, now).result.Failure?
      && CloseStep(t, token).result.Failure?
      && WaitStep(t, token) == Refuse(ReviewIsClosed, t)
  {
    ParticipantReview(t, pi);
    ClosedRefusesToken(t, pi, t.participants[pi].reviewId - 1, thread, number, parts, now);
  }

  /** Closing is final: right after a successful close, closing again and
      waiting are refused. */
  lemma CloseIsFinal(t: Tables, token: string)
    requires Consistent(t)
    requires CloseStep(t, token).result.Success?
    ensures var u := CloseStep(t, token).after;
      && CloseStep(u, token) == Refuse(ReviewIsClosed, u)
      && WaitStep(u, token) == Refuse(ReviewIsClosed, u)
  {
    Closed(t, token);
    ClosePreserves(t, token);
    var u := CloseStep(t, token).after;
    var pi := FindParticipant(t.participants, token).value;
    ReviewAtId(u, u.participants[pi].reviewId);
  }

  // ---- waiting ----

  /** The events of review `rid` past `last` come in increasing id order. */
  lemma NewEventsAscending(t: Tables, rid: nat, last: nat)
    requires RowIds(t)
    ensures var evs := NewEvents(t.events, rid, last);
      forall i, j :: 0 <= i < j < |evs| ==> evs[i].id < evs[j].id
  {
    var key := (e: Event) => e.id;
    EventsAscending(t);
    assert Ascending(t.events, key);
    FilterAscending(t.events, (e: Event) => e.reviewId == rid && e.id > last, key);
    assert Ascending(NewEvents(t.events, rid, last), key);
  }

  /** No event of the review lies past the last of the ones delivered. */
  lemma NothingPastDelivered(es: seq<Event>, rid: nat, last: nat)
    requires NewEvents(es, rid, last) != []
    requires var evs := NewEvents(es, rid, last);
      forall i, j :: 0 <= i < j < |evs| ==> evs[i].id < evs[j].id
    ensures var evs := NewEvents(es, rid, last);
      NewEvents(es, rid, evs[|evs| - 1].id) == []
  {
    var evs := NewEvents(es, rid, last);
    var l := evs[|evs| - 1].id;
    assert evs[|evs| - 1] in evs;
    forall i | 0 <= i < |es|
      ensures !(es[i].reviewId == rid && es[i].id > l)
    {
      if es[i].reviewId == rid && es[i].id > last {
        assert es[i] in evs;
        var k :| 0 <= k < |evs| && evs[k] == es[i];
        assert k == |evs| - 1 || evs[k].id < l;
      }
    }
    FilterNone(es, (e: Event) => e.reviewId == rid && e.id > l);
  }

  /** The branches of one poll for participant `pi`, whose token finds it
      and whose review row is `ri`. */
  lemma PollShape(t: Tables, pi: nat, ri: nat)
    requires pi < |t.participants| && FindParticipant(t.participants, t.participants[pi].token) == Some(pi)
    requires FindReviewById(t.reviews, t.participants[pi].reviewId) == Some(ri)
    ensures var p := t.participants[pi];
      var s := PollStep(t, p.token);
      var evs := NewEvents(t.events, p.reviewId, p.lastEventId);
      && (evs != [] ==>
            && s.result == Success(evs)
            && s.after == t.(participants := t.participants[pi := p.(lastEventId := evs[|evs| - 1].id)]))
      && (evs == [] ==>
            && s.after == t
            && s.result == if t.reviews[ri].status == ReviewOpen then Success([]) else Failure(ReviewIsClosed))
  {
  }

  /** One poll with a valid token delivers every event of the token's
      review past its cursor, in id order, and moves the cursor to the last
      of them; with no such event it changes nothing and reports
      `review is closed` exactly when the review is closed. */
  lemma PollDelivers(t: Tables, pi: nat)
    requires Consistent(t) && pi < |t.participants|
    ensures var p := t.participants[pi];
      var s := PollStep(t, p.token);
      var evs := NewEvents(t.events, p.reviewId, p.lastEventId);
      && (forall i, j :: 0 <= i < j < |evs| ==> evs[i].id < evs[j].id)
      && (evs != [] ==>
            && s.result == Success(evs)
            && s.after == t.(participants := t.participants[pi := p.(lastEventId := evs[|evs| - 1].id)]))
      && (evs == [] ==>
            && s.after == t
            && s.result == if t.reviews[p.reviewId - 1].status == ReviewOpen then Success([]) else Failure(ReviewIsClosed))
  {
    var p := t.participants[pi];
    ParticipantReview(t, pi);
    NewEventsAscending(t, p.reviewId, p.lastEventId);
    PollShape(t, pi, p.reviewId - 1);
  }

  /** After a poll delivered events and moved the cursor past them, the
      next poll has nothing to deliver. */
  lemma DrainedShape(t: Tables, pi: nat, ri: nat)
    requires pi < |t.participants| && FindParticipant(t.participants, t.participants[pi].token) == Some(pi)
    requires FindReviewById(t.reviews, t.participants[pi].reviewId) == Some(ri)
    requires var p := t.participants[pi];
      var evs := NewEvents(t.events, p.reviewId, p.lastEventId);
      evs != [] && forall i, j :: 0 <= i < j < |evs| ==> evs[i].id < evs[j].id
    ensures var p := t.participants[pi];
      var evs := NewEvents(t.events, p.reviewId, p.lastEventId);
      var u := t.(participants := t.participants[pi := p.(lastEventId := evs[|evs| - 1].id)]);
      PollStep(u, p.token).result == Success([]) || PollStep(u, p.token).result == Failure(ReviewIsClosed)
  {
    var p := t.participants[pi];
    var evs := NewEvents(t.events, p.reviewId, p.lastEventId);
    var u := t.(participants := t.participants[pi := p.(lastEventId := evs[|evs| - 1].id)]);
    NothingPastDelivered(t.events, p.reviewId, p.lastEventId);
    FindParticipantAfterCursor(t.participants, pi, evs[|evs| - 1].id);
    PollShape(u, pi, ri);
  }

  /** A poll that delivered something leaves nothing to deliver: the next
      poll with the same token returns no events (or `review is closed`). */
  lemma PollDrains(t: Tables, pi: nat)
    requires Consistent(t) && pi < |t.participants|
    requires PollStep(t, t.participants[pi].token).result.Success?
    ensures var token := t.participants[pi].token;
      var u := PollStep(t, token).after;
      PollStep(u, token).result == Success([]) || PollStep(u, token).result == Failure(ReviewIsClosed)
  {
    var p := t.participants[pi];
    var evs := NewEvents(t.events, p.reviewId, p.lastEventId);
    PollDelivers(t, pi);
    if evs != [] {
      ParticipantReview(t, pi);
      DrainedShape(t, pi, p.reviewId - 1);
    }
  }
}
