/** The review database as an object: the five tables are fields that the
    commands update in place inside one write transaction each. Every
    command is proved to leave the tables exactly as the corresponding
    transition of `ReviewSteps` says, to return what it returns, and to keep
    the integrity constraints of `ReviewTables.Consistent`. */
module ReviewDatabase {
  import opened Values
  import opened ReviewRules
  import opened ReviewTables
  import opened ReviewSteps
  import opened ReviewInvariants

  class Database {
    var reviews: seq<Review>
    var participants: seq<Participant>
    var threads: seq<Thread>
    var comments: seq<Comment>
    var events: seq<Event>

    /** The tables as a value. */
    function Snapshot(): (t: Tables)
      reads this
      ensures t.reviews == reviews && t.participants == participants && t.threads == threads
      ensures t.comments == comments && t.events == events
    {
      Tables(reviews, participants, threads, comments, events)
    }

    ghost predicate Valid()
      reads this
    {
      Consistent(Snapshot())
    }

    /** `init_db` on a fresh database file: five empty tables. */
    constructor ()
      ensures Valid()
      ensures Snapshot() == Tables([], [], [], [], [])
    {
      reviews, participants, threads, comments, events := [], [], [], [], [];
    }

    /** The rollback of `write_transaction`: the tables as they were when
        the transaction began. */
    method Rollback(saved: Tables)
      modifies this
      ensures Snapshot() == saved
    {
      reviews, participants, threads, comments, events :=
        saved.reviews, saved.participants, saved.threads, saved.comments, saved.events;
    }

    /** `ensure_review`: the position of the open review of (issue, task),
        inserting it first when it is missing and creation is allowed. */
    method EnsureOpenReview(issue: int, task: int, allowCreate: bool) returns (r: Result<nat>)
      modifies this
      ensures r == EnsureReview(old(Snapshot()), issue, task, allowCreate).result
      ensures Snapshot() == EnsureReview(old(Snapshot()), issue, task, allowCreate).after
    {
      var k := FindReview(reviews, issue, task);
      if k.Some? {
        if reviews[k.value].status == ReviewClosed {
          return Failure(ReviewAlreadyClosed);
        }
        return Success(k.value);
      }
      if !allowCreate {
        return Failure(ReviewMissing);
      }
      var j := FindOpenReview(reviews, issue);
      if j.Some? {
        return Failure(ActiveReview(issue, reviews[j.value].task));
      }
      reviews := reviews + [Review(|reviews| + 1, issue, task, ReviewOpen)];
      return Success(|reviews| - 1);
    }

    /** `cmd_create`. */
    method Create(issue: int, task: int) returns (r: Result<()>)
      requires Valid()
      modifies this
      ensures Valid()
      ensures r == CreateStep(old(Snapshot()), issue, task).result
      ensures Snapshot() == CreateStep(old(Snapshot()), issue, task).after
    {
      ghost var t := Snapshot();
      r := CreateRows(issue, task);
      CreatePreserves(t, issue, task);
    }

    /** The statements of `cmd_create`. */
    method CreateRows(issue: int, task: int) returns (r: Result<()>)
      modifies this
      ensures r == CreateStep(old(Snapshot()), issue, task).result
      ensures Snapshot() == CreateStep(old(Snapshot()), issue, task).after
    {
      var v := ValidateNonNegative(issue, "issue");
      if v.Failure? {
        return Failure(v.error);
      }
      v := ValidateNonNegative(task, "task");
      if v.Failure? {
        return Failure(v.error);
      }
      var k := FindReview(reviews, issue, task);
      if k.Some? {
        if reviews[k.value].status == ReviewClosed {
          return Failure(ReviewAlreadyClosed);
        }
      } else {
        var j := FindOpenReview(reviews, issue);
        if j.Some? {
          return Failure(ActiveReview(issue, reviews[j.value].task));
        }
        reviews := reviews + [Review(|reviews| + 1, issue, task, ReviewOpen)];
      }
      return Success(());
    }

    /** `cmd_join`: the review is found or created, then a participant is
        inserted under the first free pool name; an exhausted pool rolls the
        whole transaction back, the review insert included. */
    method Join(issue: int, task: int, role: Role, create: bool) returns (r: Result<JoinSummary>)
      requires Valid()
      modifies this
      ensures Valid()
      ensures r == JoinStep(old(Snapshot()), issue, task, role, create).result
      ensures Snapshot() == JoinStep(old(Snapshot()), issue, task, role, create).after
    {
      ghost var t := Snapshot();
      var v := ValidateNonNegative(issue, "issue");
      if v.Failure? {
        return Failure(v.error);
      }
      v := ValidateNonNegative(task, "task");
      if v.Failure? {
        return Failure(v.error);
      }
      var saved := Snapshot();
      var e := EnsureOpenReview(issue, task, create);
      if e.Failure? {
        return Failure(e.error);
      }
      r := EnrollRows(e.value, role);
      if r.Failure? {
        Rollback(saved);
      }
      JoinPreserves(t, issue, task, role, create);
    }

    /** The participant insert of `cmd_join` into review row `k`: the first
        pool name the review does not use, or `NamePoolExhausted`. */
    method EnrollRows(k: nat, role: Role) returns (r: Result<JoinSummary>)
      requires k < |reviews|
      modifies this
      ensures r == Enroll(old(Snapshot()), k, role).result
      ensures Snapshot() == Enroll(old(Snapshot()), k, role).after
    {
      ghost var u := Snapshot();
      var review := reviews[k];
      ghost var n := FirstUnused(UsedNames(participants, review.id));
      var name := SelectAvailableName(UsedNames(participants, review.id));
      if name.None? {
        assert n == |NAME_POOL|;
        return Failure(NamePoolExhausted);
      }
      assert n < |NAME_POOL| && name.value == NAME_POOL[n];
      var token := Token(name.value, review.issue, review.task);
      var maxEvent := MaxEventId(events, review.id);
      participants := participants + [Participant(|participants| + 1, review.id, token, name.value, role, maxEvent)];
      assert participants == u.participants + [NewParticipant(u, k, name.value, role)];
      return Success(JoinSummary(token, CountThreads(threads, review.id),
        CountRole(participants, review.id, Reviewer), CountRole(participants, review.id, Reviewee)));
    }

    /** The inserts of a new thread in review `rid`, by participant `p`. */
    method StartThreadRows(p: Participant, rid: nat, text: string, now: string) returns (r: Result<nat>)
      modifies this
      ensures r == StartThread(old(Snapshot()), p, rid, text, now).result
      ensures Snapshot() == StartThread(old(Snapshot()), p, rid, text, now).after
    {
      if p.role != Reviewer {
        return Failure(RevieweeCannotCreateThread);
      }
      var n := NextThreadNo(threads, rid);
      threads := threads + [Thread(|threads| + 1, rid, n, ThreadOpen, p.token)];
      var threadId := |threads|;
      comments := comments + [Comment(|comments| + 1, threadId, p.token, text, now)];
      var count := CountComments(comments, threadId);
      events := events + [Event(|events| + 1, rid, ThreadCreatedEvent, Some(n), Some(p.token), Some(count), 0)];
      return Success(count);
    }

    /** The inserts of a reply in thread `number` of review `rid`. */
    method ReplyRows(p: Participant, rid: nat, number: int, text: string, now: string) returns (r: Result<nat>)
      modifies this
      ensures r == Reply(old(Snapshot()), p, rid, number, text, now).result
      ensures Snapshot() == Reply(old(Snapshot()), p, rid, number, text, now).after
    {
      var h := FindThread(threads, rid, number);
      if h.None? {
        return Failure(ThreadMissing);
      }
      var th := threads[h.value];
      if th.status == ThreadResolved {
        return Failure(ThreadIsResolved);
      }
      comments := comments + [Comment(|comments| + 1, th.id, p.token, text, now)];
      var count := CountComments(comments, th.id);
      events := events + [Event(|events| + 1, rid, CommentEvent, Some(th.number), Some(p.token), Some(count), 0)];
      return Success(count);
    }

    /** The writes of a permitted resolution of thread row `ti`. */
    method ResolveThreadRows(p: Participant, ti: nat, comment: Option<string>, now: string) returns (r: Result<nat>)
      requires ti < |threads|
      modifies this
      ensures r == ResolveThread(old(Snapshot()), p, ti, comment, now).result
      ensures Snapshot() == ResolveThread(old(Snapshot()), p, ti, comment, now).after
    {
      var th := threads[ti];
      if comment.Some? {
        comments := comments + [Comment(|comments| + 1, th.id, p.token, comment.value, now)];
      }
      var count := CountComments(comments, th.id);
      threads := threads[ti := th.(status := ThreadResolved)];
      events := events + [Event(|events| + 1, th.reviewId, ThreadResolvedEvent, Some(th.number), Some(p.token), Some(count),
                                if comment.Some? then 1 else 0)];
      return Success(count);
    }

    /** The writes of a permitted close of review row `ri`, and the summary
        counted after them. */
    method CloseReviewRows(p: Participant, ri: nat) returns (r: Result<CloseSummary>)
      requires ri < |reviews|
      modifies this
      ensures r == CloseReview(old(Snapshot()), p, ri).result
      ensures Snapshot() == CloseReview(old(Snapshot()), p, ri).after
    {
      var review := reviews[ri];
      reviews := reviews[ri := review.(status := ReviewClosed)];
      events := events + [Event(|events| + 1, review.id, ReviewClosedEvent, None, Some(p.token), None, 0)];
      return Success(CloseSummary(review.issue, review.task, CountThreads(threads, review.id),
        CountReviewComments(comments, threads, review.id),
        CountRole(participants, review.id, Reviewer), CountRole(participants, review.id, Reviewee)));
    }

    /** `cmd_comment`: a new thread when no thread number is given, a reply
        otherwise. */
    method AddComment(token: string, thread: Option<int>, parts: seq<string>, now: string) returns (r: Result<nat>)
      requires Valid()
      modifies this
      ensures Valid()
      ensures r == CommentStep(old(Snapshot()), token, thread, parts, now).result
      ensures Snapshot() == CommentStep(old(Snapshot()), token, thread, parts, now).after
    {
      ghost var t := Snapshot();
      var c := ParseComment(parts, true);
      if c.Failure? {
        return Failure(c.error);
      }
      if c.value.None? {
        return Failure(CommentRequired);
      }
      var text := c.value.value;
      if thread.Some? {
        var v := ValidateNonNegative(thread.value, "thread");
        if v.Failure? {
          return Failure(v.error);
        }
      }
      var f := FindParticipant(participants, token);
      if f.None? {
        return Failure(InvalidToken);
      }
      var p := participants[f.value];
      var g := FindReviewById(reviews, p.reviewId);
      if g.None? || reviews[g.value].status == ReviewClosed {
        return Failure(ReviewIsClosed);
      }
      var rid := reviews[g.value].id;
      if thread.None? {
        r := StartThreadRows(p, rid, text, now);
      } else {
        r := ReplyRows(p, rid, thread.value, text, now);
      }
      CommentPreserves(t, token, thread, parts, now);
    }

    /** `cmd_resolve`: the author of an open thread marks it resolved,
        adding the closing comment first when one is given. */
    method Resolve(token: string, thread: int, parts: seq<string>, now: string) returns (r: Result<nat>)
      requires Valid()
      modifies this
      ensures Valid()
      ensures r == ResolveStep(old(Snapshot()), token, thread, parts, now).result
      ensures Snapshot() == ResolveStep(old(Snapshot()), token, thread, parts, now).after
    {
      ghost var t := Snapshot();
      var v := ValidateNonNegative(thread, "thread");
      if v.Failure? {
        return Failure(v.error);
      }
      // not required, so `parse_comment` cannot raise here
      var comment := ParseComment(parts, false).value;
      var f := FindParticipant(participants, token);
      if f.None? {
        return Failure(InvalidToken);
      }
      var p := participants[f.value];
      var g := FindReviewById(reviews, p.reviewId);
      if g.None? || reviews[g.value].status == ReviewClosed {
        return Failure(ReviewIsClosed);
      }
      var h := FindThread(threads, reviews[g.value].id, thread);
      if h.None? {
        return Failure(ThreadMissing);
      }
      var th := threads[h.value];
      if th.status == ThreadResolved {
        return Failure(ThreadIsResolved);
      }
      if th.author != p.token {
        return Failure(CannotResolve);
      }
      r := ResolveThreadRows(p, h.value, comment, now);
      ResolvePreserves(t, token, thread, parts, now);
    }

    /** `cmd_close`: a reviewer closes an open review with no open thread,
        and the summary is counted after the close. */
    method Close(token: string) returns (r: Result<CloseSummary>)
      requires Valid()
      modifies this
      ensures Valid()
      ensures r == CloseStep(old(Snapshot()), token).result
      ensures Snapshot() == CloseStep(old(Snapshot()), token).after
    {
      ghost var t := Snapshot();
      var f := FindParticipant(participants, token);
      if f.None? {
        return Failure(InvalidToken);
      }
      var p := participants[f.value];
      if p.role != Reviewer {
        return Failure(CannotClose);
      }
      var g := FindReviewById(reviews, p.reviewId);
      if g.None? || reviews[g.value].status == ReviewClosed {
        return Failure(ReviewIsClosed);
      }
      var review := reviews[g.value];
      if CountOpenThreads(threads, review.id) > 0 {
        return Failure(ThreadsStillOpen);
      }
      r := CloseReviewRows(p, g.value);
      ClosePreserves(t, token);
    }

    /** One pass of the loop of `cmd_wait`: the events past the cursor, the
        cursor moved past them. */
    method Poll(token: string) returns (r: Result<seq<Event>>)
      requires Valid()
      modifies this
      ensures Valid()
      ensures r == PollStep(old(Snapshot()), token).result
      ensures Snapshot() == PollStep(old(Snapshot()), token).after
    {
      ghost var t := Snapshot();
      r := PollRows(token);
      PollPreserves(t, token);
    }

    /** The reads and the cursor update of one pass. */
    method PollRows(token: string) returns (r: Result<seq<Event>>)
      modifies this
      ensures r == PollStep(old(Snapshot()), token).result
      ensures Snapshot() == PollStep(old(Snapshot()), token).after
    {
      var f := FindParticipant(participants, token);
      if f.None? {
        return Failure(InvalidToken);
      }
      var p := participants[f.value];
      var evs := NewEvents(events, p.reviewId, p.lastEventId);
      if evs != [] {
        participants := participants[f.value := p.(lastEventId := evs[|evs| - 1].id)];
        return Success(evs);
      }
      var g := FindReviewById(reviews, p.reviewId);
      if g.None? || reviews[g.value].status == ReviewClosed {
        return Failure(ReviewIsClosed);
      }
      return Success([]);
    }

    /** `cmd_wait` up to its first pass: the token and the review are
        checked once, then the loop polls. */
    method Wait(token: string) returns (r: Result<seq<Event>>)
      requires Valid()
      modifies this
      ensures Valid()
      ensures r == WaitStep(old(Snapshot()), token).result
      ensures Snapshot() == WaitStep(old(Snapshot()), token).after
    {
      var f := FindParticipant(participants, token);
      if f.None? {
        return Failure(InvalidToken);
      }
      var g := FindReviewById(reviews, participants[f.value].reviewId);
      if g.None? || reviews[g.value].status == ReviewClosed {
        return Failure(ReviewIsClosed);
      }
      r := Poll(token);
    }
  }
}
