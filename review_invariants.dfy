/** Every review command keeps the tables consistent: row ids, the `UNIQUE`
    constraints and partial unique index of the schema, the foreign keys,
    and the name and token discipline of participants. The database never
    has to reject a write for violating them. */
module ReviewInvariants {
  import opened Values
  import opened ReviewRules
  import opened ReviewTables
  import opened ReviewSteps

  /** Under `RowIds`, the review with id `id` sits at position `id - 1`. */
  lemma ReviewAtId(t: Tables, id: nat)
    requires RowIds(t)
    ensures FindReviewById(t.reviews, id).Some? <==> 1 <= id <= |t.reviews|
    ensures FindReviewById(t.reviews, id).Some? ==> FindReviewById(t.reviews, id).value == id - 1
  {
    if 1 <= id <= |t.reviews| {
      assert t.reviews[id - 1].id == id;
    }
  }

  // ---- single-table updates ----

  /** Inserting a participant with the next id, into an existing review,
      under a pool name not yet used in it and with its review's token. */
  lemma AppendParticipant(t: Tables, p: Participant)
    requires Consistent(t)
    requires p.id == |t.participants| + 1 && Enrolled(t.reviews, p) && TokenMatches(t.reviews, p)
    requires p.name !in UsedNames(t.participants, p.reviewId)
    ensures Consistent(t.(participants := t.participants + [p]))
  {
    var ps := t.participants;
    var ps' := ps + [p];
    assert forall i :: 0 <= i < |ps| ==> ps'[i] == ps[i];
    assert NamesDistinct(ps') by {
      forall i, j | 0 <= i < j < |ps'| && ps'[i].reviewId == ps'[j].reviewId ensures ps'[i].name != ps'[j].name {
        if j == |ps| {
          assert ps'[i] == ps[i];
        }
      }
    }
    assert ParticipantIds(ps');
    TokensMatchFrame(t.reviews, t.reviews, ps, ps', |ps|);
  }

  /** Moving a participant's event cursor. */
  lemma SetCursor(t: Tables, pi: nat, last: nat)
    requires Consistent(t) && pi < |t.participants|
    ensures Consistent(t.(participants := t.participants[pi := t.participants[pi].(lastEventId := last)]))
  {
    var ps := t.participants;
    var q := ps[pi].(lastEventId := last);
    var ps' := ps[pi := q];
    assert Enrolled(t.reviews, q) by {
      assert Enrolled(t.reviews, ps[pi]);
    }
    assert forall i :: 0 <= i < |ps| ==> Enrolled(t.reviews, ps'[i]) by {
      forall i | 0 <= i < |ps| ensures Enrolled(t.reviews, ps'[i]) {
        if i != pi {
          assert ps'[i] == ps[i];
        }
      }
    }
    assert forall i :: 0 <= i < |ps| ==>
      ps'[i].name == ps[i].name && ps'[i].reviewId == ps[i].reviewId && ps'[i].id == ps[i].id && ps'[i].token == ps[i].token;
    TokensMatchFrame(t.reviews, t.reviews, ps, ps', |ps|);
  }

  /** Inserting a thread with the next id into an existing review, under a
      number the review does not use yet. */
  lemma AppendThread(t: Tables, th: Thread)
    requires Consistent(t)
    requires th.id == |t.threads| + 1 && 1 <= th.reviewId <= |t.reviews| && th.number >= 0
    requires forall i :: 0 <= i < |t.threads| && t.threads[i].reviewId == th.reviewId ==> t.threads[i].number != th.number
    ensures Consistent(t.(threads := t.threads + [th]))
  {
    var ts := t.threads;
    var ts' := ts + [th];
    assert forall i :: 0 <= i < |ts| ==> ts'[i] == ts[i];
    assert ThreadsOk(t.reviews, ts') by {
      forall i, j | 0 <= i < j < |ts'| && ts'[i].reviewId == ts'[j].reviewId ensures ts'[i].number != ts'[j].number {
        if j == |ts| {
          assert ts'[i] == ts[i];
        }
      }
    }
    assert CommentsOk(ts', t.comments);
    assert ThreadIdsAreRows(ts');
  }

  /** Inserting a comment with the next id into an existing thread. */
  lemma AppendComment(t: Tables, c: Comment)
    requires Consistent(t)
    requires c.id == |t.comments| + 1 && 1 <= c.threadId <= |t.threads|
    ensures Consistent(t.(comments := t.comments + [c]))
  {
  }

  /** Appending an event with the next id to an existing review's log. */
  lemma AppendEvent(t: Tables, e: Event)
    requires Consistent(t)
    requires e.id == |t.events| + 1 && 1 <= e.reviewId <= |t.reviews|
    ensures Consistent(t.(events := t.events + [e]))
  {
  }

  /** Marking a thread resolved. */
  lemma MarkResolved(t: Tables, ti: nat)
    requires Consistent(t) && ti < |t.threads|
    ensures Consistent(t.(threads := t.threads[ti := t.threads[ti].(status := ThreadResolved)]))
  {
    var ts := t.threads;
    var ts' := ts[ti := ts[ti].(status := ThreadResolved)];
    assert forall i :: 0 <= i < |ts| ==> ts'[i].id == ts[i].id && ts'[i].reviewId == ts[i].reviewId && ts'[i].number == ts[i].number;
  }

  /** Marking a review closed. */
  lemma MarkClosed(t: Tables, ri: nat)
    requires Consistent(t) && ri < |t.reviews|
    ensures Consistent(t.(reviews := t.reviews[ri := t.reviews[ri].(status := ReviewClosed)]))
  {
    var rs := t.reviews;
    var rs' := rs[ri := rs[ri].(status := ReviewClosed)];
    forall i | 0 <= i < |rs|
      ensures rs'[i].id == rs[i].id && rs'[i].issue == rs[i].issue && rs'[i].task == rs[i].task
      ensures rs'[i].status == ReviewOpen ==> rs[i].status == ReviewOpen
    {
      if i != ri {
        assert rs'[i] == rs[i];
      }
    }
    TokensMatchFrame(rs, rs', t.participants, t.participants, |t.participants|);
  }

  // ---- commands ----

  lemma AddReviewPreserves(t: Tables, issue: int, task: int)
    requires Consistent(t) && issue >= 0 && task >= 0
    requires !HasReview(t.reviews, issue, task) && !HasOpenReview(t.reviews, issue)
    ensures Consistent(AddReview(t, issue, task))
  {
    var u := AddReview(t, issue, task);
    var rs, rs' := t.reviews, u.reviews;
    assert forall i :: 0 <= i < |rs| ==> rs'[i] == rs[i];
    assert ReviewsOk(rs') by {
      forall i, j | 0 <= i < j < |rs'| ensures !(rs'[i].issue == rs'[j].issue && rs'[i].task == rs'[j].task) {
        if j == |rs| {
          assert rs'[i] == rs[i];
        }
      }
      forall i, j | 0 <= i < j < |rs'| && rs'[i].status == ReviewOpen && rs'[j].status == ReviewOpen
        ensures rs'[i].issue != rs'[j].issue
      {
        if j == |rs| {
          assert rs'[i] == rs[i];
        }
      }
    }
    TokensMatchFrame(rs, rs', t.participants, t.participants, |t.participants|);
  }

  lemma EnsurePreserves(t: Tables, issue: int, task: int, allowCreate: bool)
    requires Consistent(t) && issue >= 0 && task >= 0
    ensures Consistent(EnsureReview(t, issue, task, allowCreate).after)
  {
    if LookupReview(t.reviews, issue, task, allowCreate).Created? {
      AddReviewPreserves(t, issue, task);
    }
  }

  lemma CreatePreserves(t: Tables, issue: int, task: int)
    requires Consistent(t)
    ensures Consistent(CreateStep(t, issue, task).after)
  {
    if issue >= 0 && task >= 0 && LookupReview(t.reviews, issue, task, true).Created? {
      AddReviewPreserves(t, issue, task);
    }
  }

  lemma EnrollPreserves(u: Tables, k: nat, role: Role)
    requires Consistent(u) && k < |u.reviews|
    ensures Consistent(Enroll(u, k, role).after)
  {
    var rid := u.reviews[k].id;
    assert rid == k + 1;
    var used := UsedNames(u.participants, rid);
    var n := FirstUnused(used);
    if n < |NAME_POOL| {
      var name := NAME_POOL[n];
      var p := NewParticipant(u, k, name, role);
      assert Enrolled(u.reviews, p) && TokenMatches(u.reviews, p);
      AppendParticipant(u, p);
      assert Enroll(u, k, role).after == u.(participants := u.participants + [p]);
    }
  }

  lemma JoinPreserves(t: Tables, issue: int, task: int, role: Role, create: bool)
    requires Consistent(t)
    ensures Consistent(JoinStep(t, issue, task, role, create).after)
  {
    var s := JoinStep(t, issue, task, role, create);
    if s.result.Success? {
      var e := EnsureReview(t, issue, task, create);
      EnsurePreserves(t, issue, task, create);
      EnrollPreserves(e.after, e.result.value, role);
    }
  }

  /** The facts about a participant that the commands taking a token start
      from: the token finds that participant, since tokens are unique, and
      the participant's review sits at position `reviewId - 1`. */
  lemma ParticipantReview(t: Tables, pi: nat)
    requires Consistent(t) && pi < |t.participants|
    ensures FindParticipant(t.participants, t.participants[pi].token) == Some(pi)
    ensures var rid := t.participants[pi].reviewId;
      && 1 <= rid <= |t.reviews|
      && FindReviewById(t.reviews, rid) == Some(rid - 1)
      && t.reviews[rid - 1].id == rid
  {
    TokensUnique(t.reviews, t.participants);
    FindParticipantUnique(t.participants, pi);
    ReviewAtId(t, t.participants[pi].reviewId);
  }

  lemma StartThreadPreserves(t: Tables, p: Participant, rid: nat, text: string, now: string)
    requires Consistent(t) && 1 <= rid <= |t.reviews|
    ensures Consistent(StartThread(t, p, rid, text, now).after)
  {
    if p.role == Reviewer {
      var n := NextThreadNo(t.threads, rid);
      var th := Thread(|t.threads| + 1, rid, n, ThreadOpen, p.token);
      AppendThread(t, th);
      var u1 := t.(threads := t.threads + [th]);
      var cm := Comment(|t.comments| + 1, th.id, p.token, text, now);
      AppendComment(u1, cm);
      var u2 := u1.(comments := t.comments + [cm]);
      var count := CountComments(u2.comments, th.id);
      AppendEvent(u2, Event(|t.events| + 1, rid, ThreadCreatedEvent, Some(n), Some(p.token), Some(count), 0));
    }
  }

  lemma ReplyPreserves(t: Tables, p: Participant, rid: nat, number: int, text: string, now: string)
    requires Consistent(t) && 1 <= rid <= |t.reviews|
    ensures Consistent(Reply(t, p, rid, number, text, now).after)
  {
    var f := FindThread(t.threads, rid, number);
    if f.Some? && t.threads[f.value].status == ThreadOpen {
      var th := t.threads[f.value];
      var cm := Comment(|t.comments| + 1, th.id, p.token, text, now);
      AppendComment(t, cm);
      var u1 := t.(comments := t.comments + [cm]);
      var count := CountComments(u1.comments, th.id);
      AppendEvent(u1, Event(|t.events| + 1, rid, CommentEvent, Some(th.number), Some(p.token), Some(count), 0));
    }
  }

  lemma CommentPreserves(t: Tables, token: string, thread: Option<int>, parts: seq<string>, now: string)
    requires Consistent(t)
    ensures Consistent(CommentStep(t, token, thread, parts, now).after)
  {
    var s := CommentStep(t, token, thread, parts, now);
    if s.result.Success? {
      var c := CommentText(parts, thread);
      var pi := FindParticipant(t.participants, token).value;
      var p := t.participants[pi];
      ParticipantReview(t, pi);
      if thread.None? {
        assert s == StartThread(t, p, p.reviewId, c.value, now);
        StartThreadPreserves(t, p, p.reviewId, c.value, now);
      } else {
        assert s == Reply(t, p, p.reviewId, thread.value, c.value, now);
        ReplyPreserves(t, p, p.reviewId, thread.value, c.value, now);
      }
    }
  }

  lemma ResolveThreadPreserves(t: Tables, p: Participant, ti: nat, comment: Option<string>, now: string)
    requires Consistent(t) && ti < |t.threads|
    ensures Consistent(ResolveThread(t, p, ti, comment, now).after)
  {
    var th := t.threads[ti];
    var u1 := t.(threads := t.threads[ti := th.(status := ThreadResolved)]);
    MarkResolved(t, ti);
    var cs := if comment.Some? then t.comments + [Comment(|t.comments| + 1, th.id, p.token, comment.value, now)]
              else t.comments;
    var u2 := u1.(comments := cs);
    if comment.Some? {
      AppendComment(u1, Comment(|t.comments| + 1, th.id, p.token, comment.value, now));
    }
    var count := CountComments(cs, th.id);
    AppendEvent(u2, Event(|t.events| + 1, th.reviewId, ThreadResolvedEvent, Some(th.number), Some(p.token), Some(count),
                          if comment.Some? then 1 else 0));
  }

  lemma ResolvePreserves(t: Tables, token: string, thread: int, parts: seq<string>, now: string)
    requires Consistent(t)
    ensures Consistent(ResolveStep(t, token, thread, parts, now).after)
  {
    var s := ResolveStep(t, token, thread, parts, now);
    ResolveRefusal(t, token, thread, parts, now);
    if s.result.Success? {
      ResolveShape(t, token, thread, parts, now);
      var p := t.participants[FindParticipant(t.participants, token).value];
      var ti := FindThread(t.threads, p.reviewId, thread).value;
      ResolveThreadPreserves(t, p, ti, ParseComment(parts, false).value, now);
    }
  }

  lemma CloseReviewPreserves(t: Tables, p: Participant, ri: nat)
    requires Consistent(t) && ri < |t.reviews|
    ensures Consistent(CloseReview(t, p, ri).after)
  {
    var r := t.reviews[ri];
    var u1 := t.(reviews := t.reviews[ri := r.(status := ReviewClosed)]);
    MarkClosed(t, ri);
    AppendEvent(u1, Event(|t.events| + 1, r.id, ReviewClosedEvent, None, Some(p.token), None, 0));
  }

  lemma ClosePreserves(t: Tables, token: string)
    requires Consistent(t)
    ensures Consistent(CloseStep(t, token).after)
  {
    var s := CloseStep(t, token);
    if s.result.Success? {
      var pi := FindParticipant(t.participants, token).value;
      var ri := FindReviewById(t.reviews, t.participants[pi].reviewId).value;
      assert s == CloseReview(t, t.participants[pi], ri);
      CloseReviewPreserves(t, t.participants[pi], ri);
    }
  }

  lemma PollPreserves(t: Tables, token: string)
    requires Consistent(t)
    ensures Consistent(PollStep(t, token).after)
  {
    var f := FindParticipant(t.participants, token);
    if f.Some? {
      var p := t.participants[f.value];
      var evs := NewEvents(t.events, p.reviewId, p.lastEventId);
      if evs != [] {
        SetCursor(t, f.value, evs[|evs| - 1].id);
      }
    }
  }

  lemma WaitPreserves(t: Tables, token: string)
    requires Consistent(t)
    ensures Consistent(WaitStep(t, token).after)
  {
    PollPreserves(t, token);
  }
}
