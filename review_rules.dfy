/** The pure rules of the review tool: the records of its tables, its error
    taxonomy, input validation, participant names and tokens, comment text
    normalisation, and the text it prints for events and threads. */
module ReviewRules {
  import opened Values
  import opened Text

  // ---- records ----

  datatype Role = Reviewer | Reviewee

  function RoleName(role: Role): string {
    match role
    case Reviewer => "reviewer"
    case Reviewee => "reviewee"
  }

  datatype ReviewStatus = ReviewOpen | ReviewClosed
  datatype ThreadStatus = ThreadOpen | ThreadResolved

  /** The four event types of the event log. */
  datatype EventKind = ThreadCreatedEvent | CommentEvent | ThreadResolvedEvent | ReviewClosedEvent

  function KindName(kind: EventKind): string {
    match kind
    case ThreadCreatedEvent => "thread_created"
    case CommentEvent => "comment"
    case ThreadResolvedEvent => "thread_resolved"
    case ReviewClosedEvent => "review_closed"
  }

  /** One row of each table. Creation and resolution times other than a
      comment's are not modelled; the nullable columns of `events` are
      `Option`s. */
  datatype Review = Review(id: nat, issue: int, task: int, status: ReviewStatus)
  datatype Participant = Participant(id: nat, reviewId: nat, token: string, name: string, role: Role, lastEventId: nat)
  datatype Thread = Thread(id: nat, reviewId: nat, number: int, status: ThreadStatus, author: string)
  datatype Comment = Comment(id: nat, threadId: nat, author: string, body: string, createdAt: string)
  datatype Event = Event(id: nat, reviewId: nat, kind: EventKind, threadNo: Option<int>,
                         author: Option<string>, count: Option<int>, withComment: int)

  // ---- errors ----

  /** Every `ReviewError` the commands raise, one constructor per message. */
  datatype ReviewError =
    | NegativeValue(argument: string)     // "<argument> must be a non-negative integer"
    | ReviewAlreadyClosed                 // "review is already closed for this issue/task"
    | ReviewMissing                       // "review does not exist"
    | ActiveReview(issue: int, task: int) // "issue <issue> already has an active review for task <task>"
    | NamePoolExhausted                   // "name pool exhausted for this review"
    | InvalidToken                        // "invalid token"
    | ReviewIsClosed                      // "review is closed"
    | RevieweeCannotCreateThread          // "reviewee cannot create a new thread"
    | ThreadMissing                       // "thread does not exist"
    | ThreadIsResolved                    // "thread is resolved"
    | CannotResolve                       // "token cannot resolve this thread"
    | CannotClose                         // "token cannot close the review"
    | ThreadsStillOpen                    // "all threads must be resolved before closing the review"
    | CommentRequired                     // "comment text is required"

  datatype Result<+T> = Success(value: T) | Failure(error: ReviewError)

  /** `validate_non_negative`: refuses exactly the negative values, naming
      the argument. */
  function ValidateNonNegative(value: int, argument: string): (r: Result<()>)
    ensures r.Failure? <==> value < 0
    ensures r.Failure? ==> r.error == NegativeValue(argument)
  {
    if value < 0 then Failure(NegativeValue(argument)) else Success(())
  }

  // ---- names and tokens ----

  const NAME_POOL: seq<string> := [
    "john", "dan", "dave", "mark", "paul", "luke", "tom", "alex",
    "max", "emma", "lucy", "kate", "nina", "rose", "mike", "zane"
  ]

  predicate NoDash(s: string) {
    forall i :: 0 <= i < |s| ==> s[i] != '-'
  }

  /** The pool holds 16 different names, none of them empty or containing
      the token separator. */
  lemma NamePoolShape()
    ensures |NAME_POOL| == 16
    ensures forall i, j :: 0 <= i < j < |NAME_POOL| ==> NAME_POOL[i] != NAME_POOL[j]
    ensures forall i :: 0 <= i < |NAME_POOL| ==> NAME_POOL[i] != [] && NoDash(NAME_POOL[i])
  {
  }

  lemma PoolNameNoDash(n: string)
    requires n in NAME_POOL
    ensures NoDash(n)
  {
    NamePoolShape();
  }

  /** The position of the first pool name not in `used`, or the pool size. */
  function FirstUnused(used: set<string>): (k: nat)
    ensures k <= |NAME_POOL|
    ensures forall i :: 0 <= i < k ==> NAME_POOL[i] in used
    ensures k < |NAME_POOL| ==> NAME_POOL[k] !in used
  {
    FirstUnusedFrom(used, 0)
  }

  function FirstUnusedFrom(used: set<string>, from: nat): (k: nat)
    requires from <= |NAME_POOL|
    requires forall i :: 0 <= i < from ==> NAME_POOL[i] in used
    ensures from <= k <= |NAME_POOL|
    ensures forall i :: 0 <= i < k ==> NAME_POOL[i] in used
    ensures k < |NAME_POOL| ==> NAME_POOL[k] !in used
    decreases |NAME_POOL| - from
  {
    if from == |NAME_POOL| then from
    else if NAME_POOL[from] !in used then from
    else FirstUnusedFrom(used, from + 1)
  }

  /** `select_available_name`: the first pool name, in pool order, that no
      participant of the review uses yet; `None` exactly when all 16 are
      taken. */
  method SelectAvailableName(used: set<string>) returns (name: Option<string>)
    ensures name.Some? ==> name.value in NAME_POOL && name.value !in used
    ensures name.Some? ==> forall i :: 0 <= i < |NAME_POOL| && NAME_POOL[i] == name.value ==>
              forall j :: 0 <= j < i ==> NAME_POOL[j] in used
    ensures name.None? <==> forall i :: 0 <= i < |NAME_POOL| ==> NAME_POOL[i] in used
    ensures name == if FirstUnused(used) < |NAME_POOL| then Some(NAME_POOL[FirstUnused(used)]) else None
  {
    NamePoolShape();
    for i := 0 to |NAME_POOL|
      invariant forall j :: 0 <= j < i ==> NAME_POOL[j] in used
    {
      if NAME_POOL[i] !in used {
        assert FirstUnused(used) == i;
        return Some(NAME_POOL[i]);
      }
    }
    return None;
  }

  /** The participant token `name-issue-task`. */
  function Token(name: string, issue: int, task: int): (t: string)
    ensures |t| > |name| && t[..|name|] == name && t[|name|] == '-'
  {
    name + "-" + IntToString(issue) + "-" + IntToString(task)
  }

  /** Reading a token back: split at the first two dashes, the last two
      fields being decimal numbers. */
  function ParseToken(t: string): (r: Option<(string, nat, nat)>)
    ensures r.Some? ==> NoDash(r.value.0)
  {
    var i := FirstIndexOf(t, '-');
    if i == |t| then None
    else
      var rest := t[i + 1..];
      var j := FirstIndexOf(rest, '-');
      if j == |rest| then None
      else
        var issue := ParseNat(rest[..j]);
        var task := ParseNat(rest[j + 1..]);
        if issue.Some? && task.Some? then Some((t[..i], issue.value, task.value)) else None
  }

  /** Parsing a string of the three-field shape. */
  lemma ParseTokenFields(name: string, a: string, b: string)
    requires NoDash(name) && ParseNat(a).Some? && ParseNat(b).Some?
    ensures ParseToken(name + "-" + a + "-" + b) == Some((name, ParseNat(a).value, ParseNat(b).value))
  {
    var tail := a + "-" + b;
    var t := name + "-" + a + "-" + b;
    assert t == name + ['-'] + tail;
    FirstIndexAfter(name, '-', tail);
    assert t[..|name|] == name;
    assert t[|name| + 1..] == tail;
    assert tail == a + ['-'] + b;
    assert NoDash(a);
    FirstIndexAfter(a, '-', b);
    assert tail[..|a|] == a && tail[|a| + 1..] == b;
  }

  /** A token of a dash-free name and non-negative numbers reads back as
      exactly those three fields. */
  lemma TokenRoundTrip(name: string, issue: int, task: int)
    requires NoDash(name) && issue >= 0 && task >= 0
    ensures ParseToken(Token(name, issue, task)) == Some((name, issue as nat, task as nat))
  {
    assert IntToString(issue) == NatToString(issue);
    assert IntToString(task) == NatToString(task);
    ParseNatToString(issue);
    ParseNatToString(task);
    ParseTokenFields(name, NatToString(issue), NatToString(task));
  }

  /** Different (name, issue, task) triples give different tokens. */
  lemma TokenInjective(n1: string, i1: int, t1: int, n2: string, i2: int, t2: int)
    requires NoDash(n1) && i1 >= 0 && t1 >= 0
    requires NoDash(n2) && i2 >= 0 && t2 >= 0
    requires Token(n1, i1, t1) == Token(n2, i2, t2)
    ensures n1 == n2 && i1 == i2 && t1 == t2
  {
    TokenRoundTrip(n1, i1, t1);
    TokenRoundTrip(n2, i2, t2);
  }

  // ---- comment text ----

  /** `parse_comment`: the words joined with single spaces and stripped.
      Blank text is refused when a comment is required and is no comment
      otherwise. */
  function ParseComment(parts: seq<string>, required: bool): (r: Result<Option<string>>)
    ensures var blank := forall k :: 0 <= k < |parts| ==> AllSpace(parts[k]);
      && (r.Failure? <==> required && blank)
      && (r.Failure? ==> r.error == CommentRequired)
      && (r.Success? ==> (r.value.None? <==> blank))
  {
    var text := Strip(Join(parts, " "));
    StripEmpty(Join(parts, " "));
    JoinSpacesBlank(parts);
    if required && text == [] then Failure(CommentRequired)
    else if text == [] then Success(None)
    else Success(Some(text))
  }

  /** The comment kept is the stripped join of the words: non-empty, and
      neither starting nor ending with whitespace. */
  lemma CommentIsStripped(parts: seq<string>, required: bool)
    requires ParseComment(parts, required).Success? && ParseComment(parts, required).value.Some?
    ensures var text := ParseComment(parts, required).value.value;
      && text == Strip(Join(parts, " "))
      && text != [] && !IsSpace(text[0]) && !IsSpace(text[|text| - 1])
  {
  }

  // ---- printed text ----

  /** A nullable integer column as printed: `-` for null. */
  function ShowInt(o: Option<int>): (s: string)
    ensures s == "-" <==> o.None?
  {
    match o
    case None => "-"
    case Some(i) => IntToString(i)
  }

  /** A nullable text column as printed: `-` for null, the text itself
      otherwise. */
  function ShowText(o: Option<string>): (s: string)
    ensures o.None? ==> s == "-"
    ensures o.Some? ==> s == o.value
  {
    match o
    case None => "-"
    case Some(s) => s
  }

  /** The fields every event line carries: type, thread, author and count,
      each null column shown as `-`. */
  function EventHead(e: Event): (h: string)
    ensures var pre := "event: " + KindName(e.kind) + " thread:";
      && |pre| < |h| && h[..|pre|] == pre
      && (e.threadNo.None? ==> h[|pre|] == '-')
  {
    "event: " + KindName(e.kind) + " thread:" + ShowInt(e.threadNo)
      + " author:" + ShowText(e.author) + " count:" + ShowInt(e.count)
  }

  /** `format_event`: the event line; the `with_comment` field is printed
      for resolutions only. */
  function FormatEvent(e: Event): (line: string)
    ensures |EventHead(e)| <= |line| && line[..|EventHead(e)|] == EventHead(e)
    ensures e.kind != ThreadResolvedEvent ==> line == EventHead(e)
    ensures e.kind == ThreadResolvedEvent ==> line[|EventHead(e)|..] == " with_comment:" + IntToString(e.withComment)
  {
    EventHead(e) + (if e.kind == ThreadResolvedEvent then " with_comment:" + IntToString(e.withComment) else "")
  }

  /** Only a resolution's line depends on `with_comment`: equal lines for any
      two values on other events, different lines for different values on a
      resolution. */
  lemma FormatEventWithComment(e: Event, w: int)
    ensures e.kind != ThreadResolvedEvent ==> FormatEvent(e.(withComment := w)) == FormatEvent(e)
    ensures e.kind == ThreadResolvedEvent && w != e.withComment ==>
      FormatEvent(e.(withComment := w)) != FormatEvent(e)
  {
    var f := e.(withComment := w);
    assert EventHead(f) == EventHead(e);
    if e.kind == ThreadResolvedEvent && w != e.withComment {
      var n := |EventHead(e)|;
      var tag := " with_comment:";
      if FormatEvent(f) == FormatEvent(e) {
        assert (tag + IntToString(w))[|tag|..] == IntToString(w);
        assert (tag + IntToString(e.withComment))[|tag|..] == IntToString(e.withComment);
        assert FormatEvent(f)[n..] == FormatEvent(e)[n..];
        IntToStringInjective(w, e.withComment);
      }
    }
  }


  /** The name, role and time of a comment's author, joined from the
      participants table, and the comment body. */
  datatype CommentView = CommentView(role: Role, name: string, createdAt: string, body: string)

  function ThreadHeading(number: int): string {
    "## thread-" + IntToString(number)
  }

  function CommentHeading(c: CommentView): string {
    "### [" + RoleName(c.role) + "][" + c.name + "] @ " + c.createdAt
  }

  /** `render_thread`: the thread heading, then for every comment in order
      its heading and its body, with a blank line between comments and none
      after the last. */
  method RenderThread(number: int, comments: seq<CommentView>) returns (lines: seq<string>)
    ensures |lines| == if comments == [] then 1 else 3 * |comments|
    ensures lines[0] == ThreadHeading(number)
    ensures forall k :: 0 <= k < |comments| ==>
      lines[3 * k + 1] == CommentHeading(comments[k]) && lines[3 * k + 2] == comments[k].body
    ensures forall k :: 0 <= k < |comments| - 1 ==> lines[3 * k + 3] == ""
  {
    lines := [ThreadHeading(number)];
    for i := 0 to |comments|
      invariant |lines| == 1 + 3 * i
      invariant lines[0] == ThreadHeading(number)
      invariant forall k :: 0 <= k < i ==>
        lines[3 * k + 1] == CommentHeading(comments[k]) && lines[3 * k + 2] == comments[k].body
        && lines[3 * k + 3] == ""
    {
      lines := lines + [CommentHeading(comments[i]), comments[i].body, ""];
    }
    assert ThreadHeading(number)[0] == '#';
    if comments != [] {
      assert lines[3 * (|comments| - 1) + 3] == "";
    }
    if |lines| > 0 && lines[|lines| - 1] == "" {
      lines := lines[..|lines| - 1];
    }
  }
}
