/**
 The list pager: a background goroutine fetches page after page and hands them over through a
 buffered channel, while the caller's goroutine passes the items of each page to a callback.
 List calls and callbacks may fail at any time, and the caller's context may be cancelled.
 */
module Pager {
  import opened Prelude

  /** The pages that the server returns one after the other, and the options of the call. */
  datatype Config = Config(
    pages: seq<seq<string>>,
    limit: int,
    pageSize: int,
    bufferSize: int,
    resourceVersion: string)

  function Limit(c: Config): (n: int)
  {
    if c.limit == 0 then c.pageSize else c.limit
  }

  /** A list call: the page that its continue token asks for, and the limit and resource version it sends. */
  datatype Call = Call(page: nat, limit: int, resourceVersion: string)

  datatype Background = Checking | Listing | Sending | Ended(err: Option<string>)

  datatype Foreground = Waiting | Draining(pos: nat) | Returned(err: Option<string>)

  datatype State = State(
    bg: Background,
    calls: seq<Call>,
    sent: nat,                // pages put into the channel
    received: nat,            // pages taken out of the channel
    fg: Foreground,
    finished: nat,            // pages whose items were all passed on
    delivered: seq<string>,   // items passed to the callback
    cancelled: bool)

  const CONTEXT_ERROR: string := "context canceled"
  const BAD_BUFFER: string := "ListPager.PageBufferSize must be >= 0"
  const BAD_LIMIT: string := "ListPager.PageSize must be >= 0"

  function Buffered(s: State): (n: int)
  {
    s.sent - s.received
  }

  function Start(c: Config): (s: State)
  {
    var bg := if c.bufferSize < 0 then Ended(None) else if Limit(c) < 0 then Ended(Some(BAD_LIMIT)) else Checking;
    var fg := if c.bufferSize < 0 then Returned(Some(BAD_BUFFER)) else Waiting;
    State(bg, [], 0, 0, fg, 0, [], c.bufferSize < 0)
  }

  /** What the background goroutine does after it has handed over a page. */
  function AfterPage(c: Config, sent: nat): (bg: Background)
  {
    if sent == |c.pages| then Ended(None) else Checking
  }

  /** The next call uses the continue token of the last page and no resource version. */
  function NextCall(c: Config, s: State): (call: Call)
  {
    Call(s.sent, Limit(c), if s.calls == [] then c.resourceVersion else "")
  }

  datatype Step =
    | Check
    | List(failure: Option<string>)
    | SendPage
    | HandOver
    | AbandonPage
    | Receive
    | PassItem(failure: Option<string>)
    | FinishPage
    | Finish
    | Cancel

  function Taken(s: State): (fg: Foreground)
  {
    if s.cancelled then Returned(Some(CONTEXT_ERROR)) else Draining(0)
  }

  ghost predicate BackgroundStep(c: Config, s: State, step: Step, s': State)
  {
    match step
    case Check =>
      && s.bg == Checking
      && s' == if s.cancelled then s.(bg := Ended(Some(CONTEXT_ERROR)))
               else s.(bg := Listing, calls := s.calls + [NextCall(c, s)])
    case List(failure) =>
      s.bg == Listing && s' == s.(bg := if failure.Some? then Ended(failure) else Sending)
    case SendPage =>
      && s.bg == Sending && Buffered(s) < c.bufferSize
      && s' == s.(sent := s.sent + 1, bg := AfterPage(c, s.sent + 1))
    // a receiver that is already waiting takes the page directly
    case HandOver =>
      && s.bg == Sending && s.fg == Waiting && Buffered(s) == 0
      && s' == s.(sent := s.sent + 1, received := s.received + 1, bg := AfterPage(c, s.sent + 1), fg := Taken(s))
    case AbandonPage =>
      s.bg == Sending && s.cancelled && s' == s.(bg := Ended(Some(CONTEXT_ERROR)))
    case _ => false
  }

  ghost predicate ForegroundStep(c: Config, s: State, step: Step, s': State)
  {
    match step
    case Receive =>
      s.fg == Waiting && Buffered(s) > 0 && s' == s.(received := s.received + 1, fg := Taken(s))
    case PassItem(failure) =>
      && s.fg.Draining? && s.finished < |c.pages| && s.fg.pos < |c.pages[s.finished]|
      && var delivered := s.delivered + [c.pages[s.finished][s.fg.pos]];
         s' == if failure.Some? then s.(delivered := delivered, fg := Returned(failure), cancelled := true)
               else s.(delivered := delivered, fg := Draining(s.fg.pos + 1))
    case FinishPage =>
      && s.fg.Draining? && s.finished < |c.pages| && s.fg.pos == |c.pages[s.finished]|
      && s' == s.(fg := Waiting, finished := s.finished + 1)
    // the channel is closed and empty: the result of the background goroutine is the result
    case Finish =>
      && s.fg == Waiting && Buffered(s) == 0 && s.bg.Ended?
      && s' == s.(fg := Returned(s.bg.err), cancelled := true)
    case Cancel =>
      !s.cancelled && s' == s.(cancelled := true)
    case _ => false
  }

  ghost predicate NextStep(c: Config, s: State, step: Step, s': State)
  {
    BackgroundStep(c, s, step, s') || ForegroundStep(c, s, step, s')
  }

  ghost predicate Next(c: Config, s: State, s': State)
  {
    exists step :: NextStep(c, s, step, s')
  }

  ghost predicate IsRun(c: Config, run: seq<State>)
  {
    && run != [] && run[0] == Start(c)
    && forall i :: 0 <= i < |run| - 1 ==> Next(c, run[i], run[i + 1])
  }

  // ------------------------------------------------------------------ invariant

  /** The items of the first n pages, in order. */
  function Flat(pages: seq<seq<string>>, n: nat): (items: seq<string>)
    requires n <= |pages|
  {
    if n == 0 then [] else Flat(pages, n - 1) + pages[n - 1]
  }

  lemma {:induction false} FlatPrefix(pages: seq<seq<string>>, m: nat, n: nat)
    requires m <= n <= |pages|
    ensures Flat(pages, m) <= Flat(pages, n)
  {
    if m < n {
      FlatPrefix(pages, m, n - 1);
    }
  }

  predicate CallsInOrder(c: Config, calls: seq<Call>)
  {
    forall i :: 0 <= i < |calls| ==>
      && calls[i].page == i
      && calls[i].limit == (if c.limit != 0 then c.limit else c.pageSize) >= 0
      && calls[i].resourceVersion == (if i == 0 then c.resourceVersion else "")
  }

  /** How far each goroutine has got. */
  predicate Counts(c: Config, s: State)
  {
    && s.finished <= s.received <= s.sent <= |c.pages|
    && (c.bufferSize >= 0 ==> Buffered(s) <= c.bufferSize)
    && (s.fg == Waiting ==> s.received == s.finished)
    && (s.fg.Draining? ==> s.received == s.finished + 1 && s.fg.pos <= |c.pages[s.finished]|)
    && s.received <= s.finished + 1
    && (s.bg == Checking ==> |s.calls| == s.sent < |c.pages|)
    && (s.bg == Listing || s.bg == Sending ==> |s.calls| == s.sent + 1 <= |c.pages|)
    && |s.calls| <= s.sent + 1 && |s.calls| <= |c.pages|
    && (s.bg == Ended(None) && c.bufferSize >= 0 ==> s.sent == |c.pages|)
    && (Limit(c) < 0 ==> s.bg.Ended?)
    && (c.bufferSize < 0 ==> s.fg.Returned? && s.bg.Ended? && s.calls == [] && s.sent == 0)
    && (s.fg.Returned? ==> s.cancelled)
  }

  ghost predicate Delivers(c: Config, s: State)
    requires s.finished <= |c.pages|
  {
    match s.fg
    case Waiting => s.delivered == Flat(c.pages, s.finished)
    case Draining(pos) =>
      s.finished < |c.pages| && pos <= |c.pages[s.finished]|
      && s.delivered == Flat(c.pages, s.finished) + c.pages[s.finished][..pos]
    case Returned(err) =>
      && s.delivered <= Flat(c.pages, |c.pages|)
      && (err.None? ==> s.delivered == Flat(c.pages, |c.pages|))
  }

  ghost predicate Invariant(c: Config, s: State)
  {
    Counts(c, s) && Delivers(c, s) && CallsInOrder(c, s.calls)
  }

  lemma PartialPage(c: Config, k: nat, pos: nat)
    requires k < |c.pages| && pos <= |c.pages[k]|
    ensures Flat(c.pages, k) + c.pages[k][..pos] <= Flat(c.pages, |c.pages|)
  {
    FlatPrefix(c.pages, k + 1, |c.pages|);
    assert Flat(c.pages, k) + c.pages[k][..pos] <= Flat(c.pages, k + 1);
  }

  lemma CountsKept(c: Config, s: State, step: Step, s': State)
    requires Counts(c, s) && CallsInOrder(c, s.calls) && NextStep(c, s, step, s')
    ensures Counts(c, s') && CallsInOrder(c, s'.calls)
  {
  }

  lemma DeliversKept(c: Config, s: State, step: Step, s': State)
    requires Counts(c, s) && Counts(c, s') && Delivers(c, s) && NextStep(c, s, step, s')
    ensures Delivers(c, s')
  {
    match step
    case PassItem(failure) =>
      var page, pos := c.pages[s.finished], s.fg.pos;
      assert page[..pos + 1] == page[..pos] + [page[pos]];
      ConcatAssoc(Flat(c.pages, s.finished), page[..pos], [page[pos]]);
      PartialPage(c, s.finished, pos + 1);
    case FinishPage =>
      assert c.pages[s.finished][..s.fg.pos] == c.pages[s.finished];
    case Receive =>
      TakePage(c, s, s');
    case HandOver =>
      TakePage(c, s, s');
    case Finish =>
      FlatPrefix(c.pages, s.finished, |c.pages|);
    case _ =>
  }

  lemma TakePage(c: Config, s: State, s': State)
    requires Counts(c, s) && Counts(c, s') && Delivers(c, s) && s.fg == Waiting
    requires s'.finished == s.finished && s'.delivered == s.delivered && s'.fg == Taken(s)
    ensures Delivers(c, s')
  {
    FlatPrefix(c.pages, s.finished, |c.pages|);
    if s'.fg.Draining? {
      assert s.delivered + c.pages[s.finished][..0] == s.delivered;
    }
  }

  lemma {:induction false} RunKeeps(c: Config, run: seq<State>, i: nat)
    requires c.pages != [] && IsRun(c, run) && i < |run|
    ensures Invariant(c, run[i])
  {
    if i > 0 {
      RunKeeps(c, run, i - 1);
      assert Next(c, run[i - 1], run[i - 1 + 1]);
      var step :| NextStep(c, run[i - 1], step, run[i]);
      CountsKept(c, run[i - 1], step, run[i]);
      DeliversKept(c, run[i - 1], step, run[i]);
    }
  }

  /**
   In every state of every schedule: the items passed on are a prefix of all items in order, and
   all of them if the pager returns without an error; the background goroutine runs ahead of
   the finished pages by at most the buffer and two more calls; each call asks for the next
   page with the limit of the call, or else the page size, which is not negative, and only the
   first one sends a resource version.
   */
  lemma PagerSafe(c: Config, run: seq<State>, i: nat)
    requires c.pages != [] && IsRun(c, run) && i < |run|
    ensures run[i].delivered <= Flat(c.pages, |c.pages|)
    ensures run[i].fg == Returned(None) ==> run[i].delivered == Flat(c.pages, |c.pages|)
    ensures c.bufferSize >= 0 ==> |run[i].calls| <= run[i].finished + c.bufferSize + 2
    ensures |run[i].calls| <= |c.pages| && CallsInOrder(c, run[i].calls)
  {
    var s := run[i];
    RunKeeps(c, run, i);
    match s.fg
    case Waiting => FlatPrefix(c.pages, s.finished, |c.pages|);
    case Draining(pos) => PartialPage(c, s.finished, pos);
    case Returned(_) =>
  }

  // ------------------------------------------------------------------ termination

  function Cost(pages: seq<seq<string>>, r: nat): (n: nat)
    requires r <= |pages|
    decreases |pages| - r
  {
    if r == |pages| then 0 else |pages[r]| + 4 + Cost(pages, r + 1)
  }

  function BackgroundRank(c: Config, s: State): (n: nat)
    requires s.sent <= |c.pages|
  {
    match s.bg
    case Checking => 4 * (|c.pages| - s.sent) + 3
    case Listing => 4 * (|c.pages| - s.sent) + 2
    case Sending => 4 * (|c.pages| - s.sent) + 1
    case Ended(_) => 0
  }

  function ForegroundRank(c: Config, s: State): (n: nat)
    requires Counts(c, s)
  {
    Cost(c.pages, s.received) + match s.fg
      case Waiting => 1
      case Draining(pos) => |c.pages[s.finished]| - pos + 2
      case Returned(_) => 0
  }

  function Measure(c: Config, s: State): (n: nat)
    requires Counts(c, s)
  {
    BackgroundRank(c, s) + ForegroundRank(c, s) + if s.cancelled then 0 else 1
  }

  lemma StepLowers(c: Config, s: State, step: Step, s': State)
    requires Counts(c, s) && Counts(c, s') && NextStep(c, s, step, s')
    ensures Measure(c, s') < Measure(c, s)
  {
  }

  /** One of the two goroutines can take a step; that the caller may still cancel does not count. */
  ghost predicate CanContinue(c: Config, s: State)
  {
    exists step, s' :: step != Cancel && NextStep(c, s, step, s')
  }

  lemma Continue(c: Config, s: State, step: Step, s': State)
    requires step != Cancel && NextStep(c, s, step, s')
    ensures CanContinue(c, s)
  {
  }

  lemma BackgroundContinues(c: Config, s: State)
    requires Counts(c, s) && !s.bg.Ended?
    requires s.bg == Sending ==> s.cancelled || (s.fg == Waiting && Buffered(s) == 0)
    ensures CanContinue(c, s)
  {
    match s.bg
    case Checking =>
      Continue(c, s, Check, if s.cancelled then s.(bg := Ended(Some(CONTEXT_ERROR)))
                            else s.(bg := Listing, calls := s.calls + [NextCall(c, s)]));
    case Listing =>
      Continue(c, s, List(None), s.(bg := Sending));
    case Sending =>
      if s.cancelled {
        Continue(c, s, AbandonPage, s.(bg := Ended(Some(CONTEXT_ERROR))));
      } else {
        Continue(c, s, HandOver,
                 s.(sent := s.sent + 1, received := s.received + 1, bg := AfterPage(c, s.sent + 1), fg := Taken(s)));
      }
  }

  /**
   Without any help from the caller, the goroutines can go on until the caller has got its result
   and the background goroutine has ended.
   */
  lemma NoDeadlock(c: Config, s: State)
    requires Counts(c, s)
    ensures CanContinue(c, s) <==> !(s.fg.Returned? && s.bg.Ended?)
  {
    if s.fg.Returned? {
      if !s.bg.Ended? {
        BackgroundContinues(c, s);
      }
    } else if s.fg.Draining? {
      if s.fg.pos < |c.pages[s.finished]| {
        Continue(c, s, PassItem(None),
                 s.(delivered := s.delivered + [c.pages[s.finished][s.fg.pos]], fg := Draining(s.fg.pos + 1)));
      } else {
        Continue(c, s, FinishPage, s.(fg := Waiting, finished := s.finished + 1));
      }
    } else if Buffered(s) > 0 {
      Continue(c, s, Receive, s.(received := s.received + 1, fg := Taken(s)));
    } else if s.bg.Ended? {
      Continue(c, s, Finish, s.(fg := Returned(s.bg.err), cancelled := true));
    } else {
      BackgroundContinues(c, s);
    }
  }

  lemma {:induction false} RunLowers(c: Config, run: seq<State>, i: nat)
    requires c.pages != [] && IsRun(c, run) && i < |run|
    ensures Counts(c, run[i]) && Counts(c, run[0]) && Measure(c, run[i]) + i <= Measure(c, run[0])
  {
    RunKeeps(c, run, 0);
    if i > 0 {
      RunLowers(c, run, i - 1);
      RunKeeps(c, run, i);
      assert Next(c, run[i - 1], run[i - 1 + 1]);
      var step :| NextStep(c, run[i - 1], step, run[i]);
      StepLowers(c, run[i - 1], step, run[i]);
    }
  }

  /**
   Every schedule ends, cancelled or not, and its goroutines only come to rest when the pager has
   returned and has left no goroutine behind.
   */
  lemma PagerTerminates(c: Config, run: seq<State>)
    requires c.pages != [] && IsRun(c, run)
    ensures |run| - 1 <= 4 * |c.pages| + Cost(c.pages, 0) + 5
    ensures CanContinue(c, run[|run| - 1]) <==> !(run[|run| - 1].fg.Returned? && run[|run| - 1].bg.Ended?)
  {
    RunLowers(c, run, |run| - 1);
    NoDeadlock(c, run[|run| - 1]);
  }

  // ------------------------------------------------------------------ calls without failures

  /** The caller does not cancel, and no list call and no callback fails. */
  predicate Succeeds(step: Step)
  {
    match step
    case List(failure) => failure.None?
    case PassItem(failure) => failure.None?
    case Cancel => false
    case _ => true
  }

  ghost predicate IsCleanRun(c: Config, run: seq<State>)
  {
    && IsRun(c, run)
    && forall i :: 0 <= i < |run| - 1 ==> CleanNext(c, run[i], run[i + 1])
  }

  ghost predicate CleanNext(c: Config, s: State, s': State)
  {
    exists step :: Succeeds(step) && NextStep(c, s, step, s')
  }

  /** Nothing has gone wrong: only the return of the pager cancels, and it does so at the end. */
  predicate Unharmed(s: State)
  {
    && (s.bg.Ended? ==> s.bg.err.None?)
    && (s.fg.Returned? ==> s.fg.err.None? && s.bg.Ended?)
    && (s.cancelled ==> s.fg.Returned?)
  }

  lemma CleanStepKeeps(c: Config, s: State, step: Step, s': State)
    requires Unharmed(s) && Succeeds(step) && NextStep(c, s, step, s')
    ensures Unharmed(s')
  {
  }

  lemma {:induction false} CleanRunKeeps(c: Config, run: seq<State>, i: nat)
    requires c.bufferSize >= 0 && Limit(c) >= 0 && IsCleanRun(c, run) && i < |run|
    ensures Unharmed(run[i])
  {
    if i > 0 {
      CleanRunKeeps(c, run, i - 1);
      assert CleanNext(c, run[i - 1], run[i - 1 + 1]);
      var step :| Succeeds(step) && NextStep(c, run[i - 1], step, run[i]);
      CleanStepKeeps(c, run[i - 1], step, run[i]);
    }
  }

  /**
   Without failures and cancellation the pager cannot come to rest before it has passed on all
   items of all pages in order, and then it returns no error.
   */
  lemma PagerDelivers(c: Config, run: seq<State>)
    requires c.pages != [] && c.bufferSize >= 0 && Limit(c) >= 0 && IsCleanRun(c, run)
    requires !CanContinue(c, run[|run| - 1])
    ensures run[|run| - 1].fg == Returned(None)
    ensures run[|run| - 1].delivered == Flat(c.pages, |c.pages|)
  {
    PagerTerminates(c, run);
    CleanRunKeeps(c, run, |run| - 1);
    PagerSafe(c, run, |run| - 1);
  }

  // ------------------------------------------------------------------ failures

  /** Once the pager has returned it has returned for good, and so has the background goroutine. */
  lemma {:induction false} ResultsStay(c: Config, run: seq<State>, i: nat, j: nat)
    requires IsRun(c, run) && i <= j < |run|
    ensures run[i].fg.Returned? ==> run[j].fg == run[i].fg
    ensures run[i].bg.Ended? ==> run[j].bg == run[i].bg && run[j].sent == run[i].sent
    decreases j
  {
    if i < j {
      ResultsStay(c, run, i, j - 1);
      assert Next(c, run[j - 1], run[j - 1 + 1]);
    }
  }

  /** An error of the callback is returned at once. */
  lemma CallbackErrorReturned(c: Config, run: seq<State>, i: nat, j: nat, err: string)
    requires IsRun(c, run) && i < j < |run| && NextStep(c, run[i], PassItem(Some(err)), run[i + 1])
    ensures run[j].fg == Returned(Some(err))
  {
    ResultsStay(c, run, i + 1, j);
  }

  /** The caller does not cancel and no callback fails; list calls may fail. */
  predicate Undisturbed(step: Step)
  {
    step != Cancel && (step.PassItem? ==> step.failure.None?)
  }

  ghost predicate UndisturbedNext(c: Config, s: State, s': State)
  {
    exists step :: Undisturbed(step) && NextStep(c, s, step, s')
  }

  ghost predicate IsUndisturbedRun(c: Config, run: seq<State>)
  {
    IsRun(c, run) && forall i :: 0 <= i < |run| - 1 ==> UndisturbedNext(c, run[i], run[i + 1])
  }

  /** The pager returns what the background goroutine ended with, after all pages that it sent. */
  ghost predicate Promotes(c: Config, s: State)
  {
    && (s.cancelled ==> s.fg.Returned?)
    && (s.fg.Returned? ==> s.bg.Ended? && s.fg.err == s.bg.err && s.sent <= |c.pages|
                           && s.delivered == Flat(c.pages, s.sent))
  }

  lemma PromotesKept(c: Config, s: State, step: Step, s': State)
    requires Counts(c, s) && Delivers(c, s) && Promotes(c, s) && Undisturbed(step) && NextStep(c, s, step, s')
    ensures Promotes(c, s')
  {
  }

  lemma PromotesNext(c: Config, s: State, s': State)
    requires Invariant(c, s) && Promotes(c, s) && UndisturbedNext(c, s, s')
    ensures Promotes(c, s')
  {
    var step :| Undisturbed(step) && NextStep(c, s, step, s');
    PromotesKept(c, s, step, s');
  }

  lemma {:induction false} UndisturbedRunKeeps(c: Config, run: seq<State>, i: nat)
    requires c.pages != [] && c.bufferSize >= 0 && IsUndisturbedRun(c, run) && i < |run|
    ensures Promotes(c, run[i])
  {
    if i > 0 {
      UndisturbedRunKeeps(c, run, i - 1);
      RunKeeps(c, run, i - 1);
      assert UndisturbedNext(c, run[i - 1], run[i - 1 + 1]);
      PromotesNext(c, run[i - 1], run[i]);
    }
  }

  /** A failed list call is what an undisturbed pager returns, after all pages listed before it were passed on. */
  lemma ListErrorReturned(c: Config, run: seq<State>, i: nat, err: string)
    requires c.pages != [] && c.bufferSize >= 0 && IsUndisturbedRun(c, run) && i < |run| - 1
    requires NextStep(c, run[i], List(Some(err)), run[i + 1]) && !CanContinue(c, run[|run| - 1])
    ensures run[|run| - 1].fg == Returned(Some(err))
    ensures run[i].sent <= |c.pages| && run[|run| - 1].delivered == Flat(c.pages, run[i].sent)
  {
    PagerTerminates(c, run);
    UndisturbedRunKeeps(c, run, |run| - 1);
    ResultsStay(c, run, i + 1, |run| - 1);
  }

  /** After a cancellation only the page in progress is finished, and the pages listed so far are the last ones. */
  ghost predicate Stopping(c: Config, from: State, s: State)
  {
    && s.cancelled && s.calls == from.calls
    && (from.fg.Draining? ==>
          && from.finished < |c.pages|
          && (if s.fg.Draining? then s.finished == from.finished
              else s.delivered <= Flat(c.pages, from.finished + 1)))
    && (!from.fg.Draining? ==> s.delivered == from.delivered && !s.fg.Draining?)
  }

  lemma StoppingKept(c: Config, from: State, s: State, step: Step, s': State)
    requires Invariant(c, from) && Invariant(c, s) && Invariant(c, s')
    requires Stopping(c, from, s) && NextStep(c, s, step, s')
    ensures Stopping(c, from, s')
  {
    if s.fg.Draining? {
      var page, pos := c.pages[s.finished], s.fg.pos;
      assert Flat(c.pages, s.finished) + page == Flat(c.pages, s.finished + 1);
      if step.PassItem? {
        assert page[..pos + 1] == page[..pos] + [page[pos]];
        ConcatAssoc(Flat(c.pages, s.finished), page[..pos], [page[pos]]);
        assert s'.delivered == Flat(c.pages, s.finished) + page[..pos + 1] <= Flat(c.pages, s.finished + 1);
      }
    }
  }

  lemma StoppingStart(c: Config, s: State)
    requires Invariant(c, s) && s.cancelled
    ensures Stopping(c, s, s)
  {
  }

  lemma StoppingNext(c: Config, from: State, s: State, s': State)
    requires Invariant(c, from) && Invariant(c, s) && Invariant(c, s') && Stopping(c, from, s) && Next(c, s, s')
    ensures Stopping(c, from, s')
  {
    var step :| NextStep(c, s, step, s');
    StoppingKept(c, from, s, step, s');
  }

  /** A cancelled pager makes no further list call and passes on no item beyond the page in progress. */
  lemma {:induction false} CancelStops(c: Config, run: seq<State>, i: nat, j: nat)
    requires c.pages != [] && IsRun(c, run) && i <= j < |run| && run[i].cancelled
    ensures run[j].calls == run[i].calls
    ensures !run[i].fg.Draining? ==> run[j].delivered == run[i].delivered
    ensures run[i].fg.Draining? ==>
              run[i].finished < |c.pages| && run[j].delivered <= Flat(c.pages, run[i].finished + 1)
  {
    StoppingRun(c, run, i, j);
    RunKeeps(c, run, j);
    if run[j].fg.Draining? {
      assert c.pages[run[j].finished][..run[j].fg.pos] <= c.pages[run[j].finished];
    }
  }

  lemma {:induction false} StoppingRun(c: Config, run: seq<State>, i: nat, j: nat)
    requires c.pages != [] && IsRun(c, run) && i <= j < |run| && run[i].cancelled
    ensures Invariant(c, run[i]) && Invariant(c, run[j]) && Stopping(c, run[i], run[j])
    decreases j
  {
    RunKeeps(c, run, j);
    if i == j {
      StoppingStart(c, run[i]);
    } else {
      StoppingRun(c, run, i, j - 1);
      assert Next(c, run[j - 1], run[j - 1 + 1]);
      StoppingNext(c, run[i], run[j - 1], run[j]);
    }
  }

  /** A negative buffer or page size is reported before any list call is made. */
  lemma BadConfigReported(c: Config, run: seq<State>, i: nat)
    requires c.pages != [] && IsUndisturbedRun(c, run) && i < |run|
    ensures c.bufferSize < 0 || Limit(c) < 0 ==> run[i].calls == []
    ensures c.bufferSize < 0 ==> run[i].fg == Returned(Some("ListPager.PageBufferSize must be >= 0"))
    ensures c.bufferSize >= 0 && Limit(c) < 0 && !CanContinue(c, run[i]) ==>
              run[i].fg == Returned(Some("ListPager.PageSize must be >= 0"))
  {
    RunKeeps(c, run, i);
    ResultsStay(c, run, 0, i);
    if run[i].calls != [] {
      assert run[i].calls[0].limit >= 0;
    }
    if c.bufferSize >= 0 {
      UndisturbedRunKeeps(c, run, i);
      NoDeadlock(c, run[i]);
    }
  }
}
