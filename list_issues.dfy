/**
 * `list_issues::request`: cursor-driven pagination over the issues query with client-side
 * filtering by assignee and by state type.
 *
 * The service is an oracle: `server[i]` is what the round trip of the i-th request (counting from
 * zero) produced. The loop issues requests until a page says there is no next page, until a limit
 * is reached, or until a request fails; a request beyond the end of `server` has no modelled reply
 * and ends the run as `Unanswered`.
 */
module ListIssues {
  import opened Wrappers
  import opened Iterators
  import Client

  /** The `--sort` choice of the command line. */
  datatype SortBy = CreatedAt | UpdatedAt

  /** The schema's `PaginationOrderBy` enum. */
  datatype PaginationOrderBy = CreatedAtOrder | UpdatedAtOrder

  /** The workflow-state categories the state filter can select. */
  datatype IssueState = Started | Unstarted | Backlog | Completed | Canceled

  /** The wire values of the state `type` field that the filter knows. */
  const StateTags: set<string> := {"started", "unstarted", "backlog", "completed", "canceled"}

  /** Issues per page, the constant `PER_PAGE`. */
  const PerPage: nat := 100

  /** An opaque server-issued position in the result stream; never built or inspected here. */
  type Cursor = string

  datatype User = User(displayName: string)

  datatype WorkflowState = WorkflowState(name: string, stateType: string)

  /** The fields of an issue the core reads; the rest only feed the table printer. */
  datatype Issue = Issue(identifier: string, title: string, assignee: Option<User>, state: WorkflowState)

  datatype IssueEdge = IssueEdge(node: Issue)

  datatype PageInfo = PageInfo(hasNextPage: bool, endCursor: Option<Cursor>)

  datatype IssueConnection = IssueConnection(edges: seq<IssueEdge>, pageInfo: PageInfo)

  datatype ResponseData = ResponseData(issues: IssueConnection)

  /** The query variables of one page request. */
  datatype Variables = Variables(
    first: Option<nat>,
    orderBy: Option<PaginationOrderBy>,
    after: Option<Cursor>,
    before: Option<Cursor>,
    includeArchived: Option<bool>,
    last: Option<nat>)

  /** The two optional filters of a call; `None` switches a filter off. */
  datatype IssueFilter = IssueFilter(assignee: Option<string>, state: Option<seq<IssueState>>)

  /** How a call ends: with the result of `request`, or waiting for a reply the oracle does not hold. */
  datatype Outcome = Returned(result: Client.Result<seq<Issue>>) | Unanswered

  /** An outcome together with the number of requests issued to reach it. */
  datatype Run = Run(outcome: Outcome, requests: nat)

  // ---------------------------------------------------------------------------------------------
  // Mappings

  /** The `match sort_by` that picks the server-side order. */
  function OrderBy(sortBy: SortBy): PaginationOrderBy {
    match sortBy
    case CreatedAt => CreatedAtOrder
    case UpdatedAt => UpdatedAtOrder
  }

  /** The wire name of an order. */
  function OrderName(order: PaginationOrderBy): string {
    match order
    case CreatedAtOrder => "createdAt"
    case UpdatedAtOrder => "updatedAt"
  }

  /** The lower-case tag each `IssueState` is compared against in the state filter. */
  function Tag(s: IssueState): string {
    match s
    case Started => "started"
    case Unstarted => "unstarted"
    case Backlog => "backlog"
    case Completed => "completed"
    case Canceled => "canceled"
  }

  /** Creation time sorts by `createdAt`, update time by `updatedAt`, and the two never coincide. */
  lemma SortOrders()
    ensures OrderName(OrderBy(CreatedAt)) == "createdAt"
    ensures OrderName(OrderBy(UpdatedAt)) == "updatedAt"
    ensures OrderBy(CreatedAt) != OrderBy(UpdatedAt)
  {
  }

  /** The tag mapping is one-to-one, and onto exactly the five known tags. */
  lemma TagsAreABijection()
    ensures forall s, t :: Tag(s) == Tag(t) ==> s == t
    ensures forall s :: Tag(s) in StateTags
    ensures forall tag :: tag in StateTags ==> exists s :: Tag(s) == tag
  {
    forall tag | tag in StateTags
      ensures exists s :: Tag(s) == tag
    {
      if tag == "started" { assert Tag(Started) == tag; }
      else if tag == "unstarted" { assert Tag(Unstarted) == tag; }
      else if tag == "backlog" { assert Tag(Backlog) == tag; }
      else if tag == "completed" { assert Tag(Completed) == tag; }
      else { assert Tag(Canceled) == tag; }
    }
  }

  // ---------------------------------------------------------------------------------------------
  // Filters

  /** The assignee filter: with a name set, only issues whose assignee has exactly that display name. */
  predicate KeepAssignee(issue: Issue, assignee: Option<string>) {
    match assignee
    case None => true
    case Some(name) => issue.assignee.Some? && issue.assignee.value.displayName == name
  }

  /** `state.iter().any(...)`: some listed state's tag equals the issue's state type. */
  function AnyStateMatches(states: seq<IssueState>, stateType: string): (r: bool)
    ensures r <==> exists k :: 0 <= k < |states| && Tag(states[k]) == stateType
  {
    if states == [] then false
    else Tag(states[0]) == stateType || AnyStateMatches(states[1..], stateType)
  }

  /** The state filter: with a list set, only issues whose state type is the tag of a listed state. */
  predicate KeepState(issue: Issue, state: Option<seq<IssueState>>) {
    match state
    case None => true
    case Some(states) => AnyStateMatches(states, issue.state.stateType)
  }

  /** An issue passes a filter when it passes both of its parts. */
  predicate Keep(issue: Issue, f: IssueFilter) {
    KeepAssignee(issue, f.assignee) && KeepState(issue, f.state)
  }

  function AssigneeFilter(assignee: Option<string>): Issue -> bool {
    issue => KeepAssignee(issue, assignee)
  }

  function StateFilter(state: Option<seq<IssueState>>): Issue -> bool {
    issue => KeepState(issue, state)
  }

  function Keeper(f: IssueFilter): Issue -> bool {
    issue => Keep(issue, f)
  }

  /** `.map(|e| e.node)`: the issues of a page, in server order. */
  function Nodes(edges: seq<IssueEdge>): seq<Issue> {
    seq(|edges|, k requires 0 <= k < |edges| => edges[k].node)
  }

  /** What one page adds to the result: its nodes through the assignee filter, then the state filter. */
  function PassingNodes(page: IssueConnection, f: IssueFilter): seq<Issue> {
    Filter(Filter(Nodes(page.edges), AssigneeFilter(f.assignee)), StateFilter(f.state))
  }

  /** The two chained filters keep exactly the issues that pass both, in server order. */
  lemma PassingNodesIsConjunction(page: IssueConnection, f: IssueFilter)
    ensures PassingNodes(page, f) == Filter(Nodes(page.edges), Keeper(f))
    ensures IsSubsequence(PassingNodes(page, f), Nodes(page.edges))
  {
    FilterChain(Nodes(page.edges), AssigneeFilter(f.assignee), StateFilter(f.state), Keeper(f));
    FilterIsSubsequence(Nodes(page.edges), Keeper(f));
  }

  /** Unset filters let everything through; an assignee filter rejects unassigned issues; an empty state list rejects everything. */
  lemma FilterEdgeCases(issue: Issue, f: IssueFilter)
    ensures f.assignee.None? && f.state.None? ==> Keep(issue, f)
    ensures f.assignee.Some? && issue.assignee.None? ==> !Keep(issue, f)
    ensures f.state == Some([]) ==> !Keep(issue, f)
    ensures f.state.Some? && issue.state.stateType !in StateTags ==> !Keep(issue, f)
  {
  }

  /** The state filter keeps an issue iff its state type is the tag of a listed state. */
  lemma StateFilterMembership(issue: Issue, states: seq<IssueState>)
    ensures KeepState(issue, Some(states)) <==> exists s :: s in states && Tag(s) == issue.state.stateType
  {
  }

  // ---------------------------------------------------------------------------------------------
  // The pagination loop as a function of the oracle

  /** The variables of a page request: always `PER_PAGE` issues, the chosen order, and the cursor. */
  function PageRequest(order: PaginationOrderBy, after: Option<Cursor>): Variables {
    Variables(Some(PerPage), Some(order), after, None, None, None)
  }

  /**
   * The loop from the request with index `i` on, having accumulated `acc`: one reply is consumed
   * per step; a failure ends the run, a final page ends it, and so does reaching the limit.
   */
  function Drive(server: seq<Client.Reply<ResponseData>>, n: Option<nat>, f: IssueFilter, i: nat, acc: seq<Issue>): (run: Run)
    requires i <= |server|
    decreases |server| - i
  {
    if i == |server| then Run(Unanswered, i + 1)
    else
      match Client.Req(server[i])
      case Err(e) => Run(Returned(Client.Err(e)), i + 1)
      case Ok(data) =>
        var acc' := acc + PassingNodes(data.issues, f);
        if !data.issues.pageInfo.hasNextPage then Run(Returned(Client.Ok(acc')), i + 1)
        else if n.Some? && |acc'| >= n.value then Run(Returned(Client.Ok(acc')), i + 1)
        else Drive(server, n, f, i + 1, acc')
  }

  /** One step of the loop after request `i` got a page. */
  lemma DriveStep(server: seq<Client.Reply<ResponseData>>, n: Option<nat>, f: IssueFilter, i: nat, acc: seq<Issue>)
    requires i < |server| && Client.Req(server[i]).Ok?
    ensures var page := PageAt(server, i);
      var acc' := acc + PassingNodes(page, f);
      Drive(server, n, f, i, acc) ==
        if !page.pageInfo.hasNextPage || (n.Some? && |acc'| >= n.value) then Run(Returned(Client.Ok(acc')), i + 1)
        else Drive(server, n, f, i + 1, acc')
  {
  }

  /** A whole call: the loop from the first request with nothing accumulated. */
  function Paginate(server: seq<Client.Reply<ResponseData>>, n: Option<nat>, f: IssueFilter): Run {
    Drive(server, n, f, 0, [])
  }

  // ---------------------------------------------------------------------------------------------
  // The same run described without the loop

  /** The first `k` requests all got a page back. */
  predicate Answered(server: seq<Client.Reply<ResponseData>>, k: nat) {
    k <= |server| && forall j :: 0 <= j < k ==> Client.Req(server[j]).Ok?
  }

  /** The page returned for request `j`. */
  function PageAt(server: seq<Client.Reply<ResponseData>>, j: nat): IssueConnection
    requires j < |server| && Client.Req(server[j]).Ok?
  {
    Client.Req(server[j]).value.issues
  }

  /** The issues of the first `k` pages, concatenated in fetch order. */
  function AllNodes(server: seq<Client.Reply<ResponseData>>, k: nat): seq<Issue>
    requires Answered(server, k)
  {
    if k == 0 then [] else AllNodes(server, k - 1) + Nodes(PageAt(server, k - 1).edges)
  }

  /** The passing issues of the first `k` pages, page after page. */
  function Collected(server: seq<Client.Reply<ResponseData>>, f: IssueFilter, k: nat): seq<Issue>
    requires Answered(server, k)
  {
    if k == 0 then [] else Collected(server, f, k - 1) + PassingNodes(PageAt(server, k - 1), f)
  }

  /** Page `j` ends the loop: it is the last page, or the limit is reached once it is added. */
  predicate StopsAt(server: seq<Client.Reply<ResponseData>>, n: Option<nat>, f: IssueFilter, j: nat)
    requires Answered(server, j + 1)
  {
    !PageAt(server, j).pageInfo.hasNextPage || (n.Some? && |Collected(server, f, j + 1)| >= n.value)
  }

  /** The first `k` requests got pages and none of those pages ended the loop. */
  predicate ContinuesThrough(server: seq<Client.Reply<ResponseData>>, n: Option<nat>, f: IssueFilter, k: nat) {
    Answered(server, k) && forall j :: 0 <= j < k ==> !StopsAt(server, n, f, j)
  }

  /** The loop-free description of how a call ends after `run.requests` requests. */
  predicate Explains(server: seq<Client.Reply<ResponseData>>, n: Option<nat>, f: IssueFilter, run: Run) {
    match run.outcome
    case Unanswered =>
      run.requests == |server| + 1 && ContinuesThrough(server, n, f, |server|)
    case Returned(Ok(items)) =>
      1 <= run.requests <= |server| && ContinuesThrough(server, n, f, run.requests - 1) &&
      Answered(server, run.requests) && StopsAt(server, n, f, run.requests - 1) &&
      items == Collected(server, f, run.requests)
    case Returned(Err(e)) =>
      1 <= run.requests <= |server| && ContinuesThrough(server, n, f, run.requests - 1) &&
      Client.Req(server[run.requests - 1]) == Client.Err(e)
  }

  lemma {:induction false} DriveExplained(server: seq<Client.Reply<ResponseData>>, n: Option<nat>, f: IssueFilter, i: nat, acc: seq<Issue>)
    requires i <= |server| && ContinuesThrough(server, n, f, i) && acc == Collected(server, f, i)
    ensures i < Drive(server, n, f, i, acc).requests
    ensures Explains(server, n, f, Drive(server, n, f, i, acc))
    decreases |server| - i
  {
    if i == |server| {
      assert Drive(server, n, f, i, acc) == Run(Unanswered, i + 1);
    } else if Client.Req(server[i]).Err? {
      assert Drive(server, n, f, i, acc) == Run(Returned(Client.Err(Client.Req(server[i]).error)), i + 1);
    } else {
      assert Answered(server, i + 1);
      var acc' := acc + PassingNodes(PageAt(server, i), f);
      assert acc' == Collected(server, f, i + 1);
      if StopsAt(server, n, f, i) {
        assert Drive(server, n, f, i, acc) == Run(Returned(Client.Ok(acc')), i + 1);
      } else {
        assert Drive(server, n, f, i, acc) == Drive(server, n, f, i + 1, acc');
        assert ContinuesThrough(server, n, f, i + 1);
        DriveExplained(server, n, f, i + 1, acc');
      }
    }
  }

  /** Every call ends the way `Explains` describes. */
  lemma PaginateExplained(server: seq<Client.Reply<ResponseData>>, n: Option<nat>, f: IssueFilter)
    ensures Paginate(server, n, f).requests >= 1
    ensures Explains(server, n, f, Paginate(server, n, f))
  {
    DriveExplained(server, n, f, 0, []);
  }

  /** `Explains` fixes the run: no other outcome or request count fits the same replies. */
  lemma ExplanationIsUnique(server: seq<Client.Reply<ResponseData>>, n: Option<nat>, f: IssueFilter, a: Run, b: Run)
    requires Explains(server, n, f, a) && Explains(server, n, f, b)
    ensures a == b
  {
  }

  /** The loop-free description and the loop agree exactly. */
  lemma PaginateIffExplains(server: seq<Client.Reply<ResponseData>>, n: Option<nat>, f: IssueFilter, run: Run)
    ensures Paginate(server, n, f) == run <==> Explains(server, n, f, run)
  {
    PaginateExplained(server, n, f);
    if Explains(server, n, f, run) {
      ExplanationIsUnique(server, n, f, run, Paginate(server, n, f));
    }
  }

  // ---------------------------------------------------------------------------------------------
  // Properties of a call

  lemma {:induction false} CollectedIsFilteredNodes(server: seq<Client.Reply<ResponseData>>, f: IssueFilter, k: nat)
    requires Answered(server, k)
    ensures Collected(server, f, k) == Filter(AllNodes(server, k), Keeper(f))
  {
    if k > 0 {
      assert Answered(server, k - 1);
      var earlier, page := AllNodes(server, k - 1), PageAt(server, k - 1);
      calc {
        Collected(server, f, k);
        Collected(server, f, k - 1) + PassingNodes(page, f);
        { CollectedIsFilteredNodes(server, f, k - 1); PassingNodesIsConjunction(page, f); }
        Filter(earlier, Keeper(f)) + Filter(Nodes(page.edges), Keeper(f));
        { FilterAppend(earlier, Nodes(page.edges), Keeper(f)); }
        Filter(AllNodes(server, k), Keeper(f));
      }
    }
  }

  /** The result is the passing subsequence of all fetched issues in fetch order: nothing is reordered or repeated. */
  lemma ResultIsFilteredFetchOrder(server: seq<Client.Reply<ResponseData>>, n: Option<nat>, f: IssueFilter, items: seq<Issue>, k: nat)
    requires Paginate(server, n, f) == Run(Returned(Client.Ok(items)), k)
    ensures Answered(server, k)
    ensures items == Filter(AllNodes(server, k), Keeper(f))
    ensures IsSubsequence(items, AllNodes(server, k))
  {
    PaginateExplained(server, n, f);
    CollectedIsFilteredNodes(server, f, k);
    FilterIsSubsequence(AllNodes(server, k), Keeper(f));
  }

  /** A final page ends the call with everything accumulated, whatever the limit and however few items passed. */
  lemma FinalPageEndsCall(server: seq<Client.Reply<ResponseData>>, n: Option<nat>, f: IssueFilter, k: nat)
    requires 1 <= k && ContinuesThrough(server, n, f, k - 1) && Answered(server, k)
    requires !PageAt(server, k - 1).pageInfo.hasNextPage
    ensures Paginate(server, n, f) == Run(Returned(Client.Ok(Collected(server, f, k))), k)
  {
    PaginateIffExplains(server, n, f, Run(Returned(Client.Ok(Collected(server, f, k))), k));
  }

  /**
   * Stopping while the server still has pages happens only on the limit, and the result is then not
   * truncated: it has at least `n` items, and without its last page it had fewer (unless `n` is 0).
   */
  lemma LimitStop(server: seq<Client.Reply<ResponseData>>, n: Option<nat>, f: IssueFilter, items: seq<Issue>, k: nat)
    requires Paginate(server, n, f) == Run(Returned(Client.Ok(items)), k)
    ensures 1 <= k && Answered(server, k)
    ensures items == Collected(server, f, k - 1) + PassingNodes(PageAt(server, k - 1), f)
    ensures PageAt(server, k - 1).pageInfo.hasNextPage ==> n.Some? && |items| >= n.value
    ensures n.Some? && n.value > 0 ==> |Collected(server, f, k - 1)| < n.value
  {
    PaginateExplained(server, n, f);
    assert Answered(server, k - 1);
    if k >= 2 {
      assert !StopsAt(server, n, f, k - 2);
    }
  }

  /** A limit of zero still issues exactly one request. */
  lemma ZeroLimitSendsOneRequest(server: seq<Client.Reply<ResponseData>>, f: IssueFilter)
    ensures Paginate(server, Some(0), f).requests == 1
    ensures |server| >= 1 && Client.Req(server[0]).Ok? ==>
      Paginate(server, Some(0), f).outcome == Returned(Client.Ok(PassingNodes(PageAt(server, 0), f)))
  {
    if |server| >= 1 && Client.Req(server[0]).Ok? {
      assert [] + PassingNodes(PageAt(server, 0), f) == PassingNodes(PageAt(server, 0), f);
    }
  }

  /** A failed request ends the call with that request's error; the pages fetched before it are dropped. */
  lemma ErrorEndsCall(server: seq<Client.Reply<ResponseData>>, n: Option<nat>, f: IssueFilter, e: Client.ReqError, k: nat)
    requires Paginate(server, n, f) == Run(Returned(Client.Err(e)), k)
    ensures 1 <= k <= |server| && Answered(server, k - 1)
    ensures Client.Req(server[k - 1]) == Client.Err(e)
  {
    PaginateExplained(server, n, f);
  }

  /** A first page that already meets the limit while more pages exist ends the call with all of its passing issues. */
  lemma FirstPageMeetsLimit(server: seq<Client.Reply<ResponseData>>, m: nat, f: IssueFilter)
    requires |server| >= 1 && Client.Req(server[0]).Ok?
    requires PageAt(server, 0).pageInfo.hasNextPage && |PassingNodes(PageAt(server, 0), f)| >= m
    ensures Paginate(server, Some(m), f) == Run(Returned(Client.Ok(PassingNodes(PageAt(server, 0), f))), 1)
  {
    assert [] + PassingNodes(PageAt(server, 0), f) == PassingNodes(PageAt(server, 0), f);
  }

  /** A second request that fails ends the call with its error, and the first page's issues are not returned. */
  lemma SecondRequestFails(first: ResponseData, failure: string, rest: seq<Client.Reply<ResponseData>>, f: IssueFilter)
    requires first.issues.pageInfo.hasNextPage
    ensures Paginate([Client.Received(Client.Envelope(Some(first), None)), Client.SendFailed(failure)] + rest, None, f)
      == Run(Returned(Client.Err(Client.Transport(failure))), 2)
  {
    var server := [Client.Received(Client.Envelope(Some(first), None)), Client.SendFailed(failure)] + rest;
    assert Client.Req(server[0]) == Client.Ok(first);
    assert Client.Req(server[1]) == Client.Err(Client.Transport(failure));
    DriveStep(server, None, f, 0, []);
    assert Drive(server, None, f, 1, [] + PassingNodes(first.issues, f)) == Run(Returned(Client.Err(Client.Transport(failure))), 2);
  }

  /** If some page is final, the call ends by then: it never needs a reply the server has not given. */
  lemma FinalPageBoundsRequests(server: seq<Client.Reply<ResponseData>>, n: Option<nat>, f: IssueFilter, k: nat)
    requires k < |server| && Client.Req(server[k]).Ok? && !PageAt(server, k).pageInfo.hasNextPage
    ensures Paginate(server, n, f).outcome.Returned?
    ensures Paginate(server, n, f).requests <= k + 1
  {
    PaginateExplained(server, n, f);
    if Answered(server, k + 1) {
      assert StopsAt(server, n, f, k);
    }
    assert !ContinuesThrough(server, n, f, k + 1);
  }

  // ---------------------------------------------------------------------------------------------
  // The loop itself

  /** The cursor of request `j`: none for the first, then the end cursor of the page before. */
  function CursorFor(server: seq<Client.Reply<ResponseData>>, j: nat): Option<Cursor>
    requires Answered(server, j)
  {
    if j == 0 then None else PageAt(server, j - 1).pageInfo.endCursor
  }

  /**
   * `sent` lists the variables of the requests of a call, in order: each asks for `PER_PAGE` issues
   * in the same order, the first with no cursor and every later one with the end cursor of the
   * page just received.
   */
  predicate IsRequestTrace(server: seq<Client.Reply<ResponseData>>, order: PaginationOrderBy, sent: seq<Variables>) {
    |sent| <= |server| + 1 && (|sent| == 0 || Answered(server, |sent| - 1)) &&
    forall j :: 0 <= j < |sent| ==> sent[j] == PageRequest(order, CursorFor(server, j))
  }

  lemma TraceExtends(server: seq<Client.Reply<ResponseData>>, order: PaginationOrderBy, sent: seq<Variables>)
    requires IsRequestTrace(server, order, sent) && Answered(server, |sent|)
    ensures IsRequestTrace(server, order, sent + [PageRequest(order, CursorFor(server, |sent|))])
  {
  }

  /** Every request of a call has the same page size and order; the cursor alone moves. */
  lemma RequestsDifferOnlyInCursor(server: seq<Client.Reply<ResponseData>>, order: PaginationOrderBy, sent: seq<Variables>)
    requires IsRequestTrace(server, order, sent)
    ensures forall j :: 0 <= j < |sent| ==>
      sent[j].first == Some(100) && sent[j].orderBy == Some(order) &&
      sent[j].before == None && sent[j].last == None && sent[j].includeArchived == None
    ensures |sent| > 0 ==> sent[0].after == None
    ensures forall j :: 1 <= j < |sent| ==> Client.Req(server[j - 1]).Ok? && sent[j].after == PageAt(server, j - 1).pageInfo.endCursor
  {
  }

  /**
   * `list_issues::request`. Returns how the call ended and the variables of every request it sent,
   * in order.
   */
  method Request(server: seq<Client.Reply<ResponseData>>, n: Option<nat>, sortBy: SortBy,
                 assignee: Option<string>, state: Option<seq<IssueState>>)
    returns (outcome: Outcome, sent: seq<Variables>)
    ensures Run(outcome, |sent|) == Paginate(server, n, IssueFilter(assignee, state))
    ensures IsRequestTrace(server, OrderBy(sortBy), sent)
  {
    var filter := IssueFilter(assignee, state);
    var order := OrderBy(sortBy);
    var i := 0;
    var after: Option<Cursor> := None;
    var result: seq<Issue> := [];
    sent := [];
    while true
      invariant i <= |server| && |sent| == i && Answered(server, i)
      invariant Drive(server, n, filter, i, result) == Paginate(server, n, filter)
      invariant after == CursorFor(server, i)
      invariant IsRequestTrace(server, order, sent)
      decreases |server| - i
    {
      TraceExtends(server, order, sent);
      sent := sent + [PageRequest(order, after)];
      if i == |server| {
        outcome := Unanswered;
        return;
      }
      var response := Client.Req(server[i]);
      if response.Err? {
        outcome := Returned(Client.Err(response.error));
        return;
      }
      var page := response.value.issues;
      DriveStep(server, n, filter, i, result);
      result := result + PassingNodes(page, filter);
      if !page.pageInfo.hasNextPage {
        outcome := Returned(Client.Ok(result));
        return;
      }
      if n.Some? && |result| >= n.value {
        outcome := Returned(Client.Ok(result));
        return;
      }
      assert Answered(server, i + 1);
      i := i + 1;
      after := page.pageInfo.endCursor;
    }
  }
}
