/** The task-fetch layer of the dashboard (src/services/clickup.ts): the paginated task
    download, the query each page request carries, the list-level counters and
    concatenations built on it, and the "Cliente" custom-field lookup.

    The HTTP service is an input: for each endpoint path, the sequence of outcomes of
    its page requests (page 0, 1, 2, ...); a request past the end of the sequence
    receives an empty page. */
module ClickUpService {
  import opened Common
  import opened JsString
  import opened ClickUpTypes

  const ApiBase: string := "/api/clickup"

  /** The outcome of one page request: the page's `tasks` (an empty array when the body
      carries none), or a failure (a non-ok status, a network error or an unreadable
      body), which the loop catches. */
  datatype PageOutcome = Page(tasks: seq<Task>) | Failed

  /** For each endpoint path, the outcomes of its page requests in request order. */
  type Server = string -> seq<PageOutcome>

  /** The outcome of the request for `page`; past the end of `pages` the page is empty. */
  function Respond(pages: seq<PageOutcome>, page: nat): PageOutcome
  {
    if page < |pages| then pages[page] else Page([])
  }

  /** Whether a page outcome lets the loop go on: a page with at least one task. */
  predicate Continues(o: PageOutcome)
  {
    o.Page? && |o.tasks| > 0
  }

  function PageTasks(o: PageOutcome): seq<Task>
  {
    if o.Page? then o.tasks else []
  }

  // ================================================================ query strings

  /** A value of the caller's parameter record. */
  datatype ParamValue = PStr(s: string) | PNum(n: int) | PBool(b: bool)

  /** `String(value)` for a parameter value. */
  function ParamString(v: ParamValue): string
  {
    match v
    case PStr(s) => s
    case PNum(n) => IntToString(n)
    case PBool(b) => if b then "true" else "false"
  }

  /** The name/value list of a `URLSearchParams`, in order. */
  type Query = seq<(string, string)>

  /** A page request to the proxy: the path, the caller's parameters and the page number,
      which together determine the query string the request carries. */
  datatype Request = Request(path: string, params: seq<(string, ParamValue)>, page: nat) {
    function Query(): Query
    {
      PageQuery(params, page)
    }
  }

  /** `new URLSearchParams()` followed by `append(key, String(value))` for every entry of
      the caller's record, in the record's key order. */
  function Entries(params: seq<(string, ParamValue)>): Query
  {
    if |params| == 0 then [] else [(params[0].0, ParamString(params[0].1))] + Entries(params[1..])
  }

  /** `getAll(name)`: the values stored under `name`, in order. */
  function ValuesOf(q: Query, name: string): seq<string>
  {
    if |q| == 0 then []
    else (if q[0].0 == name then [q[0].1] else []) + ValuesOf(q[1..], name)
  }

  /** The entries whose name is not in `names`, in order. */
  function Without(q: Query, names: set<string>): Query
  {
    if |q| == 0 then []
    else (if q[0].0 in names then [] else [q[0]]) + Without(q[1..], names)
  }

  predicate HasName(q: Query, name: string)
  {
    exists i :: 0 <= i < |q| && q[i].0 == name
  }

  lemma {:induction false} ValuesOfAbsent(q: Query, name: string)
    requires !HasName(q, name)
    ensures ValuesOf(q, name) == []
  {
    if |q| > 0 {
      ValuesOfAbsent(q[1..], name);
    }
  }

  lemma {:induction false} ValuesOfWithout(q: Query, names: set<string>, name: string)
    ensures ValuesOf(Without(q, names), name) == if name in names then [] else ValuesOf(q, name)
  {
    if |q| > 0 {
      ValuesOfWithout(q[1..], names, name);
      var head := if q[0].0 in names then [] else [q[0]];
      ValuesOfAppend(head, Without(q[1..], names), name);
    }
  }

  lemma ValuesOfSingle(e: (string, string), name: string)
    ensures ValuesOf([e], name) == if e.0 == name then [e.1] else []
  {
    assert [e][1..] == [];
  }

  lemma WithoutSingle(e: (string, string), names: set<string>)
    ensures Without([e], names) == if e.0 in names then [] else [e]
  {
    assert [e][1..] == [];
  }

  lemma {:induction false} ValuesOfAppend(a: Query, b: Query, name: string)
    ensures ValuesOf(a + b, name) == ValuesOf(a, name) + ValuesOf(b, name)
  {
    if |a| == 0 {
      assert a + b == b;
    } else {
      assert (a + b)[0] == a[0];
      assert (a + b)[1..] == a[1..] + b;
      ValuesOfAppend(a[1..], b, name);
      var head := if a[0].0 == name then [a[0].1] else [];
      calc {
        ValuesOf(a + b, name);
        head + ValuesOf(a[1..] + b, name);
        head + (ValuesOf(a[1..], name) + ValuesOf(b, name));
        (head + ValuesOf(a[1..], name)) + ValuesOf(b, name);
      }
    }
  }

  lemma {:induction false} WithoutAppend(a: Query, b: Query, names: set<string>)
    ensures Without(a + b, names) == Without(a, names) + Without(b, names)
  {
    if |a| == 0 {
      assert a + b == b;
    } else {
      assert (a + b)[0] == a[0];
      assert (a + b)[1..] == a[1..] + b;
      WithoutAppend(a[1..], b, names);
      var head := if a[0].0 in names then [] else [a[0]];
      calc {
        Without(a + b, names);
        head + Without(a[1..] + b, names);
        head + (Without(a[1..], names) + Without(b, names));
        (head + Without(a[1..], names)) + Without(b, names);
      }
    }
  }

  lemma {:induction false} WithoutTwice(q: Query, inner: set<string>, outer: set<string>)
    requires inner <= outer
    ensures Without(Without(q, inner), outer) == Without(q, outer)
  {
    if |q| > 0 {
      WithoutTwice(q[1..], inner, outer);
      var head := if q[0].0 in inner then [] else [q[0]];
      WithoutAppend(head, Without(q[1..], inner), outer);
    }
  }

  /** The first entry named `name` takes `value`; the later ones named `name` are removed. */
  function ReplaceFirst(q: Query, name: string, value: string): Query
    requires HasName(q, name)
  {
    if q[0].0 == name then [(name, value)] + Without(q[1..], {name})
    else
      assert HasName(q[1..], name) by {
        var i :| 0 <= i < |q| && q[i].0 == name;
        assert q[1..][i - 1].0 == name;
      }
      [q[0]] + ReplaceFirst(q[1..], name, value)
  }

  /** `URLSearchParams.set(name, value)`. */
  function SetParam(q: Query, name: string, value: string): (r: Query)
    ensures ValuesOf(r, name) == [value]
  {
    if HasName(q, name) then
      ReplaceFirstSpec(q, name, value, name, {});
      ReplaceFirst(q, name, value)
    else
      ValuesOfAbsent(q, name);
      ValuesOfAppend(q, [(name, value)], name);
      ValuesOfSingle((name, value), name);
      q + [(name, value)]
  }

  /** Replacing the first occurrence leaves `name` with exactly `value` and no other
      name's values changed; apart from `name`, the entries are those of `q` in order. */
  lemma {:induction false} ReplaceFirstSpec(q: Query, name: string, value: string, other: string, names: set<string>)
    requires HasName(q, name)
    ensures ValuesOf(ReplaceFirst(q, name, value), other) == if other == name then [value] else ValuesOf(q, other)
    ensures name in names ==> Without(ReplaceFirst(q, name, value), names) == Without(q, names)
  {
    assert q == [q[0]] + q[1..];
    ValuesOfAppend([q[0]], q[1..], other);
    ValuesOfSingle(q[0], other);
    WithoutAppend([q[0]], q[1..], names);
    WithoutSingle(q[0], names);
    if q[0].0 == name {
      var w := Without(q[1..], {name});
      ValuesOfAppend([(name, value)], w, other);
      ValuesOfSingle((name, value), other);
      ValuesOfWithout(q[1..], {name}, other);
      WithoutAppend([(name, value)], w, names);
      WithoutSingle((name, value), names);
      if name in names {
        WithoutTwice(q[1..], {name}, names);
      }
    } else {
      assert HasName(q[1..], name) by {
        var i :| 0 <= i < |q| && q[i].0 == name;
        assert q[1..][i - 1].0 == name;
      }
      var rest := ReplaceFirst(q[1..], name, value);
      ReplaceFirstSpec(q[1..], name, value, other, names);
      ValuesOfAppend([q[0]], rest, other);
      WithoutAppend([q[0]], rest, names);
    }
  }

  /** After `set(name, value)`, `name` holds exactly `value` (at the place of its first
      occurrence, or appended), the other names keep their values, and the entries with
      other names are those of `q` in their order. */
  lemma SetParamSpec(q: Query, name: string, value: string, other: string, names: set<string>)
    ensures ValuesOf(SetParam(q, name, value), other) == if other == name then [value] else ValuesOf(q, other)
    ensures name in names ==> Without(SetParam(q, name, value), names) == Without(q, names)
  {
    if HasName(q, name) {
      ReplaceFirstSpec(q, name, value, other, names);
    } else {
      ValuesOfAbsent(q, name);
      ValuesOfAppend(q, [(name, value)], other);
      ValuesOfSingle((name, value), other);
      WithoutAppend(q, [(name, value)], names);
      WithoutSingle((name, value), names);
    }
  }

  /** The three parameters every page request forces. */
  const ForcedParams: set<string> := {"page", "subtasks", "include_closed"}

  /** The query of the request for `page`: the caller's entries, then `page`, `subtasks`
      and `include_closed` set, so that each of the three holds once, with the forced value,
      whatever the caller passed under those names. */
  function PageQuery(params: seq<(string, ParamValue)>, page: nat): (r: Query)
    ensures ValuesOf(r, "page") == [NatToString(page)]
    ensures ValuesOf(r, "subtasks") == ["true"]
    ensures ValuesOf(r, "include_closed") == ["true"]
  {
    var q := Entries(params);
    var withPage := SetParam(q, "page", NatToString(page));
    var withSubtasks := SetParam(withPage, "subtasks", "true");
    SetParamSpec(withPage, "subtasks", "true", "page", {});
    SetParamSpec(withSubtasks, "include_closed", "true", "page", {});
    SetParamSpec(withSubtasks, "include_closed", "true", "subtasks", {});
    SetParam(withSubtasks, "include_closed", "true")
  }

  /** Besides the three forced parameters (see `PageQuery`), the caller's entries under any
      other name are kept, with their values and in their order. */
  lemma PageQueryKeepsCallerParams(params: seq<(string, ParamValue)>, page: nat, other: string)
    ensures other !in ForcedParams ==> ValuesOf(PageQuery(params, page), other) == ValuesOf(Entries(params), other)
    ensures Without(PageQuery(params, page), ForcedParams) == Without(Entries(params), ForcedParams)
  {
    var q0 := Entries(params);
    var q1 := SetParam(q0, "page", NatToString(page));
    var q2 := SetParam(q1, "subtasks", "true");
    SetParamSpec(q0, "page", NatToString(page), other, ForcedParams);
    SetParamSpec(q1, "subtasks", "true", other, ForcedParams);
    SetParamSpec(q2, "include_closed", "true", other, ForcedParams);
  }

  // ================================================================ pagination

  /** The tasks the paginated fetch returns: the pages in order, up to the first page
      that is empty or failed. */
  function Collected(pages: seq<PageOutcome>): seq<Task>
  {
    if |pages| == 0 || !Continues(pages[0]) then [] else pages[0].tasks + Collected(pages[1..])
  }

  /** The number of non-empty pages received before the loop stopped. */
  function LeadingPages(pages: seq<PageOutcome>): (n: nat)
    ensures n <= |pages|
    ensures forall j :: 0 <= j < n ==> Continues(pages[j])
    ensures n < |pages| ==> !Continues(pages[n])
  {
    if |pages| == 0 || !Continues(pages[0]) then 0 else 1 + LeadingPages(pages[1..])
  }

  /** The tasks of every page of `pages`, concatenated in order. */
  function Flatten(pages: seq<PageOutcome>): seq<Task>
  {
    if |pages| == 0 then [] else Flatten(pages[..|pages| - 1]) + PageTasks(pages[|pages| - 1])
  }

  lemma {:induction false} FlattenCons(o: PageOutcome, pages: seq<PageOutcome>)
    ensures Flatten([o] + pages) == PageTasks(o) + Flatten(pages)
    decreases |pages|
  {
    if |pages| > 0 {
      var all := [o] + pages;
      assert all[..|all| - 1] == [o] + pages[..|pages| - 1];
      FlattenCons(o, pages[..|pages| - 1]);
    }
  }

  /** The result is the concatenation, in page order, of every page received before the
      first empty or failed one. */
  lemma {:induction false} CollectedIsLeadingPages(pages: seq<PageOutcome>)
    ensures Collected(pages) == Flatten(pages[..LeadingPages(pages)])
  {
    if |pages| > 0 && Continues(pages[0]) {
      CollectedIsLeadingPages(pages[1..]);
      var n := LeadingPages(pages);
      assert pages[..n] == [pages[0]] + pages[1..][..n - 1];
      FlattenCons(pages[0], pages[1..][..n - 1]);
    }
  }

  /** Nothing after the stopping page is read, and a sequence that runs out behaves as if
      it ended with an empty page. */
  lemma {:induction false} CollectedIgnoresLaterPages(pages: seq<PageOutcome>, n: nat)
    requires LeadingPages(pages) <= n <= |pages|
    ensures Collected(pages[..n]) == Collected(pages)
    ensures LeadingPages(pages[..n]) == LeadingPages(pages)
  {
    var m := pages[..n];
    if n > 0 {
      assert m[0] == pages[0];
    }
    if |pages| > 0 && Continues(pages[0]) {
      assert m[1..] == pages[1..][..n - 1];
      CollectedIgnoresLaterPages(pages[1..], n - 1);
    }
  }

  /** A failed request ends the loop with exactly the tasks gathered so far. */
  lemma CollectedStopsAtFailure(pages: seq<PageOutcome>, k: nat)
    requires k < |pages| && pages[k].Failed?
    requires forall j :: 0 <= j < k ==> Continues(pages[j])
    ensures LeadingPages(pages) == k
    ensures Collected(pages) == Flatten(pages[..k])
  {
    LeadingPagesIsFirstStop(pages, k);
    CollectedIsLeadingPages(pages);
  }

  lemma {:induction false} LeadingPagesIsFirstStop(pages: seq<PageOutcome>, k: nat)
    requires k < |pages| && !Continues(pages[k])
    requires forall j :: 0 <= j < k ==> Continues(pages[j])
    ensures LeadingPages(pages) == k
  {
    if k > 0 {
      LeadingPagesIsFirstStop(pages[1..], k - 1);
    }
  }

  /** One step of the loop: a non-empty page contributes its tasks and one more page;
      any other outcome contributes nothing. */
  lemma CollectedStep(pages: seq<PageOutcome>, page: nat)
    requires page <= |pages|
    ensures Continues(Respond(pages, page)) ==>
      && Collected(pages[page..]) == Respond(pages, page).tasks + Collected(pages[page + 1..])
      && LeadingPages(pages[page..]) == 1 + LeadingPages(pages[page + 1..])
    ensures !Continues(Respond(pages, page)) ==>
      Collected(pages[page..]) == [] && LeadingPages(pages[page..]) == 0
  {
    if page < |pages| {
      assert pages[page..][0] == pages[page];
      assert pages[page..][1..] == pages[page + 1..];
    }
  }

  /** `fetchPaginatedTasks(endpoint, params)`: requests page 0, 1, 2, ... until a page is
      empty or a request fails, and returns the tasks of the non-empty pages. It issues
      one request per non-empty page plus the one that stopped it, and request `i` asks
      for page `i`. */
  method FetchPaginatedTasks(endpoint: string, params: seq<(string, ParamValue)>, pages: seq<PageOutcome>)
    returns (allTasks: seq<Task>, requests: seq<Request>)
    ensures allTasks == Collected(pages)
    ensures |requests| == LeadingPages(pages) + 1
    ensures forall i :: 0 <= i < |requests| ==> requests[i] == Request(ApiBase + endpoint, params, i)
  {
    allTasks := [];
    requests := [];
    var page: nat := 0;
    var hasMore := true;
    while hasMore
      invariant page <= |pages|
      invariant hasMore ==> allTasks + Collected(pages[page..]) == Collected(pages)
      invariant hasMore ==> page + LeadingPages(pages[page..]) == LeadingPages(pages)
      invariant hasMore ==> |requests| == page
      invariant !hasMore ==> allTasks == Collected(pages)
      invariant !hasMore ==> |requests| == LeadingPages(pages) + 1
      invariant forall i :: 0 <= i < |requests| ==> requests[i] == Request(ApiBase + endpoint, params, i)
      decreases |pages| - page + (if hasMore then 1 else 0)
    {
      requests := requests + [Request(ApiBase + endpoint, params, page)];
      var response := Respond(pages, page);
      CollectedStep(pages, page);
      match response {
        case Failed =>
          hasMore := false;
        case Page(tasks) =>
          if |tasks| == 0 {
            hasMore := false;
          } else {
            allTasks := allTasks + tasks;
            page := page + 1;
          }
      }
    }
  }

  /** Pages of 50, 50 and 0 tasks give 100 tasks after three requests. */
  lemma FiftyFiftyEmpty(t: Task)
    ensures var p := Page(seq(50, _ => t));
            |Collected([p, p, Page([])])| == 100 && LeadingPages([p, p, Page([])]) + 1 == 3
  {
    var p := Page(seq(50, _ => t));
    var pages := [p, p, Page([])];
    assert pages[1..] == [p, Page([])];
    assert pages[1..][1..] == [Page([])];
    assert Collected([Page([])]) == [] && LeadingPages([Page([])]) == 0;
    assert Collected([p, Page([])]) == p.tasks && LeadingPages([p, Page([])]) == 1;
  }

  // ================================================================ list fetches

  /** The identifiers of the configured lists (the `CLICKUP_LISTS` constants). */
  datatype ListConfig = ListConfig(
    accOperacaoMacro: string,
    accReunioesPesquisas: string,
    accFiltroDemandas: string,
    gtGestaoTrafego: string,
    gcGestaoConteudo: string,
    tickets: string,
    dsnAtiveConecta: string,
    acaoMeteorica: string)

  function TaskEndpoint(listId: string): string
  {
    "/list/" + listId + "/task"
  }

  /** The caller parameters of `fetchTasks`: `archived=false`, plus
      `include_custom_fields=true` when asked for. */
  function TaskParams(includeCustomFields: bool): seq<(string, ParamValue)>
  {
    [("archived", PStr("false"))] + if includeCustomFields then [("include_custom_fields", PStr("true"))] else []
  }

  /** The caller entries of `fetchTasks`: `archived=false`, and `include_custom_fields=true`
      exactly when custom fields are asked for. */
  lemma TaskParamsEntries(includeCustomFields: bool)
    ensures ValuesOf(Entries(TaskParams(includeCustomFields)), "archived") == ["false"]
    ensures ValuesOf(Entries(TaskParams(includeCustomFields)), "include_custom_fields")
            == if includeCustomFields then ["true"] else []
  {
    var params := TaskParams(includeCustomFields);
    if includeCustomFields {
      assert params[1..] == [("include_custom_fields", PStr("true"))];
      assert Entries(params[1..]) == [("include_custom_fields", "true")];
      assert Entries(params) == [("archived", "false"), ("include_custom_fields", "true")];
      ValuesOfAppend([("archived", "false")], [("include_custom_fields", "true")], "archived");
      ValuesOfAppend([("archived", "false")], [("include_custom_fields", "true")], "include_custom_fields");
    } else {
      assert Entries(params) == [("archived", "false")];
    }
    ValuesOfSingle(("archived", "false"), "archived");
    ValuesOfSingle(("archived", "false"), "include_custom_fields");
    ValuesOfSingle(("include_custom_fields", "true"), "archived");
    ValuesOfSingle(("include_custom_fields", "true"), "include_custom_fields");
  }

  /** Every page query of `fetchTasks` asks for unarchived tasks, for custom fields exactly
      when requested, and for subtasks and closed tasks. */
  lemma TaskQueryParams(includeCustomFields: bool, page: nat)
    ensures ValuesOf(PageQuery(TaskParams(includeCustomFields), page), "archived") == ["false"]
    ensures ValuesOf(PageQuery(TaskParams(includeCustomFields), page), "include_custom_fields")
            == if includeCustomFields then ["true"] else []
    ensures ValuesOf(PageQuery(TaskParams(includeCustomFields), page), "subtasks") == ["true"]
    ensures ValuesOf(PageQuery(TaskParams(includeCustomFields), page), "include_closed") == ["true"]
    ensures ValuesOf(PageQuery(TaskParams(includeCustomFields), page), "page") == [NatToString(page)]
  {
    TaskParamsEntries(includeCustomFields);
    PageQueryKeepsCallerParams(TaskParams(includeCustomFields), page, "archived");
    PageQueryKeepsCallerParams(TaskParams(includeCustomFields), page, "include_custom_fields");
  }

  /** `fetchTasks(listId, includeCustomFields)`: the paginated fetch of the list's task
      endpoint. No request of it is skipped for an empty `listId`. */
  method FetchTasks(listId: string, includeCustomFields: bool, server: Server)
    returns (tasks: seq<Task>, requests: seq<Request>)
    ensures tasks == Collected(server(TaskEndpoint(listId)))
    ensures |requests| == LeadingPages(server(TaskEndpoint(listId))) + 1
    ensures forall i :: 0 <= i < |requests| ==>
      requests[i] == Request(ApiBase + TaskEndpoint(listId), TaskParams(includeCustomFields), i)
  {
    var params := TaskParams(includeCustomFields);
    tasks, requests := FetchPaginatedTasks(TaskEndpoint(listId), params, server(TaskEndpoint(listId)));
  }

  /** `fetchListCount(listId)`: the number of tasks the list's fetch returns. */
  method FetchListCount(listId: string, server: Server) returns (n: nat)
    ensures n == |Collected(server(TaskEndpoint(listId)))|
  {
    var tasks, _ := FetchTasks(listId, false, server);
    n := |tasks|;
  }

  method FetchActiveClientsCount(lists: ListConfig, server: Server) returns (n: nat)
    ensures n == |Collected(server(TaskEndpoint(lists.accOperacaoMacro)))|
  {
    n := FetchListCount(lists.accOperacaoMacro, server);
  }

  // ---------------------------------------------------------------- active counts

  /** A task counts as active when its status label is neither exactly `complete` nor
      exactly `closed` (case-sensitive). */
  predicate IsActive(t: Task)
  {
    t.status != "complete" && t.status != "closed"
  }

  /** `tasks.filter(t => t.status.status !== 'complete' && t.status.status !== 'closed')`. */
  function ActiveTasks(tasks: seq<Task>): (r: seq<Task>)
    ensures forall t :: t in r ==> t in tasks && IsActive(t)
    ensures forall t :: t in tasks && IsActive(t) ==> t in r
  {
    if |tasks| == 0 then []
    else (if IsActive(tasks[0]) then [tasks[0]] else []) + ActiveTasks(tasks[1..])
  }

  /** The number of tasks whose status is `complete` or `closed`. */
  function DoneCount(tasks: seq<Task>): nat
  {
    if |tasks| == 0 then 0
    else (if tasks[0].status == "complete" || tasks[0].status == "closed" then 1 else 0) + DoneCount(tasks[1..])
  }

  /** Active and done tasks partition the collection: active = total - done. */
  lemma {:induction false} ActivePlusDone(tasks: seq<Task>)
    ensures |ActiveTasks(tasks)| + DoneCount(tasks) == |tasks|
  {
    if |tasks| > 0 {
      ActivePlusDone(tasks[1..]);
    }
  }

  lemma {:induction false} ActiveTasksAppend(a: seq<Task>, b: seq<Task>)
    ensures ActiveTasks(a + b) == ActiveTasks(a) + ActiveTasks(b)
  {
    if |a| == 0 {
      assert a + b == b;
    } else {
      assert (a + b)[0] == a[0];
      assert (a + b)[1..] == a[1..] + b;
      ActiveTasksAppend(a[1..], b);
      var head := if IsActive(a[0]) then [a[0]] else [];
      calc {
        ActiveTasks(a + b);
        head + ActiveTasks(a[1..] + b);
        head + (ActiveTasks(a[1..]) + ActiveTasks(b));
        (head + ActiveTasks(a[1..])) + ActiveTasks(b);
      }
    }
  }

  /** `fetchPendingMeetingsCount()`: active tasks of the meetings list. */
  method FetchPendingMeetingsCount(lists: ListConfig, server: Server) returns (n: nat)
    ensures n == |ActiveTasks(Collected(server(TaskEndpoint(lists.accReunioesPesquisas))))|
    ensures n == |Collected(server(TaskEndpoint(lists.accReunioesPesquisas)))|
                 - DoneCount(Collected(server(TaskEndpoint(lists.accReunioesPesquisas))))
  {
    var tasks, _ := FetchTasks(lists.accReunioesPesquisas, false, server);
    n := |ActiveTasks(tasks)|;
    ActivePlusDone(tasks);
  }

  /** `fetchDemandsFilterCount()`: active tasks of the demand-triage list. */
  method FetchDemandsFilterCount(lists: ListConfig, server: Server) returns (n: nat)
    ensures n == |ActiveTasks(Collected(server(TaskEndpoint(lists.accFiltroDemandas))))|
    ensures n == |Collected(server(TaskEndpoint(lists.accFiltroDemandas)))|
                 - DoneCount(Collected(server(TaskEndpoint(lists.accFiltroDemandas))))
  {
    var tasks, _ := FetchTasks(lists.accFiltroDemandas, false, server);
    n := |ActiveTasks(tasks)|;
    ActivePlusDone(tasks);
  }

  method FetchTrafficPipeline(lists: ListConfig, server: Server) returns (tasks: seq<Task>)
    ensures tasks == Collected(server(TaskEndpoint(lists.gtGestaoTrafego)))
  {
    var requests;
    tasks, requests := FetchTasks(lists.gtGestaoTrafego, false, server);
  }

  method FetchClientTasks(listId: string, server: Server) returns (tasks: seq<Task>)
    ensures tasks == Collected(server(TaskEndpoint(listId)))
  {
    var requests;
    tasks, requests := FetchTasks(listId, false, server);
  }

  /** `fetchMacroOperationTasks()`: the client records, fetched with their custom fields. */
  method FetchMacroOperationTasks(lists: ListConfig, server: Server) returns (tasks: seq<Task>, requests: seq<Request>)
    ensures tasks == Collected(server(TaskEndpoint(lists.accOperacaoMacro)))
    ensures forall i :: 0 <= i < |requests| ==>
      ValuesOf(requests[i].Query(), "include_custom_fields") == ["true"]
  {
    tasks, requests := FetchTasks(lists.accOperacaoMacro, true, server);
    forall i | 0 <= i < |requests|
      ensures ValuesOf(requests[i].Query(), "include_custom_fields") == ["true"]
    {
      TaskQueryParams(true, i);
    }
  }

  // ---------------------------------------------------------------- all open tasks

  /** The lists `fetchAllOpenTasks` reads, in the order it reads them. */
  function OpenTaskLists(lists: ListConfig): seq<string>
  {
    [lists.accFiltroDemandas, lists.gtGestaoTrafego, lists.gcGestaoConteudo,
     lists.tickets, lists.dsnAtiveConecta, lists.acaoMeteorica]
  }

  /** The tasks of each of `listIds`, concatenated in that order. */
  function CollectedAll(listIds: seq<string>, server: Server): seq<Task>
  {
    if |listIds| == 0 then []
    else CollectedAll(listIds[..|listIds| - 1], server) + Collected(server(TaskEndpoint(listIds[|listIds| - 1])))
  }

  /** The six open-task lists, collected in order. */
  lemma OpenTasksInOrder(lists: ListConfig, server: Server)
    ensures CollectedAll(OpenTaskLists(lists), server)
            == Collected(server(TaskEndpoint(lists.accFiltroDemandas)))
             + Collected(server(TaskEndpoint(lists.gtGestaoTrafego)))
             + Collected(server(TaskEndpoint(lists.gcGestaoConteudo)))
             + Collected(server(TaskEndpoint(lists.tickets)))
             + Collected(server(TaskEndpoint(lists.dsnAtiveConecta)))
             + Collected(server(TaskEndpoint(lists.acaoMeteorica)))
  {
    var listIds := OpenTaskLists(lists);
    assert listIds[..6] == listIds;
    assert listIds[..6][..5] == listIds[..5];
    assert listIds[..5][..4] == listIds[..4];
    assert listIds[..4][..3] == listIds[..3];
    assert listIds[..3][..2] == listIds[..2];
    assert listIds[..2][..1] == listIds[..1];
    assert listIds[..1][..0] == [];
    assert CollectedAll(listIds[..1], server) == Collected(server(TaskEndpoint(listIds[0])));
    assert CollectedAll(listIds[..2], server) == CollectedAll(listIds[..1], server) + Collected(server(TaskEndpoint(listIds[1])));
    assert CollectedAll(listIds[..3], server) == CollectedAll(listIds[..2], server) + Collected(server(TaskEndpoint(listIds[2])));
    assert CollectedAll(listIds[..4], server) == CollectedAll(listIds[..3], server) + Collected(server(TaskEndpoint(listIds[3])));
    assert CollectedAll(listIds[..5], server) == CollectedAll(listIds[..4], server) + Collected(server(TaskEndpoint(listIds[4])));
  }

  /** `fetchAllOpenTasks()`: the six operational lists' tasks, concatenated in the fixed
      list order, without removing a task that appears in two lists. */
  method FetchAllOpenTasks(lists: ListConfig, server: Server) returns (allTasks: seq<Task>)
    ensures allTasks == Collected(server(TaskEndpoint(lists.accFiltroDemandas)))
                      + Collected(server(TaskEndpoint(lists.gtGestaoTrafego)))
                      + Collected(server(TaskEndpoint(lists.gcGestaoConteudo)))
                      + Collected(server(TaskEndpoint(lists.tickets)))
                      + Collected(server(TaskEndpoint(lists.dsnAtiveConecta)))
                      + Collected(server(TaskEndpoint(lists.acaoMeteorica)))
  {
    var listIds := OpenTaskLists(lists);
    allTasks := [];
    for k := 0 to |listIds|
      invariant allTasks == CollectedAll(listIds[..k], server)
    {
      var tasks, _ := FetchTasks(listIds[k], false, server);
      assert listIds[..k + 1][..k] == listIds[..k];
      allTasks := allTasks + tasks;
    }
    assert listIds[..|listIds|] == listIds;
    OpenTasksInOrder(lists, server);
  }

  // ================================================================ "Cliente" field

  predicate IsClienteField(f: CustomField)
  {
    f.name == "Cliente"
  }

  /** `opt.orderindex === value || opt.id === value`: a number can only equal the
      numeric `orderindex`, a string only the textual `id`, and a users array neither. */
  predicate OptionSelected(o: DropOption, v: FieldValue)
  {
    (v.Num? && v.n == o.orderindex) || (v.Str? && v.s == o.id)
  }

  /** `getClientNameFromTask(task)`. */
  function GetClientNameFromTask(task: Task): (r: Option<string>)
    ensures r.Some? ==> exists i :: FirstCliente(task, i) && !IsNullish(task.customFields.value[i].value)
  {
    match task.customFields
    case None => None
    case Some(fields) =>
      match FindIndex(fields, IsClienteField)
      case None => None
      case Some(i) =>
        assert FirstCliente(task, i);
        var field := fields[i];
        if IsNullish(field.value) then None
        else match field.options
          case Some(opts) =>
            (match FindIndex(opts, o => OptionSelected(o, field.value))
             case Some(j) => Some(opts[j].name)
             case None => None)
          case None => Some(ToJsString(field.value))
  }

  /** The name is null exactly when the task has no custom fields, no field is named
      exactly `Cliente`, the first such field's value is null or undefined, or that field
      has an option catalog and no option matches its value. */
  lemma ClientNameNull(task: Task)
    ensures GetClientNameFromTask(task).None? <==>
      || task.customFields.None?
      || (forall k :: 0 <= k < |task.customFields.value| ==> !IsClienteField(task.customFields.value[k]))
      || (exists i :: FirstCliente(task, i) && IsNullish(task.customFields.value[i].value))
      || (exists i :: FirstCliente(task, i) && task.customFields.value[i].options.Some?
            && forall j :: 0 <= j < |task.customFields.value[i].options.value| ==>
                 !OptionSelected(task.customFields.value[i].options.value[j], task.customFields.value[i].value))
  {
    if task.customFields.Some? {
      var fields := task.customFields.value;
      match FindIndex(fields, IsClienteField)
      case None =>
      case Some(i) =>
        forall i' | FirstCliente(task, i') ensures i' == i {
          FindIndexIsFirst(fields, IsClienteField, i');
        }
    }
  }

  /** `i` is the position of the first custom field named exactly `Cliente`. */
  predicate FirstCliente(task: Task, i: int)
  {
    && task.customFields.Some?
    && 0 <= i < |task.customFields.value|
    && IsClienteField(task.customFields.value[i])
    && forall k :: 0 <= k < i ==> !IsClienteField(task.customFields.value[k])
  }

  /** With an option catalog, the name is that of the first option whose `orderindex` or
      `id` strictly equals the value. */
  lemma ClientNameFromCatalog(task: Task, i: nat, j: nat)
    requires FirstCliente(task, i)
    requires !IsNullish(task.customFields.value[i].value)
    requires task.customFields.value[i].options.Some?
    requires var f := task.customFields.value[i];
             j < |f.options.value| && OptionSelected(f.options.value[j], f.value)
             && forall k :: 0 <= k < j ==> !OptionSelected(f.options.value[k], f.value)
    ensures GetClientNameFromTask(task) == Some(task.customFields.value[i].options.value[j].name)
  {
    var f := task.customFields.value[i];
    FindIndexIsFirst(task.customFields.value, IsClienteField, i);
    FindIndexIsFirst(f.options.value, o => OptionSelected(o, f.value), j);
  }

  /** Without an option catalog, the name is the value converted with `String`. */
  lemma ClientNameWithoutCatalog(task: Task, i: nat)
    requires FirstCliente(task, i)
    requires !IsNullish(task.customFields.value[i].value)
    requires task.customFields.value[i].options.None?
    ensures GetClientNameFromTask(task) == Some(ToJsString(task.customFields.value[i].value))
  {
    FindIndexIsFirst(task.customFields.value, IsClienteField, i);
  }

  /** A drop-down `Cliente` field with value 2 and options at orderindex 0 ("X") and 2
      ("Y") yields "Y". */
  lemma ClientNameDropDownExample(t: Task)
    requires t.customFields == Some([CustomField("f1", "Cliente", "drop_down", Num(2),
               Some([DropOption("a", "X", 0), DropOption("b", "Y", 2)]))])
    ensures GetClientNameFromTask(t) == Some("Y")
  {
  }
}
