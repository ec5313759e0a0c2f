/**
 * Request dispatch: the service registers its handlers on an Express
 * application, and Express hands a request to the FIRST registered route
 * whose verb matches and whose path pattern matches the request path, a
 * `:name` segment matching any one non-empty path segment.
 *
 * Registration order therefore matters: `PATCH /columns/:colId` is
 * registered before `PATCH /columns/reorder`, and `PATCH /tasks/:id` before
 * `PATCH /tasks/reorder`, so the literal reorder routes are never reached.
 * `Registered` is the table as the service builds it, `Corrected` the same
 * table with each reorder route ahead of its parameterised sibling.
 */
module Routes {
  import opened Wrappers

  datatype Verb = Get | Post | Patch | Delete

  /** One segment of a path pattern: a literal, or a `:name` parameter. */
  datatype Segment = Lit(text: string) | Param

  /** The handler a route runs; one per registered route. */
  datatype Handler =
    | Health | Register | Login
    | ListBoards | CreateBoard | RenameBoard | FetchBoard | DeleteBoard
    | CreateColumn | RenameColumn | ReorderColumns | DeleteColumn
    | CreateTask | RenameTask | DeleteTask | ReorderTasks
    | AssignUser | UnassignUser
    | CreateInvite | AcceptInvite
    | ListTags | CreateTag | AttachTag | DetachTag
    | Inbox | MarkRead | ReadAll

  datatype Route = Route(verb: Verb, pattern: seq<Segment>, handler: Handler)

  /** A path, split at `/`, matches a pattern segment by segment. */
  predicate Matches(pattern: seq<Segment>, path: seq<string>)
  {
    && |pattern| == |path|
    && forall k :: 0 <= k < |path| ==>
         match pattern[k]
         case Lit(text) => path[k] == text
         case Param => path[k] != []
  }

  predicate Accepts(r: Route, verb: Verb, path: seq<string>)
  {
    r.verb == verb && Matches(r.pattern, path)
  }

  /** The handler of the first route in `table` that accepts the request, if any. */
  function Dispatch(table: seq<Route>, verb: Verb, path: seq<string>): Option<Handler>
    decreases |table|
  {
    if table == [] then None
    else if Accepts(table[0], verb, path) then Some(table[0].handler)
    else Dispatch(table[1..], verb, path)
  }

  /**
   * Dispatch is first-match: no route accepts exactly when there is no
   * handler, and otherwise the handler is that of an accepting route with no
   * accepting route before it.
   */
  lemma {:induction false} DispatchIsFirstMatch(table: seq<Route>, verb: Verb, path: seq<string>)
    ensures Dispatch(table, verb, path).None? <==> forall k :: 0 <= k < |table| ==> !Accepts(table[k], verb, path)
    ensures Dispatch(table, verb, path).Some? ==>
      exists k :: && 0 <= k < |table|
                  && Accepts(table[k], verb, path)
                  && table[k].handler == Dispatch(table, verb, path).value
                  && forall j :: 0 <= j < k ==> !Accepts(table[j], verb, path)
    decreases |table|
  {
    if table != [] && !Accepts(table[0], verb, path) {
      var rest := table[1..];
      DispatchIsFirstMatch(rest, verb, path);
      assert forall k :: 1 <= k < |table| ==> table[k] == rest[k - 1];
      if Dispatch(rest, verb, path).Some? {
        var k :| && 0 <= k < |rest|
                 && Accepts(rest[k], verb, path)
                 && rest[k].handler == Dispatch(rest, verb, path).value
                 && forall j :: 0 <= j < k ==> !Accepts(rest[j], verb, path);
        assert table[k + 1] == rest[k];
        forall j | 0 <= j < k + 1 ensures !Accepts(table[j], verb, path) {
          if j > 0 {
            assert table[j] == rest[j - 1];
          }
        }
      }
    }
  }

  /** The first of two results that is present. */
  function Or(a: Option<Handler>, b: Option<Handler>): Option<Handler>
  {
    if a.Some? then a else b
  }

  /** Dispatching over `a + b` tries `a` first, then `b`. */
  lemma {:induction false} DispatchAppend(a: seq<Route>, b: seq<Route>, verb: Verb, path: seq<string>)
    ensures Dispatch(a + b, verb, path) == Or(Dispatch(a, verb, path), Dispatch(b, verb, path))
    decreases |a|
  {
    if a != [] {
      assert (a + b)[0] == a[0];
      assert (a + b)[1..] == a[1..] + b;
      DispatchAppend(a[1..], b, verb, path);
    } else {
      assert a + b == b;
    }
  }

  /** A table none of whose routes runs `h` never dispatches to `h`. */
  lemma DispatchAvoids(table: seq<Route>, verb: Verb, path: seq<string>, h: Handler)
    requires forall k :: 0 <= k < |table| ==> table[k].handler != h
    ensures Dispatch(table, verb, path) != Some(h)
  {
    DispatchIsFirstMatch(table, verb, path);
  }

  /** A table whose every pattern starts with a literal other than the path's first segment accepts nothing. */
  lemma DispatchOffScope(table: seq<Route>, verb: Verb, path: seq<string>)
    requires |path| > 0
    requires forall k :: 0 <= k < |table| ==>
      |table[k].pattern| > 0 && table[k].pattern[0].Lit? && table[k].pattern[0].text != path[0]
    ensures Dispatch(table, verb, path) == None
  {
    DispatchIsFirstMatch(table, verb, path);
  }

  /** A table of two routes tries the first, then the second. */
  lemma DispatchPair(r1: Route, r2: Route, verb: Verb, path: seq<string>)
    ensures Dispatch([r1, r2], verb, path) ==
      if Accepts(r1, verb, path) then Some(r1.handler)
      else if Accepts(r2, verb, path) then Some(r2.handler)
      else None
  {
    assert [r1, r2][1..] == [r2] && [r2][1..] == [];
    assert Dispatch([r2], verb, path) == if Accepts(r2, verb, path) then Some(r2.handler) else Dispatch([], verb, path);
  }

  /** A table of three routes tries them in order. */
  lemma DispatchTriple(r1: Route, r2: Route, r3: Route, verb: Verb, path: seq<string>)
    ensures Dispatch([r1, r2, r3], verb, path) ==
      if Accepts(r1, verb, path) then Some(r1.handler)
      else if Accepts(r2, verb, path) then Some(r2.handler)
      else if Accepts(r3, verb, path) then Some(r3.handler)
      else None
  {
    assert [r1, r2, r3][1..] == [r2, r3];
    DispatchPair(r2, r3, verb, path);
  }

  /* ------------------------- the registered table ------------------------- */

  const RenameColumnRoute := Route(Patch, [Lit("columns"), Param], RenameColumn)
  const ReorderColumnsRoute := Route(Patch, [Lit("columns"), Lit("reorder")], ReorderColumns)
  const RenameTaskRoute := Route(Patch, [Lit("tasks"), Param], RenameTask)
  const DeleteTaskRoute := Route(Delete, [Lit("tasks"), Param], DeleteTask)
  const ReorderTasksRoute := Route(Patch, [Lit("tasks"), Lit("reorder")], ReorderTasks)

  /** The routes registered before `PATCH /columns/:colId`, in order. */
  const Head: seq<Route> := [
    Route(Get, [Lit("health")], Health),
    Route(Post, [Lit("auth"), Lit("register")], Register),
    Route(Post, [Lit("auth"), Lit("login")], Login),
    Route(Get, [Lit("boards")], ListBoards),
    Route(Post, [Lit("boards")], CreateBoard),
    Route(Patch, [Lit("boards"), Param], RenameBoard),
    Route(Get, [Lit("boards"), Param], FetchBoard),
    Route(Delete, [Lit("boards"), Param], DeleteBoard),
    Route(Post, [Lit("boards"), Param, Lit("columns")], CreateColumn)
  ]

  /** The routes registered between `PATCH /columns/reorder` and `PATCH /tasks/:id`. */
  const Middle: seq<Route> := [
    Route(Delete, [Lit("columns"), Param], DeleteColumn),
    Route(Post, [Lit("columns"), Param, Lit("tasks")], CreateTask)
  ]

  /** The routes registered after `PATCH /tasks/reorder`, in order. */
  const Tail: seq<Route> := [
    Route(Post, [Lit("tasks"), Param, Lit("assignees"), Param], AssignUser),
    Route(Delete, [Lit("tasks"), Param, Lit("assignees"), Param], UnassignUser),
    Route(Post, [Lit("boards"), Param, Lit("invites")], CreateInvite),
    Route(Post, [Lit("invites"), Lit("accept")], AcceptInvite),
    Route(Get, [Lit("boards"), Param, Lit("tags")], ListTags),
    Route(Post, [Lit("boards"), Param, Lit("tags")], CreateTag),
    Route(Post, [Lit("tasks"), Param, Lit("tags"), Param], AttachTag),
    Route(Delete, [Lit("tasks"), Param, Lit("tags"), Param], DetachTag),
    Route(Get, [Lit("notifications")], Inbox),
    Route(Patch, [Lit("notifications"), Param, Lit("read")], MarkRead),
    Route(Post, [Lit("notifications"), Lit("read-all")], ReadAll)
  ]

  /** The routes in the order the service registers them. */
  const Registered: seq<Route> :=
    Head + [RenameColumnRoute, ReorderColumnsRoute] + Middle + [RenameTaskRoute, DeleteTaskRoute, ReorderTasksRoute] + Tail

  /** No route before the reorder routes runs a reorder handler or lives under `/columns` or `/tasks`. */
  lemma HeadFacts()
    ensures forall k :: 0 <= k < |Head| ==>
      && Head[k].handler != ReorderColumns && Head[k].handler != ReorderTasks
      && |Head[k].pattern| > 0 && Head[k].pattern[0].Lit?
      && Head[k].pattern[0].text != "columns" && Head[k].pattern[0].text != "tasks"
  {
  }

  /** The routes between the reorder routes run no reorder handler and live under `/columns`. */
  lemma MiddleFacts()
    ensures forall k :: 0 <= k < |Middle| ==>
      && Middle[k].handler != ReorderColumns && Middle[k].handler != ReorderTasks
      && |Middle[k].pattern| > 0 && Middle[k].pattern[0] == Lit("columns")
  {
  }

  /** No route after the reorder routes runs a reorder handler. */
  lemma TailFacts()
    ensures forall k :: 0 <= k < |Tail| ==> Tail[k].handler != ReorderColumns && Tail[k].handler != ReorderTasks
  {
  }

  /** Dispatch over the registered table, group by group. */
  lemma RegisteredInGroups(verb: Verb, path: seq<string>)
    ensures Dispatch(Registered, verb, path) ==
      Or(Dispatch(Head, verb, path),
      Or(Dispatch([RenameColumnRoute, ReorderColumnsRoute], verb, path),
      Or(Dispatch(Middle, verb, path),
      Or(Dispatch([RenameTaskRoute, DeleteTaskRoute, ReorderTasksRoute], verb, path),
         Dispatch(Tail, verb, path)))))
  {
    var g1 := Head + [RenameColumnRoute, ReorderColumnsRoute];
    var g2 := g1 + Middle;
    var g3 := g2 + [RenameTaskRoute, DeleteTaskRoute, ReorderTasksRoute];
    DispatchAppend(g3, Tail, verb, path);
    DispatchAppend(g2, [RenameTaskRoute, DeleteTaskRoute, ReorderTasksRoute], verb, path);
    DispatchAppend(g1, Middle, verb, path);
    DispatchAppend(Head, [RenameColumnRoute, ReorderColumnsRoute], verb, path);
  }

  /** Every request `PATCH /columns/reorder` accepts, `PATCH /columns/:colId` accepts too. */
  lemma ColumnReorderCovered(verb: Verb, path: seq<string>)
    requires Accepts(ReorderColumnsRoute, verb, path)
    ensures Accepts(RenameColumnRoute, verb, path)
  {
    assert path[1] == "reorder";
  }

  /** Every request `PATCH /tasks/reorder` accepts, `PATCH /tasks/:id` accepts too. */
  lemma TaskReorderCovered(verb: Verb, path: seq<string>)
    requires Accepts(ReorderTasksRoute, verb, path)
    ensures Accepts(RenameTaskRoute, verb, path)
  {
    assert path[1] == "reorder";
  }

  /** As registered, no request ever reaches the column reorder handler. */
  lemma ColumnReorderUnreachable(verb: Verb, path: seq<string>)
    ensures Dispatch(Registered, verb, path) != Some(ReorderColumns)
  {
    RegisteredInGroups(verb, path);
    HeadFacts();
    MiddleFacts();
    TailFacts();
    DispatchAvoids(Head, verb, path, ReorderColumns);
    DispatchAvoids(Middle, verb, path, ReorderColumns);
    DispatchAvoids(Tail, verb, path, ReorderColumns);
    DispatchPair(RenameColumnRoute, ReorderColumnsRoute, verb, path);
    DispatchTriple(RenameTaskRoute, DeleteTaskRoute, ReorderTasksRoute, verb, path);
    if Accepts(ReorderColumnsRoute, verb, path) {
      ColumnReorderCovered(verb, path);
    }
  }

  /** As registered, no request ever reaches the task reorder handler. */
  lemma TaskReorderUnreachable(verb: Verb, path: seq<string>)
    ensures Dispatch(Registered, verb, path) != Some(ReorderTasks)
  {
    RegisteredInGroups(verb, path);
    HeadFacts();
    MiddleFacts();
    TailFacts();
    DispatchAvoids(Head, verb, path, ReorderTasks);
    DispatchAvoids(Middle, verb, path, ReorderTasks);
    DispatchAvoids(Tail, verb, path, ReorderTasks);
    DispatchPair(RenameColumnRoute, ReorderColumnsRoute, verb, path);
    DispatchTriple(RenameTaskRoute, DeleteTaskRoute, ReorderTasksRoute, verb, path);
    if Accepts(ReorderTasksRoute, verb, path) {
      TaskReorderCovered(verb, path);
    }
  }

  /** As registered, every column reorder request runs the column rename handler instead. */
  lemma ColumnReorderRequestsRename(verb: Verb, path: seq<string>)
    requires Accepts(ReorderColumnsRoute, verb, path)
    ensures Dispatch(Registered, verb, path) == Some(RenameColumn)
  {
    RegisteredInGroups(verb, path);
    assert path[0] == "columns";
    HeadFacts();
    DispatchOffScope(Head, verb, path);
    ColumnReorderCovered(verb, path);
    DispatchPair(RenameColumnRoute, ReorderColumnsRoute, verb, path);
  }

  /** As registered, every task reorder request runs the task rename handler instead. */
  lemma TaskReorderRequestsRename(verb: Verb, path: seq<string>)
    requires Accepts(ReorderTasksRoute, verb, path)
    ensures Dispatch(Registered, verb, path) == Some(RenameTask)
  {
    RegisteredInGroups(verb, path);
    assert path[0] == "tasks";
    HeadFacts();
    MiddleFacts();
    DispatchOffScope(Head, verb, path);
    DispatchOffScope(Middle, verb, path);
    DispatchPair(RenameColumnRoute, ReorderColumnsRoute, verb, path);
    assert !Accepts(RenameColumnRoute, verb, path) && !Accepts(ReorderColumnsRoute, verb, path);
    TaskReorderCovered(verb, path);
    DispatchTriple(RenameTaskRoute, DeleteTaskRoute, ReorderTasksRoute, verb, path);
  }

  /** `PATCH /tasks/reorder`, the request the board client sends, runs the task rename handler. */
  lemma ClientTaskReorderRenames()
    ensures Dispatch(Registered, Patch, ["tasks", "reorder"]) == Some(RenameTask)
  {
    TaskReorderRequestsRename(Patch, ["tasks", "reorder"]);
  }

  /* -------------------------- the corrected table ------------------------- */

  /** The registered routes with each reorder route moved ahead of its parameterised sibling. */
  const Corrected: seq<Route> :=
    Head + [ReorderColumnsRoute, RenameColumnRoute] + Middle + [ReorderTasksRoute, RenameTaskRoute, DeleteTaskRoute] + Tail

  lemma CorrectedInGroups(verb: Verb, path: seq<string>)
    ensures Dispatch(Corrected, verb, path) ==
      Or(Dispatch(Head, verb, path),
      Or(Dispatch([ReorderColumnsRoute, RenameColumnRoute], verb, path),
      Or(Dispatch(Middle, verb, path),
      Or(Dispatch([ReorderTasksRoute, RenameTaskRoute, DeleteTaskRoute], verb, path),
         Dispatch(Tail, verb, path)))))
  {
    var g1 := Head + [ReorderColumnsRoute, RenameColumnRoute];
    var g2 := g1 + Middle;
    var g3 := g2 + [ReorderTasksRoute, RenameTaskRoute, DeleteTaskRoute];
    DispatchAppend(g3, Tail, verb, path);
    DispatchAppend(g2, [ReorderTasksRoute, RenameTaskRoute, DeleteTaskRoute], verb, path);
    DispatchAppend(g1, Middle, verb, path);
    DispatchAppend(Head, [ReorderColumnsRoute, RenameColumnRoute], verb, path);
  }

  /** In the corrected table, every column reorder request reaches the column reorder handler. */
  lemma CorrectedReachesColumnReorder(verb: Verb, path: seq<string>)
    requires Accepts(ReorderColumnsRoute, verb, path)
    ensures Dispatch(Corrected, verb, path) == Some(ReorderColumns)
  {
    CorrectedInGroups(verb, path);
    assert path[0] == "columns";
    HeadFacts();
    DispatchOffScope(Head, verb, path);
    DispatchPair(ReorderColumnsRoute, RenameColumnRoute, verb, path);
  }

  /** In the corrected table, every task reorder request reaches the task reorder handler. */
  lemma CorrectedReachesTaskReorder(verb: Verb, path: seq<string>)
    requires Accepts(ReorderTasksRoute, verb, path)
    ensures Dispatch(Corrected, verb, path) == Some(ReorderTasks)
  {
    CorrectedInGroups(verb, path);
    assert path[0] == "tasks";
    HeadFacts();
    MiddleFacts();
    DispatchOffScope(Head, verb, path);
    DispatchOffScope(Middle, verb, path);
    DispatchPair(ReorderColumnsRoute, RenameColumnRoute, verb, path);
    assert !Accepts(ReorderColumnsRoute, verb, path) && !Accepts(RenameColumnRoute, verb, path);
    DispatchTriple(ReorderTasksRoute, RenameTaskRoute, DeleteTaskRoute, verb, path);
  }

  /** Every request neither reorder route accepts is dispatched by the corrected table as before. */
  lemma CorrectedAgreesElsewhere(verb: Verb, path: seq<string>)
    requires !Accepts(ReorderColumnsRoute, verb, path) && !Accepts(ReorderTasksRoute, verb, path)
    ensures Dispatch(Corrected, verb, path) == Dispatch(Registered, verb, path)
  {
    RegisteredInGroups(verb, path);
    CorrectedInGroups(verb, path);
    DispatchPair(RenameColumnRoute, ReorderColumnsRoute, verb, path);
    DispatchPair(ReorderColumnsRoute, RenameColumnRoute, verb, path);
    DispatchTriple(RenameTaskRoute, DeleteTaskRoute, ReorderTasksRoute, verb, path);
    DispatchTriple(ReorderTasksRoute, RenameTaskRoute, DeleteTaskRoute, verb, path);
  }
}
