/** Which error an account query reports when several of its loads would fail. */
module LoadOrder {
  import opened Wrappers
  import opened Relations
  import opened Entities
  import opened Loading
  import opened LoadGroups
  import opened LoadProxy
  import opened LoadUsageLogs
  import opened LoadAccountGroups
  import opened LoadAccountEdge
  import opened LoadGroupEdge
  import opened SqlAll
  import opened NestedLoad

  // The error of the first step that fails, and none when no step fails.
  ghost predicate FirstFailure(steps: seq<Option<LoadError>>, err: Option<LoadError>)
  {
    && (err.None? <==> forall k | 0 <= k < |steps| :: steps[k].None?)
    && forall k | 0 <= k < |steps| && steps[k].Some? && (forall j | 0 <= j < k :: steps[j].None?) :: err == steps[k]
  }

  lemma FirstCons(step: Option<LoadError>, steps: seq<Option<LoadError>>, err: Option<LoadError>)
    requires FirstFailure(steps, err)
    ensures FirstFailure([step] + steps, Otherwise(step, err))
  {
    var all := [step] + steps;
    assert all[0] == step && forall k | 0 < k < |all| :: all[k] == steps[k - 1];
    if step.None? {
      forall k | 0 <= k < |all| && all[k].Some? && (forall j | 0 <= j < k :: all[j].None?) ensures err == all[k] {
        assert forall j | 0 <= j < k - 1 :: steps[j] == all[j + 1];
      }
      assert forall k | 0 <= k < |steps| :: steps[k] == all[k + 1];
    }
  }

  lemma FirstOfTwo(a: Option<LoadError>, b: Option<LoadError>)
    ensures FirstFailure([a, b], Otherwise(a, b))
  {
    assert [b][0] == b;
    FirstCons(a, [b], b);
    assert [a] + [b] == [a, b];
  }

  lemma FirstOfThree(a: Option<LoadError>, b: Option<LoadError>, c: Option<LoadError>)
    ensures FirstFailure([a, b, c], Otherwise(a, Otherwise(b, c)))
  {
    FirstOfTwo(b, c);
    FirstCons(a, [b, c], Otherwise(b, c));
    assert [a] + [b, c] == [a, b, c];
  }

  lemma FirstOfFour(a: Option<LoadError>, b: Option<LoadError>, c: Option<LoadError>, d: Option<LoadError>)
    ensures FirstFailure([a, b, c, d], Otherwise(a, Otherwise(b, Otherwise(c, d))))
  {
    FirstOfThree(b, c, d);
    FirstCons(a, [b, c, d], Otherwise(b, Otherwise(c, d)));
    assert [a] + [b, c, d] == [a, b, c, d];
  }

  // A key that names no parent is reported, the first one when there are several.
  ghost predicate FirstStray(fks: seq<int>, ids: seq<int>, err: Option<LoadError>)
  {
    && (err.None? <==> forall k | 0 <= k < |fks| :: fks[k] in ids)
    && forall k | 0 <= k < |fks| && fks[k] !in ids && (forall j | 0 <= j < k :: fks[j] in ids) ::
         err == Some(UnexpectedNode(fks[k]))
  }

  lemma StrayIsFirst(fks: seq<int>, ids: seq<int>)
    ensures FirstStray(fks, ids, Stray(fks, ids))
  {
    ForeignIsFirst(fks, ids);
  }

  /** The edges of an account query are loaded in the order groups, proxy, usage logs, join
      rows, and the first failure is the error of the query, at any depth. */
  lemma EdgeErrorOrder(tree: AccountTree, ids: seq<int>, keys: seq<Option<int>>)
    ensures FirstFailure([GroupsError(ids, tree.groups), ProxyError(keys, tree.proxy), LogsError(ids, tree.usageLogs),
                        JoinTreeError(tree.accountGroups, ids)],
                       TreeError(tree, ids, keys))
  {
    FirstOfFour(GroupsError(ids, tree.groups), ProxyError(keys, tree.proxy), LogsError(ids, tree.usageLogs),
                JoinTreeError(tree.accountGroups, ids));
  }

  lemma EdgeErrorOrderOnce(requests: Requests, ids: seq<int>, keys: seq<Option<int>>)
    ensures FirstFailure([GroupsError(ids, requests.groups), ProxyError(keys, requests.proxy),
                        LogsError(ids, requests.usageLogs), JoinsError(ids, requests.accountGroups)],
                       EdgesError(ids, keys, requests))
  {
    FirstOfFour(GroupsError(ids, requests.groups), ProxyError(keys, requests.proxy),
                LogsError(ids, requests.usageLogs), JoinsError(ids, requests.accountGroups));
  }

  // How a load fails: with the reason its query gives, or on its answer.
  ghost predicate Failing<R>(answer: Result<seq<R>, string>, stray: Option<LoadError>, err: Option<LoadError>)
  {
    if answer.Err? then err == Some(QueryFailed(answer.error)) else err == stray
  }

  /** A single load fails with the reason its query gives, or else on the first key in its
      answer that was not asked for; a many-to-many row without its account ends it. */
  lemma GroupsFailure(ids: seq<int>, query: Query<JoinRow>)
    ensures Failing(query(ids), if RowsNameParents(Answered(query(ids)), ids) then None else Some(NilNode),
                    GroupsError(ids, Some(query)))
    ensures GroupsError(ids, None) == None
  {
  }

  lemma ProxyFailure(keys: seq<Option<int>>, query: Query<ProxyRow>)
    ensures var asked := Dedup(Present(keys));
      var rows := KeysOf(ProxyKey, Answered(query(asked)));
      if asked == [] then ProxyError(keys, Some(query)).None?
      else
        && (query(asked).Err? ==> ProxyError(keys, Some(query)) == Some(QueryFailed(query(asked).error)))
        && (query(asked).Ok? ==> FirstStray(rows, asked, ProxyError(keys, Some(query))))
    ensures ProxyError(keys, None) == None
  {
    var asked := Dedup(Present(keys));
    StrayIsFirst(KeysOf(ProxyKey, Answered(query(asked))), asked);
  }

  lemma LogsFailure(ids: seq<int>, query: UsageLogQuery)
    ensures query.run(ids).Err? ==> LogsError(ids, Some(query)) == Some(QueryFailed(query.run(ids).error))
    ensures query.run(ids).Ok? ==>
              FirstStray(KeysOf(LogParent, Answered(query.run(ids))), ids, LogsError(ids, Some(query)))
    ensures LogsError(ids, None) == None
  {
    StrayIsFirst(KeysOf(LogParent, Answered(query.run(ids))), ids);
  }

  function Answered<R>(answer: Result<seq<R>, string>): seq<R>
  {
    match answer
    case Ok(rows) => rows
    case Err(_) => []
  }

  lemma NestedFailure<R>(key: AccountGroupRow -> int, rows: seq<AccountGroupRow>, id: R -> int, query: Query<R>)
    requires rows != []
    ensures var asked := Asked(KeysOf(key, rows));
      && (query(asked).Err? ==> NestedError(key, rows, id, Some(query)) == Some(QueryFailed(query(asked).error)))
      && (query(asked).Ok? ==>
            FirstStray(KeysOf(id, Answered(query(asked))), asked, NestedError(key, rows, id, Some(query))))
    ensures NestedError(key, rows, id, None) == None
  {
    var asked := Asked(KeysOf(key, rows));
    StrayIsFirst(KeysOf(id, Answered(query(asked))), asked);
  }

  /** Below the join rows the account edge is loaded before the group edge, and both before
      the rows are handed out. */
  lemma JoinErrorOrder(request: JoinTree, ids: seq<int>)
    ensures request.run(ids).Err? ==> JoinTreeError(Some(request), ids) == Some(QueryFailed(request.run(ids).error))
    ensures request.run(ids).Ok? ==>
              var rows := request.run(ids).value;
              FirstFailure([AccountsError(request.withAccount, rows),
                          NestedError(JoinGroup, rows, GroupKey, request.withGroup),
                          Stray(KeysOf(JoinParent, rows), ids)],
                         JoinTreeError(Some(request), ids))
  {
    if request.run(ids).Ok? {
      var rows := request.run(ids).value;
      FirstOfThree(AccountsError(request.withAccount, rows),
                   NestedError(JoinGroup, rows, GroupKey, request.withGroup), Stray(KeysOf(JoinParent, rows), ids));
    }
  }

  /** The accounts of the join rows are loaded with everything below them before they are
      handed out. */
  lemma AccountErrorOrder(request: AccountTree, rows: seq<AccountGroupRow>)
    requires rows != []
    ensures var answer := request.run(Asked(KeysOf(JoinParent, rows)));
      answer.Err? ==> AccountsError(Some(request), rows) == Some(QueryFailed(answer.error))
    ensures var answer := request.run(Asked(KeysOf(JoinParent, rows)));
      answer.Ok? ==>
        FirstFailure([FoundError(request, answer.value),
                    Stray(KeysOf(AccountKey, answer.value), Asked(KeysOf(JoinParent, rows)))],
                   AccountsError(Some(request), rows))
  {
    var asked := Asked(KeysOf(JoinParent, rows));
    if request.run(asked).Ok? {
      var found := request.run(asked).value;
      FirstOfTwo(FoundError(request, found), Stray(KeysOf(AccountKey, found), asked));
    }
  }
}
