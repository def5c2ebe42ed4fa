/** The entities of the account subgraph as heap objects. The scalar columns of the
    neighbour entities are fixed when a row is scanned; only Edges change later. */
module Entities {
  import opened Wrappers
  import opened AccountColumns
  import opened AccountScan

  type Columns = map<string, string>

  datatype GroupRow = GroupRow(id: int, columns: Columns)
  datatype ProxyRow = ProxyRow(id: int, columns: Columns)
  datatype UsageLogRow = UsageLogRow(id: int, accountID: int, columns: Columns)
  datatype AccountGroupRow = AccountGroupRow(accountID: int, groupID: int, priority: int, createdAt: Time)

  datatype EdgeError = NotLoaded(edge: string) | NotFound(entity: string)

  class Group {
    const row: GroupRow

    constructor (row: GroupRow)
      ensures this.row == row
    {
      this.row := row;
    }
  }

  class Proxy {
    const row: ProxyRow

    constructor (row: ProxyRow)
      ensures this.row == row
    {
      this.row := row;
    }
  }

  class UsageLog {
    const row: UsageLogRow

    constructor (row: UsageLogRow)
      ensures this.row == row
    {
      this.row := row;
    }
  }

  // AccountGroupEdges is a struct value, so its accessors read no heap.
  datatype AccountGroupEdges = AccountGroupEdges(
    account: Account?, group: Group?, loadedAccount: bool, loadedGroup: bool)
  {

    function AccountOrErr(): Result<Account, EdgeError>
    {
      if account != null then Ok(account)
      else if loadedAccount then Err(NotFound("account"))
      else Err(NotLoaded("account"))
    }

    function GroupOrErr(): Result<Group, EdgeError>
    {
      if group != null then Ok(group)
      else if loadedGroup then Err(NotFound("group"))
      else Err(NotLoaded("group"))
    }
  }

  class AccountGroup {
    const row: AccountGroupRow
    var edges: AccountGroupEdges

    constructor (row: AccountGroupRow, loadedAccount: bool, loadedGroup: bool)
      ensures this.row == row
      ensures edges == AccountGroupEdges(null, null, loadedAccount, loadedGroup)
    {
      this.row := row;
      edges := AccountGroupEdges(null, null, loadedAccount, loadedGroup);
    }
  }

  datatype LoadedTypes = LoadedTypes(groups: bool, proxy: bool, usageLogs: bool, accountGroups: bool)

  datatype AccountEdges = AccountEdges(
    groups: seq<Group>,
    proxy: Proxy?,
    usageLogs: seq<UsageLog>,
    accountGroups: seq<AccountGroup>,
    loadedTypes: LoadedTypes)
  {
    function GroupsOrErr(): Result<seq<Group>, EdgeError>
    {
      if loadedTypes.groups then Ok(groups) else Err(NotLoaded("groups"))
    }

    function ProxyOrErr(): Result<Proxy, EdgeError>
    {
      if proxy != null then Ok(proxy)
      else if loadedTypes.proxy then Err(NotFound("proxy"))
      else Err(NotLoaded("proxy"))
    }

    function UsageLogsOrErr(): Result<seq<UsageLog>, EdgeError>
    {
      if loadedTypes.usageLogs then Ok(usageLogs) else Err(NotLoaded("usage_logs"))
    }

    function AccountGroupsOrErr(): Result<seq<AccountGroup>, EdgeError>
    {
      if loadedTypes.accountGroups then Ok(accountGroups) else Err(NotLoaded("account_groups"))
    }
  }

  class Account {
    var scalars: Scanned
    var edges: AccountEdges

    function Id(): int
      reads this`scalars
    {
      scalars.row.counts.id
    }

    function ProxyID(): Option<int>
      reads this`scalars
    {
      scalars.row.counts.proxyID
    }

    // A fresh node, before its columns are assigned.
    constructor (loadedTypes: LoadedTypes)
      ensures scalars == Scanned(ZERO, map[])
      ensures edges == AccountEdges([], null, [], [], loadedTypes)
    {
      scalars := Scanned(ZERO, map[]);
      edges := AccountEdges([], null, [], [], loadedTypes);
    }

    // The values slice may be longer than the column list, but not shorter.
    method AssignValues(columns: seq<Column>, values: seq<Cell>) returns (err: Option<AssignError>)
      modifies this`scalars
      ensures |values| < |columns| ==> err == Some(CountMismatch(|values|, |columns|)) && scalars == old(scalars)
      ensures |columns| <= |values| ==>
                (scalars, err) == AssignFirst(old(scalars), columns, values, |columns|)
    {
      if |values| < |columns| {
        return Some(CountMismatch(|values|, |columns|));
      }
      err := None;
      for i := 0 to |columns|
        invariant (scalars, err) == AssignFirst(old(scalars), columns, values, i)
        invariant err == None
      {
        match AssignOne(scalars, columns[i], values[i])
        case Ok(next) =>
          scalars := next;
        case Err(e) =>
          AssignStops(old(scalars), columns, values, i, |columns|);
          return Some(e);
      }
    }
  }

  /** scanValues: one typed, empty destination per column. */
  method ScanValues(columns: seq<Column>) returns (values: seq<Cell>)
    ensures |values| == |columns|
    ensures forall i | 0 <= i < |columns| :: values[i] == Destination(columns[i])
  {
    values := [];
    for i := 0 to |columns|
      invariant |values| == i
      invariant forall k | 0 <= k < i :: values[k] == Destination(columns[k])
    {
      values := values + [Destination(columns[i])];
    }
  }
}
