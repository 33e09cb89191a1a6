/**
 The two D1 tables behind the folder tree, and the statements a batch may hold.

 A statement is run against the tables as it finds them and checks the same
 constraints as the schema: primary keys, the unique index on
 (parent_scope, name_token), foreign keys, and ON DELETE RESTRICT.
 A batch runs its statements in order and keeps nothing when one fails.
 */
module FolderTables {
  import opened Common

  type Id = string

  const ROOT_SCOPE: string := "__root__"
  const MAX_FOLDER_DEPTH: nat := 8
  const MAX_CONNECTION_MOVE_BATCH: nat := 50

  datatype FolderRow = FolderRow(
    parent: Option<Id>, scope: string, name: string, token: string, count: int)

  datatype ConnectionRow = ConnectionRow(folder: Option<Id>, payload: string)

  type Folders = map<Id, FolderRow>
  type Connections = map<Id, ConnectionRow>

  datatype Tables = Tables(folders: Folders, connections: Connections)

  function ParentScope(parent: Option<Id>): string {
    match parent
    case None => ROOT_SCOPE
    case Some(id) => id
  }

  predicate Exists(f: Folders, at: Option<Id>) {
    at.Some? ==> at.value in f
  }

  predicate UniqueNames(f: Folders) {
    forall x, y | x in f && y in f && x != y ::
      !(f[x].scope == f[y].scope && f[x].token == f[y].token)
  }

  datatype DbError = UniqueFailed | ForeignKeyFailed

  datatype Statement =
    | InsertConnection(id: Id, target: Option<Id>, payload: string)
    | DeleteConnection(id: Id)
    | DeleteConnectionsIn(source: Id)
    | SetConnectionFolder(id: Id, target: Option<Id>)
    | PromoteConnections(source: Id, target: Option<Id>)
    | InsertFolder(id: Id, parent: Option<Id>, name: string, token: string)
    | RenameFolder(id: Id, name: string, token: string)
    | ReparentFolder(id: Id, parent: Option<Id>)
    | ReparentChildren(source: Id, parent: Option<Id>)
    | AddToCount(id: Id, delta: int)
    | DeleteFolder(id: Id)

  function CheckNames(t: Tables): Result<Tables, DbError> {
    if UniqueNames(t.folders) then Ok(t) else Err(UniqueFailed)
  }

  function Reparent(row: FolderRow, parent: Option<Id>): FolderRow {
    row.(parent := parent, scope := ParentScope(parent))
  }

  function Moved(c: Connections, ids: set<Id>, target: Option<Id>): Connections {
    map k | k in c :: if k in ids then c[k].(folder := target) else c[k]
  }

  function Adopted(f: Folders, source: Id, parent: Option<Id>): Folders {
    map x | x in f :: if f[x].parent == Some(source) then Reparent(f[x], parent) else f[x]
  }

  predicate Referenced(t: Tables, folder: Id) {
    || (exists x :: x in t.folders && t.folders[x].parent == Some(folder))
    || (exists k :: k in t.connections && t.connections[k].folder == Some(folder))
  }

  function AddConnection(t: Tables, id: Id, target: Option<Id>, payload: string): Result<Tables, DbError> {
    if id in t.connections then Err(UniqueFailed)
    else if !Exists(t.folders, target) then Err(ForeignKeyFailed)
    else Ok(t.(connections := t.connections[id := ConnectionRow(target, payload)]))
  }

  function MoveHosts(t: Tables, ids: set<Id>, target: Option<Id>): Result<Tables, DbError> {
    if ids * t.connections.Keys != {} && !Exists(t.folders, target) then Err(ForeignKeyFailed)
    else Ok(t.(connections := Moved(t.connections, ids, target)))
  }

  function DirectHosts(c: Connections, id: Id): set<Id> {
    set k | k in c && c[k].folder == Some(id)
  }

  function AddFolder(t: Tables, id: Id, parent: Option<Id>, name: string, token: string): Result<Tables, DbError> {
    if id in t.folders then Err(UniqueFailed)
    else if !Exists(t.folders, parent) && parent != Some(id) then Err(ForeignKeyFailed)
    else CheckNames(t.(folders := t.folders[id := FolderRow(parent, ParentScope(parent), name, token, 0)]))
  }

  function SetName(t: Tables, id: Id, name: string, token: string): Result<Tables, DbError> {
    if id !in t.folders then Ok(t)
    else CheckNames(t.(folders := t.folders[id := t.folders[id].(name := name, token := token)]))
  }

  function SetParent(t: Tables, id: Id, parent: Option<Id>): Result<Tables, DbError> {
    if id !in t.folders then Ok(t)
    else if !Exists(t.folders, parent) then Err(ForeignKeyFailed)
    else CheckNames(t.(folders := t.folders[id := Reparent(t.folders[id], parent)]))
  }

  function Adopt(t: Tables, source: Id, parent: Option<Id>): Result<Tables, DbError> {
    if (exists x :: x in t.folders && t.folders[x].parent == Some(source)) && !Exists(t.folders, parent)
    then Err(ForeignKeyFailed)
    else CheckNames(t.(folders := Adopted(t.folders, source, parent)))
  }

  function Count(t: Tables, id: Id, delta: int): Tables {
    if id !in t.folders then t
    else t.(folders := t.folders[id := t.folders[id].(count := t.folders[id].count + delta)])
  }

  function RemoveFolder(t: Tables, id: Id): Result<Tables, DbError> {
    if id in t.folders && Referenced(t, id) then Err(ForeignKeyFailed)
    else Ok(t.(folders := t.folders - {id}))
  }

  function Run(t: Tables, s: Statement): Result<Tables, DbError> {
    match s
    case InsertConnection(id, target, payload) => AddConnection(t, id, target, payload)
    case DeleteConnection(id) => Ok(t.(connections := t.connections - {id}))
    case DeleteConnectionsIn(source) => Ok(t.(connections := t.connections - DirectHosts(t.connections, source)))
    case SetConnectionFolder(id, target) => MoveHosts(t, {id}, target)
    case PromoteConnections(source, target) => MoveHosts(t, DirectHosts(t.connections, source), target)
    case InsertFolder(id, parent, name, token) => AddFolder(t, id, parent, name, token)
    case RenameFolder(id, name, token) => SetName(t, id, name, token)
    case ReparentFolder(id, parent) => SetParent(t, id, parent)
    case ReparentChildren(source, parent) => Adopt(t, source, parent)
    case AddToCount(id, delta) => Ok(Count(t, id, delta))
    case DeleteFolder(id) => RemoveFolder(t, id)
  }

  function RunAll(t: Tables, batch: seq<Statement>): Result<Tables, DbError>
    decreases |batch|
  {
    if batch == [] then Ok(t)
    else
      match Run(t, batch[0])
      case Err(e) => Err(e)
      case Ok(u) => RunAll(u, batch[1..])
  }

  lemma {:induction false} RunAllAppend(t: Tables, a: seq<Statement>, b: seq<Statement>)
    ensures RunAll(t, a + b) ==
            match RunAll(t, a) { case Err(e) => Err(e) case Ok(u) => RunAll(u, b) }
    decreases |a|
  {
    if a == [] {
      assert a + b == b;
    } else {
      assert (a + b)[1..] == a[1..] + b;
      match Run(t, a[0]) {
        case Err(_) =>
        case Ok(u) => RunAllAppend(u, a[1..], b);
      }
    }
  }

  /** A batch that starts with statements that succeed goes on from the tables they leave. */
  lemma RunAllThen(t: Tables, a: seq<Statement>, u: Tables, b: seq<Statement>)
    requires RunAll(t, a) == Ok(u)
    ensures RunAll(t, a + b) == RunAll(u, b)
  {
    RunAllAppend(t, a, b);
  }

  lemma RunAllFails(t: Tables, a: seq<Statement>, b: seq<Statement>)
    requires RunAll(t, a).Err?
    ensures RunAll(t, a + b) == RunAll(t, a)
  {
    RunAllAppend(t, a, b);
  }

  lemma RunOne(t: Tables, s: Statement)
    ensures RunAll(t, [s]) == Run(t, s)
  {
    assert [s][1..] == [];
  }

  lemma RunThree(t: Tables, a: seq<Statement>, u: Tables, b: seq<Statement>, v: Tables, c: seq<Statement>, w: Tables)
    requires RunAll(t, a) == Ok(u) && RunAll(u, b) == Ok(v) && RunAll(v, c) == Ok(w)
    ensures RunAll(t, a + b + c) == Ok(w)
  {
    RunAllThen(t, a, u, b);
    RunAllThen(t, a + b, v, c);
  }

  /** Giving one folder a new row keeps names unique exactly when no other row has its new scope and name. */
  lemma OneRowNames(f: Folders, id: Id, row: FolderRow)
    requires UniqueNames(f)
    ensures UniqueNames(f[id := row]) <==>
            (forall x | x in f && x != id :: !(f[x].scope == row.scope && f[x].token == row.token))
  {
    var g := f[id := row];
    assert forall x :: x in f && x != id ==> x in g && g[x] == f[x];
    if UniqueNames(g) {
      forall x | x in f && x != id ensures !(f[x].scope == row.scope && f[x].token == row.token) {
        assert x in g && id in g && g[id] == row;
      }
    } else {
      var x, y :| x in g && y in g && x != y && g[x].scope == g[y].scope && g[x].token == g[y].token;
      if x != id {
        assert y == id;
      }
    }
  }

  // ---- the constraints ----

  /** ON DELETE RESTRICT: a folder goes exactly when no folder and no connection refers to it. */
  lemma DeleteRestricted(t: Tables, id: Id)
    ensures Run(t, DeleteFolder(id)) ==
            if id in t.folders && ((exists x :: x in t.folders && t.folders[x].parent == Some(id))
                                   || (exists k :: k in t.connections && t.connections[k].folder == Some(id)))
            then Err(ForeignKeyFailed) else Ok(Tables(t.folders - {id}, t.connections))
  {
  }

  /** A connection needs an id of its own and an existing folder, or none. */
  lemma InsertConnectionConstrained(t: Tables, id: Id, target: Option<Id>, payload: string)
    ensures Run(t, InsertConnection(id, target, payload)) ==
            if id in t.connections then Err(UniqueFailed)
            else if target.Some? && target.value !in t.folders then Err(ForeignKeyFailed)
            else Ok(Tables(t.folders, t.connections[id := ConnectionRow(target, payload)]))
  {
  }

  /** Pointing a row to a folder that is not there fails, if there is such a row. */
  lemma UpdatesConstrained(t: Tables, id: Id, target: Id)
    requires target !in t.folders
    ensures Run(t, SetConnectionFolder(id, Some(target))) == Err(ForeignKeyFailed) <==> id in t.connections
    ensures Run(t, ReparentFolder(id, Some(target))) == Err(ForeignKeyFailed) <==> id in t.folders
    ensures Run(t, PromoteConnections(id, Some(target))) == Err(ForeignKeyFailed) <==>
              exists k :: k in t.connections && t.connections[k].folder == Some(id)
    ensures Run(t, ReparentChildren(id, Some(target))) == Err(ForeignKeyFailed) <==>
              exists x :: x in t.folders && t.folders[x].parent == Some(id)
  {
    if id in t.connections { assert id in {id} * t.connections.Keys; }
    if k :| k in t.connections && t.connections[k].folder == Some(id) {
      assert k in DirectHosts(t.connections, id) * t.connections.Keys;
    }
  }

  /** The unique index: a statement that writes a folder row fails for two rows of one scope and token, and only then. */
  lemma NamesConstrained(t: Tables, id: Id, name: string, token: string)
    requires id in t.folders
    ensures Run(t, RenameFolder(id, name, token)) == Err(UniqueFailed) <==>
            !UniqueNames(t.folders[id := t.folders[id].(name := name, token := token)])
    ensures Run(t, InsertFolder(id, None, name, token)) == Err(UniqueFailed)
  {
  }
}
