/** The connections sidebar (src/connectionTreeProvider.ts): the nodes shown
    for groups, connections and database objects, their icons, and moving
    connections between groups by drag and drop. */
module ConnectionTree {
  import opened Wrappers
  import opened Text
  import opened Types
  import CM = ConnectionManager

  /** The kinds of node in the tree. */
  datatype NodeType =
    | Group | Connection | DatabasesFolder | Database | TablesFolder | Table
    | ViewsFolder | View | StoredProceduresFolder | StoredProcedure
    | FunctionsFolder | Function | ColumnsFolder | Column

  /** The icon table of `setIcon`: folders look like folders. */
  function IconOf(t: NodeType): string
  {
    match t
    case Connection => "server"
    case DatabasesFolder => "folder-library"
    case Database => "database"
    case Table => "symbol-class"
    case View => "eye"
    case StoredProcedure => "symbol-method"
    case Function => "symbol-function"
    case Column => "symbol-field"
    case _ => "folder"
  }

  /** The node types drawn as a plain folder. */
  predicate PlainFolder(t: NodeType)
  {
    t.Group? || t.TablesFolder? || t.ViewsFolder? || t.StoredProceduresFolder?
      || t.FunctionsFolder? || t.ColumnsFolder?
  }

  /** Every node type has a non-empty icon, so `setIcon` never falls back;
      the plain folders share the folder icon, and every other type has an
      icon of its own. */
  lemma IconOfSpec(t: NodeType, u: NodeType)
    ensures IconOf(t) != ""
    ensures IconOf(t) == "folder" <==> PlainFolder(t)
    ensures !PlainFolder(t) && IconOf(t) == IconOf(u) ==> t == u
  {
  }

  datatype Collapsible = NotCollapsible | Collapsed | Expanded

  /** A tree node: what `ObjectTreeItem` carries, plus the description,
      tooltip, command and icon set on it. The icon of an active connection
      is coloured green. */
  datatype TreeItem = TreeItem(
    nodeType: NodeType,
    caption: string,
    collapsible: Collapsible,
    connectionId: Option<string>,
    database: Option<string>,
    schema: Option<string>,
    objectName: Option<string>,
    profile: Option<ConnectionProfile>,
    group: Option<ServerGroup>,
    description: Option<string>,
    tooltip: Option<string>,
    command: Option<string>,
    icon: string,
    green: bool)

  /** `new ObjectTreeItem(...)`: the icon is the one `setIcon` finds in its
      table for the node's type. */
  function Item(t: NodeType, caption: string, c: Collapsible, connectionId: Option<string>, database: Option<string>,
                schema: Option<string>, objectName: Option<string>, profile: Option<ConnectionProfile>,
                group: Option<ServerGroup>): TreeItem
  {
    TreeItem(t, caption, c, connectionId, database, schema, objectName, profile, group, None, None, None,
             IconOf(t), false)
  }

  function GroupNode(g: ServerGroup): TreeItem
  {
    Item(Group, g.name, Expanded, None, None, None, None, None, Some(g))
  }

  function AuthName(a: AuthType): string
  {
    match a
    case SqlLogin => "sql"
    case Windows => "windows"
  }

  /** "server:port". */
  function Address(p: ConnectionProfile): string
  {
    p.server + ":" + IntToString(p.port)
  }

  function Tooltip(p: ConnectionProfile): string
  {
    p.name + "\n" + Address(p) + "\nDefault DB: " + p.database + "\nAuth: " + AuthName(p.authenticationType)
  }

  const SetActiveCommand := "sqlNotebook.setActiveConnection"

  /** `createConnectionNode(conn, activeId)`. */
  function ConnectionNode(p: ConnectionProfile, activeId: Option<string>): TreeItem
  {
    var active := activeId == Some(p.id);
    TreeItem(Connection, p.name, Collapsed, Some(p.id), Some(p.database), None, None, Some(p), None,
             Some(Address(p) + (if active then " (active)" else "")), Some(Tooltip(p)), Some(SetActiveCommand),
             if active then "server-process" else IconOf(Connection), active)
  }

  /** A connection node is labelled with the connection's name and
      described as "server:port", followed by " (active)" exactly when the
      connection is the active one, whose icon alone is the green
      `server-process`. */
  lemma ConnectionNodeSpec(p: ConnectionProfile, activeId: Option<string>)
    ensures var n := ConnectionNode(p, activeId);
      && n.caption == p.name && n.connectionId == Some(p.id) && n.profile == Some(p)
      && n.description.Some?
      && (activeId == Some(p.id) ==> n.description.value == Address(p) + " (active)" && n.icon == "server-process")
      && (activeId != Some(p.id) ==> n.description.value == Address(p) && n.icon == "server")
      && (n.green <==> activeId == Some(p.id))
  {
  }

  /** The connections that belong to no group (`!c.groupId`), in order. */
  function Loose(ps: seq<ConnectionProfile>): (r: seq<ConnectionProfile>)
    ensures forall p :: p in r <==> p in ps && !Truthy(p.groupId)
    ensures |r| <= |ps|
  {
    if |ps| == 0 then []
    else (if !Truthy(ps[0].groupId) then [ps[0]] else []) + Loose(ps[1..])
  }

  function GroupNodes(groups: seq<ServerGroup>): seq<TreeItem>
  {
    seq(|groups|, i requires 0 <= i < |groups| => GroupNode(groups[i]))
  }

  function ConnectionNodes(ps: seq<ConnectionProfile>, activeId: Option<string>): seq<TreeItem>
  {
    seq(|ps|, i requires 0 <= i < |ps| => ConnectionNode(ps[i], activeId))
  }

  /** The top level: every group, then every connection without a group. */
  function RootItems(groups: seq<ServerGroup>, ps: seq<ConnectionProfile>, activeId: Option<string>): seq<TreeItem>
  {
    GroupNodes(groups) + ConnectionNodes(Loose(ps), activeId)
  }

  /** `getRootNodes()`: the two loops pushing into `items`. */
  method RootNodes(cm: CM.ConnectionManager) returns (items: seq<TreeItem>)
    requires cm.Valid()
    ensures items == RootItems(cm.GroupList(), cm.Profiles(), cm.activeConnectionId)
  {
    var groupNodes := GroupNodes(cm.GroupList());
    var connectionNodes := ConnectionNodes(Loose(cm.Profiles()), cm.activeConnectionId);
    items := [];
    for i := 0 to |groupNodes|
      invariant items == groupNodes[..i]
    {
      PushPrefix([], groupNodes, i);
      items := items + [groupNodes[i]];
    }
    assert items == groupNodes + connectionNodes[..0];
    for i := 0 to |connectionNodes|
      invariant items == groupNodes + connectionNodes[..i]
    {
      PushPrefix(groupNodes, connectionNodes, i);
      items := items + [connectionNodes[i]];
    }
    assert connectionNodes[..|connectionNodes|] == connectionNodes;
  }

  lemma PushPrefix<T>(a: seq<T>, b: seq<T>, i: nat)
    requires i < |b|
    ensures a + b[..i] + [b[i]] == a + b[..i + 1]
  {
    assert b[..i + 1] == b[..i] + [b[i]];
  }

  lemma GroupNodesAreGroups(groups: seq<ServerGroup>)
    ensures forall n :: n in GroupNodes(groups) ==> n.nodeType == Group
  {
  }

  /** A connection has a node in a list of connection nodes exactly when it
      is in the list of connections. */
  lemma ConnectionNodesHas(ps: seq<ConnectionProfile>, p: ConnectionProfile, activeId: Option<string>)
    ensures ConnectionNode(p, activeId) in ConnectionNodes(ps, activeId) <==> p in ps
  {
    var nodes := ConnectionNodes(ps, activeId);
    if ConnectionNode(p, activeId) in nodes {
      var i :| 0 <= i < |nodes| && nodes[i] == ConnectionNode(p, activeId);
      assert nodes[i].profile == Some(ps[i]);
    }
    if p in ps {
      var i :| 0 <= i < |ps| && ps[i] == p;
      assert nodes[i] == ConnectionNode(p, activeId);
    }
  }

  /** The top level lists each group in order, then the nodes of the
      connections that have no group, in their order; a connection shows at
      the top level exactly when it has no group. */
  lemma RootItemsSpec(groups: seq<ServerGroup>, ps: seq<ConnectionProfile>, activeId: Option<string>)
    ensures var items := RootItems(groups, ps, activeId);
      && |items| == |groups| + |Loose(ps)|
      && (forall i :: 0 <= i < |groups| ==> items[i].nodeType == Group && items[i].group == Some(groups[i]) && items[i].caption == groups[i].name)
      && items[|groups|..] == ConnectionNodes(Loose(ps), activeId)
      && (forall p :: p in ps ==> (ConnectionNode(p, activeId) in items <==> !Truthy(p.groupId)))
  {
    var items := RootItems(groups, ps, activeId);
    var gs := GroupNodes(groups);
    var cs := ConnectionNodes(Loose(ps), activeId);
    assert items[|groups|..] == cs;
    GroupNodesAreGroups(groups);
    forall p | p in ps
      ensures ConnectionNode(p, activeId) in items <==> !Truthy(p.groupId)
    {
      ConnectionNodesHas(Loose(ps), p, activeId);
      assert ConnectionNode(p, activeId) !in gs;
      assert ConnectionNode(p, activeId) in items <==> ConnectionNode(p, activeId) in cs;
    }
  }

  /** `getGroupChildren(group)`: the group's connections, in order. */
  function GroupChildren(cm: CM.ConnectionManager, g: ServerGroup): seq<TreeItem>
    reads cm
    requires CM.KeyOrder(cm.order, cm.connections)
  {
    ConnectionNodes(cm.ConnectionsInGroup(g.id), cm.activeConnectionId)
  }

  /** A group's children are the nodes of exactly the connections whose
      group is that group. */
  lemma GroupChildrenSpec(cm: CM.ConnectionManager, g: ServerGroup)
    requires cm.Valid()
    ensures forall n :: n in GroupChildren(cm, g) ==> n.nodeType == Connection && n.profile.Some? && n.profile.value.groupId == Some(g.id)
    ensures forall p :: p in cm.Profiles() ==>
      (ConnectionNode(p, cm.activeConnectionId) in GroupChildren(cm, g) <==> p.groupId == Some(g.id))
  {
    var ps := cm.ConnectionsInGroup(g.id);
    var children := GroupChildren(cm, g);
    CM.InGroupHas(cm.Profiles(), g.id);
    forall p | p in cm.Profiles()
      ensures ConnectionNode(p, cm.activeConnectionId) in children <==> p.groupId == Some(g.id)
    {
      if ConnectionNode(p, cm.activeConnectionId) in children {
        var i :| 0 <= i < |children| && children[i] == ConnectionNode(p, cm.activeConnectionId);
        assert children[i].profile == Some(ps[i]);
      }
      if p.groupId == Some(g.id) {
        assert p in ps;
        var j :| 0 <= j < |ps| && ps[j] == p;
        assert children[j] == ConnectionNode(p, cm.activeConnectionId);
      }
    }
  }

  // ---------------------------------------------------------------------
  // database objects
  // ---------------------------------------------------------------------

  /** "schema.name". */
  function ObjectLabel(o: DbObjectInfo): string
  {
    o.schema + "." + o.name
  }

  function ObjectNode(t: NodeType, o: DbObjectInfo, connectionId: string, database: string): TreeItem
  {
    var c := if t == Table || t == View then Collapsed else NotCollapsible;
    Item(t, ObjectLabel(o), c, Some(connectionId), Some(database), Some(o.schema), Some(o.name), None, None)
      .(tooltip := Some(ObjectLabel(o)))
  }

  /** `getObjectNodes`: the objects the fetcher returned, or a single node
      holding the error it failed with. */
  function ObjectNodes(t: NodeType, fetched: Result<seq<DbObjectInfo>>, connectionId: string, database: string): seq<TreeItem>
  {
    match fetched
    case Err(msg) => [Item(t, "Error: " + msg, NotCollapsible, None, None, None, None, None, None)]
    case Ok(objects) => seq(|objects|, i requires 0 <= i < |objects| => ObjectNode(t, objects[i], connectionId, database))
  }

  /** One node per object, in order, labelled "schema.name" and expandable
      exactly for tables and views; a failed fetch gives one node that
      cannot be expanded. */
  lemma ObjectNodesSpec(t: NodeType, fetched: Result<seq<DbObjectInfo>>, connectionId: string, database: string)
    ensures var nodes := ObjectNodes(t, fetched, connectionId, database);
      && (fetched.Err? ==> |nodes| == 1 && nodes[0].collapsible == NotCollapsible && nodes[0].caption == "Error: " + fetched.message)
      && (fetched.Ok? ==>
            && |nodes| == |fetched.value|
            && forall i :: 0 <= i < |nodes| ==>
                 && nodes[i].nodeType == t
                 && nodes[i].caption == ObjectLabel(fetched.value[i])
                 && nodes[i].schema == Some(fetched.value[i].schema)
                 && nodes[i].objectName == Some(fetched.value[i].name)
                 && (nodes[i].collapsible == Collapsed <==> t == Table || t == View))
  {
  }

  /** When schemas hold no dot, an object's label names it: equal labels
      mean equal schema and name. */
  lemma ObjectLabelInjective(a: DbObjectInfo, b: DbObjectInfo)
    requires '.' !in a.schema && '.' !in b.schema
    requires ObjectLabel(a) == ObjectLabel(b)
    ensures a.schema == b.schema && a.name == b.name
  {
    assert a.schema + ("." + a.name) == ObjectLabel(a);
    assert b.schema + ("." + b.name) == ObjectLabel(b);
    SplitAtFirst(a.schema, "." + a.name, b.schema, "." + b.name, '.');
    assert a.name == ("." + a.name)[1..];
    assert b.name == ("." + b.name)[1..];
  }

  // ---------------------------------------------------------------------
  // drag and drop
  // ---------------------------------------------------------------------

  /** `handleDrag`: the ids of the dragged connection nodes that carry one;
      nothing is put on the transfer when there are none. */
  function DraggedIds(source: seq<TreeItem>): seq<string>
  {
    if |source| == 0 then []
    else (if source[0].nodeType == Connection && Truthy(source[0].connectionId) then [source[0].connectionId.value] else [])
         + DraggedIds(source[1..])
  }

  function HandleDrag(source: seq<TreeItem>): Option<seq<string>>
  {
    var ids := DraggedIds(source);
    if |ids| > 0 then Some(ids) else None
  }

  lemma {:induction false} DraggedIdsSpec(source: seq<TreeItem>)
    ensures forall id :: id in DraggedIds(source) <==>
      exists i :: 0 <= i < |source| && source[i].nodeType == Connection && source[i].connectionId == Some(id) && id != ""
  {
    if |source| > 0 {
      DraggedIdsSpec(source[1..]);
      forall id
        ensures id in DraggedIds(source) <==>
          exists i :: 0 <= i < |source| && source[i].nodeType == Connection && source[i].connectionId == Some(id) && id != ""
      {
        if exists i :: 0 <= i < |source| && source[i].nodeType == Connection && source[i].connectionId == Some(id) && id != "" {
          var i :| 0 <= i < |source| && source[i].nodeType == Connection && source[i].connectionId == Some(id) && id != "";
          if i > 0 {
            assert source[1..][i - 1] == source[i];
          }
        }
        if id in DraggedIds(source[1..]) {
          var i :| 0 <= i < |source[1..]| && source[1..][i].nodeType == Connection && source[1..][i].connectionId == Some(id) && id != "";
          assert source[i + 1] == source[1..][i];
        }
      }
    }
  }

  lemma {:induction false} DraggedIdsHas(source: seq<TreeItem>, i: nat)
    requires i < |source|
    ensures source[i].nodeType == Connection && Truthy(source[i].connectionId) ==> source[i].connectionId.value in DraggedIds(source)
    decreases i
  {
    if i > 0 {
      DraggedIdsHas(source[1..], i - 1);
      assert source[1..][i - 1] == source[i];
    }
  }

  /** What is dragged is exactly the non-empty ids of the connection nodes
      among the dragged nodes, and the transfer is left empty when there
      are none. */
  lemma HandleDragSpec(source: seq<TreeItem>)
    ensures HandleDrag(source).None? <==> forall i :: 0 <= i < |source| ==> source[i].nodeType != Connection || !Truthy(source[i].connectionId)
    ensures HandleDrag(source).Some? ==> forall id :: id in HandleDrag(source).value <==>
      exists i :: 0 <= i < |source| && source[i].nodeType == Connection && source[i].connectionId == Some(id) && id != ""
  {
    DraggedIdsSpec(source);
    if HandleDrag(source).None? {
      forall i | 0 <= i < |source| ensures source[i].nodeType != Connection || !Truthy(source[i].connectionId) {
        DraggedIdsHas(source, i);
      }
    } else {
      var id := DraggedIds(source)[0];
      assert id in DraggedIds(source);
    }
  }

  /** The group a drop moves connections to: the group dropped on, the
      group of the connection dropped on, or none. */
  function DropTarget(target: Option<TreeItem>): Option<string>
  {
    match target
    case Some(t) =>
      if t.nodeType == Group && t.group.Some? then Some(t.group.value.id)
      else if t.nodeType == Connection && t.profile.Some? && Truthy(t.profile.value.groupId) then t.profile.value.groupId
      else None
    case None => None
  }

  /** Dropping on a group node moves into that group, dropping on a node of
      a grouped connection moves into its group, and anything else, the
      empty space included, ungroups. */
  lemma DropTargetSpec(g: ServerGroup, p: ConnectionProfile, t: Option<TreeItem>)
    ensures DropTarget(Some(GroupNode(g))) == Some(g.id)
    ensures forall activeId :: DropTarget(Some(ConnectionNode(p, activeId))) == (if Truthy(p.groupId) then p.groupId else None)
    ensures t.None? ==> DropTarget(t) == None
    ensures t.Some? && t.value.nodeType != Group && t.value.nodeType != Connection ==> DropTarget(t) == None
  {
  }

  /** The registry after every id in `ids` has been given group `g`. */
  function Moved(m: map<string, ConnectionProfile>, ids: seq<string>, g: Option<string>): map<string, ConnectionProfile>
  {
    if |ids| == 0 then m
    else
      var m' := if ids[0] in m then m[ids[0] := m[ids[0]].(groupId := g)] else m;
      Moved(m', ids[1..], g)
  }

  /** Moving keeps the set of connections; the dropped ones get the target
      group, the others are untouched. */
  lemma {:induction false} MovedSpec(m: map<string, ConnectionProfile>, ids: seq<string>, g: Option<string>)
    ensures Moved(m, ids, g).Keys == m.Keys
    ensures forall k :: k in m && k in ids ==> Moved(m, ids, g)[k] == m[k].(groupId := g)
    ensures forall k :: k in m && k !in ids ==> Moved(m, ids, g)[k] == m[k]
    decreases |ids|
  {
    if |ids| > 0 {
      var m' := if ids[0] in m then m[ids[0] := m[ids[0]].(groupId := g)] else m;
      MovedSpec(m', ids[1..], g);
      forall k | k in m && k in ids ensures Moved(m, ids, g)[k] == m[k].(groupId := g) {
        if k != ids[0] {
          assert k in ids[1..];
        }
      }
    }
  }

  lemma MovedStep(m: map<string, ConnectionProfile>, ids: seq<string>, i: nat, g: Option<string>)
    requires i < |ids|
    ensures Moved(m, ids[..i + 1], g) ==
      var m' := Moved(m, ids[..i], g);
      if ids[i] in m' then m'[ids[i] := m'[ids[i]].(groupId := g)] else m'
    decreases i
  {
    if i > 0 {
      var m0 := if ids[0] in m then m[ids[0] := m[ids[0]].(groupId := g)] else m;
      assert ids[..i + 1][1..] == ids[1..][..i];
      assert ids[..i][1..] == ids[1..][..i - 1];
      MovedStep(m0, ids[1..], i - 1, g);
    }
  }

  /** `handleDrop`: with nothing transferred nothing changes; otherwise
      every dropped connection is moved to the target's group in turn. */
  method HandleDrop(cm: CM.ConnectionManager, target: Option<TreeItem>, transfer: Option<seq<string>>)
    requires cm.Valid()
    modifies cm`connections, cm`savedProfiles
    ensures cm.Valid()
    ensures transfer.None? ==> cm.connections == old(cm.connections)
    ensures transfer.Some? ==> cm.connections == Moved(old(cm.connections), transfer.value, DropTarget(target))
  {
    if transfer.None? {
      return;
    }
    var ids := transfer.value;
    var g := DropTarget(target);
    ghost var m0 := cm.connections;
    for i := 0 to |ids|
      invariant cm.Valid()
      invariant cm.connections == Moved(m0, ids[..i], g)
    {
      MovedStep(m0, ids, i, g);
      cm.SetConnectionGroup(ids[i], g);
    }
    assert ids[..|ids|] == ids;
  }
}
