/** The in-memory connection registry of src/connectionManager.ts: the
    connection and group maps, the open pools, the active connection and
    database, and what the registry writes to its files and to the secret
    store. JavaScript `Map`s keep insertion order, so each map is a key
    order plus a Dafny `map`. Pools, files and the secret store are foreign;
    the model keeps only which ids have a pool, the profile and group lists
    last written, and the stored secrets. */
module ConnectionManager {
  import opened Wrappers
  import opened Text
  import opened Types

  // ---------------------------------------------------------------------
  // insertion-ordered maps
  // ---------------------------------------------------------------------

  /** `order` lists the keys of `m`, each once, in insertion order. */
  ghost predicate KeyOrder<V>(order: seq<string>, m: map<string, V>)
  {
    Distinct(order) && (forall k :: k in m <==> k in order)
  }

  /** The key order after `Map.prototype.delete(k)`. */
  function Without(order: seq<string>, k: string): (r: seq<string>)
    ensures forall x :: x in r <==> x in order && x != k
    ensures Distinct(order) ==> Distinct(r)
    ensures k !in order ==> r == order
    decreases |order|
  {
    if |order| == 0 then []
    else
      var rest := Without(order[1..], k);
      if order[0] == k then rest
      else
        assert Distinct(order) ==> order[0] !in order[1..];
        [order[0]] + rest
  }

  /** The key order after `Map.prototype.set(k, v)`: a new key goes last, an
      existing key keeps its place. */
  function OrderAfterSet<V>(order: seq<string>, m: map<string, V>, k: string): seq<string>
  {
    if k in m then order else order + [k]
  }

  lemma SetKeepsOrder<V>(order: seq<string>, m: map<string, V>, k: string, v: V)
    requires KeyOrder(order, m)
    ensures KeyOrder(OrderAfterSet(order, m, k), m[k := v])
  {
  }

  lemma DeleteKeepsOrder<V>(order: seq<string>, m: map<string, V>, k: string)
    requires KeyOrder(order, m)
    ensures KeyOrder(Without(order, k), m - {k})
  {
  }

  // ---------------------------------------------------------------------
  // profile helpers
  // ---------------------------------------------------------------------

  /** The fields the connection form edits. */
  datatype ConnectionForm = ConnectionForm(
    name: string,
    server: string,
    port: int,
    database: string,
    authenticationType: AuthType,
    user: Option<string>,
    encrypt: bool,
    trustServerCertificate: bool)

  /** The form fields of a profile. */
  function FormOf(p: ConnectionProfile): ConnectionForm
  {
    ConnectionForm(p.name, p.server, p.port, p.database, p.authenticationType, p.user, p.encrypt, p.trustServerCertificate)
  }

  /** `updateConnection`'s eight assignments to the existing profile: the
      form fields are replaced, id, password, source and group are kept. */
  function ApplyForm(p: ConnectionProfile, data: ConnectionForm): (r: ConnectionProfile)
    ensures FormOf(r) == data
    ensures r.id == p.id && r.password == p.password && r.source == p.source && r.groupId == p.groupId
  {
    p.(name := data.name, server := data.server, port := data.port, database := data.database,
       authenticationType := data.authenticationType, user := data.user, encrypt := data.encrypt,
       trustServerCertificate := data.trustServerCertificate)
  }

  /** The profile a form creates: id `conn_<now>`, no password in memory,
      source local, no group. */
  function NewProfile(data: ConnectionForm, now: int): (p: ConnectionProfile)
    ensures FormOf(p) == data
    ensures p.password == None && p.source == Some(Local) && p.groupId == None
  {
    ConnectionProfile("conn_" + IntToString(now), data.name, data.server, data.port, data.database,
      data.authenticationType, data.user, None, data.encrypt, data.trustServerCertificate, Some(Local), None)
  }

  /** The copy written to disk: `{ ...c, password: undefined }`. */
  function Persisted(p: ConnectionProfile): ConnectionProfile
  {
    p.(password := None)
  }

  /** What `removeGroup` does to one connection. */
  function Ungrouped(p: ConnectionProfile, groupId: string): ConnectionProfile
  {
    if p.groupId == Some(groupId) then p.(groupId := None) else p
  }

  /** The key under which a password is kept in the secret store. */
  function SecretKey(id: string): string
  {
    "sqlnb.pwd." + id
  }

  /** The profiles of `ps` whose group is `groupId`, in order. */
  function InGroup(ps: seq<ConnectionProfile>, groupId: string): (r: seq<ConnectionProfile>)
    ensures |r| <= |ps|
    decreases |ps|
  {
    if |ps| == 0 then []
    else (if ps[0].groupId == Some(groupId) then [ps[0]] else []) + InGroup(ps[1..], groupId)
  }

  /** The filter keeps exactly the profiles that name the group. */
  lemma {:induction false} InGroupHas(ps: seq<ConnectionProfile>, groupId: string)
    ensures forall p :: p in InGroup(ps, groupId) <==> p in ps && p.groupId == Some(groupId)
    decreases |ps|
  {
    if |ps| > 0 {
      InGroupHas(ps[1..], groupId);
      var head := if ps[0].groupId == Some(groupId) then [ps[0]] else [];
      assert InGroup(ps, groupId) == head + InGroup(ps[1..], groupId);
      assert ps == [ps[0]] + ps[1..];
    }
  }

  /** The values of `m` in key order. */
  function ValuesOf<V>(order: seq<string>, m: map<string, V>): (vs: seq<V>)
    requires forall k :: k in order ==> k in m
    ensures |vs| == |order|
    ensures forall i :: 0 <= i < |order| ==> vs[i] == m[order[i]]
  {
    seq(|order|, i requires 0 <= i < |order| && order[i] in m => m[order[i]])
  }

  /** When no connection names a group, that group has no children. */
  lemma NoneInGroup(order: seq<string>, m: map<string, ConnectionProfile>, groupId: string)
    requires forall k :: k in order ==> k in m
    requires forall k :: k in m ==> m[k].groupId != Some(groupId)
    ensures InGroup(ValuesOf(order, m), groupId) == []
  {
    InGroupEmpty(ValuesOf(order, m), groupId);
  }

  lemma {:induction false} InGroupEmpty(ps: seq<ConnectionProfile>, groupId: string)
    requires forall i :: 0 <= i < |ps| ==> ps[i].groupId != Some(groupId)
    ensures InGroup(ps, groupId) == []
    decreases |ps|
  {
    if |ps| > 0 {
      InGroupEmpty(ps[1..], groupId);
    }
  }

  // ---------------------------------------------------------------------
  // the registry
  // ---------------------------------------------------------------------

  /** The connection registry's own invariant: the order lists the keys
      once each, each profile sits under its own id, and the active id, when
      set, is a known one. */
  ghost predicate ProfilesOk(order: seq<string>, m: map<string, ConnectionProfile>, active: Option<string>)
  {
    && KeyOrder(order, m)
    && (forall k :: k in m ==> m[k].id == k)
    && (active.Some? ==> active.value in m)
  }

  /** Removing a connection, and clearing the active id when it was that
      one, keeps the registry's invariant. */
  lemma RemoveKeepsProfiles(order: seq<string>, m: map<string, ConnectionProfile>, active: Option<string>, id: string)
    requires ProfilesOk(order, m, active)
    ensures ProfilesOk(Without(order, id), m - {id}, if active == Some(id) then None else active)
  {
    DeleteKeepsOrder(order, m, id);
  }

  /** Storing a profile under its own id, a new one last in the order,
      keeps the registry's invariant. */
  lemma SetKeepsProfiles(order: seq<string>, m: map<string, ConnectionProfile>, active: Option<string>, v: ConnectionProfile)
    requires ProfilesOk(order, m, active)
    ensures ProfilesOk(OrderAfterSet(order, m, v.id), m[v.id := v], active)
  {
    SetKeepsOrder(order, m, v.id, v);
  }

  /** Replacing profiles in place, each under its own id, keeps the
      registry's invariant. */
  lemma ReplaceKeepsProfiles(order: seq<string>, m: map<string, ConnectionProfile>, active: Option<string>, m2: map<string, ConnectionProfile>)
    requires ProfilesOk(order, m, active)
    requires m2.Keys == m.Keys && forall k :: k in m2 ==> m2[k].id == k
    ensures ProfilesOk(order, m2, active)
  {
  }

  class ConnectionManager {
    var order: seq<string>
    var connections: map<string, ConnectionProfile>
    var groupOrder: seq<string>
    var groups: map<string, ServerGroup>
    /** The ids that have an open pool. */
    var pools: set<string>
    var activeConnectionId: Option<string>
    var activeDatabase: Option<string>
    /** The profile list last written to connections.json and global state. */
    var savedProfiles: seq<ConnectionProfile>
    /** The group list last written to groups.json and global state. */
    var savedGroups: seq<ServerGroup>
    var secrets: map<string, string>

    /** The registry's invariant: each map is keyed by the ids of its
        values, the active connection, when set, is a known one, and what was
        last written is the current registry with passwords removed. */
    ghost predicate Valid()
      reads this
    {
      ProfilesValid() && GroupsValid()
    }

    /** The connection half of `Valid`. */
    ghost predicate ProfilesValid()
      reads this`order, this`connections, this`activeConnectionId, this`savedProfiles
    {
      && ProfilesOk(order, connections, activeConnectionId)
      && savedProfiles == PersistedProfiles()
    }

    /** The group half of `Valid`. */
    ghost predicate GroupsValid()
      reads this`groupOrder, this`groups, this`savedGroups
    {
      && KeyOrder(groupOrder, groups)
      && (forall k :: k in groups ==> groups[k].id == k)
      && savedGroups == GroupList()
    }

    /** `Array.from(this.connections.values())`. */
    function Profiles(): (ps: seq<ConnectionProfile>)
      reads this`order, this`connections
      requires KeyOrder(order, connections)
      ensures |ps| == |order|
    {
      ValuesOf(order, connections)
    }

    /** The list `saveToFile` and `saveConnections` write. */
    function PersistedProfiles(): (ps: seq<ConnectionProfile>)
      reads this`order, this`connections
      requires KeyOrder(order, connections)
      ensures |ps| == |order|
    {
      var o, m := order, connections;
      seq(|o|, i requires 0 <= i < |o| && o[i] in m => Persisted(m[o[i]]))
    }

    /** `Array.from(this.groups.values())`. */
    function GroupList(): (gs: seq<ServerGroup>)
      reads this`groupOrder, this`groups
      requires KeyOrder(groupOrder, groups)
      ensures |gs| == |groupOrder|
    {
      ValuesOf(groupOrder, groups)
    }

    /** A registry with nothing stored yet. */
    constructor()
      ensures Valid()
      ensures order == [] && groupOrder == [] && pools == {} && secrets == map[]
      ensures activeConnectionId == None && activeDatabase == None
    {
      order := [];
      connections := map[];
      groupOrder := [];
      groups := map[];
      pools := {};
      activeConnectionId := None;
      activeDatabase := None;
      savedProfiles := [];
      savedGroups := [];
      secrets := map[];
    }

    /** `getActiveConnection()`: nothing when the active id is unset or
        empty, otherwise the profile under it. */
    function ActiveConnection(): (r: Option<ConnectionProfile>)
      reads this
      ensures r.Some? ==> Truthy(activeConnectionId) && activeConnectionId.value in connections
                          && r.value == connections[activeConnectionId.value]
      ensures r.None? ==> !Truthy(activeConnectionId) || activeConnectionId.value !in connections
    {
      if Truthy(activeConnectionId) && activeConnectionId.value in connections
      then Some(connections[activeConnectionId.value]) else None
    }

    /** `getActiveDatabase()`: the chosen database when one is set and
        non-empty, else the active connection's default database. */
    function ActiveDatabase(): (r: Option<string>)
      reads this
      ensures Truthy(activeDatabase) ==> r == activeDatabase
      ensures !Truthy(activeDatabase) && ActiveConnection().Some? ==> r == Some(ActiveConnection().value.database)
      ensures !Truthy(activeDatabase) && ActiveConnection().None? ==> r == None
    {
      if Truthy(activeDatabase) then activeDatabase
      else match ActiveConnection()
        case Some(c) => Some(c.database)
        case None => None
    }

    /** `getConnectionsInGroup(groupId)`. */
    function ConnectionsInGroup(groupId: string): seq<ConnectionProfile>
      reads this
      requires KeyOrder(order, connections)
    {
      InGroup(Profiles(), groupId)
    }

    /** `setActiveById(id)`: an unknown id changes nothing and answers
        false; a known id becomes active, the chosen database is cleared, so
        the active database falls back to that connection's default. */
    method SetActiveById(id: string) returns (ok: bool)
      requires Valid()
      modifies this`activeConnectionId, this`activeDatabase
      ensures Valid()
      ensures ok <==> id in connections
      ensures ok ==> activeConnectionId == Some(id) && activeDatabase == None
      ensures ok && id != "" ==> ActiveDatabase() == Some(connections[id].database)
      ensures !ok ==> activeConnectionId == old(activeConnectionId) && activeDatabase == old(activeDatabase)
    {
      if id !in connections {
        return false;
      }
      activeConnectionId := Some(id);
      activeDatabase := None;
      return true;
    }

    /** `setActiveDatabase(database)`. */
    method SetActiveDatabase(database: string)
      modifies this`activeDatabase
      ensures activeDatabase == Some(database)
      ensures database != "" ==> ActiveDatabase() == Some(database)
    {
      activeDatabase := Some(database);
    }

    /** Writes the connection list, passwords removed. */
    method SaveConnections()
      requires KeyOrder(order, connections)
      modifies this`savedProfiles
      ensures savedProfiles == PersistedProfiles()
    {
      savedProfiles := PersistedProfiles();
    }

    /** Writes the group list. */
    method SaveGroups()
      requires KeyOrder(groupOrder, groups)
      modifies this`savedGroups
      ensures savedGroups == GroupList()
    {
      savedGroups := GroupList();
    }

    /** `createGroup()` with the name the user typed (`None` when the input
        box was dismissed) and the clock reading: no name, no group. */
    method CreateGroup(name: Option<string>, now: int) returns (g: Option<ServerGroup>)
      requires Valid()
      modifies this`groups, this`groupOrder, this`savedGroups
      ensures Valid()
      ensures !Truthy(name) ==> g == None && groups == old(groups) && groupOrder == old(groupOrder)
      ensures Truthy(name) ==>
        && g == Some(ServerGroup("grp_" + IntToString(now), name.value))
        && groups == old(groups)[g.value.id := g.value]
        && groupOrder == OrderAfterSet(old(groupOrder), old(groups), g.value.id)
    {
      if !Truthy(name) {
        return None;
      }
      var group := ServerGroup("grp_" + IntToString(now), name.value);
      SetKeepsOrder(groupOrder, groups, group.id, group);
      groupOrder := OrderAfterSet(groupOrder, groups, group.id);
      groups := groups[group.id := group];
      SaveGroups();
      return Some(group);
    }

    /** `renameGroup(groupId)` with the name the user typed: an unknown group
        or an empty name changes nothing; otherwise only that group's name
        changes. */
    method RenameGroup(groupId: string, name: Option<string>)
      requires Valid()
      modifies this`groups, this`savedGroups
      ensures Valid()
      ensures groupId !in old(groups) || !Truthy(name) ==> groups == old(groups)
      ensures groupId in old(groups) && Truthy(name) ==>
        groups == old(groups)[groupId := old(groups)[groupId].(name := name.value)]
    {
      if groupId !in groups {
        return;
      }
      if !Truthy(name) {
        return;
      }
      groups := groups[groupId := groups[groupId].(name := name.value)];
      SaveGroups();
    }

    /** `removeGroup(groupId)`: the loop ungroups every connection of the
        group in place, then the group is deleted. */
    method RemoveGroup(groupId: string)
      requires Valid()
      modifies this`connections, this`groups, this`groupOrder, this`savedGroups, this`savedProfiles
      ensures Valid()
      ensures connections.Keys == old(connections).Keys
      ensures forall k :: k in connections ==> connections[k] == Ungrouped(old(connections)[k], groupId)
      ensures groups == old(groups) - {groupId} && groupOrder == Without(old(groupOrder), groupId)
      ensures ConnectionsInGroup(groupId) == []
    {
      UngroupAll(groupId);
      DeleteGroup(groupId);
      NoneInGroup(order, connections, groupId);
    }

    /** `this.groups.delete(groupId)` and the save that follows. */
    method DeleteGroup(groupId: string)
      requires Valid()
      modifies this`groups, this`groupOrder, this`savedGroups
      ensures Valid()
      ensures groups == old(groups) - {groupId} && groupOrder == Without(old(groupOrder), groupId)
    {
      DeleteKeepsOrder(groupOrder, groups, groupId);
      groupOrder := Without(groupOrder, groupId);
      groups := groups - {groupId};
      SaveGroups();
    }

    /** The loop of `removeGroup`: every connection of the group gets its
        `groupId` cleared in place. */
    method UngroupAll(groupId: string)
      requires Valid()
      modifies this`connections, this`savedProfiles
      ensures Valid()
      ensures connections.Keys == old(connections).Keys
      ensures forall k :: k in connections ==> connections[k] == Ungrouped(old(connections)[k], groupId)
      ensures forall k :: k in connections ==> connections[k].groupId != Some(groupId)
    {
      var i := 0;
      while i < |order|
        invariant 0 <= i <= |order|
        invariant connections.Keys == old(connections).Keys
        invariant forall k :: k in connections ==>
          connections[k] == old(connections)[k] || connections[k] == Ungrouped(old(connections)[k], groupId)
        invariant forall j :: 0 <= j < i ==> connections[order[j]].groupId != Some(groupId)
      {
        var id := order[i];
        var conn := connections[id];
        if conn.groupId == Some(groupId) {
          connections := connections[id := conn.(groupId := None)];
        }
        i := i + 1;
      }
      assert forall k :: k in connections ==> connections[k].groupId != Some(groupId) by {
        forall k | k in connections ensures connections[k].groupId != Some(groupId) {
          var j :| 0 <= j < |order| && order[j] == k;
        }
      }
      ReplaceKeepsProfiles(order, old(connections), activeConnectionId, connections);
      SaveConnections();
    }

    /** `setConnectionGroup(connectionId, groupId)`: an unknown connection is
        a no-op; otherwise only that connection's group changes. */
    method SetConnectionGroup(connectionId: string, groupId: Option<string>)
      requires Valid()
      modifies this`connections, this`savedProfiles
      ensures Valid()
      ensures connectionId !in old(connections) ==> connections == old(connections)
      ensures connectionId in old(connections) ==>
        connections == old(connections)[connectionId := old(connections)[connectionId].(groupId := groupId)]
    {
      if connectionId !in connections {
        return;
      }
      SetKeepsProfiles(order, connections, activeConnectionId, connections[connectionId].(groupId := groupId));
      connections := connections[connectionId := connections[connectionId].(groupId := groupId)];
      SaveConnections();
    }

    /** `disconnect(connectionId)`: the pool, if any, is closed and
        forgotten. */
    method Disconnect(connectionId: string)
      modifies this`pools
      ensures pools == old(pools) - {connectionId}
    {
      pools := pools - {connectionId};
    }

    /** `removeConnection(id)`: the pool, the profile and the stored password
        go; the active id is cleared only if it was this one. */
    method RemoveConnection(id: string)
      requires Valid()
      modifies this`pools, this`connections, this`order, this`secrets, this`savedProfiles, this`activeConnectionId
      ensures Valid()
      ensures connections == old(connections) - {id} && order == Without(old(order), id)
      ensures pools == old(pools) - {id} && secrets == old(secrets) - {SecretKey(id)}
      ensures activeConnectionId == if old(activeConnectionId) == Some(id) then None else old(activeConnectionId)
    {
      RemoveKeepsProfiles(order, connections, activeConnectionId, id);
      Disconnect(id);
      order, connections := Without(order, id), connections - {id};
      if activeConnectionId == Some(id) {
        activeConnectionId := None;
      }
      secrets := secrets - {SecretKey(id)};
      SaveConnections();
    }

    /** `updateConnection(id, data, password)`: an unknown id is a no-op;
        otherwise the pool is closed, the eight form fields are overwritten,
        and a non-empty password goes to the secret store. */
    method UpdateConnection(id: string, data: ConnectionForm, password: Option<string>)
      requires Valid()
      modifies this`pools, this`connections, this`secrets, this`savedProfiles
      ensures Valid()
      ensures id !in old(connections) ==>
        connections == old(connections) && pools == old(pools) && secrets == old(secrets)
      ensures id in old(connections) ==>
        && connections == old(connections)[id := ApplyForm(old(connections)[id], data)]
        && pools == old(pools) - {id}
        && secrets == if Truthy(password) then old(secrets)[SecretKey(id) := password.value] else old(secrets)
    {
      if id !in connections {
        return;
      }
      Disconnect(id);
      SetKeepsProfiles(order, connections, activeConnectionId, ApplyForm(connections[id], data));
      connections := connections[id := ApplyForm(connections[id], data)];
      if Truthy(password) {
        secrets := secrets[SecretKey(id) := password.value];
      }
      SaveConnections();
    }

    /** `addConnectionFromForm(data)` with the form's password and the clock
        reading. The password goes only to the secret store. */
    method AddConnectionFromForm(data: ConnectionForm, password: Option<string>, now: int) returns (profile: ConnectionProfile)
      requires Valid()
      modifies this`connections, this`order, this`secrets, this`savedProfiles
      ensures Valid()
      ensures profile == NewProfile(data, now) && profile.id == "conn_" + IntToString(now)
      ensures connections == old(connections)[profile.id := profile]
      ensures order == OrderAfterSet(old(order), old(connections), profile.id)
      ensures secrets == if Truthy(password) then old(secrets)[SecretKey(profile.id) := password.value] else old(secrets)
    {
      profile := NewProfile(data, now);
      SetKeepsProfiles(order, connections, activeConnectionId, profile);
      order := OrderAfterSet(order, connections, profile.id);
      connections := connections[profile.id := profile];
      if Truthy(password) {
        secrets := secrets[SecretKey(profile.id) := password.value];
      }
      SaveConnections();
    }

    /** `importFromMssql()` given what the import produced: a non-empty
        password moves to the secret store and out of the registry. */
    method ImportFromMssql(imported: Option<ConnectionProfile>) returns (r: Option<ConnectionProfile>)
      requires Valid()
      modifies this`connections, this`order, this`secrets, this`savedProfiles
      ensures Valid()
      ensures imported.None? ==> r.None? && connections == old(connections) && secrets == old(secrets)
      ensures imported.Some? ==>
        var p := imported.value;
        && r == Some(if Truthy(p.password) then p.(password := None) else p)
        && connections == old(connections)[p.id := r.value]
        && order == OrderAfterSet(old(order), old(connections), p.id)
        && secrets == if Truthy(p.password) then old(secrets)[SecretKey(p.id) := p.password.value] else old(secrets)
    {
      if imported.None? {
        return None;
      }
      var p := imported.value;
      var stored := p;
      if Truthy(p.password) {
        secrets := secrets[SecretKey(p.id) := p.password.value];
        stored := p.(password := None);
      }
      SetKeepsProfiles(order, connections, activeConnectionId, stored);
      order := OrderAfterSet(order, connections, p.id);
      connections := connections[p.id := stored];
      SaveConnections();
      return Some(stored);
    }
  }

  // ---------------------------------------------------------------------
  // properties of the registry
  // ---------------------------------------------------------------------

  /** No password is ever written: the persisted list is the registry in
      map order, each profile with its password removed and every other
      field as it is in memory. */
  lemma PersistedHasNoPasswords(cm: ConnectionManager)
    requires cm.Valid()
    ensures |cm.savedProfiles| == |cm.order|
    ensures forall i :: 0 <= i < |cm.savedProfiles| ==>
      && cm.savedProfiles[i].password == None
      && cm.savedProfiles[i].id == cm.order[i]
      && cm.savedProfiles[i].(password := cm.connections[cm.order[i]].password) == cm.connections[cm.order[i]]
  {
  }

  /** One step of `InGroup`: the first profile, when it is in the group,
      is followed by the filtered rest. */
  lemma InGroupStep(ps: seq<ConnectionProfile>, groupId: string)
    requires |ps| > 0
    ensures InGroup(ps, groupId) == (if ps[0].groupId == Some(groupId) then [ps[0]] else []) + InGroup(ps[1..], groupId)
  {
  }

  /** A group's children are exactly the registry's connections that name
      that group, in map order: each of them is there, no other is, and
      their order is the registry's. */
  lemma {:induction false} InGroupOrder(ps: seq<ConnectionProfile>, groupId: string, i: nat, j: nat)
    requires i < j < |ps|
    requires ps[i].groupId == Some(groupId) && ps[j].groupId == Some(groupId)
    ensures exists a, b :: (0 <= a < b < |InGroup(ps, groupId)|
      && InGroup(ps, groupId)[a] == ps[i] && InGroup(ps, groupId)[b] == ps[j])
    decreases |ps|
  {
    var r, rest := InGroup(ps, groupId), InGroup(ps[1..], groupId);
    InGroupStep(ps, groupId);
    if i == 0 {
      InGroupHas(ps[1..], groupId);
      assert ps[j] in rest by { assert ps[1..][j - 1] == ps[j]; }
      var b :| 0 <= b < |rest| && rest[b] == ps[j];
      assert r[0] == ps[0] && r[b + 1] == ps[j];
    } else {
      assert ps[1..][i - 1] == ps[i] && ps[1..][j - 1] == ps[j];
      InGroupOrder(ps[1..], groupId, i - 1, j - 1);
      var a, b :| 0 <= a < b < |rest| && rest[a] == ps[i] && rest[b] == ps[j];
      var off := if ps[0].groupId == Some(groupId) then 1 else 0;
      assert r[a + off] == ps[i] && r[b + off] == ps[j];
    }
  }

  // ---------------------------------------------------------------------
  // getServerProperties: the value mapping
  // ---------------------------------------------------------------------

  /** `val === null ? 'N/A' : String(val)`. */
  function PropertyText(v: JsVal): string
  {
    if v.Null? then "N/A" else Stringify(v)
  }

  datatype Property = Property(key: string, text: string)

  /** The property list of the first row, in the row's key order. */
  function PropertiesOf(row: Row): (props: seq<Property>)
    ensures |props| == |row|
  {
    seq(|row|, i requires 0 <= i < |row| => Property(row[i].key, PropertyText(row[i].value)))
  }

  /** The loop over `Object.entries(row)` filling `props`. */
  method ServerProperties(row: Row) returns (props: seq<Property>)
    ensures props == PropertiesOf(row)
  {
    props := [];
    for i := 0 to |row|
      invariant props == PropertiesOf(row[..i])
    {
      props := props + [Property(row[i].key, PropertyText(row[i].value))];
    }
    assert row[..|row|] == row;
  }

  /** Every property of the row is listed under its own name; a null shows
      as "N/A", any other value (undefined included) as its `String`. "N/A"
      as a string value and a null are shown alike. */
  lemma PropertiesSpec(row: Row)
    ensures forall i :: 0 <= i < |row| ==>
      && PropertiesOf(row)[i].key == row[i].key
      && (row[i].value.Null? ==> PropertiesOf(row)[i].text == "N/A")
      && (!row[i].value.Null? ==> PropertiesOf(row)[i].text == Stringify(row[i].value))
    ensures PropertyText(Null) == PropertyText(Str("N/A"))
    ensures PropertyText(Undefined) == "undefined"
  {
  }
}
