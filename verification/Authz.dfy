/**
 The relationship store: internal/store/authz.go, authz_builder.go and model/authz.go. Tuples
 relate a resource to a user or to an org; permissions are derived from relations, directly
 or through org membership (internal/store/doc.go).
 */
module Authz {
  import opened Common

  datatype ResourceType = AssessmentResource | OrgResource

  datatype SubjectKind = UserSubject | OrgSubject

  datatype Permission = Read | Edit | Share | Delete

  datatype Relation = Owner | Viewer | Member {
    function Permissions(): seq<Permission> {
      match this
      case Owner => [Read, Edit, Share, Delete]
      case Viewer => [Read]
      case Member => []
    }
  }

  datatype Subject = Subject(kind: SubjectKind, id: string)

  /** One row of the relations table; the table has no duplicates. */
  datatype Tuple = Tuple(resourceType: ResourceType, resourceID: string, relation: Relation, subject: Subject)

  datatype Resource = Resource(resourceType: ResourceType, id: string, permissions: seq<Permission>)

  datatype Operation = Touch | Remove

  datatype Update = Update(operation: Operation, tuple: Tuple)

  // ----- what the tuples mean

  /** The user holds the relation directly, or the org holding it has the user as a member. */
  ghost predicate Holds(tuples: set<Tuple>, user: string, resourceType: ResourceType, id: string, relation: Relation) {
    || Tuple(resourceType, id, relation, Subject(UserSubject, user)) in tuples
    || (exists org :: HoldsThrough(tuples, user, resourceType, id, relation, org))
  }

  ghost predicate HoldsThrough(tuples: set<Tuple>, user: string, resourceType: ResourceType, id: string,
                               relation: Relation, org: string) {
    && Tuple(resourceType, id, relation, Subject(OrgSubject, org)) in tuples
    && Tuple(OrgResource, org, Member, Subject(UserSubject, user)) in tuples
  }

  ghost predicate Permitted(tuples: set<Tuple>, user: string, resourceType: ResourceType, id: string, p: Permission) {
    exists relation: Relation :: Holds(tuples, user, resourceType, id, relation) && p in relation.Permissions()
  }

  /** Owners hold all permissions, viewers can read. */
  lemma PermittedByRelation(tuples: set<Tuple>, user: string, resourceType: ResourceType, id: string, p: Permission)
    ensures Permitted(tuples, user, resourceType, id, p)
      <==> Holds(tuples, user, resourceType, id, Owner) || (p == Read && Holds(tuples, user, resourceType, id, Viewer))
  {
    assert p in Owner.Permissions();
    assert Read in Viewer.Permissions();
  }

  // ----- batches of updates

  function Touched(updates: seq<Update>): set<Tuple> {
    set u | u in updates && u.operation == Touch :: u.tuple
  }

  function Removed(updates: seq<Update>): set<Tuple> {
    set u | u in updates && u.operation == Remove :: u.tuple
  }

  /** A batch inserts all touched tuples, then deletes all removed ones. */
  function WriteAll(tuples: set<Tuple>, updates: seq<Update>): set<Tuple> {
    (tuples + Touched(updates)) - Removed(updates)
  }

  lemma WriteOne(tuples: set<Tuple>, updates: seq<Update>)
    requires |updates| == 1
    ensures WriteAll(tuples, updates)
      == if updates[0].operation == Touch then tuples + {updates[0].tuple} else tuples - {updates[0].tuple}
  {
    assert updates == [updates[0]];
    assert Touched(updates) == if updates[0].operation == Touch then {updates[0].tuple} else {};
    assert Removed(updates) == if updates[0].operation == Touch then {} else {updates[0].tuple};
  }

  /** Applying the updates one by one, in the order they were added. */
  function WriteInOrder(tuples: set<Tuple>, updates: seq<Update>): set<Tuple> {
    if updates == [] then tuples
    else WriteAll(WriteInOrder(tuples, Front(updates)), [Last(updates)])
  }

  function LastOperation(updates: seq<Update>, t: Tuple): Option<Operation> {
    if updates == [] then None
    else if Last(updates).tuple == t then Some(Last(updates).operation)
    else LastOperation(Front(updates), t)
  }

  lemma {:induction false} InOrderByLast(tuples: set<Tuple>, updates: seq<Update>, t: Tuple)
    ensures t in WriteInOrder(tuples, updates)
      <==> LastOperation(updates, t) == Some(Touch) || (LastOperation(updates, t).None? && t in tuples)
    ensures LastOperation(updates, t).Some? <==> t in Touched(updates) + Removed(updates)
    ensures LastOperation(updates, t).Some? ==> Update(LastOperation(updates, t).value, t) in updates
  {
    if updates != [] {
      InOrderByLast(tuples, Front(updates), t);
      var last := Last(updates);
      assert updates == Front(updates) + [last];
      assert Touched(updates) == Touched(Front(updates)) + Touched([last]);
      assert Removed(updates) == Removed(Front(updates)) + Removed([last]);
    }
  }

  /** A batch means the same as its updates in order exactly if no tuple is re-added after its removal. */
  lemma BatchIsInOrderExactly(tuples: set<Tuple>, updates: seq<Update>)
    ensures WriteAll(tuples, updates) == WriteInOrder(tuples, updates)
      <==> forall t :: t in Removed(updates) ==> LastOperation(updates, t) == Some(Remove)
  {
    forall t
      ensures t in Removed(updates) && LastOperation(updates, t) != Some(Remove)
        ==> t in WriteInOrder(tuples, updates) && t !in WriteAll(tuples, updates)
      ensures (t in Removed(updates) ==> LastOperation(updates, t) == Some(Remove))
        ==> (t in WriteInOrder(tuples, updates) <==> t in WriteAll(tuples, updates))
    {
      InOrderByLast(tuples, updates, t);
    }
  }

  /** Removing a tuple and touching it again, in one batch, loses it. */
  lemma BatchOrderExample(t: Tuple)
    ensures var updates := [Update(Remove, t), Update(Touch, t)];
      WriteInOrder({t}, updates) == {t} && WriteAll({t}, updates) == {}
  {
    var updates := [Update(Remove, t), Update(Touch, t)];
    assert Front(updates) == [Update(Remove, t)] && Front(Front(updates)) == [];
    WriteOne({t}, [Update(Remove, t)]);
    assert WriteInOrder({t}, Front(updates)) == {};
    WriteOne({}, [Update(Touch, t)]);
    assert updates[0].tuple in Removed(updates);
  }

  class RelationshipBuilder {
    var updates: seq<Update>

    constructor ()
      ensures updates == []
    {
      updates := [];
    }

    method With(resourceType: ResourceType, id: string, relation: Relation, subject: Subject)
      modifies this
      ensures updates == old(updates) + [Update(Touch, Tuple(resourceType, id, relation, subject))]
    {
      updates := updates + [Update(Touch, Tuple(resourceType, id, relation, subject))];
    }

    method Without(resourceType: ResourceType, id: string, relation: Relation, subject: Subject)
      modifies this
      ensures updates == old(updates) + [Update(Remove, Tuple(resourceType, id, relation, subject))]
    {
      updates := updates + [Update(Remove, Tuple(resourceType, id, relation, subject))];
    }

    function Build(): seq<Update>
      reads this
    {
      updates
    }
  }

  // ----- collecting permissions

  /** Appends the permissions not yet present, in order. */
  function AddNew(permissions: seq<Permission>, granted: seq<Permission>): (r: seq<Permission>)
    ensures forall p :: p in r <==> p in permissions || p in granted
    ensures Distinct(permissions) ==> Distinct(r)
  {
    if granted == [] then permissions
    else
      var rest := AddNew(permissions, Front(granted));
      if Last(granted) in rest then rest else rest + [Last(granted)]
  }

  /** Some order of a table's rows. */
  method Rows<T(==, !new)>(s: set<T>) returns (rows: seq<T>)
    ensures Distinct(rows) && forall x :: x in rows <==> x in s
  {
    rows := [];
    var rest := s;
    while rest != {}
      invariant rest <= s && Distinct(rows)
      invariant forall x :: x in rows <==> x in s - rest
      decreases rest
    {
      var x :| x in rest;
      assert forall k :: 0 <= k < |rows| ==> rows[k] in rows;
      rows := rows + [x];
      rest := rest - {x};
    }
  }

  /** A row shared with an org, joined with the user's membership of that org. */
  predicate Joined(r: Tuple, m: Tuple, userID: string, resourceType: ResourceType) {
    && m.resourceType == OrgResource && m.resourceID == r.subject.id && m.relation == Member
    && m.subject.kind == UserSubject && m.subject.id == userID
    && r.resourceType == resourceType && r.subject.kind == OrgSubject
  }

  predicate Direct(t: Tuple, userID: string, resourceType: ResourceType) {
    t.resourceType == resourceType && t.subject.kind == UserSubject && t.subject.id == userID
  }

  /** The UNION query of ListResources: resource IDs and relations. */
  function ListQuery(tuples: set<Tuple>, userID: string, resourceType: ResourceType): set<(string, Relation)> {
    (set t | t in tuples && Direct(t, userID, resourceType) :: (t.resourceID, t.relation))
    + (set r, m | r in tuples && m in tuples && Joined(r, m, userID, resourceType) :: (r.resourceID, r.relation))
  }

  /** The UNION query of GetPermissions: relations to one resource. */
  function PermissionQuery(tuples: set<Tuple>, userID: string, resourceType: ResourceType, id: string): set<Relation> {
    (set t | t in tuples && t.resourceID == id && Direct(t, userID, resourceType) :: t.relation)
    + (set r, m | r in tuples && m in tuples && r.resourceID == id && Joined(r, m, userID, resourceType) :: r.relation)
  }

  /** The user holds a relation exactly if some row, direct or joined, says so. */
  lemma HoldsByRow(tuples: set<Tuple>, userID: string, resourceType: ResourceType, id: string, relation: Relation)
    ensures Holds(tuples, userID, resourceType, id, relation) <==>
      || (exists t :: t in tuples && t.resourceID == id && t.relation == relation && Direct(t, userID, resourceType))
      || (exists r, m :: r in tuples && m in tuples && r.resourceID == id && r.relation == relation
            && Joined(r, m, userID, resourceType))
  {
    if Holds(tuples, userID, resourceType, id, relation) {
      var t := Tuple(resourceType, id, relation, Subject(UserSubject, userID));
      if t in tuples {
        assert Direct(t, userID, resourceType);
      } else {
        var org :| HoldsThrough(tuples, userID, resourceType, id, relation, org);
        var r := Tuple(resourceType, id, relation, Subject(OrgSubject, org));
        var m := Tuple(OrgResource, org, Member, Subject(UserSubject, userID));
        assert Joined(r, m, userID, resourceType);
      }
    }
    if r, m :| r in tuples && m in tuples && Joined(r, m, userID, resourceType) && (r.resourceID, r.relation) == (id, relation) {
      assert r == Tuple(resourceType, id, relation, Subject(OrgSubject, r.subject.id));
      assert m == Tuple(OrgResource, r.subject.id, Member, Subject(UserSubject, userID));
      assert HoldsThrough(tuples, userID, resourceType, id, relation, r.subject.id);
    }
    if t :| t in tuples && t.resourceID == id && t.relation == relation && Direct(t, userID, resourceType) {
      assert t == Tuple(resourceType, id, relation, Subject(UserSubject, userID));
    }
  }

  /** Both queries answer exactly the relations the user holds. */
  lemma QueriesAreHolds(tuples: set<Tuple>, userID: string, resourceType: ResourceType, id: string, relation: Relation)
    ensures (id, relation) in ListQuery(tuples, userID, resourceType)
      <==> Holds(tuples, userID, resourceType, id, relation)
    ensures relation in PermissionQuery(tuples, userID, resourceType, id)
      <==> Holds(tuples, userID, resourceType, id, relation)
  {
    hide Holds;
    hide Joined;
    hide Direct;
    HoldsByRow(tuples, userID, resourceType, id, relation);
  }

  class AuthzStore {
    var tuples: set<Tuple>

    constructor ()
      ensures tuples == {}
    {
      tuples := {};
    }

    method WriteRelationships(updates: seq<Update>)
      modifies this
      ensures tuples == WriteAll(old(tuples), updates)
    {
      if |updates| == 0 {
        return;
      }
      var touchRows: seq<Tuple> := [];
      var deleteRows: seq<Tuple> := [];
      for i := 0 to |updates|
        invariant forall t :: t in touchRows <==> t in Touched(updates[..i])
        invariant forall t :: t in deleteRows <==> t in Removed(updates[..i])
      {
        var u := updates[i];
        assert updates[..i + 1] == updates[..i] + [u];
        match u.operation {
          case Touch => touchRows := touchRows + [u.tuple];
          case Remove => deleteRows := deleteRows + [u.tuple];
        }
      }
      assert updates[..|updates|] == updates;
      if |touchRows| > 0 {
        tuples := tuples + set t | t in touchRows;
      }
      if |deleteRows| > 0 {
        tuples := set t | t in tuples && t !in deleteRows;
      }
    }

    /** An empty ID stands for every resource of the type. */
    method DeleteRelationships(resourceType: ResourceType, id: string)
      modifies this
      ensures tuples == set t | t in old(tuples) && !(t.resourceType == resourceType && (id == "" || t.resourceID == id))
    {
      tuples := set t | t in tuples && !(t.resourceType == resourceType && (id == "" || t.resourceID == id));
    }

    /** The permissions resolved for one resource, on top of those passed in. */
    method GetPermissions(userID: string, resource: Resource) returns (r: Resource)
      ensures r.resourceType == resource.resourceType && r.id == resource.id
      ensures forall p ::
        p in r.permissions <==> p in resource.permissions || Permitted(tuples, userID, r.resourceType, r.id, p)
      ensures Distinct(resource.permissions) ==> Distinct(r.permissions)
    {
      var relations := Rows(PermissionQuery(tuples, userID, resource.resourceType, resource.id));
      var permissions := resource.permissions;
      for i := 0 to |relations|
        invariant forall p ::
          p in permissions <==> p in resource.permissions || exists k :: 0 <= k < i && p in relations[k].Permissions()
        invariant Distinct(resource.permissions) ==> Distinct(permissions)
      {
        var granted := relations[i].Permissions();
        ghost var before := permissions;
        for j := 0 to |granted|
          invariant permissions == AddNew(before, granted[..j])
        {
          assert Front(granted[..j + 1]) == granted[..j];
          if granted[j] !in permissions {
            permissions := permissions + [granted[j]];
          }
        }
        assert granted[..|granted|] == granted;
      }
      forall relation: Relation
        ensures relation in relations <==> Holds(tuples, userID, resource.resourceType, resource.id, relation)
      {
        QueriesAreHolds(tuples, userID, resource.resourceType, resource.id, relation);
      }
      r := resource.(permissions := permissions);
    }

    /** Every resource of the type on which the user holds a permission, once each. */
    method ListResources(userID: string, resourceType: ResourceType) returns (result: seq<Resource>)
      ensures forall i, j :: 0 <= i < j < |result| ==> result[i].id != result[j].id
      ensures forall r :: r in result ==> r.resourceType == resourceType && r.permissions != [] && Distinct(r.permissions)
      ensures forall r, p :: r in result ==>
        (p in r.permissions <==> Permitted(tuples, userID, resourceType, r.id, p))
      ensures forall id, p :: Permitted(tuples, userID, resourceType, id, p) ==> exists r :: r in result && r.id == id
    {
      var rows := Rows(ListQuery(tuples, userID, resourceType));
      var permsMap: map<string, seq<Permission>> := map[];
      for i := 0 to |rows|
        invariant forall id :: id in permsMap ==> permsMap[id] != [] && Distinct(permsMap[id])
        invariant forall id, p :: Collected(permsMap, id, p) <==> GrantedBy(rows[..i], id, p)
      {
        var (id, relation) := rows[i];
        var granted := relation.Permissions();
        ghost var before := permsMap;
        for j := 0 to |granted|
          invariant forall id :: id in permsMap ==> permsMap[id] != [] && Distinct(permsMap[id])
          invariant forall k, p ::
            Collected(permsMap, k, p) <==> Collected(before, k, p) || (k == id && p in granted[..j])
        {
          assert granted[..j + 1] == granted[..j] + [granted[j]];
          var permissions := if id in permsMap then permsMap[id] else [];
          if granted[j] !in permissions {
            permsMap := permsMap[id := permissions + [granted[j]]];
          }
        }
        assert rows[..i + 1] == rows[..i] + [(id, relation)];
      }
      assert rows[..|rows|] == rows;
      forall id, p
        ensures Collected(permsMap, id, p) <==> Permitted(tuples, userID, resourceType, id, p)
      {
        forall relation: Relation
          ensures (id, relation) in rows <==> Holds(tuples, userID, resourceType, id, relation)
        {
          QueriesAreHolds(tuples, userID, resourceType, id, relation);
        }
      }
      var ids := Rows(permsMap.Keys);
      result := [];
      for i := 0 to |ids|
        invariant |result| == i
        invariant forall k :: 0 <= k < i ==> result[k] == Resource(resourceType, ids[k], permsMap[ids[k]])
      {
        result := result + [Resource(resourceType, ids[i], permsMap[ids[i]])];
      }
      forall id, p | Permitted(tuples, userID, resourceType, id, p)
        ensures exists r :: r in result && r.id == id
      {
        assert Collected(permsMap, id, p);
        var k :| 0 <= k < |ids| && ids[k] == id;
        assert result[k] in result;
      }
    }
  }

  ghost predicate Collected(permsMap: map<string, seq<Permission>>, id: string, p: Permission) {
    id in permsMap && p in permsMap[id]
  }

  ghost predicate GrantedBy(rows: seq<(string, Relation)>, id: string, p: Permission) {
    exists relation: Relation :: (id, relation) in rows && p in relation.Permissions()
  }

  /** ListResources and GetPermissions agree on every resource. */
  method ListThenGet(store: AuthzStore, userID: string, resourceType: ResourceType, id: string)
    returns (listed: seq<Resource>, got: Resource)
    ensures (exists r :: r in listed && r.id == id) <==> got.permissions != []
    ensures forall r, p :: r in listed && r.id == id ==> (p in r.permissions <==> p in got.permissions)
    ensures Distinct(got.permissions) && forall r :: r in listed ==> Distinct(r.permissions)
  {
    listed := store.ListResources(userID, resourceType);
    got := store.GetPermissions(userID, Resource(resourceType, id, []));
    if r :| r in listed && r.id == id {
      assert r.permissions[0] in r.permissions;
    }
    if got.permissions != [] {
      assert got.permissions[0] in got.permissions;
    }
  }
}
