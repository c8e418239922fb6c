/**
 The partner and customer life cycle: internal/service/partner.go, accounts.go, assessment.go
 and their authorising wrappers. Each service call is one atomic step on the stored rows and
 relationship tuples; the invariants hold after any run of calls.
 */
module Lifecycle {
  import opened Common
  import opened Authz

  // ----- rows

  datatype GroupKind = PartnerGroup | AdminGroup | OtherGroup

  datatype RequestStatus = Pending | Accepted | Rejected | Cancelled

  datatype Request = Request(username: string, partnerID: string, status: RequestStatus, reason: Option<string>,
                             acceptedAt: Option<int>, terminatedAt: Option<int>) {
    predicate Active() {
      status == Pending || status == Accepted
    }

    /** The columns PartnerCustomerStore.Update selects, all overwritten. */
    function Updated(status: RequestStatus, reason: Option<string>, acceptedAt: Option<int>,
                     terminatedAt: Option<int>): Request {
      Request(username, partnerID, status, reason, acceptedAt, terminatedAt)
    }

    function Cancel(now: int): Request {
      Updated(Cancelled, None, None, Some(now))
    }
  }

  datatype MemberRow = MemberRow(groupID: string, email: string)

  datatype Identity = Regular | Customer(partnerID: string) | Partner(groupID: string) | Admin(groupID: string)

  datatype Failure =
    | NotFound
    | Forbidden
    | InvalidRequest
    | ActiveRequestExists
    | DuplicateKey
    | ExistsInAnotherGroup
    | MembershipMismatch
    | NotACustomer
    | UnknownToIAM

  type Outcome = Result<(), Failure>

  datatype State = State(tuples: set<Tuple>, requests: map<string, Request>, members: map<string, MemberRow>,
                         groups: map<string, GroupKind>, assessments: map<string, string>)

  const EMPTY := State({}, map[], map[], map[], map[])

  function OwnerTuple(assessment: string, user: string): Tuple {
    Tuple(AssessmentResource, assessment, Owner, Subject(UserSubject, user))
  }

  function ViewerTuple(assessment: string, org: string): Tuple {
    Tuple(AssessmentResource, assessment, Viewer, Subject(OrgSubject, org))
  }

  function MemberTuple(org: string, user: string): Tuple {
    Tuple(OrgResource, org, Member, Subject(UserSubject, user))
  }

  // ----- identities

  ghost predicate AcceptedFor(s: State, user: string, id: string) {
    id in s.requests && s.requests[id].username == user && s.requests[id].status == Accepted
  }

  ghost predicate ActiveFor(s: State, user: string, id: string) {
    id in s.requests && s.requests[id].username == user && s.requests[id].Active()
  }

  ghost function AcceptedRequest(s: State, user: string): (r: Option<string>)
    ensures r.Some? ==> AcceptedFor(s, user, r.value)
    ensures r.None? ==> forall id :: !AcceptedFor(s, user, id)
  {
    if id :| AcceptedFor(s, user, id) then Some(id) else None
  }

  ghost function IdentityOf(s: State, user: string): Identity {
    var accepted := AcceptedRequest(s, user);
    if accepted.Some? then Customer(s.requests[accepted.value].partnerID)
    else if user in s.members && s.members[user].groupID in s.groups then
      var groupID := s.members[user].groupID;
      match s.groups[groupID]
      case PartnerGroup => Partner(groupID)
      case AdminGroup => Admin(groupID)
      case OtherGroup => Regular
    else Regular
  }

  /** The user currently has an accepted request with the partner. */
  ghost predicate IsCustomer(s: State, user: string, partnerID: string) {
    exists id :: AcceptedFor(s, user, id) && s.requests[id].partnerID == partnerID
  }

  // ----- the calls

  datatype Call =
    | CreateGroup(id: string, kind: GroupKind)
    | CreateMember(knownToIAM: bool, username: string, groupID: string, email: string)
    | UpdateGroupMember(groupID: string, username: string, email: string)
    | RemoveGroupMember(groupID: string, username: string)
    | CreateRequest(user: string, partnerID: string, requestID: string)
    | CancelRequest(user: string, requestID: string, now: int)
    | UpdateRequest(user: string, requestID: string, status: RequestStatus, reason: string, now: int)
    | LeavePartner(user: string, partnerID: string, now: int)
    | RemoveCustomer(user: string, username: string, now: int)
    | CreateAssessment(user: string, id: string)
    | DeleteAssessment(user: string, id: string)
    | ShareAssessment(user: string, id: string)
    | UnshareAssessment(user: string, id: string)
  {
    /** Assessment IDs are printed UUIDs, so never empty. */
    predicate Issued() {
      CreateAssessment? ==> id != ""
    }

    /** Request validation lets only partner and admin groups be created. */
    predicate Validated() {
      CreateGroup? ==> kind != OtherGroup
    }
  }

  ghost function Apply(s: State, call: Call): (State, Outcome) {
    match call
    case CreateGroup(id, kind) =>
      if id in s.groups then (s, Err(DuplicateKey)) else (s.(groups := s.groups[id := kind]), Ok(()))
    case CreateMember(knownToIAM, username, groupID, email) =>
      if !knownToIAM then (s, Err(UnknownToIAM))
      else if groupID !in s.groups then (s, Err(NotFound))
      else if username in s.members then
        (s, Err(if s.members[username].groupID != groupID then ExistsInAnotherGroup else DuplicateKey))
      else if exists id :: ActiveFor(s, username, id) then (s, Err(ActiveRequestExists))
      else (s.(members := s.members[username := MemberRow(groupID, email)],
               tuples := s.tuples + {MemberTuple(groupID, username)}), Ok(()))
    case UpdateGroupMember(groupID, username, email) =>
      if groupID !in s.groups || username !in s.members then (s, Err(NotFound))
      else if s.members[username].groupID != groupID then (s, Err(MembershipMismatch))
      else
        var email' := if email == "" then s.members[username].email else email;
        (s.(members := s.members[username := MemberRow(groupID, email')]), Ok(()))
    case RemoveGroupMember(groupID, username) =>
      if groupID !in s.groups || username !in s.members then (s, Err(NotFound))
      else if s.members[username].groupID != groupID then (s, Err(MembershipMismatch))
      else (s.(members := s.members - {username}, tuples := s.tuples - {MemberTuple(groupID, username)}), Ok(()))
    case CreateRequest(user, partnerID, requestID) =>
      if IdentityOf(s, user) != Regular then (s, Err(Forbidden))
      else if exists id :: ActiveFor(s, user, id) then (s, Err(ActiveRequestExists))
      else if partnerID !in s.groups || s.groups[partnerID] != PartnerGroup then (s, Err(NotFound))
      else if requestID in s.requests then (s, Err(ActiveRequestExists))
      else (s.(requests := s.requests[requestID := Request(user, partnerID, Pending, None, None, None)]), Ok(()))
    case CancelRequest(user, requestID, now) =>
      if requestID !in s.requests || s.requests[requestID].username != user then (s, Err(NotFound))
      else if s.requests[requestID].status != Pending then (s, Err(InvalidRequest))
      else (s.(requests := s.requests[requestID := s.requests[requestID].Cancel(now)]), Ok(()))
    case UpdateRequest(user, requestID, status, reason, now) =>
      if status != Accepted && status != Rejected then (s, Err(InvalidRequest))
      else if !IdentityOf(s, user).Partner? then (s, Err(Forbidden))
      else if requestID !in s.requests then (s, Err(NotFound))
      else if s.requests[requestID].partnerID != IdentityOf(s, user).groupID then (s, Err(Forbidden))
      else if status == Rejected && reason == "" then (s, Err(InvalidRequest))
      else if s.requests[requestID].status != Pending then (s, Err(InvalidRequest))
      else
        var row := s.requests[requestID].Updated(status, if reason == "" then None else Some(reason),
                     if status == Accepted then Some(now) else None, None);
        (s.(requests := s.requests[requestID := row]), Ok(()))
    case LeavePartner(user, partnerID, now) =>
      var accepted := AcceptedRequest(s, user);
      if accepted.None? then (s, Err(Forbidden))
      else if s.requests[accepted.value].partnerID != partnerID then (s, Err(NotFound))
      else (EndPartnership(s, accepted.value, now), Ok(()))
    case RemoveCustomer(user, username, now) =>
      var accepted := AcceptedRequest(s, username);
      if !IdentityOf(s, user).Partner? then (s, Err(Forbidden))
      else if accepted.None? then (s, Err(NotFound))
      else if s.requests[accepted.value].partnerID != IdentityOf(s, user).groupID then (s, Err(Forbidden))
      else (EndPartnership(s, accepted.value, now), Ok(()))
    case CreateAssessment(user, id) =>
      if id in s.assessments then (s, Err(DuplicateKey))
      else (s.(assessments := s.assessments[id := user], tuples := s.tuples + {OwnerTuple(id, user)}), Ok(()))
    case DeleteAssessment(user, id) =>
      if id !in s.assessments then (s, Err(NotFound))
      else if !Permitted(s.tuples, user, AssessmentResource, id, Delete) then (s, Err(Forbidden))
      else (s.(assessments := s.assessments - {id}, tuples := s.tuples - Concerning(s.tuples, id)), Ok(()))
    case ShareAssessment(user, id) =>
      if id !in s.assessments then (s, Err(NotFound))
      else if !Permitted(s.tuples, user, AssessmentResource, id, Share) then (s, Err(Forbidden))
      else if !IdentityOf(s, user).Customer? then (s, Err(NotACustomer))
      else (s.(tuples := s.tuples + {ViewerTuple(id, IdentityOf(s, user).partnerID)}), Ok(()))
    case UnshareAssessment(user, id) =>
      if id !in s.assessments then (s, Err(NotFound))
      else if !Permitted(s.tuples, user, AssessmentResource, id, Share) then (s, Err(Forbidden))
      else if !IdentityOf(s, user).Customer? then (s, Err(NotACustomer))
      else (s.(tuples := s.tuples - {ViewerTuple(id, IdentityOf(s, user).partnerID)}), Ok(()))
  }

  function Concerning(tuples: set<Tuple>, assessment: string): set<Tuple> {
    set t | t in tuples && t.resourceType == AssessmentResource && (assessment == "" || t.resourceID == assessment)
  }

  /** The viewer tuples of a user's assessments for one org. */
  function Shares(assessments: map<string, string>, user: string, org: string): set<Tuple> {
    set a | a in assessments && assessments[a] == user :: ViewerTuple(a, org)
  }

  ghost function EndPartnership(s: State, id: string, now: int): State
    requires id in s.requests
  {
    var row := s.requests[id];
    s.(requests := s.requests[id := row.Cancel(now)],
       tuples := s.tuples - Shares(s.assessments, row.username, row.partnerID))
  }

  // ----- invariants

  /** At most one pending or accepted request per user. */
  ghost predicate OneActive(s: State) {
    forall user, i, j :: ActiveFor(s, user, i) && ActiveFor(s, user, j) ==> i == j
  }

  /** Every tuple is accounted for by a row: ownership, an accepted partnership, or a membership. */
  ghost predicate Justified(s: State, t: Tuple) {
    match t.resourceType
    case AssessmentResource =>
      && t.resourceID in s.assessments
      && var owner := s.assessments[t.resourceID];
         || t == OwnerTuple(t.resourceID, owner)
         || (t == ViewerTuple(t.resourceID, t.subject.id) && IsCustomer(s, owner, t.subject.id))
    case OrgResource =>
      && t == MemberTuple(t.resourceID, t.subject.id)
      && t.subject.id in s.members && s.members[t.subject.id].groupID == t.resourceID
  }

  ghost predicate TuplesJustified(s: State) {
    forall t :: t in s.tuples ==> Justified(s, t)
  }

  ghost predicate OwnersRecorded(s: State) {
    forall a :: a in s.assessments ==> OwnerTuple(a, s.assessments[a]) in s.tuples
  }

  ghost predicate MembersRecorded(s: State) {
    forall u :: u in s.members ==> MemberTuple(s.members[u].groupID, u) in s.tuples
  }

  /** A member of a partner or admin group holds no pending or accepted request. */
  ghost predicate RolesExclusive(s: State) {
    forall u, id :: u in s.members && ActiveFor(s, u, id) && s.members[u].groupID in s.groups
      ==> s.groups[s.members[u].groupID] == OtherGroup
  }

  ghost predicate References(s: State) {
    && (forall u :: u in s.members ==> s.members[u].groupID in s.groups)
    && (forall id :: id in s.requests ==>
          s.requests[id].partnerID in s.groups && s.groups[s.requests[id].partnerID] == PartnerGroup)
    && "" !in s.assessments
  }

  /** The dates and the reason of a request follow its status. */
  ghost predicate Dated(r: Request) {
    && (r.acceptedAt.Some? <==> r.status == Accepted)
    && (r.terminatedAt.Some? <==> r.status == Cancelled)
    && (r.status == Rejected ==> r.reason.Some?)
  }

  ghost predicate AllDated(s: State) {
    forall id :: id in s.requests ==> Dated(s.requests[id])
  }

  ghost predicate Inv(s: State) {
    && OneActive(s)
    && TuplesJustified(s)
    && OwnersRecorded(s)
    && MembersRecorded(s)
    && RolesExclusive(s)
    && References(s)
    && AllDated(s)
  }

  // ----- what the invariant says about access

  /** Access exactly: the owner may do everything; a member of the owner's partner may read what is shared. */
  lemma AccessExactly(s: State, user: string, assessment: string, p: Permission)
    requires Inv(s)
    ensures Permitted(s.tuples, user, AssessmentResource, assessment, p) <==>
      && assessment in s.assessments
      && (|| user == s.assessments[assessment]
          || (p == Read && user in s.members && ViewerTuple(assessment, s.members[user].groupID) in s.tuples
              && IsCustomer(s, s.assessments[assessment], s.members[user].groupID)))
  {
    PermittedByRelation(s.tuples, user, AssessmentResource, assessment, p);
    HoldsOwner(s, user, assessment);
    HoldsViewer(s, user, assessment);
  }

  lemma HoldsOwner(s: State, user: string, assessment: string)
    requires Inv(s)
    ensures Holds(s.tuples, user, AssessmentResource, assessment, Owner)
      <==> assessment in s.assessments && s.assessments[assessment] == user
  {
    forall org
      ensures !HoldsThrough(s.tuples, user, AssessmentResource, assessment, Owner, org)
    {
      var t := Tuple(AssessmentResource, assessment, Owner, Subject(OrgSubject, org));
      assert t in s.tuples ==> Justified(s, t);
    }
    if OwnerTuple(assessment, user) in s.tuples {
      assert Justified(s, OwnerTuple(assessment, user));
    }
  }

  lemma HoldsViewer(s: State, user: string, assessment: string)
    requires Inv(s)
    ensures Holds(s.tuples, user, AssessmentResource, assessment, Viewer) <==>
      && assessment in s.assessments && user in s.members
      && ViewerTuple(assessment, s.members[user].groupID) in s.tuples
      && IsCustomer(s, s.assessments[assessment], s.members[user].groupID)
  {
    var direct := Tuple(AssessmentResource, assessment, Viewer, Subject(UserSubject, user));
    assert direct !in s.tuples || !Justified(s, direct);
    if org :| HoldsThrough(s.tuples, user, AssessmentResource, assessment, Viewer, org) {
      assert Justified(s, ViewerTuple(assessment, org)) && Justified(s, MemberTuple(org, user));
    }
    if user in s.members && ViewerTuple(assessment, s.members[user].groupID) in s.tuples {
      assert MemberTuple(s.members[user].groupID, user) in s.tuples;
      assert HoldsThrough(s.tuples, user, AssessmentResource, assessment, Viewer, s.members[user].groupID);
      assert Justified(s, ViewerTuple(assessment, s.members[user].groupID));
    }
  }

  /** Once a customer has left or been removed, nobody else has any permission on their assessments. */
  lemma EndingRevokesAccess(s: State, call: Call, customer: string, assessment: string, user: string, p: Permission)
    requires Inv(s) && call.Issued() && Apply(s, call).1.Ok?
    requires (call.LeavePartner? && call.user == customer) || (call.RemoveCustomer? && call.username == customer)
    requires assessment in s.assessments && s.assessments[assessment] == customer && user != customer
    ensures !Permitted(Apply(s, call).0.tuples, user, AssessmentResource, assessment, p)
  {
    var s' := Apply(s, call).0;
    ApplyKeepsInv(s, call);
    AccessExactly(s', user, assessment, p);
    var ended := AcceptedRequest(s, customer).value;
    forall id
      ensures !AcceptedFor(s', customer, id)
    {
      if AcceptedFor(s', customer, id) {
        assert ActiveFor(s, customer, id) && ActiveFor(s, customer, ended);
      }
    }
  }

  /** The identity cases exclude each other: a user with an active request is in no partner or admin group. */
  lemma IdentitiesExclusive(s: State, user: string)
    requires Inv(s)
    ensures (exists id :: ActiveFor(s, user, id)) ==> IdentityOf(s, user).Customer? || IdentityOf(s, user).Regular?
    ensures IdentityOf(s, user).Customer? <==> exists p :: IsCustomer(s, user, p)
    ensures forall p :: IsCustomer(s, user, p) ==> IdentityOf(s, user) == Customer(p)
    ensures (forall g :: g in s.groups ==> s.groups[g] != OtherGroup) && user in s.members
      ==> forall id :: !ActiveFor(s, user, id)
  {
    forall p | IsCustomer(s, user, p)
      ensures IdentityOf(s, user) == Customer(p)
    {
      var id :| AcceptedFor(s, user, id) && s.requests[id].partnerID == p;
      assert ActiveFor(s, user, id) && ActiveFor(s, user, AcceptedRequest(s, user).value);
    }
    if IdentityOf(s, user).Customer? {
      assert IsCustomer(s, user, s.requests[AcceptedRequest(s, user).value].partnerID);
    }
  }

  // ----- every call keeps the invariant

  lemma CustomersKept(s: State, s': State)
    requires forall id :: id in s.requests && s.requests[id].status == Accepted ==>
      id in s'.requests && s'.requests[id] == s.requests[id]
    ensures forall u, p :: IsCustomer(s, u, p) ==> IsCustomer(s', u, p)
  {
    forall u, p | IsCustomer(s, u, p)
      ensures IsCustomer(s', u, p)
    {
      var id :| AcceptedFor(s, u, id) && s.requests[id].partnerID == p;
      assert AcceptedFor(s', u, id);
    }
  }

  lemma ApplyKeepsInv(s: State, call: Call)
    requires Inv(s) && call.Issued()
    ensures Inv(Apply(s, call).0)
  {
    match call {
      case CreateGroup(_, _) => GroupCallsKeepInv(s, call);
      case CreateMember(_, _, _, _) => MemberCallsKeepInv(s, call);
      case UpdateGroupMember(_, _, _) => MemberCallsKeepInv(s, call);
      case RemoveGroupMember(_, _) => MemberCallsKeepInv(s, call);
      case CreateRequest(_, _, _) => RequestCallsKeepInv(s, call);
      case CancelRequest(_, _, _) => RequestCallsKeepInv(s, call);
      case UpdateRequest(_, _, _, _, _) => RequestCallsKeepInv(s, call);
      case LeavePartner(user, _, now) =>
        if Apply(s, call).1.Ok? {
          EndPartnershipKeepsInv(s, AcceptedRequest(s, user).value, now);
        }
      case RemoveCustomer(_, username, now) =>
        if Apply(s, call).1.Ok? {
          EndPartnershipKeepsInv(s, AcceptedRequest(s, username).value, now);
        }
      case _ => AssessmentCallsKeepInv(s, call);
    }
  }

  lemma GroupCallsKeepInv(s: State, call: Call)
    requires Inv(s) && call.CreateGroup?
    ensures Inv(Apply(s, call).0)
  {
    var s' := Apply(s, call).0;
    assert forall u, id :: ActiveFor(s', u, id) <==> ActiveFor(s, u, id);
    CustomersKept(s, s');
    forall t | t in s'.tuples
      ensures Justified(s', t)
    {
      assert Justified(s, t);
    }
  }

  lemma MemberCallsKeepInv(s: State, call: Call)
    requires Inv(s) && (call.CreateMember? || call.UpdateGroupMember? || call.RemoveGroupMember?)
    ensures Inv(Apply(s, call).0)
  {
    var s' := Apply(s, call).0;
    assert forall u, id :: ActiveFor(s', u, id) <==> ActiveFor(s, u, id);
    CustomersKept(s, s');
    forall t | t in s'.tuples
      ensures Justified(s', t)
    {
      if t in s.tuples {
        assert Justified(s, t);
      }
    }
  }

  lemma RequestCallsKeepInv(s: State, call: Call)
    requires Inv(s) && (call.CreateRequest? || call.CancelRequest? || call.UpdateRequest?)
    ensures Inv(Apply(s, call).0)
  {
    if Apply(s, call).1.Ok? {
      var id := call.requestID;
      var row := Apply(s, call).0.requests[id];
      if call.CreateRequest? {
        AddingRequestKeepsInv(s, id, row);
      } else {
        PendingChangeKeepsInv(s, id, row);
      }
    }
  }

  lemma JustifiedKept(s: State, s': State)
    requires TuplesJustified(s) && s'.tuples <= s.tuples
    requires s'.assessments == s.assessments && s'.members == s.members
    requires forall id :: id in s.requests && s.requests[id].status == Accepted ==>
      id in s'.requests && s'.requests[id] == s.requests[id]
    ensures TuplesJustified(s')
  {
    CustomersKept(s, s');
    forall t | t in s'.tuples
      ensures Justified(s', t)
    {
      assert Justified(s, t);
    }
  }

  lemma AddingRequestKeepsInv(s: State, id: string, row: Request)
    requires Inv(s) && id !in s.requests
    requires row == Request(row.username, row.partnerID, Pending, None, None, None)
    requires row.partnerID in s.groups && s.groups[row.partnerID] == PartnerGroup
    requires IdentityOf(s, row.username) == Regular && forall i :: !ActiveFor(s, row.username, i)
    ensures Inv(s.(requests := s.requests[id := row]))
  {
    var s' := s.(requests := s.requests[id := row]);
    JustifiedKept(s, s');
    assert forall u, i :: ActiveFor(s', u, i) <==> ActiveFor(s, u, i) || (u == row.username && i == id);
  }

  lemma PendingChangeKeepsInv(s: State, id: string, row: Request)
    requires Inv(s) && id in s.requests && s.requests[id].status == Pending && Dated(row)
    requires row.username == s.requests[id].username && row.partnerID == s.requests[id].partnerID
    ensures Inv(s.(requests := s.requests[id := row]))
  {
    var s' := s.(requests := s.requests[id := row]);
    JustifiedKept(s, s');
    assert forall u, i :: ActiveFor(s', u, i) ==> ActiveFor(s, u, i);
  }

  lemma EndPartnershipKeepsInv(s: State, id: string, now: int)
    requires Inv(s) && id in s.requests && s.requests[id].status == Accepted
    ensures Inv(EndPartnership(s, id, now))
  {
    var s' := EndPartnership(s, id, now);
    var customer, partner := s.requests[id].username, s.requests[id].partnerID;
    assert forall u, i :: ActiveFor(s', u, i) ==> ActiveFor(s, u, i);
    forall t | t in s'.tuples
      ensures Justified(s', t)
    {
      assert Justified(s, t);
      if t.resourceType == AssessmentResource && t.relation == Viewer {
        var owner := s.assessments[t.resourceID];
        var i :| AcceptedFor(s, owner, i) && s.requests[i].partnerID == t.subject.id;
        assert i == id ==> t in Shares(s.assessments, customer, partner);
        assert AcceptedFor(s', owner, i);
      }
    }
    forall a | a in s'.assessments
      ensures OwnerTuple(a, s'.assessments[a]) in s'.tuples
    {
      assert OwnerTuple(a, s.assessments[a]) !in Shares(s.assessments, customer, partner);
    }
  }

  lemma AssessmentCallsKeepInv(s: State, call: Call)
    requires Inv(s) && call.Issued()
    requires call.CreateAssessment? || call.DeleteAssessment? || call.ShareAssessment? || call.UnshareAssessment?
    ensures Inv(Apply(s, call).0)
  {
    if Apply(s, call).1.Ok? {
      match call {
        case CreateAssessment(user, id) => AddingAssessmentKeepsInv(s, user, id);
        case DeleteAssessment(user, id) => DroppingAssessmentKeepsInv(s, id);
        case ShareAssessment(user, id) =>
          AccessExactly(s, user, id, Share);
          assert IsCustomer(s, user, IdentityOf(s, user).partnerID);
          SharingKeepsInv(s, id, IdentityOf(s, user).partnerID);
        case UnshareAssessment(user, id) =>
          UnsharingKeepsInv(s, id, IdentityOf(s, user).partnerID);
      }
    }
  }

  lemma SameRequests(s: State, s': State)
    requires s'.requests == s.requests
    ensures forall u, id :: ActiveFor(s', u, id) <==> ActiveFor(s, u, id)
    ensures forall u, p :: IsCustomer(s, u, p) ==> IsCustomer(s', u, p)
  {
    CustomersKept(s, s');
  }

  lemma AddingAssessmentKeepsInv(s: State, user: string, id: string)
    requires Inv(s) && id != "" && id !in s.assessments
    ensures Inv(s.(assessments := s.assessments[id := user], tuples := s.tuples + {OwnerTuple(id, user)}))
  {
    var s' := s.(assessments := s.assessments[id := user], tuples := s.tuples + {OwnerTuple(id, user)});
    SameRequests(s, s');
    forall t | t in s.tuples
      ensures Justified(s', t)
    {
      assert Justified(s, t);
    }
  }

  lemma DroppingAssessmentKeepsInv(s: State, id: string)
    requires Inv(s) && id in s.assessments
    ensures Inv(s.(assessments := s.assessments - {id}, tuples := s.tuples - Concerning(s.tuples, id)))
  {
    var s' := s.(assessments := s.assessments - {id}, tuples := s.tuples - Concerning(s.tuples, id));
    SameRequests(s, s');
    forall t | t in s'.tuples
      ensures Justified(s', t)
    {
      assert Justified(s, t);
    }
  }

  lemma SharingKeepsInv(s: State, id: string, partner: string)
    requires Inv(s) && id in s.assessments && IsCustomer(s, s.assessments[id], partner)
    ensures Inv(s.(tuples := s.tuples + {ViewerTuple(id, partner)}))
  {
    var s' := s.(tuples := s.tuples + {ViewerTuple(id, partner)});
    SameRequests(s, s');
    forall t | t in s.tuples
      ensures Justified(s', t)
    {
      assert Justified(s, t);
    }
  }

  lemma UnsharingKeepsInv(s: State, id: string, partner: string)
    requires Inv(s)
    ensures Inv(s.(tuples := s.tuples - {ViewerTuple(id, partner)}))
  {
    var s' := s.(tuples := s.tuples - {ViewerTuple(id, partner)});
    SameRequests(s, s');
    JustifiedKept(s, s');
  }

  // ----- runs

  ghost predicate AllIssued(calls: seq<Call>) {
    forall i :: 0 <= i < |calls| ==> calls[i].Issued()
  }

  ghost function Run(s: State, calls: seq<Call>): State
    decreases |calls|
  {
    if calls == [] then s else Run(Apply(s, calls[0]).0, calls[1..])
  }

  /** The invariant holds in every reachable state. */
  lemma {:induction false} RunKeepsInv(s: State, calls: seq<Call>)
    requires Inv(s) && AllIssued(calls)
    ensures Inv(Run(s, calls))
    decreases |calls|
  {
    if calls != [] {
      ApplyKeepsInv(s, calls[0]);
      RunKeepsInv(Apply(s, calls[0]).0, calls[1..]);
    }
  }

  lemma EmptyInv()
    ensures Inv(EMPTY)
  {
  }

  /** In every reachable state a viewer tuple means a partnership accepted right now. */
  lemma SharedOnlyWithCurrentPartner(calls: seq<Call>, assessment: string, org: string)
    requires AllIssued(calls) && ViewerTuple(assessment, org) in Run(EMPTY, calls).tuples
    ensures var s := Run(EMPTY, calls);
      assessment in s.assessments && IsCustomer(s, s.assessments[assessment], org)
  {
    EmptyInv();
    RunKeepsInv(EMPTY, calls);
    assert Justified(Run(EMPTY, calls), ViewerTuple(assessment, org));
  }

  /** In every reachable state a user is a group's member by tuple exactly if by row. */
  lemma MembershipExactly(calls: seq<Call>, group: string, user: string)
    requires AllIssued(calls)
    ensures var s := Run(EMPTY, calls);
      MemberTuple(group, user) in s.tuples <==> user in s.members && s.members[user].groupID == group
  {
    var s := Run(EMPTY, calls);
    EmptyInv();
    RunKeepsInv(EMPTY, calls);
    assert MemberTuple(group, user) in s.tuples ==> Justified(s, MemberTuple(group, user));
  }

  ghost predicate AllValidated(calls: seq<Call>) {
    forall i :: 0 <= i < |calls| ==> calls[i].Issued() && calls[i].Validated()
  }

  ghost predicate KindsKnown(s: State) {
    forall g :: g in s.groups ==> s.groups[g] != OtherGroup
  }

  lemma {:induction false} RunKeepsKinds(s: State, calls: seq<Call>)
    requires KindsKnown(s) && AllValidated(calls)
    ensures KindsKnown(Run(s, calls))
    decreases |calls|
  {
    if calls != [] {
      assert calls[0].Validated();
      RunKeepsKinds(Apply(s, calls[0]).0, calls[1..]);
    }
  }

  /** In every reachable state, a group member holds no pending or accepted request. */
  lemma MembersHoldNoRequest(calls: seq<Call>, user: string, id: string)
    requires AllValidated(calls)
    ensures var s := Run(EMPTY, calls); !(user in s.members && ActiveFor(s, user, id))
  {
    EmptyInv();
    RunKeepsInv(EMPTY, calls);
    RunKeepsKinds(EMPTY, calls);
  }

  ghost predicate IdentifiedByRows(s: State, user: string) {
    var identity := IdentityOf(s, user);
    && (user in s.members <==> identity.Partner? || identity.Admin?)
    && (user in s.members ==> identity.groupID == s.members[user].groupID)
    && (user in s.members ==> forall id :: !ActiveFor(s, user, id))
    && (forall p :: identity == Customer(p) <==> IsCustomer(s, user, p))
    && (identity == Regular <==> user !in s.members && forall p :: !IsCustomer(s, user, p))
  }

  lemma IdentityByRows(s: State, user: string)
    requires Inv(s) && KindsKnown(s)
    ensures IdentifiedByRows(s, user)
  {
    IdentitiesExclusive(s, user);
    var accepted := AcceptedRequest(s, user);
    if accepted.Some? {
      assert ActiveFor(s, user, accepted.value);
      assert IsCustomer(s, user, s.requests[accepted.value].partnerID);
    }
  }

  /** In every reachable state the identities are told apart by the rows alone: group members are
      partners or admins of their group, users with an accepted request are customers of that one
      partner, nobody is both, and the rest are regular. */
  lemma IdentityExactly(calls: seq<Call>, user: string)
    requires AllValidated(calls)
    ensures IdentifiedByRows(Run(EMPTY, calls), user)
  {
    EmptyInv();
    RunKeepsInv(EMPTY, calls);
    RunKeepsKinds(EMPTY, calls);
    IdentityByRows(Run(EMPTY, calls), user);
  }

  /** How the status of a request may move in one call. */
  ghost predicate Moves(from: Request, to: Request) {
    || from == to
    || (from.status == Pending && to.status in {Accepted, Rejected, Cancelled})
    || (from.status == Accepted && to.status == Cancelled)
  }

  lemma ApplyMoves(s: State, call: Call, id: string)
    requires id in s.requests
    ensures var s' := Apply(s, call).0;
      && id in s'.requests && Moves(s.requests[id], s'.requests[id])
      && s'.requests[id].username == s.requests[id].username && s'.requests[id].partnerID == s.requests[id].partnerID
  {
  }

  /** Requests are never lost or reassigned, and a rejected or cancelled one never changes again. */
  lemma {:induction false} TerminalRequestsFrozen(s: State, calls: seq<Call>, id: string)
    requires id in s.requests
    ensures var s' := Run(s, calls);
      && id in s'.requests
      && s'.requests[id].username == s.requests[id].username && s'.requests[id].partnerID == s.requests[id].partnerID
      && (!s.requests[id].Active() ==> s'.requests[id] == s.requests[id])
    decreases |calls|
  {
    if calls != [] {
      ApplyMoves(s, calls[0], id);
      TerminalRequestsFrozen(Apply(s, calls[0]).0, calls[1..], id);
    }
  }

  /** Unsharing undoes sharing. */
  lemma UnshareUndoesShare(s: State, user: string, id: string)
    requires Inv(s) && Apply(s, ShareAssessment(user, id)).1.Ok?
    ensures var (s', r) := Apply(Apply(s, ShareAssessment(user, id)).0, UnshareAssessment(user, id));
      && r.Ok?
      && s' == s.(tuples := s.tuples - {ViewerTuple(id, IdentityOf(s, user).partnerID)})
  {
    var shared := Apply(s, ShareAssessment(user, id)).0;
    ApplyKeepsInv(s, ShareAssessment(user, id));
    AccessExactly(s, user, id, Share);
    AccessExactly(shared, user, id, Share);
    IdentitiesExclusive(s, user);
    IdentitiesExclusive(shared, user);
    CustomersKept(s, shared);
    var partner := IdentityOf(s, user).partnerID;
    assert IsCustomer(s, user, partner);
    assert shared.tuples - {ViewerTuple(id, partner)} == s.tuples - {ViewerTuple(id, partner)};
  }

  /** The service itself does not check the kind of a new group: called with another kind, which
      request validation refuses, it lets a member hold a request. The roles overlap only there. */
  lemma RolesOverlapExample()
    ensures var s := Run(EMPTY, [CreateGroup("p", PartnerGroup), CreateGroup("g", OtherGroup),
                                 CreateMember(true, "u", "g", "u@x"), CreateRequest("u", "p", "r")]);
      "u" in s.members && ActiveFor(s, "u", "r")
  {
    var s1 := Apply(EMPTY, CreateGroup("p", PartnerGroup)).0;
    var s2 := Apply(s1, CreateGroup("g", OtherGroup)).0;
    var s3 := Apply(s2, CreateMember(true, "u", "g", "u@x")).0;
    assert forall id :: !ActiveFor(s2, "u", id) && !ActiveFor(s3, "u", id) && !AcceptedFor(s3, "u", id);
    var c4 := CreateRequest("u", "p", "r");
    var s4 := Apply(s3, c4).0;
    assert ActiveFor(s4, "u", "r");
    assert Run(s4, []) == s4;
    assert Run(s3, [c4]) == s4;
  }

  /** Among group members, the request guard lets through exactly those of a group of another kind. */
  lemma MemberMayRequestExactly(s: State, user: string, partnerID: string, requestID: string)
    requires Inv(s) && user in s.members && requestID !in s.requests
    requires partnerID in s.groups && s.groups[partnerID] == PartnerGroup
    ensures Apply(s, CreateRequest(user, partnerID, requestID)).1.Ok?
      <==> s.groups[s.members[user].groupID] == OtherGroup && !exists id :: ActiveFor(s, user, id)
  {
    var accepted := AcceptedRequest(s, user);
    if accepted.Some? {
      assert ActiveFor(s, user, accepted.value);
    }
  }

  // ----- the services

  /** The stored rows and the services that change them, one call at a time. */
  class Planner {
    const authz: AuthzStore
    var requests: map<string, Request>
    var members: map<string, MemberRow>
    var groups: map<string, GroupKind>
    var assessments: map<string, string>

    ghost function Snapshot(): State
      reads this, authz
    {
      State(authz.tuples, requests, members, groups, assessments)
    }

    ghost predicate Valid()
      reads this, authz
    {
      Inv(Snapshot())
    }

    constructor ()
      ensures Snapshot() == EMPTY && Valid() && fresh(authz)
    {
      authz := new AuthzStore();
      requests, members, groups, assessments := map[], map[], map[], map[];
    }

    method GetIdentity(user: string) returns (identity: Identity)
      requires Valid()
      ensures identity == IdentityOf(Snapshot(), user)
    {
      IdentitiesExclusive(Snapshot(), user);
      if id :| id in requests && requests[id].username == user && requests[id].status == Accepted {
        assert AcceptedFor(Snapshot(), user, id);
        assert IsCustomer(Snapshot(), user, requests[id].partnerID);
        return Customer(requests[id].partnerID);
      }
      if user in members {
        var groupID := members[user].groupID;
        match groups[groupID] {
          case PartnerGroup => return Partner(groupID);
          case AdminGroup => return Admin(groupID);
          case OtherGroup =>
        }
      }
      return Regular;
    }

    /** The accepted request of a user, if any. */
    method FindAccepted(user: string) returns (r: Option<string>)
      requires Valid()
      ensures r == AcceptedRequest(Snapshot(), user)
    {
      if id :| id in requests && requests[id].username == user && requests[id].status == Accepted {
        assert AcceptedFor(Snapshot(), user, id);
        assert ActiveFor(Snapshot(), user, id);
        assert ActiveFor(Snapshot(), user, AcceptedRequest(Snapshot(), user).value);
        return Some(id);
      }
      return None;
    }

    method HasActiveRequest(user: string, ghost s: State) returns (active: bool)
      requires s == Snapshot()
      ensures active <==> exists id :: ActiveFor(s, user, id)
    {
      if id :| id in requests && requests[id].username == user && requests[id].Active() {
        assert ActiveFor(s, user, id);
        return true;
      }
      return false;
    }

    // --- accounts.go

    method CreateGroup(id: string, kind: GroupKind) returns (r: Outcome)
      requires Valid()
      modifies this
      ensures (Snapshot(), r) == Apply(old(Snapshot()), Call.CreateGroup(id, kind)) && Valid()
    {
      ApplyKeepsInv(Snapshot(), Call.CreateGroup(id, kind));
      if id in groups {
        return Err(DuplicateKey);
      }
      groups := groups[id := kind];
      return Ok(());
    }

    method CreateMember(knownToIAM: bool, username: string, groupID: string, email: string) returns (r: Outcome)
      requires Valid()
      modifies this, authz
      ensures (Snapshot(), r) == Apply(old(Snapshot()), Call.CreateMember(knownToIAM, username, groupID, email))
      ensures Valid()
    {
      ApplyKeepsInv(Snapshot(), Call.CreateMember(knownToIAM, username, groupID, email));
      if !knownToIAM {
        return Err(UnknownToIAM);
      }
      if groupID !in groups {
        return Err(NotFound);
      }
      if username in members {
        if members[username].groupID != groupID {
          return Err(ExistsInAnotherGroup);
        }
        return Err(DuplicateKey);
      }
      var active := HasActiveRequest(username, Snapshot());
      if active {
        return Err(ActiveRequestExists);
      }
      members := members[username := MemberRow(groupID, email)];
      var builder := new RelationshipBuilder();
      builder.With(OrgResource, groupID, Member, Subject(UserSubject, username));
      WriteOne(authz.tuples, builder.Build());
      authz.WriteRelationships(builder.Build());
      return Ok(());
    }

    method UpdateGroupMember(groupID: string, username: string, email: string) returns (r: Outcome)
      requires Valid()
      modifies this
      ensures (Snapshot(), r) == Apply(old(Snapshot()), Call.UpdateGroupMember(groupID, username, email)) && Valid()
    {
      ApplyKeepsInv(Snapshot(), Call.UpdateGroupMember(groupID, username, email));
      if groupID !in groups || username !in members {
        return Err(NotFound);
      }
      var existing := members[username];
      if existing.groupID != groupID {
        return Err(MembershipMismatch);
      }
      if email != "" {
        members := members[username := existing.(email := email)];
      } else {
        members := members[username := existing];
      }
      return Ok(());
    }

    method RemoveGroupMember(groupID: string, username: string) returns (r: Outcome)
      requires Valid()
      modifies this, authz
      ensures (Snapshot(), r) == Apply(old(Snapshot()), Call.RemoveGroupMember(groupID, username)) && Valid()
    {
      ApplyKeepsInv(Snapshot(), Call.RemoveGroupMember(groupID, username));
      if groupID !in groups || username !in members {
        return Err(NotFound);
      }
      if members[username].groupID != groupID {
        return Err(MembershipMismatch);
      }
      members := members - {username};
      var builder := new RelationshipBuilder();
      builder.Without(OrgResource, groupID, Member, Subject(UserSubject, username));
      WriteOne(authz.tuples, builder.Build());
      authz.WriteRelationships(builder.Build());
      return Ok(());
    }

    // --- partner.go behind authz_partner.go

    method CreateRequest(user: string, partnerID: string, requestID: string) returns (r: Outcome)
      requires Valid()
      modifies this
      ensures (Snapshot(), r) == Apply(old(Snapshot()), Call.CreateRequest(user, partnerID, requestID)) && Valid()
    {
      ApplyKeepsInv(Snapshot(), Call.CreateRequest(user, partnerID, requestID));
      var identity := GetIdentity(user);
      if !identity.Regular? {
        return Err(Forbidden);
      }
      var active := HasActiveRequest(user, Snapshot());
      if active {
        return Err(ActiveRequestExists);
      }
      if partnerID !in groups || groups[partnerID] != PartnerGroup {
        return Err(NotFound);
      }
      if requestID in requests {
        return Err(ActiveRequestExists);
      }
      requests := requests[requestID := Request(user, partnerID, Pending, None, None, None)];
      return Ok(());
    }

    method CancelRequest(user: string, requestID: string, now: int) returns (r: Outcome)
      requires Valid()
      modifies this
      ensures (Snapshot(), r) == Apply(old(Snapshot()), Call.CancelRequest(user, requestID, now)) && Valid()
    {
      ApplyKeepsInv(Snapshot(), Call.CancelRequest(user, requestID, now));
      if requestID !in requests {
        return Err(NotFound);
      }
      var pc := requests[requestID];
      if pc.username != user {
        return Err(NotFound);
      }
      if pc.status != Pending {
        return Err(InvalidRequest);
      }
      requests := requests[requestID := pc.Updated(Cancelled, None, None, Some(now))];
      return Ok(());
    }

    method UpdateRequest(user: string, requestID: string, status: RequestStatus, reason: string, now: int)
      returns (r: Outcome)
      requires Valid()
      modifies this
      ensures (Snapshot(), r) == Apply(old(Snapshot()), Call.UpdateRequest(user, requestID, status, reason, now))
      ensures Valid()
    {
      ApplyKeepsInv(Snapshot(), Call.UpdateRequest(user, requestID, status, reason, now));
      if status != Accepted && status != Rejected {
        return Err(InvalidRequest);
      }
      var identity := GetIdentity(user);
      if !identity.Partner? {
        return Err(Forbidden);
      }
      if requestID !in requests {
        return Err(NotFound);
      }
      var pc := requests[requestID];
      if pc.partnerID != identity.groupID {
        return Err(Forbidden);
      }
      if status == Rejected && reason == "" {
        return Err(InvalidRequest);
      }
      if pc.status != Pending {
        return Err(InvalidRequest);
      }
      var reasonColumn: Option<string> := None;
      if reason != "" {
        reasonColumn := Some(reason);
      }
      var acceptedAt: Option<int> := None;
      if status == Accepted {
        acceptedAt := Some(now);
      }
      requests := requests[requestID := pc.Updated(status, reasonColumn, acceptedAt, None)];
      return Ok(());
    }

    method RevokeSharedAssessments(username: string, partnerID: string)
      modifies authz
      ensures authz.tuples == old(authz.tuples) - Shares(assessments, username, partnerID)
    {
      var mine := set a | a in assessments && assessments[a] == username;
      var owned := Rows(mine);
      assert Shares(assessments, username, partnerID) == set a | a in mine :: ViewerTuple(a, partnerID);
      if |owned| == 0 {
        assert forall a :: a in mine <==> a in owned;
        return;
      }
      var builder := new RelationshipBuilder();
      for i := 0 to |owned|
        invariant fresh(builder) && authz.tuples == old(authz.tuples)
        invariant |builder.updates| == i
        invariant forall k :: 0 <= k < i ==> builder.updates[k] == Update(Remove, ViewerTuple(owned[k], partnerID))
      {
        builder.Without(AssessmentResource, owned[i], Viewer, Subject(OrgSubject, partnerID));
      }
      var updates := builder.Build();
      assert Touched(updates) == {};
      assert Removed(updates) == Shares(assessments, username, partnerID) by {
        forall t | t in Shares(assessments, username, partnerID)
          ensures t in Removed(updates)
        {
          var a :| a in assessments && assessments[a] == username && t == ViewerTuple(a, partnerID);
          assert a in owned;
          var k :| 0 <= k < |owned| && owned[k] == a;
          assert updates[k] in updates;
        }
        forall t | t in Removed(updates)
          ensures t in Shares(assessments, username, partnerID)
        {
          var k :| 0 <= k < |updates| && updates[k].tuple == t;
          assert owned[k] in owned;
        }
      }
      authz.WriteRelationships(updates);
    }

    method LeavePartner(user: string, partnerID: string, now: int) returns (r: Outcome)
      requires Valid()
      modifies this, authz
      ensures (Snapshot(), r) == Apply(old(Snapshot()), Call.LeavePartner(user, partnerID, now)) && Valid()
    {
      ApplyKeepsInv(Snapshot(), Call.LeavePartner(user, partnerID, now));
      var found := FindAccepted(user);
      if found.None? {
        return Err(Forbidden);
      }
      var pc := requests[found.value];
      if pc.partnerID != partnerID {
        return Err(NotFound);
      }
      requests := requests[found.value := pc.Updated(Cancelled, None, None, Some(now))];
      RevokeSharedAssessments(user, partnerID);
      return Ok(());
    }

    method RemoveCustomer(user: string, username: string, now: int) returns (r: Outcome)
      requires Valid()
      modifies this, authz
      ensures (Snapshot(), r) == Apply(old(Snapshot()), Call.RemoveCustomer(user, username, now)) && Valid()
    {
      ApplyKeepsInv(Snapshot(), Call.RemoveCustomer(user, username, now));
      var identity := GetIdentity(user);
      if !identity.Partner? {
        return Err(Forbidden);
      }
      var found := FindAccepted(username);
      if found.None? {
        return Err(NotFound);
      }
      var pc := requests[found.value];
      if pc.partnerID != identity.groupID {
        return Err(Forbidden);
      }
      requests := requests[found.value := pc.Updated(Cancelled, None, None, Some(now))];
      RevokeSharedAssessments(username, pc.partnerID);
      return Ok(());
    }

    // --- assessment.go behind authz_assessment.go

    method CreateAssessment(user: string, id: string) returns (r: Outcome)
      requires Valid() && id != ""
      modifies this, authz
      ensures (Snapshot(), r) == Apply(old(Snapshot()), Call.CreateAssessment(user, id)) && Valid()
    {
      ApplyKeepsInv(Snapshot(), Call.CreateAssessment(user, id));
      if id in assessments {
        return Err(DuplicateKey);
      }
      assessments := assessments[id := user];
      var builder := new RelationshipBuilder();
      builder.With(AssessmentResource, id, Owner, Subject(UserSubject, user));
      WriteOne(authz.tuples, builder.Build());
      authz.WriteRelationships(builder.Build());
      return Ok(());
    }

    method DeleteAssessment(user: string, id: string) returns (r: Outcome)
      requires Valid()
      modifies this, authz
      ensures (Snapshot(), r) == Apply(old(Snapshot()), Call.DeleteAssessment(user, id)) && Valid()
    {
      ApplyKeepsInv(Snapshot(), Call.DeleteAssessment(user, id));
      if id !in assessments {
        return Err(NotFound);
      }
      var resource := authz.GetPermissions(user, Resource(AssessmentResource, id, []));
      if Delete !in resource.permissions {
        return Err(Forbidden);
      }
      assessments := assessments - {id};
      authz.DeleteRelationships(AssessmentResource, id);
      assert authz.tuples == old(authz.tuples) - Concerning(old(authz.tuples), id);
      return Ok(());
    }

    method ShareAssessment(user: string, id: string) returns (r: Outcome)
      requires Valid()
      modifies authz
      ensures (Snapshot(), r) == Apply(old(Snapshot()), Call.ShareAssessment(user, id)) && Valid()
    {
      ApplyKeepsInv(Snapshot(), Call.ShareAssessment(user, id));
      if id !in assessments {
        return Err(NotFound);
      }
      var resource := authz.GetPermissions(user, Resource(AssessmentResource, id, []));
      if Share !in resource.permissions {
        return Err(Forbidden);
      }
      var identity := GetIdentity(user);
      if !identity.Customer? {
        return Err(NotACustomer);
      }
      var builder := new RelationshipBuilder();
      builder.With(AssessmentResource, id, Viewer, Subject(OrgSubject, identity.partnerID));
      WriteOne(authz.tuples, builder.Build());
      authz.WriteRelationships(builder.Build());
      return Ok(());
    }

    method UnshareAssessment(user: string, id: string) returns (r: Outcome)
      requires Valid()
      modifies authz
      ensures (Snapshot(), r) == Apply(old(Snapshot()), Call.UnshareAssessment(user, id)) && Valid()
    {
      ApplyKeepsInv(Snapshot(), Call.UnshareAssessment(user, id));
      if id !in assessments {
        return Err(NotFound);
      }
      var resource := authz.GetPermissions(user, Resource(AssessmentResource, id, []));
      if Share !in resource.permissions {
        return Err(Forbidden);
      }
      var identity := GetIdentity(user);
      if !identity.Customer? {
        return Err(NotACustomer);
      }
      var builder := new RelationshipBuilder();
      builder.Without(AssessmentResource, id, Viewer, Subject(OrgSubject, identity.partnerID));
      WriteOne(authz.tuples, builder.Build());
      authz.WriteRelationships(builder.Build());
      return Ok(());
    }
  }
}
