/**
 What each service call promises, read off the rows and the permissions before and after it
 (internal/service/partner.go, accounts.go, assessment.go and their authorising wrappers).
 */
module CallLaws {
  import opened Common
  import opened Authz
  import opened Lifecycle

  // ----- identities from rows

  /** The user is a member of this partner group. */
  ghost predicate WorksFor(s: State, user: string, org: string) {
    && user in s.members && s.members[user].groupID == org
    && org in s.groups && s.groups[org] == PartnerGroup
  }

  ghost predicate Administers(s: State, user: string, org: string) {
    && user in s.members && s.members[user].groupID == org
    && org in s.groups && s.groups[org] == AdminGroup
  }

  ghost predicate HasActive(s: State, user: string) {
    exists id :: ActiveFor(s, user, id)
  }

  lemma IdentitiesByRows(s: State, user: string, org: string)
    requires Inv(s)
    ensures IdentityOf(s, user) == Partner(org) <==> WorksFor(s, user, org)
    ensures IdentityOf(s, user) == Admin(org) <==> Administers(s, user, org)
    ensures IdentityOf(s, user) == Customer(org) <==> IsCustomer(s, user, org)
  {
    IdentitiesExclusive(s, user);
    if IdentityOf(s, user).Customer? {
      assert IsCustomer(s, user, IdentityOf(s, user).partnerID);
    }
    if user in s.members && AcceptedRequest(s, user).Some? {
      assert ActiveFor(s, user, AcceptedRequest(s, user).value);
    }
  }

  /** Everything but one request is as before. */
  ghost predicate OnlyRequestChanged(s: State, s': State, id: string) {
    && s' == s.(requests := s'.requests)
    && s'.requests.Keys == s.requests.Keys + {id}
    && forall i :: i in s.requests && i != id ==> s'.requests[i] == s.requests[i]
  }

  ghost predicate SameAccess(s: State, s': State, user: string, assessment: string, p: Permission) {
    Permitted(s.tuples, user, AssessmentResource, assessment, p)
    <==> Permitted(s'.tuples, user, AssessmentResource, assessment, p)
  }

  // ----- requests

  /** A regular user without an active request may ask any partner, and is then on the waiting list. */
  lemma RequestExactly(s: State, user: string, partnerID: string, id: string)
    requires Inv(s)
    ensures var (s', r) := Apply(s, CreateRequest(user, partnerID, id));
      && (r.Ok? <==>
            && partnerID in s.groups && s.groups[partnerID] == PartnerGroup && id !in s.requests
            && !HasActive(s, user) && (user in s.members ==> s.groups[s.members[user].groupID] == OtherGroup))
      && (r.Ok? ==> OnlyRequestChanged(s, s', id) && s'.requests[id] == Request(user, partnerID, Pending, None, None, None))
      && (r.Err? ==> s' == s)
  {
    if AcceptedRequest(s, user).Some? {
      assert ActiveFor(s, user, AcceptedRequest(s, user).value);
    }
  }

  /** Only a member of the asked partner answers, only a waiting request, and gives a reason to reject
      it; the row then says exactly what was answered. */
  lemma AnswerExactly(s: State, user: string, id: string, status: RequestStatus, reason: string, now: int)
    requires Inv(s)
    ensures var (s', r) := Apply(s, UpdateRequest(user, id, status, reason, now));
      && (r.Ok? <==>
            && (status == Accepted || (status == Rejected && reason != ""))
            && id in s.requests && s.requests[id].status == Pending
            && WorksFor(s, user, s.requests[id].partnerID))
      && (r.Ok? ==> OnlyRequestChanged(s, s', id))
      && (r.Ok? ==>
            && s'.requests[id].username == s.requests[id].username
            && s'.requests[id].partnerID == s.requests[id].partnerID
            && s'.requests[id].status == status
            && s'.requests[id].reason == (if reason == "" then None else Some(reason))
            && s'.requests[id].acceptedAt == (if status == Accepted then Some(now) else None)
            && s'.requests[id].terminatedAt == None)
      && (r.Err? ==> s' == s)
  {
    if id in s.requests {
      IdentitiesByRows(s, user, s.requests[id].partnerID);
    }
    if IdentityOf(s, user).Partner? {
      IdentitiesByRows(s, user, IdentityOf(s, user).groupID);
    }
  }

  /** An accepted user is the partner's customer, and whatever they then share every member of the
      partner's group can read. */
  lemma AcceptanceOpensSharing(s: State, user: string, id: string, reason: string, now: int, assessment: string,
                               reader: string)
    requires Inv(s) && Apply(s, UpdateRequest(user, id, Accepted, reason, now)).1.Ok?
    ensures var s' := Apply(s, UpdateRequest(user, id, Accepted, reason, now)).0;
      var customer, partner := s.requests[id].username, s.requests[id].partnerID;
      && IsCustomer(s', customer, partner)
      && (assessment in s.assessments && s.assessments[assessment] == customer ==>
            var (s'', r) := Apply(s', ShareAssessment(customer, assessment));
            && r.Ok?
            && (reader in s.members && s.members[reader].groupID == partner ==>
                  Permitted(s''.tuples, reader, AssessmentResource, assessment, Read)))
  {
    var s' := Apply(s, UpdateRequest(user, id, Accepted, reason, now)).0;
    var customer, partner := s.requests[id].username, s.requests[id].partnerID;
    AnswerExactly(s, user, id, Accepted, reason, now);
    ApplyKeepsInv(s, UpdateRequest(user, id, Accepted, reason, now));
    assert AcceptedFor(s', customer, id);
    assert IsCustomer(s', customer, partner);
    if assessment in s.assessments && s.assessments[assessment] == customer {
      hide Apply;
      ShareExactly(s', customer, assessment, partner, reader, assessment, Read);
    }
  }

  /** Closing an active request leaves its user without one. */
  lemma NoOtherActive(s: State, s': State, id: string)
    requires Inv(s) && id in s.requests && s.requests[id].Active()
    requires OnlyRequestChanged(s, s', id) && !s'.requests[id].Active()
    ensures !HasActive(s', s.requests[id].username)
  {
    var user := s.requests[id].username;
    assert ActiveFor(s, user, id);
    assert forall i :: ActiveFor(s', user, i) ==> ActiveFor(s, user, i);
  }

  /** A rejected user is told why, has no active request left and may ask again. */
  lemma RejectionFrees(s: State, user: string, id: string, reason: string, now: int, partnerID: string, next: string)
    requires Inv(s) && Apply(s, UpdateRequest(user, id, Rejected, reason, now)).1.Ok?
    ensures var s' := Apply(s, UpdateRequest(user, id, Rejected, reason, now)).0; var asker := s.requests[id].username;
      && s'.requests[id].reason == Some(reason)
      && !HasActive(s', asker)
      && (partnerID in s.groups && s.groups[partnerID] == PartnerGroup && next !in s'.requests && asker !in s.members ==>
            Apply(s', CreateRequest(asker, partnerID, next)).1.Ok?)
  {
    var s' := Apply(s, UpdateRequest(user, id, Rejected, reason, now)).0;
    AnswerExactly(s, user, id, Rejected, reason, now);
    ApplyKeepsInv(s, UpdateRequest(user, id, Rejected, reason, now));
    hide Apply;
    NoOtherActive(s, s', id);
    RequestExactly(s', s.requests[id].username, partnerID, next);
  }

  /** A user withdraws their own waiting request, and has no active request left. */
  lemma WithdrawalExactly(s: State, user: string, id: string, now: int)
    requires Inv(s)
    ensures var (s', r) := Apply(s, CancelRequest(user, id, now));
      && (r.Ok? <==> id in s.requests && s.requests[id].username == user && s.requests[id].status == Pending)
      && (r.Ok? ==> OnlyRequestChanged(s, s', id) && !HasActive(s', user))
      && (r.Ok? ==> s'.requests[id] == Request(user, s.requests[id].partnerID, Cancelled, None, None, Some(now)))
      && (r.Err? ==> s' == s)
  {
    var (s', r) := Apply(s, CancelRequest(user, id, now));
    if r.Ok? {
      NoOtherActive(s, s', id);
    }
  }

  // ----- the end of a partnership

  /** The partnership is over: its request is closed with the date, and the user is free. */
  ghost predicate Ended(s: State, s': State, customer: string, partnerID: string, now: int) {
    && s' == s.(requests := s'.requests, tuples := s'.tuples)
    && !HasActive(s', customer)
    && s'.requests.Keys == s.requests.Keys
    && (forall i :: i in s.requests ==>
          if AcceptedFor(s, customer, i)
          then s'.requests[i] == Request(customer, partnerID, Cancelled, None, None, Some(now))
          else s'.requests[i] == s.requests[i])
  }

  lemma EndPartnershipEnds(s: State, customer: string, partnerID: string, id: string, now: int)
    requires Inv(s) && AcceptedFor(s, customer, id) && s.requests[id].partnerID == partnerID
    ensures Ended(s, EndPartnership(s, id, now), customer, partnerID, now)
  {
    var s' := EndPartnership(s, id, now);
    NoOtherActive(s, s'.(tuples := s.tuples), id);
    assert forall i :: ActiveFor(s', customer, i) ==> ActiveFor(s'.(tuples := s.tuples), customer, i);
    assert ActiveFor(s, customer, id);
    assert forall i :: AcceptedFor(s, customer, i) ==> ActiveFor(s, customer, i);
  }

  /** Exactly a customer of the partner can leave it. */
  lemma LeaveExactly(s: State, user: string, partnerID: string, now: int)
    requires Inv(s)
    ensures var (s', r) := Apply(s, LeavePartner(user, partnerID, now));
      && (r.Ok? <==> IsCustomer(s, user, partnerID))
      && (r.Ok? ==> Ended(s, s', user, partnerID, now))
      && (r.Err? ==> s' == s)
  {
    IdentitiesByRows(s, user, partnerID);
    if Apply(s, LeavePartner(user, partnerID, now)).1.Ok? {
      EndPartnershipEnds(s, user, partnerID, AcceptedRequest(s, user).value, now);
    }
  }

  /** Exactly a member of the customer's partner can remove the customer. */
  lemma RemovalExactly(s: State, user: string, customer: string, now: int)
    requires Inv(s)
    ensures var (s', r) := Apply(s, RemoveCustomer(user, customer, now));
      && (r.Ok? <==> exists org :: WorksFor(s, user, org) && IsCustomer(s, customer, org))
      && (forall org :: r.Ok? && WorksFor(s, user, org) ==> Ended(s, s', customer, org, now))
      && (r.Err? ==> s' == s)
  {
    var (s', r) := Apply(s, RemoveCustomer(user, customer, now));
    if org :| WorksFor(s, user, org) && IsCustomer(s, customer, org) {
      IdentitiesByRows(s, user, org);
      IdentitiesByRows(s, customer, org);
    }
    if r.Ok? {
      var org := IdentityOf(s, user).groupID;
      IdentitiesByRows(s, user, org);
      IdentitiesByRows(s, customer, org);
      EndPartnershipEnds(s, customer, org, AcceptedRequest(s, customer).value, now);
    }
  }

  /** Ending a partnership takes nothing from owners, and nothing on other users' assessments. */
  lemma EndingLeavesOthers(s: State, call: Call, customer: string, user: string, assessment: string, p: Permission)
    requires Inv(s) && call.Issued() && Apply(s, call).1.Ok?
    requires (call.LeavePartner? && call.user == customer) || (call.RemoveCustomer? && call.username == customer)
    requires assessment in s.assessments && (s.assessments[assessment] != customer || user == customer)
    ensures SameAccess(s, Apply(s, call).0, user, assessment, p)
  {
    var s' := Apply(s, call).0;
    ApplyKeepsInv(s, call);
    assert s' == EndPartnership(s, AcceptedRequest(s, customer).value, call.now);
    hide Apply;
    AccessExactly(s, user, assessment, p);
    AccessExactly(s', user, assessment, p);
    var owner := s.assessments[assessment];
    if owner != customer {
      assert forall id :: AcceptedFor(s', owner, id) <==> AcceptedFor(s, owner, id);
      assert forall org :: IsCustomer(s', owner, org) <==> IsCustomer(s, owner, org);
      assert forall org :: ViewerTuple(assessment, org) in s'.tuples <==> ViewerTuple(assessment, org) in s.tuples;
    }
  }

  // ----- groups and members

  lemma GroupExactly(s: State, id: string, kind: GroupKind)
    ensures var (s', r) := Apply(s, CreateGroup(id, kind));
      && (r.Ok? <==> id !in s.groups)
      && (r.Ok? ==> s' == s.(groups := s'.groups) && s'.groups.Keys == s.groups.Keys + {id} && s'.groups[id] == kind)
      && (forall g :: g in s.groups ==> s'.groups[g] == s.groups[g])
      && (r.Err? ==> s' == s)
  {
  }

  /** Joining a group: who may, and that it opens exactly what was shared with the group. */
  lemma JoiningExactly(s: State, known: bool, user: string, group: string, email: string,
                       reader: string, assessment: string, p: Permission)
    requires Inv(s)
    ensures var (s', r) := Apply(s, CreateMember(known, user, group, email));
      && (r.Ok? <==> known && group in s.groups && user !in s.members && !HasActive(s, user))
      && (r.Ok? ==> s' == s.(members := s'.members, tuples := s'.tuples) && s'.members.Keys == s.members.Keys + {user}
                    && s'.members[user] == MemberRow(group, email))
      && (forall u :: u in s.members ==> s'.members[u] == s.members[u])
      && (r.Err? ==> s' == s)
      && (r.Ok? ==> (Permitted(s'.tuples, reader, AssessmentResource, assessment, p) <==>
            || Permitted(s.tuples, reader, AssessmentResource, assessment, p)
            || (reader == user && p == Read && ViewerTuple(assessment, group) in s.tuples)))
  {
    var (s', r) := Apply(s, CreateMember(known, user, group, email));
    ApplyKeepsInv(s, CreateMember(known, user, group, email));
    if r.Ok? {
      AccessExactly(s, reader, assessment, p);
      AccessExactly(s', reader, assessment, p);
      SameCustomers(s, s');
      assert ViewerTuple(assessment, group) in s.tuples ==> Justified(s, ViewerTuple(assessment, group));
    }
  }

  lemma SameCustomers(s: State, s': State)
    requires s'.requests == s.requests
    ensures forall u, org :: IsCustomer(s', u, org) <==> IsCustomer(s, u, org)
  {
    CustomersKept(s, s');
    CustomersKept(s', s);
  }

  /** Leaving a group: members of that very group only, and they keep what they own. */
  lemma LeavingGroupExactly(s: State, group: string, user: string, reader: string, assessment: string, p: Permission)
    requires Inv(s)
    ensures var (s', r) := Apply(s, RemoveGroupMember(group, user));
      && (r.Ok? <==> user in s.members && s.members[user].groupID == group)
      && (r.Ok? ==> s' == s.(members := s'.members, tuples := s'.tuples) && s'.members == s.members - {user})
      && (r.Err? ==> s' == s)
      && (r.Ok? ==> (Permitted(s'.tuples, reader, AssessmentResource, assessment, p) <==>
            && Permitted(s.tuples, reader, AssessmentResource, assessment, p)
            && (reader == user ==> s.assessments[assessment] == user)))
  {
    var (s', r) := Apply(s, RemoveGroupMember(group, user));
    ApplyKeepsInv(s, RemoveGroupMember(group, user));
    if r.Ok? {
      AccessExactly(s, reader, assessment, p);
      AccessExactly(s', reader, assessment, p);
      SameCustomers(s, s');
    }
  }

  /** A member's row changes in its email only; an empty one leaves it. */
  lemma MemberUpdateExactly(s: State, group: string, user: string, email: string)
    requires Inv(s)
    ensures var (s', r) := Apply(s, UpdateGroupMember(group, user, email));
      && (r.Ok? <==> user in s.members && s.members[user].groupID == group)
      && (r.Ok? ==> s' == s.(members := s'.members) && s'.members.Keys == s.members.Keys
                    && s'.members[user].groupID == group
                    && s'.members[user].email == (if email != "" then email else s.members[user].email))
      && (forall u :: u in s.members && u != user ==> s'.members[u] == s.members[u])
      && (r.Err? ==> s' == s)
  {
  }

  // ----- assessments

  /** A new assessment is its creator's, with every permission, and nobody else's. */
  lemma CreationExactly(s: State, user: string, id: string, reader: string, assessment: string, p: Permission)
    requires Inv(s) && id != ""
    ensures var (s', r) := Apply(s, CreateAssessment(user, id));
      && (r.Ok? <==> id !in s.assessments)
      && (r.Ok? ==> s' == s.(assessments := s'.assessments, tuples := s'.tuples))
      && (r.Ok? ==> s'.assessments == s.assessments[id := user])
      && (r.Err? ==> s' == s)
      && (r.Ok? ==> (Permitted(s'.tuples, reader, AssessmentResource, id, p) <==> reader == user))
      && (assessment != id ==> SameAccess(s, s', reader, assessment, p))
  {
    var (s', r) := Apply(s, CreateAssessment(user, id));
    ApplyKeepsInv(s, CreateAssessment(user, id));
    SameCustomers(s, s');
    AccessExactly(s', reader, id, p);
    AccessExactly(s, reader, assessment, p);
    AccessExactly(s', reader, assessment, p);
    if reader in s.members && r.Ok? {
      var viewer := ViewerTuple(id, s.members[reader].groupID);
      assert viewer in s.tuples ==> Justified(s, viewer);
    }
  }

  /** Exactly the owner deletes an assessment; nobody has any permission on it afterwards. */
  lemma DeletionExactly(s: State, user: string, id: string, reader: string, assessment: string, p: Permission)
    requires Inv(s)
    ensures var (s', r) := Apply(s, DeleteAssessment(user, id));
      && (r.Ok? <==> id in s.assessments && s.assessments[id] == user)
      && (r.Ok? ==> s' == s.(assessments := s'.assessments, tuples := s'.tuples))
      && (r.Ok? ==> s'.assessments == s.assessments - {id})
      && (r.Err? ==> s' == s)
      && (r.Ok? ==> !Permitted(s'.tuples, reader, AssessmentResource, id, p))
      && (assessment != id ==> SameAccess(s, s', reader, assessment, p))
  {
    var (s', r) := Apply(s, DeleteAssessment(user, id));
    ApplyKeepsInv(s, DeleteAssessment(user, id));
    SameCustomers(s, s');
    AccessExactly(s, user, id, Delete);
    AccessExactly(s', reader, id, p);
    AccessExactly(s, reader, assessment, p);
    AccessExactly(s', reader, assessment, p);
  }

  /** Exactly an owner who is a customer shares an assessment, and exactly the members of that one
      partner gain anything by it: they can read it. */
  lemma ShareExactly(s: State, user: string, id: string, org: string, reader: string, assessment: string, p: Permission)
    requires Inv(s)
    ensures var (s', r) := Apply(s, ShareAssessment(user, id));
      && (r.Ok? <==> id in s.assessments && s.assessments[id] == user && exists o :: IsCustomer(s, user, o))
      && s' == s.(tuples := s'.tuples)
      && (r.Err? ==> s' == s)
      && (r.Ok? && IsCustomer(s, user, org) ==>
            (Permitted(s'.tuples, reader, AssessmentResource, assessment, p) <==>
              || Permitted(s.tuples, reader, AssessmentResource, assessment, p)
              || (assessment == id && p == Read && reader in s.members && s.members[reader].groupID == org)))
  {
    var (s', r) := Apply(s, ShareAssessment(user, id));
    ApplyKeepsInv(s, ShareAssessment(user, id));
    SameCustomers(s, s');
    AccessExactly(s, user, id, Share);
    IdentitiesExclusive(s, user);
    AccessExactly(s, reader, assessment, p);
    AccessExactly(s', reader, assessment, p);
  }

  /** Exactly an owner who is a customer unshares an assessment, and then only the owner has any
      permission on it. */
  lemma UnshareExactly(s: State, user: string, id: string, reader: string, assessment: string, p: Permission)
    requires Inv(s)
    ensures var (s', r) := Apply(s, UnshareAssessment(user, id));
      && (r.Ok? <==> id in s.assessments && s.assessments[id] == user && exists o :: IsCustomer(s, user, o))
      && s' == s.(tuples := s'.tuples)
      && (r.Err? ==> s' == s)
      && (r.Ok? ==> (Permitted(s'.tuples, reader, AssessmentResource, id, p) <==> reader == user))
      && (assessment != id ==> SameAccess(s, s', reader, assessment, p))
  {
    var (s', r) := Apply(s, UnshareAssessment(user, id));
    ApplyKeepsInv(s, UnshareAssessment(user, id));
    SameCustomers(s, s');
    AccessExactly(s, user, id, Share);
    IdentitiesExclusive(s, user);
    AccessExactly(s', reader, id, p);
    AccessExactly(s, reader, assessment, p);
    AccessExactly(s', reader, assessment, p);
  }
}
