/**
 Transaction contexts, internal/store/transaction.go: the context carries the transaction and
 whether this scope owns it. A scope begins (or joins), runs its body, commits, and has a
 deferred rollback that always runs last.
 */
module Transactions {
  import opened Common
  import opened Authz
  import opened Lifecycle

  class Database<D> {
    var committed: D

    constructor (data: D)
      ensures committed == data
    {
      committed := data;
    }
  }

  /** A Tx: open until committed or rolled back. The session is what its own statements see;
      a failed commit ends the session although the Tx stays open. */
  class Tx<D> {
    const db: Database<D>
    var open: bool
    var session: D
    var ended: bool

    constructor (db: Database<D>)
      ensures this.db == db && open && !ended && session == db.committed
    {
      this.db := db;
      open, ended := true, false;
      session := db.committed;
    }

    method Commit(fails: bool) returns (ok: bool)
      modifies this, db
      ensures session == old(session)
      ensures ok <==> old(open) && !old(ended) && !fails
      ensures db.committed == if ok then session else old(db.committed)
      ensures open == (old(open) && !ok)
    {
      if !open {
        return false;
      }
      if fails || ended {
        ended := true;
        return false;
      }
      db.committed := session;
      open := false;
      return true;
    }

    method Rollback() returns (ok: bool)
      modifies this
      ensures ok <==> old(open) && !old(ended)
      ensures open == (old(open) && !ok)
    {
      if !open || ended {
        return false;
      }
      open := false;
      return true;
    }
  }

  /** The two context keys: a missing or nil transaction is null. */
  datatype Context<D> = Context(tx: Tx?<D>, owner: bool)

  method NewTransactionContext<D>(ctx: Context<D>, db: Database<D>, beginFails: bool) returns (next: Context<D>, ok: bool)
    ensures ctx.tx != null ==> ok && next == Context(ctx.tx, false)
    ensures ctx.tx == null && beginFails ==> !ok && next == ctx
    ensures ctx.tx == null && !beginFails ==> ok && next.owner && next.tx != null && fresh(next.tx)
    ensures ctx.tx == null && !beginFails ==> next.tx.db == db && next.tx.session == db.committed
    ensures ctx.tx == null && !beginFails ==> next.tx.open && !next.tx.ended
  {
    if ctx.tx != null {
      return Context(ctx.tx, false), true;
    }
    if beginFails {
      return ctx, false;
    }
    var tx := new Tx<D>(db);
    return Context(tx, true), true;
  }

  method Commit<D>(ctx: Context<D>, fails: bool) returns (next: Context<D>, ok: bool)
    modifies ctx.tx, if ctx.tx == null then {} else {ctx.tx.db}
    ensures ctx.tx == null || !ctx.owner ==> next == ctx && ok
    ensures ctx.tx != null && !ctx.owner ==> unchanged(ctx.tx) && unchanged(ctx.tx.db)
    ensures ctx.tx != null && ctx.owner ==>
      && next == Context(null, true)
      && (ok <==> old(ctx.tx.open) && !old(ctx.tx.ended) && !fails)
      && ctx.tx.db.committed == (if ok then old(ctx.tx.session) else old(ctx.tx.db.committed))
      && ctx.tx.open == (old(ctx.tx.open) && !ok)
  {
    if ctx.tx == null || !ctx.owner {
      return ctx, true;
    }
    ok := ctx.tx.Commit(fails);
    next := Context(null, ctx.owner);
  }

  method Rollback<D>(ctx: Context<D>) returns (next: Context<D>, ok: bool)
    modifies ctx.tx
    ensures ctx.tx == null || !ctx.owner ==> next == ctx && ok
    ensures ctx.tx != null && !ctx.owner ==> unchanged(ctx.tx)
    ensures ctx.tx != null && ctx.owner ==>
      && next == Context(null, true)
      && (ok <==> old(ctx.tx.open) && !old(ctx.tx.ended))
      && ctx.tx.open == (old(ctx.tx.open) && !ok)
  {
    if ctx.tx == null || !ctx.owner {
      return ctx, true;
    }
    ok := ctx.tx.Rollback();
    next := Context(null, ctx.owner);
  }

  // ----- programs of nested scopes

  /**
   What service code does with one context: single store operations, one after the other until
   one fails, in scopes nested to any depth. An operation answers None where it fails.
   */
  datatype Program<!D> =
    | Skip
    | Write(f: D -> Option<D>)
    | Then(first: Program<D>, second: Program<D>)
    | Scope(body: Program<D>, beginFails: bool, commitFails: bool)

  /** The data after the operations, up to the first failure, and whether there was none. */
  function Effects<D>(p: Program<D>, data: D): (D, bool) {
    match p
    case Skip => (data, true)
    case Write(f) => (match f(data) case None => (data, false) case Some(next) => (next, true))
    case Then(first, second) =>
      var (mid, ok) := Effects(first, data);
      if ok then Effects(second, mid) else (mid, false)
    case Scope(body, _, _) => Effects(body, data)
  }

  /** The committed data after a program run without an enclosing transaction. */
  function Committed<D>(p: Program<D>, data: D): (D, bool) {
    match p
    case Skip => (data, true)
    case Write(f) => Effects(p, data)
    case Then(first, second) =>
      var (mid, ok) := Committed(first, data);
      if ok then Committed(second, mid) else (mid, false)
    case Scope(body, beginFails, commitFails) =>
      var (next, ok) := Effects(body, data);
      if ok && !beginFails && !commitFails then (next, true) else (data, false)
  }

  /** The transaction a context's statements use, if any. */
  function FromContext<D>(ctx: Context<D>): Tx?<D>
    reads ctx.tx
  {
    if ctx.tx != null && ctx.tx.open then ctx.tx else null
  }

  /** How a program starts: without a transaction, in a live one, in one whose commit failed, or
      in a context left over from a closed one. */
  datatype Mode = Outside | Joined | Failed | Stale

  function ModeOf<D>(ctx: Context<D>): Mode
    reads ctx.tx
  {
    if ctx.tx == null then Outside
    else if !ctx.tx.open then Stale
    else if ctx.tx.ended then Failed
    else Joined
  }

  /** The committed data once the program has run. */
  function Published<D>(mode: Mode, p: Program<D>, data: D): D {
    match mode
    case Outside => Committed(p, data).0
    case Joined => data
    case Failed => data
    case Stale => Effects(p, data).0
  }

  predicate HasOperations<D>(p: Program<D>) {
    match p
    case Skip => false
    case Write(_) => true
    case Then(first, second) => HasOperations(first) || HasOperations(second)
    case Scope(body, _, _) => HasOperations(body)
  }

  /**
   Runs a program. In an open transaction, nothing becomes visible outside, whatever the inner
   scopes commit or roll back; without one, each outermost scope commits all or nothing; in a
   context left over from a closed transaction, scopes are not atomic: every operation commits
   by itself, the partial effects of a failed scope included. After a failed commit the
   transaction is still the context's, and every operation fails.
   */
  method Run<D(!new)>(db: Database<D>, ctx: Context<D>, p: Program<D>) returns (ok: bool)
    requires ctx.tx != null ==> ctx.tx.db == db
    modifies db, ctx.tx
    ensures db.committed == Published(old(ModeOf(ctx)), p, old(db.committed))
    ensures ModeOf(ctx) == old(ModeOf(ctx))
    ensures match old(ModeOf(ctx))
      case Outside => ok == Committed(p, old(db.committed)).1
      case Joined => (ctx.tx.session, ok) == Effects(p, old(ctx.tx.session))
      case Failed => unchanged(ctx.tx) && ok == !HasOperations(p)
      case Stale => unchanged(ctx.tx) && ok == Effects(p, old(db.committed)).1
    decreases p
  {
    match p {
      case Skip =>
        return true;
      case Write(f) =>
        var tx := FromContext(ctx);
        if tx != null && tx.ended {
          return false;
        }
        var result := f(if tx != null then tx.session else db.committed);
        if result.None? {
          return false;
        }
        if tx != null {
          tx.session := result.value;
        } else {
          db.committed := result.value;
        }
        return true;
      case Then(first, second) =>
        ok := Run(db, ctx, first);
        if ok {
          ok := Run(db, ctx, second);
        }
      case Scope(body, beginFails, commitFails) =>
        var scope, begun := NewTransactionContext(ctx, db, beginFails);
        if !begun {
          return false;
        }
        ok := Run(db, scope, body);
        if ok {
          var _, committed := Commit(scope, commitFails);
          ok := committed;
        }
        var _, _ := Rollback(scope);
    }
  }

  // ----- what programs mean

  /** The operations of a program without any of its scopes. */
  function WithoutScopes<D>(p: Program<D>): Program<D> {
    match p
    case Then(first, second) => Then(WithoutScopes(first), WithoutScopes(second))
    case Scope(body, _, _) => WithoutScopes(body)
    case _ => p
  }

  /** Inside a transaction, scopes to any depth change nothing: neither their commits nor their rollbacks. */
  lemma {:induction false} InnerScopesInvisible<D>(p: Program<D>, data: D)
    ensures Effects(p, data) == Effects(WithoutScopes(p), data)
  {
    match p
    case Then(first, second) =>
      InnerScopesInvisible(first, data);
      InnerScopesInvisible(second, Effects(first, data).0);
    case Scope(body, _, _) =>
      InnerScopesInvisible(body, data);
    case _ =>
  }

  /** The operations of a program, in order. */
  function Operations<D>(p: Program<D>): seq<D -> Option<D>> {
    match p
    case Skip => []
    case Write(f) => [f]
    case Then(first, second) => Operations(first) + Operations(second)
    case Scope(body, _, _) => Operations(body)
  }

  /** One operation after the other, up to the first that fails. */
  function UntilFailure<D>(fs: seq<D -> Option<D>>, data: D): (D, bool) {
    if fs == [] then (data, true)
    else
      match fs[0](data)
      case None => (data, false)
      case Some(next) => UntilFailure(fs[1..], next)
  }

  lemma {:induction false} UntilFailureThen<D>(fs: seq<D -> Option<D>>, gs: seq<D -> Option<D>>, data: D)
    ensures UntilFailure(fs + gs, data)
      == var (mid, ok) := UntilFailure(fs, data); if ok then UntilFailure(gs, mid) else (mid, false)
  {
    if fs == [] {
      assert fs + gs == gs;
    } else {
      assert (fs + gs)[0] == fs[0] && (fs + gs)[1..] == fs[1..] + gs;
      match fs[0](data)
      case None =>
      case Some(next) => UntilFailureThen(fs[1..], gs, next);
    }
  }

  /** Inside a transaction a program is its operations in order, up to the first failure. */
  lemma {:induction false} EffectsExactly<D>(p: Program<D>, data: D)
    ensures Effects(p, data) == UntilFailure(Operations(p), data)
  {
    match p
    case Skip =>
    case Write(f) =>
      assert [f][1..] == [];
    case Then(first, second) =>
      EffectsExactly(first, data);
      EffectsExactly(second, Effects(first, data).0);
      UntilFailureThen(Operations(first), Operations(second), data);
    case Scope(body, _, _) =>
      EffectsExactly(body, data);
  }

  /** What a program does on its own: single operations and outermost scopes, in order. */
  function Units<D>(p: Program<D>): seq<Program<D>> {
    match p
    case Skip => []
    case Write(_) => [p]
    case Then(first, second) => Units(first) + Units(second)
    case Scope(_, _, _) => [p]
  }

  /** A unit does all of its operations or none, a scope only if it could begin and commit. */
  function Unit<D>(p: Program<D>, data: D): (D, bool) {
    var (after, ok) := UntilFailure(Operations(p), data);
    if ok && (p.Scope? ==> !p.beginFails && !p.commitFails) then (after, true) else (data, false)
  }

  function UnitsUntilFailure<D>(units: seq<Program<D>>, data: D): (D, bool) {
    if units == [] then (data, true)
    else
      var (after, ok) := Unit(units[0], data);
      if ok then UnitsUntilFailure(units[1..], after) else (after, false)
  }

  lemma {:induction false} UnitsThen<D>(us: seq<Program<D>>, vs: seq<Program<D>>, data: D)
    ensures UnitsUntilFailure(us + vs, data)
      == var (mid, ok) := UnitsUntilFailure(us, data); if ok then UnitsUntilFailure(vs, mid) else (mid, false)
  {
    if us == [] {
      assert us + vs == vs;
    } else {
      assert (us + vs)[0] == us[0] && (us + vs)[1..] == us[1..] + vs;
      UnitsThen(us[1..], vs, Unit(us[0], data).0);
    }
  }

  /** Without an enclosing transaction a program leaves behind its units, in order, up to the first
      that fails. */
  lemma {:induction false} CommittedExactly<D>(p: Program<D>, data: D)
    ensures Committed(p, data) == UnitsUntilFailure(Units(p), data)
  {
    match p
    case Skip =>
    case Write(f) =>
      EffectsExactly(p, data);
      assert Unit(p, data) == Effects(p, data);
      assert [p][1..] == [];
    case Then(first, second) =>
      CommittedExactly(first, data);
      CommittedExactly(second, Committed(first, data).0);
      UnitsThen(Units(first), Units(second), data);
    case Scope(body, _, _) =>
      EffectsExactly(body, data);
      assert [p][1..] == [];
  }

  /** All or nothing, at any nesting depth and wherever an operation, a begin or the commit fails. */
  lemma OutermostScopeAtomic<D>(body: Program<D>, beginFails: bool, commitFails: bool, data: D)
    ensures var (after, ok) := Committed(Scope(body, beginFails, commitFails), data);
      && (ok <==> !beginFails && !commitFails && Effects(WithoutScopes(body), data).1)
      && after == if ok then Effects(WithoutScopes(body), data).0 else data
  {
    InnerScopesInvisible(body, data);
  }

  /** A scope publishes all the operations of its body, each of them successful, or nothing. */
  predicate AllOrNothing<D(==)>(mode: Mode, body: Program<D>, beginFails: bool, commitFails: bool, data: D) {
    var after := Published(mode, Scope(body, beginFails, commitFails), data);
    after == data || (Effects(WithoutScopes(body), data).1 && after == Effects(WithoutScopes(body), data).0)
  }

  /** Whatever it does and wherever it fails, a scope is all or nothing, exactly if its context is not
      left over from a closed transaction. There must be two data to tell apart. */
  lemma ScopesAtomicExactly<D(!new)>(mode: Mode, x: D, y: D)
    requires x != y
    ensures (forall body: Program<D>, beginFails, commitFails, data ::
               AllOrNothing(mode, body, beginFails, commitFails, data)) <==> mode != Stale
  {
    forall body: Program<D>, beginFails, commitFails, data | mode != Stale
      ensures AllOrNothing(mode, body, beginFails, commitFails, data)
    {
      OutermostScopeAtomic(body, beginFails, commitFails, data);
    }
    if mode == Stale {
      StaleScopeExample(x, y);
    }
  }

  /** In a stale context a write before a failing write stays, although the scope reports failure. */
  lemma StaleScopeExample<D>(x: D, y: D)
    requires x != y
    ensures var body := Then(Write((d: D) => Some(y)), Write((d: D) => Option.None));
      && !AllOrNothing(Stale, body, false, false, x)
      && Effects(Scope(body, false, false), x) == (y, false)
  {
  }

  // ----- the service calls as programs

  /** Where the database may fail a call: each statement, begin and commit, of either scope. */
  datatype Faults = Faults(begin: bool, first: bool, innerCommit: bool, second: bool, commit: bool) {
    predicate None() {
      !begin && !first && !second && !commit
    }
  }

  function Statement(fails: bool, f: State -> Option<State>): Program<State> {
    Write(s => if fails then Option.None else f(s))
  }

  /** The authorising CreateAssessment around the plain one: two nested scopes. */
  function CreateAssessmentProgram(user: string, id: string, faults: Faults): Program<State> {
    var insert := (s: State) =>
      if id in s.assessments then Option.None else Some(s.(assessments := s.assessments[id := user]));
    var own := (s: State) => Some(s.(tuples := s.tuples + {OwnerTuple(id, user)}));
    Scope(Then(Scope(Statement(faults.first, insert), false, faults.innerCommit), Statement(faults.second, own)),
          faults.begin, faults.commit)
  }

  function DeleteAssessmentProgram(id: string, faults: Faults): Program<State> {
    var delete := (s: State) => Some(s.(assessments := s.assessments - {id}));
    var forget := (s: State) => Some(s.(tuples := s.tuples - Concerning(s.tuples, id)));
    Scope(Then(Statement(faults.first, delete), Statement(faults.second, forget)), faults.begin, faults.commit)
  }

  /** LeavePartner and RemoveCustomer once their guards have found the accepted request. */
  function EndPartnershipProgram(requestID: string, username: string, partnerID: string, now: int, faults: Faults)
    : Program<State>
  {
    var cancel := (s: State) =>
      if requestID !in s.requests then Option.None
      else Some(s.(requests := s.requests[requestID := s.requests[requestID].Cancel(now)]));
    var revoke := (s: State) => Some(s.(tuples := s.tuples - Shares(s.assessments, username, partnerID)));
    Scope(Then(Statement(faults.first, cancel), Statement(faults.second, revoke)), faults.begin, faults.commit)
  }

  function CreateMemberProgram(username: string, groupID: string, email: string, faults: Faults): Program<State> {
    var insert := (s: State) =>
      if username in s.members then Option.None
      else Some(s.(members := s.members[username := MemberRow(groupID, email)]));
    var relate := (s: State) => Some(s.(tuples := s.tuples + {MemberTuple(groupID, username)}));
    Scope(Then(Statement(faults.first, insert), Statement(faults.second, relate)), faults.begin, faults.commit)
  }

  /** What a call leaves behind if it may also fail in the database: its step, or nothing. */
  ghost predicate StepOrNothing(s: State, call: Call, p: Program<State>, faults: Faults) {
    var (after, ok) := Committed(p, s);
    && (ok <==> Apply(s, call).1.Ok? && faults.None())
    && after == if ok then Apply(s, call).0 else s
  }

  /** An assessment is stored with its owner tuple, or neither is; the inner commit decides nothing. */
  lemma CreateAssessmentIsAtomic(s: State, user: string, id: string, faults: Faults)
    ensures StepOrNothing(s, CreateAssessment(user, id), CreateAssessmentProgram(user, id, faults), faults)
  {
    var body := CreateAssessmentProgram(user, id, faults).body;
    var inner := body.first;
    OutermostScopeAtomic(body, faults.begin, faults.commit, s);
    assert WithoutScopes(body) == Then(inner.body, body.second);
    assert Effects(inner.body, s)
      == if faults.first || id in s.assessments then (s, false) else (s.(assessments := s.assessments[id := user]), true);
  }

  lemma DeleteAssessmentIsAtomic(s: State, user: string, id: string, faults: Faults)
    requires Apply(s, DeleteAssessment(user, id)).1.Ok?
    ensures StepOrNothing(s, DeleteAssessment(user, id), DeleteAssessmentProgram(id, faults), faults)
  {
  }

  /** A partnership ends together with its shares, or not at all. */
  lemma EndPartnershipIsAtomic(s: State, call: Call, customer: string, now: int, faults: Faults)
    requires Apply(s, call).1.Ok?
    requires (call.RemoveCustomer? && call.username == customer) || (call.LeavePartner? && call.user == customer)
    requires call.now == now
    ensures var id := AcceptedRequest(s, customer).value;
      StepOrNothing(s, call,
        EndPartnershipProgram(id, customer, s.requests[id].partnerID, now, faults), faults)
  {
  }

  lemma CreateMemberIsAtomic(s: State, username: string, groupID: string, email: string, faults: Faults)
    requires groupID in s.groups && !exists id :: ActiveFor(s, username, id)
    ensures StepOrNothing(s, CreateMember(true, username, groupID, email),
      CreateMemberProgram(username, groupID, email, faults), faults)
  {
  }
}
