/** Whom a settings window or confirmation is accepted for: over every run, exactly whom and what it was issued for. */
module SettingsBinding {
  import opened Wrappers
  import opened SettingsSessions

  /** The request is one the context was issued for, whenever it is made. */
  predicate Bound(context: Context, r: Request) {
    && context.messageId == r.messageId
    && (context.actor.Some? ==> context.actor.value == r.actor)
    && (r.key.SessionKey? ==> r.operation in context.operations && context.chat == r.chat)
  }

  /** A context binds a request exactly when it was issued for it and has not expired. */
  lemma BindsExactly(context: Context, r: Request, now: real)
    ensures Binds(context, r, now) <==> Bound(context, r) && now < context.expiresAt
  {
  }

  /** The context was stored under this very key. */
  predicate IssuedUnder(s: State, key: Key, context: Context) {
    key in s.issued && s.issued[key].context == context
  }

  predicate ResolverBound(s: State, r: Resolver) {
    match r.pc
    case Reading => true
    case CheckingWindow(raw, _) => IssuedUnder(s, r.request.key, raw) && Bound(raw, r.request)
    case CheckingIdentity(raw, _) => IssuedUnder(s, r.request.key, raw) && Bound(raw, r.request)
    case Confirming(raw) => IssuedUnder(s, r.request.key, raw)
    case Popping(raw, _) => IssuedUnder(s, r.request.key, raw) && Bound(raw, r.request) && r.identified
  }

  /** Accepted for the actor, message, chat and operation its own key was issued for, with identities confirmed. */
  predicate AcceptedBound(s: State, a: Acceptance) {
    IssuedUnder(s, a.request.key, a.context) && Bound(a.context, a.request) && a.identified
  }

  predicate EntriesIssued(entries: map<Key, Entry>, issued: map<Key, Entry>) {
    forall key :: key in entries ==> key in issued && issued[key] == entries[key]
  }

  predicate IssuedUsed(issued: map<Key, Entry>, used: set<Token>) {
    forall key :: key in issued ==> key.token in used
  }

  predicate IssuersFresh(issuers: map<nat, Issuer>, issued: map<Key, Entry>) {
    forall pid :: pid in issuers && issuers[pid].SettingSession? ==> SessionKey(issuers[pid].token) !in issued
  }

  predicate ResolversBound(s: State) {
    forall pid :: pid in s.resolvers ==> ResolverBound(s, s.resolvers[pid])
  }

  predicate AllAcceptedBound(s: State) {
    forall k :: 0 <= k < |s.accepted| ==> AcceptedBound(s, s.accepted[k])
  }

  predicate BindInv(s: State) {
    && EntriesIssued(s.entries, s.issued) && IssuedUsed(s.issued, s.used) && IssuersFresh(s.issuers, s.issued)
    && ResolversBound(s) && AllAcceptedBound(s)
  }

  /** Nothing issued is ever forgotten or changed. */
  ghost predicate IssuedGrows(s: State, after: State) {
    forall key :: key in s.issued ==> key in after.issued && after.issued[key] == s.issued[key]
  }

  /** A step that only issues leaves every resolver and acceptance bound. */
  lemma {:induction false} OthersStayBound(s: State, after: State)
    requires BindInv(s) && IssuedGrows(s, after)
    ensures AllAcceptedBound(s.(issued := after.issued)) && ResolversBound(s.(issued := after.issued))
  {
    hide Bound;
  }

  lemma {:induction false} StoringBinds(s: State, pid: nat, token: Token, now: real)
    requires Inv(s) && BindInv(s) && pid in s.issuers && s.issuers[pid].SettingSession?
    ensures BindInv(StepIssuer(s, pid, s.issuers[pid], token, now))
  {
    var i := s.issuers[pid];
    var after := StepIssuer(s, pid, i, token, now);
    StorerOwnsToken(s, pid);
    hide Inv, Bound, Lifetime, ResolversBound, AllAcceptedBound, StepIssuer;
    StoringStores(s, pid, token, now);
    assert IssuedGrows(s, after);
    OthersStayBound(s, after);
    SameResolvers(s.(issued := after.issued), after);
  }

  lemma {:induction false} StorerOwnsToken(s: State, pid: nat)
    requires Inv(s) && pid in s.issuers && s.issuers[pid].SettingSession?
    ensures s.issuers[pid].token in s.used
    ensures forall q :: q in s.issuers && q != pid && s.issuers[q].SettingSession? ==>
      s.issuers[q].token != s.issuers[pid].token
  {
    assert IssuerInv(s, s.issuers[pid]);
    hide SharedInv, IssuerInv;
    forall q | q in s.issuers && q != pid && s.issuers[q].SettingSession?
      ensures s.issuers[q].token != s.issuers[pid].token
    {
      assert !Carries(s.issuers[pid], s.issuers[q].token);
    }
  }

  lemma {:induction false} StoringStores(s: State, pid: nat, token: Token, now: real)
    requires pid in s.issuers && s.issuers[pid].SettingSession?
    ensures var i := s.issuers[pid]; var after := StepIssuer(s, pid, i, token, now);
      && SessionKey(i.token) in after.issued
      && after.entries == s.entries[SessionKey(i.token) := after.issued[SessionKey(i.token)]]
      && after.issued == s.issued[SessionKey(i.token) := after.issued[SessionKey(i.token)]]
      && after.issuers == s.issuers[pid := SettingWindow(i.context, i.begun, i.token)]
      && after.resolvers == s.resolvers && after.accepted == s.accepted && after.used == s.used
  {
  }

  lemma SameResolvers(s: State, after: State)
    requires ResolversBound(s) && AllAcceptedBound(s)
    requires after.issued == s.issued && after.resolvers == s.resolvers && after.accepted == s.accepted
    ensures ResolversBound(after) && AllAcceptedBound(after)
  {
    hide Bound;
  }

  lemma {:induction false} OtherIssuerStepBinds(s: State, pid: nat, token: Token, now: real)
    requires BindInv(s) && pid in s.issuers && !s.issuers[pid].SettingSession?
    ensures BindInv(StepIssuer(s, pid, s.issuers[pid], token, now))
  {
    var after := StepIssuer(s, pid, s.issuers[pid], token, now);
    hide ResolversBound, AllAcceptedBound, Lifetime;
    SameResolvers(s, after);
  }

  lemma {:induction false} ResolverStepBinds(s: State, pid: nat, now: real, identityMatches: bool)
    requires BindInv(s) && pid in s.resolvers
    ensures BindInv(StepResolver(s, pid, s.resolvers[pid], now, identityMatches))
  {
    ResolverMoves(s, pid, now, identityMatches);
    hide StepResolver;
    MoveBinds(s, pid, StepResolver(s, pid, s.resolvers[pid], now, identityMatches));
  }

  lemma {:induction false} MoveBinds(s: State, pid: nat, after: State)
    requires BindInv(s) && Moves(s, pid, after)
    ensures BindInv(after)
  {
    hide ResolverBound, AcceptedBound;
    assert EntriesIssued(after.entries, after.issued);
    hide EntriesIssued, IssuedUsed, IssuersFresh;
    forall q | q in after.resolvers ensures ResolverBound(after, after.resolvers[q]) {
      if q != pid { SameIssued(s, after, s.resolvers[q]); }
    }
    forall k | 0 <= k < |after.accepted| ensures AcceptedBound(after, after.accepted[k]) {
      if k < |s.accepted| { SameAccepted(s, after, s.accepted[k]); }
    }
  }

  lemma SameIssued(s: State, after: State, r: Resolver)
    requires after.issued == s.issued && ResolverBound(s, r)
    ensures ResolverBound(after, r)
  {
  }

  lemma SameAccepted(s: State, after: State, a: Acceptance)
    requires after.issued == s.issued && AcceptedBound(s, a)
    ensures AcceptedBound(after, a)
  {
  }

  /** What one step of a resolver leaves: itself bound, or an acceptance that is. */
  predicate Moves(s: State, pid: nat, after: State) {
    && after.issued == s.issued && after.used == s.used && after.issuers == s.issuers
    && (forall key :: key in after.entries ==> key in s.entries && after.entries[key] == s.entries[key])
    && (forall q :: q in after.resolvers && q != pid ==> q in s.resolvers && after.resolvers[q] == s.resolvers[q])
    && (pid in after.resolvers ==> ResolverBound(after, after.resolvers[pid]))
    && (after.accepted == s.accepted
        || (|after.accepted| == |s.accepted| + 1 && after.accepted[..|s.accepted|] == s.accepted
            && AcceptedBound(after, after.accepted[|s.accepted|])))
  }

  lemma {:induction false} RejectMoves(s: State, pid: nat)
    ensures Moves(s, pid, Reject(s, pid))
  {
    hide ResolverBound, AcceptedBound;
  }

  lemma {:induction false} AdvanceMoves(s: State, pid: nat, next: Resolver)
    requires ResolverBound(s, next)
    ensures Moves(s, pid, s.(resolvers := s.resolvers[pid := next]))
  {
    SameIssued(s, s.(resolvers := s.resolvers[pid := next]), next);
    hide ResolverBound, AcceptedBound;
  }

  lemma {:induction false} AcceptMoves(s: State, pid: nat, r: Resolver, context: Context, checkedAt: real, now: real)
    requires IssuedUnder(s, r.request.key, context) && Bound(context, r.request) && r.identified
    ensures Moves(s, pid, Accept(s, pid, r, context, checkedAt, now, None))
  {
    hide Bound, ResolverBound;
  }

  lemma {:induction false} ReaderMoves(s: State, pid: nat, now: real, identityMatches: bool)
    requires BindInv(s) && pid in s.resolvers
    requires s.resolvers[pid].pc.Reading? || s.resolvers[pid].pc.CheckingWindow?
    ensures Moves(s, pid, StepResolver(s, pid, s.resolvers[pid], now, identityMatches))
  {
    var r := s.resolvers[pid];
    assert ResolverBound(s, r);
    RejectMoves(s, pid);
    if r.pc.CheckingWindow? {
      AdvanceMoves(s, pid, r.(pc := CheckingIdentity(r.pc.raw, r.pc.checkedAt)));
    } else if r.request.key in s.entries {
      var raw := s.entries[r.request.key].context;
      BindsExactly(raw, r.request, now);
      hide Bound, Binds, Moves;
      assert IssuedUnder(s, r.request.key, raw);
      if r.request.key.ConfirmationKey? { AdvanceMoves(s, pid, r.(pc := Confirming(raw))); }
      else if Binds(raw, r.request, now) { AdvanceMoves(s, pid, r.(pc := CheckingWindow(raw, now))); }
    }
  }

  lemma {:induction false} CheckerMoves(s: State, pid: nat, now: real, identityMatches: bool)
    requires BindInv(s) && pid in s.resolvers
    requires s.resolvers[pid].pc.CheckingIdentity? || s.resolvers[pid].pc.Confirming?
    ensures Moves(s, pid, StepResolver(s, pid, s.resolvers[pid], now, identityMatches))
  {
    var r := s.resolvers[pid];
    assert ResolverBound(s, r);
    RejectMoves(s, pid);
    var known := r.(identified := true);
    var checkedAt := if r.pc.Confirming? then now else r.pc.checkedAt;
    BindsExactly(r.pc.raw, r.request, now);
    hide BindInv, Bound, Binds, Moves, Accept;
    if identityMatches && (r.pc.CheckingIdentity? || Binds(r.pc.raw, r.request, now)) {
      AdvanceMoves(s, pid, known.(pc := Popping(r.pc.raw, checkedAt)));
      AcceptMoves(s, pid, known, r.pc.raw, checkedAt, now);
    }
  }

  lemma {:induction false} PopperMoves(s: State, pid: nat, now: real, identityMatches: bool)
    requires BindInv(s) && pid in s.resolvers && s.resolvers[pid].pc.Popping?
    ensures Moves(s, pid, StepResolver(s, pid, s.resolvers[pid], now, identityMatches))
  {
    assert ResolverBound(s, s.resolvers[pid]);
    hide Bound, IssuersFresh, IssuedUsed, AllAcceptedBound, ResolversBound, EntriesIssued;
  }

  lemma {:induction false} ResolverMoves(s: State, pid: nat, now: real, identityMatches: bool)
    requires BindInv(s) && pid in s.resolvers
    ensures Moves(s, pid, StepResolver(s, pid, s.resolvers[pid], now, identityMatches))
  {
    hide BindInv, Moves, StepResolver;
    if s.resolvers[pid].pc.Popping? { PopperMoves(s, pid, now, identityMatches); }
    else if s.resolvers[pid].pc.Reading? || s.resolvers[pid].pc.CheckingWindow? {
      ReaderMoves(s, pid, now, identityMatches);
    } else { CheckerMoves(s, pid, now, identityMatches); }
  }

  lemma {:induction false} ActBinds(s: State, a: Action)
    requires Inv(s) && BindInv(s)
    ensures BindInv(Act(s, a))
  {
    if a.StepIssue? {
      if a.pid in s.issuers {
        if s.issuers[a.pid].SettingSession? { StoringBinds(s, a.pid, a.token, a.now); }
        else { OtherIssuerStepBinds(s, a.pid, a.token, a.now); }
      }
    } else if a.StepResolve? {
      if a.pid in s.resolvers { ResolverStepBinds(s, a.pid, a.now, a.identityMatches); }
    } else {
      OtherActBinds(s, a);
    }
  }

  lemma {:induction false} OtherActBinds(s: State, a: Action)
    requires BindInv(s) && !a.StepIssue? && !a.StepResolve?
    ensures BindInv(Act(s, a))
  {
    hide Bound, Lifetime;
    var after := Act(s, a);
    assert IssuedGrows(s, after);
    OthersStayBound(s, after);
  }

  lemma {:induction false} RunBinds(s: State, actions: seq<Action>)
    requires Inv(s) && BindInv(s)
    ensures Inv(Run(s, actions)) && BindInv(Run(s, actions))
    decreases |actions|
  {
    hide Inv, Act, BindInv;
    if actions != [] {
      ActKeeps(s, actions[0]);
      ActBinds(s, actions[0]);
      RunBinds(Act(s, actions[0]), actions[1..]);
    }
  }

  /**
   * Over every run, whoever is accepted is the actor the token's own context was issued to (when it names one),
   * on its message, with user and chat confirmed; a session also in its own chat and for one of its operations.
   */
  lemma {:induction false} AcceptedForWhomItWasIssued(actions: seq<Action>, k: nat)
    requires k < |Run(EMPTY_STATE, actions).accepted|
    ensures var s := Run(EMPTY_STATE, actions); var a := s.accepted[k];
      && a.request.key in s.issued && s.issued[a.request.key].context == a.context
      && a.context.messageId == a.request.messageId
      && (a.context.actor.Some? ==> a.context.actor.value == a.request.actor)
      && (a.request.key.SessionKey? ==>
            a.request.operation in a.context.operations && a.context.chat == a.request.chat)
      && a.identified
  {
    EmptyHolds();
    RunBinds(EMPTY_STATE, actions);
    hide Run;
    assert AcceptedBound(Run(EMPTY_STATE, actions), Run(EMPTY_STATE, actions).accepted[k]);
  }
}
