/** One issue and one resolve with nobody in between: what each leaves in the cache, and exactly when it is accepted. */
module SettingsExecution {
  import opened Wrappers
  import opened SettingsSessions
  import opened SettingsBinding

  // ----- Issuing -----

  /** An issue from the check of the remaining time to the new window. */
  function Issue(
    pid: nat, context: Context, operations: set<string>, begun: real, token: Token, now: real): seq<Action>
  {
    [BeginIssue(pid, context, operations, begun), StepIssue(pid, token, now), StepIssue(pid, token, now),
     StepIssue(pid, token, now), StepIssue(pid, token, now), StepIssue(pid, token, now)]
  }

  /** The chat's previous session token is forgotten. */
  function WithoutPrevious(s: State, chat: int): map<Key, Entry> {
    if chat in s.windows then s.entries - {SessionKey(s.windows[chat])} else s.entries
  }

  function Issuing(s: State, pid: nat, i: Issuer): State {
    s.(issuers := s.issuers[pid := i])
  }

  /** Asking for the current window and deleting the session it names. */
  lemma {:induction false} IssueClears(
    s: State, pid: nat, context: Context, operations: set<string>, begun: real, token: Token, now: real)
    requires pid !in s.issuers && context in s.held && Lifetime(context, begun) > 0
    ensures var bound := context.(operations := operations); var step := StepIssue(pid, token, now);
      var read := Act(Act(s, BeginIssue(pid, context, operations, begun)), step);
      if context.chat in s.windows
      then Act(read, step)
        == Issuing(s.(entries := WithoutPrevious(s, context.chat)), pid, ChoosingToken(bound, begun))
      else read == Issuing(s, pid, ChoosingToken(bound, begun))
  {
    hide Lifetime;
    var bound := context.(operations := operations);
    assert Act(s, BeginIssue(pid, context, operations, begun)) == Issuing(s, pid, ReadingWindow(bound, begun));
  }

  /** Choosing a fresh token, storing the session under it and pointing the window at it. */
  lemma {:induction false} IssueStores(
    s: State, pid: nat, bound: Context, begun: real, token: Token, now: real)
    requires pid !in s.issuers && token !in s.used
    ensures var step := StepIssue(pid, token, now);
      var after := Act(Act(Act(Issuing(s, pid, ChoosingToken(bound, begun)), step), step), step);
      && after.entries == s.entries[SessionKey(token) := Entry(bound, begun, now, now + Lifetime(bound, begun) as real)]
      && after.windows == s.windows[bound.chat := token]
      && after.issuers == s.issuers && after.used == s.used + {token}
      && after.retired == s.retired + (if bound.chat in s.windows then {s.windows[bound.chat]} else {})
      && Act(after, step) == after
  {
    hide Lifetime;
    var chosen := Act(Issuing(s, pid, ChoosingToken(bound, begun)), StepIssue(pid, token, now));
    assert chosen == Issuing(s.(used := s.used + {token}), pid, SettingSession(bound, begun, token));
    var stored := Act(chosen, StepIssue(pid, token, now));
    assert stored.issuers == s.issuers[pid := SettingWindow(bound, begun, token)];
    assert stored.issuers - {pid} == s.issuers;
  }

  /**
   * Issuing replaces the chat's window: the previous session is gone, the new token is the window's, and its
   * session holds the given operations for the whole seconds the window had left when they were read.
   */
  lemma {:induction false} IssueReplacesWindow(
    s: State, pid: nat, context: Context, operations: set<string>, begun: real, token: Token, now: real)
    requires pid !in s.issuers && context in s.held && Lifetime(context, begun) > 0 && token !in s.used
    ensures var bound := context.(operations := operations);
      var after := Run(s, Issue(pid, context, operations, begun, token, now));
      && after.entries == WithoutPrevious(s, context.chat)[
           SessionKey(token) := Entry(bound, begun, now, now + Lifetime(context, begun) as real)]
      && after.windows == s.windows[context.chat := token]
      && after.issuers == s.issuers && after.resolvers == s.resolvers
      && (context.chat in s.windows ==> s.windows[context.chat] in after.retired)
  {
    var bound := context.(operations := operations);
    assert Lifetime(bound, begun) == Lifetime(context, begun);
    IssueRuns(s, pid, context, operations, begun, token, now);
    hide Act, Lifetime, Run, Issue;
    IssueClears(s, pid, context, operations, begun, token, now);
    IssueStores(s.(entries := WithoutPrevious(s, context.chat)), pid, bound, begun, token, now);
  }

  lemma {:induction false} IssueRuns(
    s: State, pid: nat, context: Context, operations: set<string>, begun: real, token: Token, now: real)
    ensures var step := StepIssue(pid, token, now);
      var first := Act(s, BeginIssue(pid, context, operations, begun));
      var after := Run(s, Issue(pid, context, operations, begun, token, now));
      && after == Act(Act(Act(Act(Act(first, step), step), step), step), step)
      && after.resolvers == s.resolvers
  {
    hide Act, Run;
    RunsSix(s, Issue(pid, context, operations, begun, token, now));
    IssuingLeavesResolvers(s, Issue(pid, context, operations, begun, token, now));
  }

  lemma {:induction false} IssuingLeavesResolvers(s: State, actions: seq<Action>)
    requires forall k :: 0 <= k < |actions| ==> actions[k].BeginIssue? || actions[k].StepIssue?
    ensures Run(s, actions).resolvers == s.resolvers
    decreases |actions|
  {
    hide Act;
    if actions != [] {
      IssueStepLeavesResolvers(s, actions[0]);
      IssuingLeavesResolvers(Act(s, actions[0]), actions[1..]);
    }
  }

  lemma {:induction false} IssueStepLeavesResolvers(s: State, a: Action)
    requires a.BeginIssue? || a.StepIssue?
    ensures Act(s, a).resolvers == s.resolvers
  {
    hide Lifetime;
  }

  /** A window that is prepared and issued at once is accepted for thirty seconds, and so is its session. */
  lemma {:induction false} FreshWindowLivesThirtySeconds(
    s: State, pid: nat, context: Context, operations: set<string>, token: Token, now: real)
    requires pid !in s.issuers && token !in s.used
    ensures var prepared := context.(origin := |s.expiries|, expiresAt := now + 30.0);
      var after := Run(Act(s, Prepare(context, now)), Issue(pid, prepared, operations, now, token, now));
      && SessionKey(token) in after.entries
      && after.entries[SessionKey(token)] == Entry(prepared.(operations := operations), now, now, now + 30.0)
  {
    var prepared := context.(origin := |s.expiries|, expiresAt := now + 30.0);
    var start := Act(s, Prepare(context, now));
    assert Lifetime(prepared, now) == 30;
    IssueReplacesWindow(start, pid, prepared, operations, now, token, now);
  }

  /** A confirmation is stored under its own fresh token for thirty seconds from then on. */
  lemma {:induction false} ConfirmationIsStored(s: State, context: Context, token: Token, now: real)
    requires token !in s.used && context in s.held
    ensures var after := Act(s, IssueConfirmation(context, token, now)); var key := ConfirmationKey(token);
      && key in after.entries && after.entries[key].context == context && after.entries[key].until == now + 30.0
      && (forall other :: other != key ==> (other in after.entries <==> other in s.entries))
      && (forall other :: other != key && other in s.entries ==> after.entries[other] == s.entries[other])
  {
  }

  /** A window without a whole second left is not issued again. */
  lemma ExpiredWindowIsNotIssued(s: State, pid: nat, context: Context, operations: set<string>, now: real)
    requires context.expiresAt < now + 1.0
    ensures Act(s, BeginIssue(pid, context, operations, now)) == s
  {
  }

  /** A token that leaves its window, by replacement or eviction, is retired. */
  lemma {:induction false} LeavingAWindowRetires(s: State, a: Action, token: Token)
    requires InWindow(s.windows, token) && !InWindow(Act(s, a).windows, token)
    ensures token in Act(s, a).retired
  {
    var chat :| chat in s.windows && s.windows[chat] == token;
    assert chat in Act(s, a).windows ==> Act(s, a).windows[chat] != token;
    if a.StepIssue? {
      if a.pid in s.issuers { IssuingLeaves(s, a.pid, a.token, a.now); }
      hide StepIssuer;
    } else {
      WindowsStay(s, a);
      hide Act;
    }
  }

  lemma {:induction false} WindowsStay(s: State, a: Action)
    requires !a.StepIssue?
    ensures if a.EvictWindow?
      then Act(s, a).windows == s.windows - {a.chat}
        && (a.chat in s.windows ==> s.windows[a.chat] in Act(s, a).retired)
      else Act(s, a).windows == s.windows
  {
    if a.StepResolve? && a.pid in s.resolvers { ResolvingLeaves(s, a.pid, a.now, a.identityMatches); }
    hide StepResolver, Lifetime;
  }

  // ----- Resolving -----

  /** A session request is current: stored and alive, made for this context before its expiry, on the chat's window. */
  predicate CurrentSession(s: State, r: Request, now: real) {
    && r.key.SessionKey? && r.key in s.entries && now < s.entries[r.key].until
    && Bound(s.entries[r.key].context, r) && now < s.entries[r.key].context.expiresAt
    && r.chat in s.windows && s.windows[r.chat] == r.key.token
  }

  predicate CurrentConfirmation(s: State, r: Request, now: real) {
    && r.key.ConfirmationKey? && r.key in s.entries && now < s.entries[r.key].until
    && Bound(s.entries[r.key].context, r) && now < s.entries[r.key].context.expiresAt
  }

  function ResolveAt(pid: nat, r: Request, now: real, identityMatches: bool): seq<Action> {
    var step := StepResolve(pid, now, identityMatches);
    [BeginResolve(pid, r), step, step, step, step]
  }

  /** The acceptance a current request gets, and the cache after it. */
  predicate AcceptedNow(s: State, r: Request, now: real, after: State) {
    && r.key in s.entries
    && |after.accepted| == |s.accepted| + 1 && after.accepted[..|s.accepted|] == s.accepted
    && Answers(after.accepted[|s.accepted|], r, s.entries[r.key].context, now)
    && after.entries == (if r.consume then s.entries - {r.key} else s.entries)
  }

  predicate Answers(a: Acceptance, r: Request, context: Context, now: real) {
    a.request == r && a.context == context && a.checkedAt == now && a.acceptedAt == now
  }

  predicate RefusedNow(s: State, after: State) {
    after.accepted == s.accepted && after.entries == s.entries
  }

  lemma {:induction false} SessionSteps(s: State, pid: nat, r: Request, now: real, identityMatches: bool)
    requires pid !in s.resolvers && r.key.SessionKey?
    ensures var step := StepResolve(pid, now, identityMatches);
      var read := Act(Act(s, BeginResolve(pid, r)), step);
      if r.key in s.entries && now < s.entries[r.key].until && Binds(s.entries[r.key].context, r, now)
      then
        read == s.(resolvers := s.resolvers[pid := Begun(s, r).(pc := CheckingWindow(s.entries[r.key].context, now))])
      else pid !in read.resolvers && RefusedNow(s, read)
  {
    hide Binds;
    assert Act(s, BeginResolve(pid, r)) == s.(resolvers := s.resolvers[pid := Begun(s, r)]);
  }

  lemma {:induction false} GoneResolves(s: State, pid: nat, now: real, identityMatches: bool)
    requires pid !in s.resolvers
    ensures Act(s, StepResolve(pid, now, identityMatches)) == s
  {
  }

  lemma {:induction false} WindowStep(s: State, pid: nat, r: Request, raw: Context, now: real, identityMatches: bool)
    requires pid in s.resolvers && s.resolvers[pid].request == r && s.resolvers[pid].pc == CheckingWindow(raw, now)
    ensures var next := Act(s, StepResolve(pid, now, identityMatches));
      if r.chat in s.windows && s.windows[r.chat] == r.key.token
      then next == s.(resolvers := s.resolvers[pid := s.resolvers[pid].(pc := CheckingIdentity(raw, now))])
      else pid !in next.resolvers && RefusedNow(s, next)
  {
  }

  lemma {:induction false} IdentityStep(s: State, pid: nat, r: Request, raw: Context, now: real, identityMatches: bool)
    requires pid in s.resolvers && s.resolvers[pid].request == r
    requires s.resolvers[pid].pc == CheckingIdentity(raw, now)
      || (s.resolvers[pid].pc == Confirming(raw) && Binds(raw, r, now))
    requires r.key in s.entries && s.entries[r.key].context == raw && now < s.entries[r.key].until
    ensures var step := StepResolve(pid, now, identityMatches); var after := Act(Act(s, step), step);
      && pid !in after.resolvers
      && (if identityMatches then AcceptedNow(s, r, now, after) else RefusedNow(s, after))
  {
    hide Binds;
  }

  /**
   * A session request with nobody in between is accepted exactly when it is current and user and chat are
   * confirmed; consuming it removes the session, and a refused request changes nothing.
   */
  lemma {:induction false} SessionResolvesExactly(s: State, pid: nat, r: Request, now: real, identityMatches: bool)
    requires pid !in s.resolvers && r.key.SessionKey?
    ensures var after := Run(s, ResolveAt(pid, r, now, identityMatches));
      && pid !in after.resolvers
      && (if CurrentSession(s, r, now) && identityMatches then AcceptedNow(s, r, now, after) else RefusedNow(s, after))
  {
    var step := StepResolve(pid, now, identityMatches);
    SessionSteps(s, pid, r, now, identityMatches);
    var read := Act(Act(s, BeginResolve(pid, r)), step);
    if r.key in s.entries { BindsExactly(s.entries[r.key].context, r, now); }
    RunsFive(s, ResolveAt(pid, r, now, identityMatches));
    hide Act, Binds, Bound, Run, Begun;
    if pid in read.resolvers {
      var raw := s.entries[r.key].context;
      WindowStep(read, pid, r, raw, now, identityMatches);
      var windowed := Act(read, step);
      if pid in windowed.resolvers {
        IdentityStep(windowed, pid, r, raw, now, identityMatches);
      } else {
        GoneResolves(windowed, pid, now, identityMatches);
      }
    } else {
      GoneResolves(read, pid, now, identityMatches);
    }
  }

  lemma {:induction false} ConfirmationReads(s: State, pid: nat, r: Request, now: real, identityMatches: bool)
    requires pid !in s.resolvers && r.key.ConfirmationKey?
    ensures var step := StepResolve(pid, now, identityMatches);
      var read := Act(Act(s, BeginResolve(pid, r)), step);
      if r.key in s.entries && now < s.entries[r.key].until
      then read == s.(resolvers := s.resolvers[pid := Begun(s, r).(pc := Confirming(s.entries[r.key].context))])
      else pid !in read.resolvers && RefusedNow(s, read)
  {
    hide Binds;
    assert Act(s, BeginResolve(pid, r)) == s.(resolvers := s.resolvers[pid := Begun(s, r)]);
  }

  lemma {:induction false} ConfirmationIsRefused(s: State, pid: nat, r: Request, raw: Context, now: real)
    requires pid in s.resolvers && s.resolvers[pid].request == r && s.resolvers[pid].pc == Confirming(raw)
    requires !Binds(raw, r, now)
    ensures var next := Act(s, StepResolve(pid, now, true)); pid !in next.resolvers && RefusedNow(s, next)
    ensures var next := Act(s, StepResolve(pid, now, false)); pid !in next.resolvers && RefusedNow(s, next)
  {
    hide Binds;
  }

  /** The same for a confirmation, which has no window. */
  lemma {:induction false} ConfirmationResolvesExactly(
    s: State, pid: nat, r: Request, now: real, identityMatches: bool)
    requires pid !in s.resolvers && r.key.ConfirmationKey?
    ensures var after := Run(s, ResolveAt(pid, r, now, identityMatches));
      && pid !in after.resolvers
      && (if CurrentConfirmation(s, r, now) && identityMatches then AcceptedNow(s, r, now, after)
          else RefusedNow(s, after))
  {
    var step := StepResolve(pid, now, identityMatches);
    ConfirmationReads(s, pid, r, now, identityMatches);
    var read := Act(Act(s, BeginResolve(pid, r)), step);
    if r.key in s.entries { BindsExactly(s.entries[r.key].context, r, now); }
    RunsFive(s, ResolveAt(pid, r, now, identityMatches));
    hide Act, Binds, Bound, Run, Begun;
    if pid in read.resolvers {
      var raw := s.entries[r.key].context;
      if Binds(raw, r, now) { IdentityStep(read, pid, r, raw, now, identityMatches); }
      else { ConfirmationIsRefused(read, pid, r, raw, now); }
      GoneResolves(Act(Act(read, step), step), pid, now, identityMatches);
      if !Binds(raw, r, now) { GoneResolves(Act(read, step), pid, now, identityMatches); }
    } else {
      GoneResolves(read, pid, now, identityMatches);
    }
  }

  // ----- Over runs: accepted contexts -----

  /** Accepted contexts are in somebody's hands, and consuming acceptances are counted. */
  predicate Remembered(s: State, a: Acceptance) {
    a.context in s.held && (a.request.consume ==> s.consumed[a.request.key] > 0)
  }

  predicate AllRemembered(s: State) {
    forall k :: 0 <= k < |s.accepted| ==> Remembered(s, s.accepted[k])
  }

  predicate ConsumedApart(accepted: seq<Acceptance>) {
    forall j, k :: 0 <= j < k < |accepted| && accepted[j].request.consume && accepted[k].request.consume ==>
      accepted[j].request.key != accepted[k].request.key
  }

  /** A step adds nothing, or one acceptance in somebody's hands; a consumed one was not consumed before. */
  predicate AddsAtMostOne(s: State, after: State) {
    && s.held <= after.held && (forall key :: key in s.consumed ==> after.consumed[key] >= s.consumed[key])
    && (after.accepted == s.accepted
        || (|after.accepted| == |s.accepted| + 1 && after.accepted[..|s.accepted|] == s.accepted
            && var a := after.accepted[|s.accepted|];
               Remembered(after, a) && (a.request.consume ==> s.consumed[a.request.key] == 0)))
  }

  lemma {:induction false} PoppingAdds(s: State, pid: nat, now: real, identityMatches: bool)
    requires Inv(s) && pid in s.resolvers && s.resolvers[pid].pc.Popping?
    ensures AddsAtMostOne(s, StepResolver(s, pid, s.resolvers[pid], now, identityMatches))
  {
    var key := s.resolvers[pid].request.key;
    if key in s.entries { StoredIsUnspent(s, key); }
    hide Inv;
  }

  lemma {:induction false} CheckingAdds(s: State, pid: nat, now: real, identityMatches: bool)
    requires pid in s.resolvers && !s.resolvers[pid].pc.Popping?
    ensures AddsAtMostOne(s, StepResolver(s, pid, s.resolvers[pid], now, identityMatches))
  {
    hide Binds;
  }

  lemma {:induction false} ActAdds(s: State, a: Action)
    requires Inv(s)
    ensures AddsAtMostOne(s, Act(s, a))
  {
    if a.StepResolve? && a.pid in s.resolvers {
      hide Inv, AddsAtMostOne;
      if s.resolvers[a.pid].pc.Popping? { PoppingAdds(s, a.pid, a.now, a.identityMatches); }
      else { CheckingAdds(s, a.pid, a.now, a.identityMatches); }
    } else {
      hide Inv, AddsAtMostOne;
      OthersAdd(s, a);
    }
  }

  lemma {:induction false} OthersAdd(s: State, a: Action)
    requires !(a.StepResolve? && a.pid in s.resolvers)
    ensures AddsAtMostOne(s, Act(s, a))
  {
    OthersAcceptNothing(s, a);
    hide Act, Remembered;
  }

  lemma {:induction false} OthersAcceptNothing(s: State, a: Action)
    requires !(a.StepResolve? && a.pid in s.resolvers)
    ensures Act(s, a).accepted == s.accepted && Act(s, a).consumed == s.consumed && s.held <= Act(s, a).held
  {
    if a.StepIssue? && a.pid in s.issuers { IssuingLeaves(s, a.pid, a.token, a.now); }
    hide StepIssuer, Lifetime;
  }

  lemma {:induction false} AddingKeeps(s: State, after: State)
    requires AllRemembered(s) && ConsumedApart(s.accepted) && AddsAtMostOne(s, after)
    ensures AllRemembered(after) && ConsumedApart(after.accepted)
  {
    forall k | 0 <= k < |after.accepted| ensures Remembered(after, after.accepted[k]) {
      if k < |s.accepted| { assert Remembered(s, s.accepted[k]); }
    }
    forall j, k
      | 0 <= j < k < |after.accepted| && after.accepted[j].request.consume && after.accepted[k].request.consume
      ensures after.accepted[j].request.key != after.accepted[k].request.key
    {
      assert Remembered(s, s.accepted[j]);
    }
  }

  lemma {:induction false} RunRemembers(s: State, actions: seq<Action>)
    requires Inv(s) && AllRemembered(s) && ConsumedApart(s.accepted)
    ensures AllRemembered(Run(s, actions)) && ConsumedApart(Run(s, actions).accepted)
    decreases |actions|
  {
    hide Inv, Act, AllRemembered, ConsumedApart, AddsAtMostOne;
    if actions != [] {
      ActAdds(s, actions[0]);
      AddingKeeps(s, Act(s, actions[0]));
      ActKeeps(s, actions[0]);
      RunRemembers(Act(s, actions[0]), actions[1..]);
    }
  }

  /**
   * Over every run no two accepted requests consume the same token, and whoever is accepted has the context in
   * hand, to issue it again.
   */
  lemma {:induction false} NoTokenIsConsumedTwice(actions: seq<Action>)
    ensures var s := Run(EMPTY_STATE, actions);
      && ConsumedApart(s.accepted)
      && forall k :: 0 <= k < |s.accepted| ==> s.accepted[k].context in s.held
  {
    EmptyHolds();
    RunRemembers(EMPTY_STATE, actions);
    hide Run;
    forall k | 0 <= k < |Run(EMPTY_STATE, actions).accepted|
      ensures Run(EMPTY_STATE, actions).accepted[k].context in Run(EMPTY_STATE, actions).held
    {
      assert Remembered(Run(EMPTY_STATE, actions), Run(EMPTY_STATE, actions).accepted[k]);
    }
  }

  // ----- The cache and the processes around it -----

  /** A process may stop anywhere, and the cache may drop any entry or window; nothing else changes then. */
  lemma EnvironmentTakes(s: State, pid: nat, key: Key, chat: int)
    ensures var after := Act(s, Abandon(pid));
      && pid !in after.issuers && pid !in after.resolvers
      && after == s.(issuers := after.issuers, resolvers := after.resolvers)
    ensures Act(s, EvictEntry(key)) == s.(entries := s.entries - {key})
    ensures var after := Act(s, EvictWindow(chat));
      chat !in after.windows && after == s.(windows := s.windows - {chat}, retired := after.retired)
  {
  }
}
