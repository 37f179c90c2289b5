/**
 * Settings windows and administration confirmations in one shared cache. Every cache call is one step;
 * issuers and resolvers interleave freely and the cache may drop any entry at any time.
 */
module SettingsSessions {
  import opened Wrappers

  const SETTINGS_SESSION_TTL: real := 30.0

  type Token = string

  /** Session entries and confirmation entries live under different key prefixes. */
  datatype Key = SessionKey(token: Token) | ConfirmationKey(token: Token)

  /**
   * What a window binds. `origin` names the preparation it descends from; re-issuing changes only
   * the operations.
   */
  datatype Context = Context(
    origin: nat, chat: int, messageId: int, actor: Option<int>, expiresAt: real, operations: set<string>)

  datatype Request = Request(key: Key, operation: string, actor: int, chat: int, messageId: int, consume: bool)

  /** A stored entry: when its lifetime was computed, when it was stored, and when the cache drops it. */
  datatype Entry = Entry(context: Context, begun: real, storedAt: real, until: real)

  /** `begun` is the clock reading the remaining lifetime was computed from. */
  datatype Issuer =
    | ReadingWindow(context: Context, begun: real)
    | DeletingPrevious(context: Context, begun: real, previous: Token)
    | ChoosingToken(context: Context, begun: real)
    | SettingSession(context: Context, begun: real, token: Token)
    | SettingWindow(context: Context, begun: real, token: Token)

  /**
   * `late` and `spent` remember what had already happened to the token when the resolve began, `identified`
   * whether the lookups of user and chat agreed with the context.
   */
  datatype Resolver = Resolver(request: Request, late: bool, spent: bool, identified: bool, pc: ResolverPc)

  datatype ResolverPc =
    | Reading
    | CheckingWindow(raw: Context, checkedAt: real)
    | CheckingIdentity(raw: Context, checkedAt: real)
    | Confirming(raw: Context)
    | Popping(raw: Context, checkedAt: real)

  /** `entry` is the entry a consuming resolve took out of the cache. */
  datatype Acceptance = Acceptance(
    request: Request, context: Context, late: bool, spent: bool, identified: bool, checkedAt: real, acceptedAt: real,
    entry: Option<Entry>)

  /** `issued` remembers every entry ever stored; nothing in the system reads it. */
  datatype State = State(
    entries: map<Key, Entry>,
    issued: map<Key, Entry>,
    windows: map<int, Token>,
    issuers: map<nat, Issuer>,
    resolvers: map<nat, Resolver>,
    used: set<Token>,
    expiries: seq<real>,
    held: set<Context>,
    retired: set<Token>,
    consumed: multiset<Key>,
    accepted: seq<Acceptance>)

  datatype Action =
    | Prepare(context: Context, now: real)
    | BeginIssue(pid: nat, context: Context, operations: set<string>, now: real)
    | StepIssue(pid: nat, token: Token, now: real)
    | BeginResolve(pid: nat, request: Request)
    | StepResolve(pid: nat, now: real, identityMatches: bool)
    | Abandon(pid: nat)
    | EvictEntry(key: Key)
    | EvictWindow(chat: int)
    | IssueConfirmation(context: Context, token: Token, now: real)

  const EMPTY_STATE := State(map[], map[], map[], map[], map[], {}, [], {}, {}, multiset{}, [])

  // ----- Issuing -----

  /** Whole seconds left, as the cache lifetime is given. */
  function Lifetime(context: Context, begun: real): int {
    (context.expiresAt - begun).Floor
  }

  function StepIssuer(s: State, pid: nat, i: Issuer, token: Token, now: real): State {
    match i
    case ReadingWindow(context, begun) =>
      s.(issuers := s.issuers[pid :=
        if context.chat in s.windows then DeletingPrevious(context, begun, s.windows[context.chat])
        else ChoosingToken(context, begun)])
    case DeletingPrevious(context, begun, previous) =>
      s.(entries := s.entries - {SessionKey(previous)}, issuers := s.issuers[pid := ChoosingToken(context, begun)])
    case ChoosingToken(context, begun) =>
      if token in s.used then s
      else s.(used := s.used + {token}, issuers := s.issuers[pid := SettingSession(context, begun, token)])
    case SettingSession(context, begun, chosen) =>
      var entry := Entry(context, begun, now, now + Lifetime(context, begun) as real);
      s.(entries := s.entries[SessionKey(chosen) := entry], issued := s.issued[SessionKey(chosen) := entry],
         issuers := s.issuers[pid := SettingWindow(context, begun, chosen)])
    case SettingWindow(context, _, chosen) =>
      s.(windows := s.windows[context.chat := chosen],
         retired := s.retired + (if context.chat in s.windows then {s.windows[context.chat]} else {}),
         issuers := s.issuers - {pid})
  }

  // ----- Resolving -----

  function Begun(s: State, request: Request): Resolver {
    var late := request.key.SessionKey? && request.key.token in s.retired;
    Resolver(request, late, s.consumed[request.key] > 0, false, Reading)
  }

  predicate Binds(context: Context, r: Request, now: real) {
    && now < context.expiresAt
    && (r.key.SessionKey? ==> r.operation in context.operations && context.chat == r.chat)
    && context.messageId == r.messageId
    && (context.actor.Some? ==> context.actor.value == r.actor)
  }

  function Accept(
    s: State, pid: nat, r: Resolver, context: Context, checkedAt: real, now: real, entry: Option<Entry>): State
  {
    s.(resolvers := s.resolvers - {pid},
       held := s.held + {context},
       consumed := s.consumed + (if r.request.consume then multiset{r.request.key} else multiset{}),
       accepted := s.accepted + [Acceptance(r.request, context, r.late, r.spent, r.identified, checkedAt, now, entry)])
  }

  function Reject(s: State, pid: nat): State {
    s.(resolvers := s.resolvers - {pid})
  }

  function StepResolver(s: State, pid: nat, r: Resolver, now: real, identityMatches: bool): State {
    match r.pc
    case Reading =>
      if r.request.key !in s.entries || now >= s.entries[r.request.key].until then Reject(s, pid)
      else
        var raw := s.entries[r.request.key].context;
        if r.request.key.ConfirmationKey? then s.(resolvers := s.resolvers[pid := r.(pc := Confirming(raw))])
        else if !Binds(raw, r.request, now) then Reject(s, pid)
        else s.(resolvers := s.resolvers[pid := r.(pc := CheckingWindow(raw, now))])
    case CheckingWindow(raw, checkedAt) =>
      if r.request.chat in s.windows && s.windows[r.request.chat] == r.request.key.token
      then s.(resolvers := s.resolvers[pid := r.(pc := CheckingIdentity(raw, checkedAt))])
      else Reject(s, pid)
    case CheckingIdentity(raw, checkedAt) =>
      var known := r.(identified := identityMatches);
      if !identityMatches then Reject(s, pid)
      else if r.request.consume then s.(resolvers := s.resolvers[pid := known.(pc := Popping(raw, checkedAt))])
      else Accept(s, pid, known, raw, checkedAt, now, None)
    case Confirming(raw) =>
      var known := r.(identified := identityMatches);
      if !identityMatches || !Binds(raw, r.request, now) then Reject(s, pid)
      else if r.request.consume then s.(resolvers := s.resolvers[pid := known.(pc := Popping(raw, now))])
      else Accept(s, pid, known, raw, now, now, None)
    case Popping(raw, checkedAt) =>
      var key := r.request.key;
      var popped := s.(entries := s.entries - {key});
      if key in s.entries && now < s.entries[key].until && s.entries[key].context == raw
      then Accept(popped, pid, r, raw, checkedAt, now, Some(s.entries[key]))
      else Reject(popped, pid)
  }

  // ----- One action -----

  function Act(s: State, a: Action): State {
    match a
    case Prepare(context, now) =>
      var prepared := context.(origin := |s.expiries|, expiresAt := now + SETTINGS_SESSION_TTL);
      s.(expiries := s.expiries + [prepared.expiresAt], held := s.held + {prepared})
    case BeginIssue(pid, context, operations, now) =>
      if pid in s.issuers || context !in s.held || Lifetime(context, now) <= 0 then s
      else s.(issuers := s.issuers[pid := ReadingWindow(context.(operations := operations), now)])
    case StepIssue(pid, token, now) => if pid in s.issuers then StepIssuer(s, pid, s.issuers[pid], token, now) else s
    case BeginResolve(pid, request) =>
      if pid in s.resolvers then s
      else s.(resolvers := s.resolvers[pid := Begun(s, request)])
    case StepResolve(pid, now, identityMatches) =>
      if pid in s.resolvers then StepResolver(s, pid, s.resolvers[pid], now, identityMatches) else s
    case Abandon(pid) => s.(issuers := s.issuers - {pid}, resolvers := s.resolvers - {pid})
    case EvictEntry(key) => s.(entries := s.entries - {key})
    case EvictWindow(chat) =>
      s.(windows := s.windows - {chat}, retired := s.retired + (if chat in s.windows then {s.windows[chat]} else {}))
    case IssueConfirmation(context, token, now) =>
      if token in s.used || context !in s.held then s
      else
        var begun := context.expiresAt - SETTINGS_SESSION_TTL;
        var entry := Entry(context, begun, now, now + SETTINGS_SESSION_TTL);
        s.(used := s.used + {token},
           entries := s.entries[ConfirmationKey(token) := entry], issued := s.issued[ConfirmationKey(token) := entry])
  }

  function Run(s: State, actions: seq<Action>): State
    decreases |actions|
  {
    if actions == [] then s else Run(Act(s, actions[0]), actions[1..])
  }

  // ----- Invariant -----

  /** The context descends from a preparation and still ends when that one does. */
  predicate KeepsExpiry(expiries: seq<real>, context: Context) {
    context.origin < |expiries| && context.expiresAt == expiries[context.origin]
  }

  predicate InWindow(windows: map<int, Token>, token: Token) {
    exists chat :: chat in windows && windows[chat] == token
  }

  predicate IssuerInv(s: State, i: Issuer) {
    && KeepsExpiry(s.expiries, i.context)
    && (i.SettingSession? ==>
          i.token in s.used && SessionKey(i.token) !in s.entries && s.consumed[SessionKey(i.token)] == 0)
    && (i.SettingSession? || i.SettingWindow? ==>
          i.token in s.used && i.token !in s.retired && !InWindow(s.windows, i.token))
  }

  predicate ResolverInv(s: State, r: Resolver) {
    match r.pc
    case Reading => true
    case CheckingWindow(raw, checkedAt) =>
      && KeepsExpiry(s.expiries, raw) && checkedAt < raw.expiresAt && !r.spent && r.request.key.SessionKey?
      && (r.late ==> r.request.key.token in s.retired)
    case CheckingIdentity(raw, checkedAt) =>
      && KeepsExpiry(s.expiries, raw) && checkedAt < raw.expiresAt && !r.spent && !r.late
      && r.request.key.SessionKey?
    case Confirming(raw) => KeepsExpiry(s.expiries, raw) && !r.spent && !r.late
    case Popping(raw, checkedAt) =>
      && KeepsExpiry(s.expiries, raw) && checkedAt < raw.expiresAt && !r.spent && !r.late
      && r.request.consume
  }

  predicate LateIsRetired(s: State, r: Resolver) {
    && (r.late ==> r.request.key.SessionKey? && r.request.key.token in s.retired)
    && (r.spent ==> s.consumed[r.request.key] > 0)
  }

  predicate Carries(i: Issuer, token: Token) {
    (i.SettingSession? || i.SettingWindow?) && i.token == token
  }

  /** Tokens in the hands of different issuers differ. */
  predicate OwnTokens(issuers: map<nat, Issuer>) {
    forall a, b ::
      a in issuers && b in issuers && a != b && (issuers[b].SettingSession? || issuers[b].SettingWindow?) ==>
      !Carries(issuers[a], issuers[b].token)
  }

  /** The cache drops an entry the whole seconds of its computed lifetime after it was stored. */
  predicate LivesItsLifetime(entry: Entry) {
    entry.until == entry.storedAt + Lifetime(entry.context, entry.begun) as real
  }

  predicate EntriesOk(entries: map<Key, Entry>, expiries: seq<real>, used: set<Token>, consumed: multiset<Key>) {
    forall key :: key in entries ==>
      && KeepsExpiry(expiries, entries[key].context) && key.token in used && consumed[key] == 0
      && LivesItsLifetime(entries[key])
      && (key.ConfirmationKey? ==> entries[key].begun == entries[key].context.expiresAt - SETTINGS_SESSION_TTL)
  }

  /** Each token is in at most one window, and a token that left its window is in none. */
  predicate WindowsOk(windows: map<int, Token>, used: set<Token>, retired: set<Token>) {
    && (forall chat :: chat in windows ==> windows[chat] in used && windows[chat] !in retired)
    && (forall a, b :: a in windows && b in windows && a != b ==> windows[a] != windows[b])
    && retired <= used
  }

  predicate HeldOk(held: set<Context>, expiries: seq<real>) {
    forall context :: context in held ==> KeepsExpiry(expiries, context)
  }

  predicate ConsumedOk(consumed: multiset<Key>, used: set<Token>) {
    forall key :: key in consumed ==> consumed[key] <= 1 && key.token in used
  }

  predicate AcceptedOk(accepted: seq<Acceptance>, expiries: seq<real>) {
    forall k :: 0 <= k < |accepted| ==>
      var a := accepted[k];
      && !a.late && !a.spent && KeepsExpiry(expiries, a.context) && a.checkedAt < a.context.expiresAt
      && (a.request.consume ==>
            a.entry.Some? && a.entry.value.context == a.context && a.acceptedAt < a.entry.value.until
            && LivesItsLifetime(a.entry.value))
      && (!a.request.consume && a.request.key.ConfirmationKey? ==> a.acceptedAt == a.checkedAt)
  }

  predicate SharedInv(s: State) {
    && EntriesOk(s.entries, s.expiries, s.used, s.consumed)
    && WindowsOk(s.windows, s.used, s.retired)
    && HeldOk(s.held, s.expiries)
    && ConsumedOk(s.consumed, s.used)
    && AcceptedOk(s.accepted, s.expiries)
  }

  predicate Inv(s: State) {
    && SharedInv(s) && OwnTokens(s.issuers)
    && (forall pid :: pid in s.issuers ==> IssuerInv(s, s.issuers[pid]))
    && (forall pid :: pid in s.resolvers ==> ResolverInv(s, s.resolvers[pid]) && LateIsRetired(s, s.resolvers[pid]))
  }

  /** What a step of anyone leaves valid for everyone else. */
  ghost predicate Monotone(s: State, after: State) {
    && s.expiries <= after.expiries && s.used <= after.used && s.retired <= after.retired
    && forall key :: s.consumed[key] <= after.consumed[key]
  }

  lemma ResolverStaysValid(s: State, after: State, r: Resolver)
    requires ResolverInv(s, r) && LateIsRetired(s, r) && Monotone(s, after)
    ensures ResolverInv(after, r) && LateIsRetired(after, r)
  {
  }

  lemma ResolversStayValid(s: State, after: State)
    requires Inv(s) && Monotone(s, after)
    requires forall q :: q in after.resolvers ==> q in s.resolvers && after.resolvers[q] == s.resolvers[q]
    ensures forall q :: q in after.resolvers ==>
      ResolverInv(after, after.resolvers[q]) && LateIsRetired(after, after.resolvers[q])
  {
    forall q | q in after.resolvers
      ensures ResolverInv(after, after.resolvers[q]) && LateIsRetired(after, after.resolvers[q])
    {
      ResolverStaysValid(s, after, s.resolvers[q]);
    }
  }

  /** An issuer's own facts survive whatever does not touch its token. */
  lemma IssuerStaysValid(s: State, after: State, i: Issuer)
    requires IssuerInv(s, i) && Monotone(s, after)
    requires forall token :: Carries(i, token) ==>
      && (token in after.retired ==> token in s.retired)
      && (InWindow(after.windows, token) ==> InWindow(s.windows, token))
      && (SessionKey(token) in after.entries ==> SessionKey(token) in s.entries)
      && after.consumed[SessionKey(token)] == s.consumed[SessionKey(token)]
    ensures IssuerInv(after, i)
  {
    if i.SettingSession? || i.SettingWindow? { assert Carries(i, i.token); }
  }

  /** The other issuers' facts survive a step that leaves their tokens alone. */
  lemma OtherIssuersStayValid(s: State, after: State, pid: nat)
    requires Inv(s) && Monotone(s, after)
    requires forall q :: q in after.issuers && q != pid ==> q in s.issuers && after.issuers[q] == s.issuers[q]
    requires forall q, token :: q in s.issuers && q != pid && Carries(s.issuers[q], token) ==>
      && (token in after.retired ==> token in s.retired)
      && (InWindow(after.windows, token) ==> InWindow(s.windows, token))
      && (SessionKey(token) in after.entries ==> SessionKey(token) in s.entries)
      && after.consumed[SessionKey(token)] == s.consumed[SessionKey(token)]
    ensures forall q :: q in after.issuers && q != pid ==> IssuerInv(after, after.issuers[q])
  {
    hide IssuerInv, SharedInv, OwnTokens, Monotone, Carries;
    forall q | q in after.issuers && q != pid ensures IssuerInv(after, after.issuers[q]) {
      IssuerStaysValid(s, after, s.issuers[q]);
    }
  }

  lemma IssuerReads(s: State, pid: nat, token: Token, now: real)
    requires Inv(s) && pid in s.issuers && (s.issuers[pid].ReadingWindow? || s.issuers[pid].DeletingPrevious?)
    ensures Inv(StepIssuer(s, pid, s.issuers[pid], token, now))
  {
    hide ResolverInv, LateIsRetired, WindowsOk, HeldOk, ConsumedOk, AcceptedOk, KeepsExpiry;
    var after := StepIssuer(s, pid, s.issuers[pid], token, now);
    ResolversStayValid(s, after);
    OtherIssuersStayValid(s, after, pid);
  }

  lemma IssuerChooses(s: State, pid: nat, token: Token, now: real)
    requires Inv(s) && pid in s.issuers && s.issuers[pid].ChoosingToken?
    ensures Inv(StepIssuer(s, pid, s.issuers[pid], token, now))
  {
    hide ResolverInv, LateIsRetired, HeldOk, AcceptedOk, KeepsExpiry;
    if token !in s.used {
      var after := StepIssuer(s, pid, s.issuers[pid], token, now);
      ResolversStayValid(s, after);
      OtherIssuersStayValid(s, after, pid);
      assert s.consumed[SessionKey(token)] == 0;
    }
  }

  lemma IssuerSetsSession(s: State, pid: nat, token: Token, now: real)
    requires Inv(s) && pid in s.issuers && s.issuers[pid].SettingSession?
    ensures Inv(StepIssuer(s, pid, s.issuers[pid], token, now))
  {
    hide ResolverInv, LateIsRetired, WindowsOk, HeldOk, ConsumedOk, AcceptedOk, KeepsExpiry;
    var after := StepIssuer(s, pid, s.issuers[pid], token, now);
    ResolversStayValid(s, after);
    assert Carries(s.issuers[pid], s.issuers[pid].token);
    OtherIssuersStayValid(s, after, pid);
  }

  lemma IssuerSetsWindow(s: State, pid: nat, token: Token, now: real)
    requires Inv(s) && pid in s.issuers && s.issuers[pid].SettingWindow?
    ensures Inv(StepIssuer(s, pid, s.issuers[pid], token, now))
  {
    hide ResolverInv, LateIsRetired, EntriesOk, HeldOk, ConsumedOk, AcceptedOk, KeepsExpiry;
    var i := s.issuers[pid];
    var after := StepIssuer(s, pid, i, token, now);
    ResolversStayValid(s, after);
    assert Carries(i, i.token);
    assert i.context.chat in s.windows ==> InWindow(s.windows, s.windows[i.context.chat]);
    OtherIssuersStayValid(s, after, pid);
  }

  lemma IssuerKeeps(s: State, pid: nat, token: Token, now: real)
    requires Inv(s) && pid in s.issuers
    ensures Inv(StepIssuer(s, pid, s.issuers[pid], token, now))
  {
    hide Inv;
    if s.issuers[pid].SettingSession? { IssuerSetsSession(s, pid, token, now); }
    else if s.issuers[pid].SettingWindow? { IssuerSetsWindow(s, pid, token, now); }
    else if s.issuers[pid].ChoosingToken? { IssuerChooses(s, pid, token, now); }
    else { IssuerReads(s, pid, token, now); }
  }

  /** A resolver's step leaves every issuer's token alone unless that token was already readable. */
  lemma IssuersStayValid(s: State, after: State)
    requires Inv(s) && Monotone(s, after)
    requires forall q :: q in after.issuers ==> q in s.issuers && after.issuers[q] == s.issuers[q]
    requires forall q, token :: q in s.issuers && Carries(s.issuers[q], token) ==>
      && (token in after.retired ==> token in s.retired)
      && (InWindow(after.windows, token) ==> InWindow(s.windows, token))
      && (SessionKey(token) in after.entries ==> SessionKey(token) in s.entries)
      && (s.issuers[q].SettingSession? ==> after.consumed[SessionKey(token)] == s.consumed[SessionKey(token)])
    ensures forall q :: q in after.issuers ==> IssuerInv(after, after.issuers[q])
  {
    hide SharedInv, OwnTokens;
    forall q | q in after.issuers ensures IssuerInv(after, after.issuers[q]) {
      var i := s.issuers[q];
      assert IssuerInv(s, i);
      if i.SettingSession? || i.SettingWindow? { assert Carries(i, i.token); }
    }
  }

  /** The other resolvers' facts survive any monotone step. */
  lemma OtherResolversStayValid(s: State, after: State, pid: nat)
    requires Inv(s) && Monotone(s, after)
    requires forall q :: q in after.resolvers && q != pid ==> q in s.resolvers && after.resolvers[q] == s.resolvers[q]
    ensures forall q :: q in after.resolvers && q != pid ==>
      ResolverInv(after, after.resolvers[q]) && LateIsRetired(after, after.resolvers[q])
  {
    hide ResolverInv, LateIsRetired, Monotone, SharedInv;
    forall q | q in after.resolvers && q != pid
      ensures ResolverInv(after, after.resolvers[q]) && LateIsRetired(after, after.resolvers[q])
    {
      ResolverStaysValid(s, after, s.resolvers[q]);
    }
  }

  /** A resolver that only moves on, or leaves, changes nothing for anyone else. */
  lemma Advance(s: State, pid: nat, next: Resolver)
    requires Inv(s) && ResolverInv(s, next) && LateIsRetired(s, next)
    ensures Inv(s.(resolvers := s.resolvers[pid := next]))
  {
    hide EntriesOk, WindowsOk, HeldOk, ConsumedOk, AcceptedOk, OwnTokens;
    var after := s.(resolvers := s.resolvers[pid := next]);
    forall q | q in after.issuers ensures IssuerInv(after, after.issuers[q]) {
      IssuerStaysValid(s, after, s.issuers[q]);
    }
    OtherResolversStayValid(s, after, pid);
    ResolverStaysValid(s, after, next);
  }

  lemma Leave(s: State, pid: nat)
    requires Inv(s)
    ensures Inv(Reject(s, pid))
  {
    hide EntriesOk, WindowsOk, HeldOk, ConsumedOk, AcceptedOk, OwnTokens;
    var after := Reject(s, pid);
    forall q | q in after.issuers ensures IssuerInv(after, after.issuers[q]) {
      IssuerStaysValid(s, after, s.issuers[q]);
    }
    OtherResolversStayValid(s, after, pid);
  }

  lemma ResolverReads(s: State, pid: nat, now: real, identityMatches: bool)
    requires Inv(s) && pid in s.resolvers && s.resolvers[pid].pc.Reading?
    ensures Inv(StepResolver(s, pid, s.resolvers[pid], now, identityMatches))
  {
    var r := s.resolvers[pid];
    if r.request.key !in s.entries || now >= s.entries[r.request.key].until { Leave(s, pid); }
    else if r.request.key.ConfirmationKey? { Advance(s, pid, r.(pc := Confirming(s.entries[r.request.key].context))); }
    else if !Binds(s.entries[r.request.key].context, r.request, now) { Leave(s, pid); }
    else { Advance(s, pid, r.(pc := CheckingWindow(s.entries[r.request.key].context, now))); }
  }

  lemma ResolverChecksWindow(s: State, pid: nat, now: real, identityMatches: bool)
    requires Inv(s) && pid in s.resolvers && s.resolvers[pid].pc.CheckingWindow?
    ensures Inv(StepResolver(s, pid, s.resolvers[pid], now, identityMatches))
  {
    var r := s.resolvers[pid];
    if r.request.chat in s.windows && s.windows[r.request.chat] == r.request.key.token {
      Advance(s, pid, r.(pc := CheckingIdentity(r.pc.raw, r.pc.checkedAt)));
    } else {
      Leave(s, pid);
    }
  }

  /** The entry a consuming resolve took out was still alive. */
  predicate TakenAlive(r: Resolver, context: Context, checkedAt: real, now: real, entry: Option<Entry>) {
    && (r.request.consume ==>
          entry.Some? && entry.value.context == context && now < entry.value.until && LivesItsLifetime(entry.value))
    && (!r.request.consume && r.request.key.ConfirmationKey? ==> now == checkedAt)
  }

  lemma AcceptKeepsHistory(
    s: State, pid: nat, r: Resolver, context: Context, checkedAt: real, now: real, entry: Option<Entry>)
    requires Inv(s) && KeepsExpiry(s.expiries, context) && checkedAt < context.expiresAt && !r.late && !r.spent
    requires TakenAlive(r, context, checkedAt, now, entry)
    ensures var after := Accept(s, pid, r, context, checkedAt, now, entry);
      HeldOk(after.held, after.expiries) && AcceptedOk(after.accepted, after.expiries)
  {
    hide LivesItsLifetime;
  }

  lemma ResolverChecksIdentity(s: State, pid: nat, now: real, identityMatches: bool)
    requires Inv(s) && pid in s.resolvers && s.resolvers[pid].pc.CheckingIdentity?
    ensures Inv(StepResolver(s, pid, s.resolvers[pid], now, identityMatches))
  {
    var r := s.resolvers[pid];
    if !identityMatches { Leave(s, pid); }
    else if r.request.consume { Advance(s, pid, r.(identified := true, pc := Popping(r.pc.raw, r.pc.checkedAt))); }
    else { LookedUp(s, pid, r.pc.checkedAt, now); }
  }

  lemma ResolverConfirms(s: State, pid: nat, now: real, identityMatches: bool)
    requires Inv(s) && pid in s.resolvers && s.resolvers[pid].pc.Confirming?
    ensures Inv(StepResolver(s, pid, s.resolvers[pid], now, identityMatches))
  {
    var r := s.resolvers[pid];
    if !identityMatches || !Binds(r.pc.raw, r.request, now) { Leave(s, pid); }
    else if r.request.consume { Advance(s, pid, r.(identified := true, pc := Popping(r.pc.raw, now))); }
    else { LookedUp(s, pid, now, now); }
  }

  lemma LookedUp(s: State, pid: nat, checkedAt: real, now: real)
    requires Inv(s) && pid in s.resolvers && !s.resolvers[pid].request.consume
    requires s.resolvers[pid].pc.CheckingIdentity? || s.resolvers[pid].pc.Confirming?
    requires checkedAt < s.resolvers[pid].pc.raw.expiresAt && (s.resolvers[pid].pc.Confirming? ==> checkedAt == now)
    ensures var r := s.resolvers[pid].(identified := true); Inv(Accept(s, pid, r, r.pc.raw, checkedAt, now, None))
  {
    assert ResolverInv(s, s.resolvers[pid]);
    var r := s.resolvers[pid].(identified := true);
    hide EntriesOk, WindowsOk, HeldOk, ConsumedOk, AcceptedOk, OwnTokens, KeepsExpiry;
    var after := Accept(s, pid, r, r.pc.raw, checkedAt, now, None);
    assert after.consumed == s.consumed;
    AcceptKeepsHistory(s, pid, r, r.pc.raw, checkedAt, now, None);
    OtherResolversStayValid(s, after, pid);
    IssuersStayValid(s, after);
  }

  lemma RemoveEntry(s: State, key: Key)
    requires Inv(s)
    ensures Inv(s.(entries := s.entries - {key}))
  {
    var after := s.(entries := s.entries - {key});
    assert EntriesOk(after.entries, s.expiries, s.used, s.consumed);
    hide EntriesOk, WindowsOk, HeldOk, ConsumedOk, AcceptedOk, OwnTokens, KeepsExpiry;
    ResolversStayValid(s, after);
    IssuersStayValid(s, after);
  }

  /** A stored key has never been consumed, and no issuer is about to store it. */
  lemma StoredIsUnspent(s: State, key: Key)
    requires Inv(s) && key in s.entries
    ensures s.consumed[key] == 0 && key.token in s.used && LivesItsLifetime(s.entries[key])
    ensures forall q :: q in s.issuers && s.issuers[q].SettingSession? ==> SessionKey(s.issuers[q].token) != key
  {
  }

  lemma ConsumesOnce(s: State, pid: nat, now: real, entry: Entry)
    requires Inv(s) && pid in s.resolvers && s.resolvers[pid].pc.Popping?
    requires var key := s.resolvers[pid].request.key;
      key !in s.entries && s.consumed[key] == 0 && key.token in s.used
      && forall q :: q in s.issuers && s.issuers[q].SettingSession? ==> SessionKey(s.issuers[q].token) != key
    requires TakenAlive(s.resolvers[pid], s.resolvers[pid].pc.raw, s.resolvers[pid].pc.checkedAt, now, Some(entry))
    ensures var r := s.resolvers[pid]; Inv(Accept(s, pid, r, r.pc.raw, r.pc.checkedAt, now, Some(entry)))
  {
    var r := s.resolvers[pid];
    assert ResolverInv(s, r);
    var after := Accept(s, pid, r, r.pc.raw, r.pc.checkedAt, now, Some(entry));
    AcceptKeepsHistory(s, pid, r, r.pc.raw, r.pc.checkedAt, now, Some(entry));
    assert EntriesOk(after.entries, after.expiries, after.used, after.consumed);
    assert ConsumedOk(after.consumed, after.used);
    hide EntriesOk, WindowsOk, HeldOk, ConsumedOk, AcceptedOk, OwnTokens, KeepsExpiry;
    OtherResolversStayValid(s, after, pid);
    IssuersStayValid(s, after);
  }

  lemma PoppingConsumes(s: State, pid: nat)
    requires Inv(s) && pid in s.resolvers && s.resolvers[pid].pc.Popping?
    ensures s.resolvers[pid].request.consume
  {
    assert ResolverInv(s, s.resolvers[pid]);
  }

  lemma ResolverPops(s: State, pid: nat, now: real, identityMatches: bool)
    requires Inv(s) && pid in s.resolvers && s.resolvers[pid].pc.Popping?
    ensures Inv(StepResolver(s, pid, s.resolvers[pid], now, identityMatches))
  {
    hide Inv;
    var r := s.resolvers[pid];
    var popped := s.(entries := s.entries - {r.request.key});
    RemoveEntry(s, r.request.key);
    var key := r.request.key;
    if key in s.entries && now < s.entries[key].until && s.entries[key].context == r.pc.raw {
      StoredIsUnspent(s, key);
      PoppingConsumes(s, pid);
      ConsumesOnce(popped, pid, now, s.entries[key]);
    } else {
      Leave(popped, pid);
    }
  }

  lemma ResolverKeeps(s: State, pid: nat, now: real, identityMatches: bool)
    requires Inv(s) && pid in s.resolvers
    ensures Inv(StepResolver(s, pid, s.resolvers[pid], now, identityMatches))
  {
    hide Inv;
    match s.resolvers[pid].pc {
      case Reading => ResolverReads(s, pid, now, identityMatches);
      case CheckingWindow(_, _) => ResolverChecksWindow(s, pid, now, identityMatches);
      case CheckingIdentity(_, _) => ResolverChecksIdentity(s, pid, now, identityMatches);
      case Confirming(_) => ResolverConfirms(s, pid, now, identityMatches);
      case Popping(_, _) => ResolverPops(s, pid, now, identityMatches);
    }
  }

  // ----- The other actions -----

  lemma PrepareKeeps(s: State, context: Context, now: real)
    requires Inv(s)
    ensures Inv(Act(s, Prepare(context, now)))
  {
    var after := Act(s, Prepare(context, now));
    assert EntriesOk(after.entries, after.expiries, after.used, after.consumed);
    assert HeldOk(after.held, after.expiries);
    assert AcceptedOk(after.accepted, after.expiries);
    hide EntriesOk, WindowsOk, HeldOk, ConsumedOk, AcceptedOk, OwnTokens;
    ResolversStayValid(s, after);
    IssuersStayValid(s, after);
  }

  lemma BeginIssueKeeps(s: State, pid: nat, context: Context, operations: set<string>, now: real)
    requires Inv(s)
    ensures Inv(Act(s, BeginIssue(pid, context, operations, now)))
  {
    var after := Act(s, BeginIssue(pid, context, operations, now));
    if after != s {
      assert KeepsExpiry(s.expiries, context);
      hide EntriesOk, WindowsOk, HeldOk, ConsumedOk, AcceptedOk;
      ResolversStayValid(s, after);
      OtherIssuersStayValid(s, after, pid);
    }
  }

  lemma BeginResolveKeeps(s: State, pid: nat, request: Request)
    requires Inv(s)
    ensures Inv(Act(s, BeginResolve(pid, request)))
  {
    if pid !in s.resolvers {
      Advance(s, pid, Begun(s, request));
    }
  }

  lemma AbandonKeeps(s: State, pid: nat)
    requires Inv(s)
    ensures Inv(Act(s, Abandon(pid)))
  {
    var after := Act(s, Abandon(pid));
    hide EntriesOk, WindowsOk, HeldOk, ConsumedOk, AcceptedOk;
    ResolversStayValid(s, after);
    OtherIssuersStayValid(s, after, pid);
  }

  lemma EvictWindowKeeps(s: State, chat: int)
    requires Inv(s)
    ensures Inv(Act(s, EvictWindow(chat)))
  {
    var after := Act(s, EvictWindow(chat));
    hide EntriesOk, HeldOk, ConsumedOk, AcceptedOk, OwnTokens, KeepsExpiry;
    assert chat in s.windows ==> InWindow(s.windows, s.windows[chat]);
    ResolversStayValid(s, after);
    IssuersStayValid(s, after);
  }

  lemma IssueConfirmationKeeps(s: State, context: Context, token: Token, now: real)
    requires Inv(s)
    ensures Inv(Act(s, IssueConfirmation(context, token, now)))
  {
    var after := Act(s, IssueConfirmation(context, token, now));
    if after != s {
      assert KeepsExpiry(s.expiries, context);
      assert s.consumed[ConfirmationKey(token)] == 0;
      assert EntriesOk(after.entries, after.expiries, after.used, after.consumed);
      hide EntriesOk, HeldOk, AcceptedOk, OwnTokens, KeepsExpiry, LivesItsLifetime;
      ResolversStayValid(s, after);
      IssuersStayValid(s, after);
    }
  }

  lemma ActKeeps(s: State, a: Action)
    requires Inv(s)
    ensures Inv(Act(s, a))
  {
    hide Inv;
    match a {
      case Prepare(context, now) => PrepareKeeps(s, context, now);
      case BeginIssue(pid, context, operations, now) => BeginIssueKeeps(s, pid, context, operations, now);
      case StepIssue(pid, token, now) => if pid in s.issuers { IssuerKeeps(s, pid, token, now); }
      case BeginResolve(pid, request) => BeginResolveKeeps(s, pid, request);
      case StepResolve(pid, now, identityMatches) =>
        if pid in s.resolvers { ResolverKeeps(s, pid, now, identityMatches); }
      case Abandon(pid) => AbandonKeeps(s, pid);
      case EvictEntry(key) => RemoveEntry(s, key);
      case EvictWindow(chat) => EvictWindowKeeps(s, chat);
      case IssueConfirmation(context, token, now) => IssueConfirmationKeeps(s, context, token, now);
    }
  }

  lemma {:induction false} RunKeeps(s: State, actions: seq<Action>)
    requires Inv(s)
    ensures Inv(Run(s, actions))
    decreases |actions|
  {
    hide Inv, Act;
    if actions != [] {
      ActKeeps(s, actions[0]);
      RunKeeps(Act(s, actions[0]), actions[1..]);
    }
  }

  lemma EmptyHolds()
    ensures Inv(EMPTY_STATE)
  {
  }

  // ----- What holds of every run -----

  /** Each session or confirmation token is consumed by at most one resolve, however many race for it. */
  lemma ConsumedAtMostOnce(actions: seq<Action>, key: Key)
    ensures Run(EMPTY_STATE, actions).consumed[key] <= 1
  {
    EmptyHolds();
    RunKeeps(EMPTY_STATE, actions);
  }

  /**
   * No accepted resolve began after its token was consumed, or after its window was taken over by
   * another token, and each was checked strictly before the expiry its window was first prepared with.
   */
  lemma AcceptedOnlyWhileCurrent(actions: seq<Action>, k: nat)
    requires k < |Run(EMPTY_STATE, actions).accepted|
    ensures var s := Run(EMPTY_STATE, actions); var a := s.accepted[k];
      && !a.spent && !a.late
      && a.context.origin < |s.expiries|
      && a.checkedAt < s.expiries[a.context.origin]
  {
    EmptyHolds();
    RunKeeps(EMPTY_STATE, actions);
  }

  /**
   * A consuming resolve takes its entry while the cache still holds it, so it can finish at or after the
   * original expiry only within the time its issuer spent between reading the clock and storing the entry.
   */
  lemma LateAcceptanceIsBounded(actions: seq<Action>, k: nat)
    requires k < |Run(EMPTY_STATE, actions).accepted|
    ensures var s := Run(EMPTY_STATE, actions); var a := s.accepted[k];
      a.request.consume ==>
        && a.entry.Some? && a.context.origin < |s.expiries|
        && a.acceptedAt < s.expiries[a.context.origin] + (a.entry.value.storedAt - a.entry.value.begun)
  {
    EmptyHolds();
    RunKeeps(EMPTY_STATE, actions);
  }

  /** Known when the entry is stored: its whole seconds end no later than the window they were computed for. */
  predicate Timely(entry: Entry) {
    entry.storedAt + Lifetime(entry.context, entry.begun) as real <= entry.context.expiresAt
  }

  /** Over every run, whoever consumes an entry stored in time does so before the original expiry. */
  lemma TimelyIsNeverLate(actions: seq<Action>, k: nat)
    requires k < |Run(EMPTY_STATE, actions).accepted|
    ensures var s := Run(EMPTY_STATE, actions); var a := s.accepted[k];
      a.request.consume ==>
        && a.entry.Some? && a.context.origin < |s.expiries|
        && (Timely(a.entry.value) ==> a.acceptedAt < s.expiries[a.context.origin])
  {
    EmptyHolds();
    RunKeeps(EMPTY_STATE, actions);
  }

  /** A confirmation that is only looked up is answered at its check, hence before the original expiry. */
  lemma ConfirmedLookupIsInTime(actions: seq<Action>, k: nat)
    requires k < |Run(EMPTY_STATE, actions).accepted|
    ensures var s := Run(EMPTY_STATE, actions); var a := s.accepted[k];
      !a.request.consume && a.request.key.ConfirmationKey? ==>
        a.context.origin < |s.expiries| && a.acceptedAt < s.expiries[a.context.origin]
  {
    EmptyHolds();
    RunKeeps(EMPTY_STATE, actions);
  }

  /** Re-issuing never renews a window: every context anybody holds ends with its original preparation. */
  lemma ReissueKeepsExpiry(actions: seq<Action>, context: Context)
    requires context in Run(EMPTY_STATE, actions).held
    ensures var s := Run(EMPTY_STATE, actions);
      context.origin < |s.expiries| && context.expiresAt == s.expiries[context.origin]
  {
    EmptyHolds();
    RunKeeps(EMPTY_STATE, actions);
  }

  /** A window in the cache belongs to one chat, and a token that lost its window never gets one back. */
  lemma {:induction false} RetiredForGood(actions: seq<Action>, more: seq<Action>, token: Token)
    requires token in Run(EMPTY_STATE, actions).retired
    ensures !InWindow(Run(Run(EMPTY_STATE, actions), more).windows, token)
  {
    EmptyHolds();
    RunKeeps(EMPTY_STATE, actions);
    RunKeeps(Run(EMPTY_STATE, actions), more);
    RetiredGrows(Run(EMPTY_STATE, actions), more);
  }

  lemma {:induction false} RetiredGrows(s: State, actions: seq<Action>)
    ensures s.retired <= Run(s, actions).retired
    decreases |actions|
  {
    hide Act;
    if actions != [] {
      RetiredStep(s, actions[0]);
      RetiredGrows(Act(s, actions[0]), actions[1..]);
    }
  }

  lemma RetiredStep(s: State, a: Action)
    ensures s.retired <= Act(s, a).retired
  {
    if a.StepResolve? && a.pid in s.resolvers { ResolvingLeaves(s, a.pid, a.now, a.identityMatches); }
    if a.StepIssue? && a.pid in s.issuers { IssuingLeaves(s, a.pid, a.token, a.now); }
    hide StepResolver, StepIssuer, Lifetime;
  }

  /** Resolving touches no window and no issuer. */
  lemma {:induction false} ResolvingLeaves(s: State, pid: nat, now: real, identityMatches: bool)
    requires pid in s.resolvers
    ensures var after := StepResolver(s, pid, s.resolvers[pid], now, identityMatches);
      after.windows == s.windows && after.retired == s.retired && after.issuers == s.issuers
  {
    var r := s.resolvers[pid];
    if r.pc.Popping? {
      var popped := s.(entries := s.entries - {r.request.key});
      if r.request.key in s.entries {
        AcceptingLeaves(popped, pid, r, r.pc.raw, r.pc.checkedAt, now, Some(s.entries[r.request.key]));
      }
    } else if r.pc.CheckingIdentity? {
      AcceptingLeaves(s, pid, r.(identified := identityMatches), r.pc.raw, r.pc.checkedAt, now, None);
    } else if r.pc.Confirming? {
      AcceptingLeaves(s, pid, r.(identified := identityMatches), r.pc.raw, now, now, None);
    }
    hide Binds, Accept;
  }

  lemma {:induction false} AcceptingLeaves(
    s: State, pid: nat, r: Resolver, context: Context, checkedAt: real, now: real, entry: Option<Entry>)
    ensures var after := Accept(s, pid, r, context, checkedAt, now, entry);
      after.windows == s.windows && after.retired == s.retired && after.issuers == s.issuers
  {
  }

  /** Issuing accepts nothing and consumes nothing; a window it replaces is retired. */
  lemma {:induction false} IssuingLeaves(s: State, pid: nat, token: Token, now: real)
    requires pid in s.issuers
    ensures var after := StepIssuer(s, pid, s.issuers[pid], token, now);
      && after.accepted == s.accepted && after.consumed == s.consumed && after.held == s.held
      && s.retired <= after.retired
      && (after.windows == s.windows
          || (s.issuers[pid].SettingWindow? && var chat := s.issuers[pid].context.chat;
              && after.windows == s.windows[chat := s.issuers[pid].token]
              && (chat in s.windows ==> s.windows[chat] in after.retired)))
  {
    hide Lifetime;
  }

  // ----- Exactly when a token can be accepted after its expiry -----

  function Clock(a: Action): Option<real> {
    match a
    case Prepare(_, now) => Some(now)
    case BeginIssue(_, _, _, now) => Some(now)
    case StepIssue(_, _, now) => Some(now)
    case StepResolve(_, now, _) => Some(now)
    case IssueConfirmation(_, _, now) => Some(now)
    case _ => None
  }

  /** The clock is read at `t` or later and never runs backwards. */
  predicate Ordered(t: real, actions: seq<Action>)
    decreases |actions|
  {
    if actions == [] then true
    else if Clock(actions[0]).None? then Ordered(t, actions[1..])
    else t <= Clock(actions[0]).value && Ordered(Clock(actions[0]).value, actions[1..])
  }

  /** The key is in the cache; a session is also its chat's current window and permits some operation. */
  predicate Live(s: State, key: Key) {
    && key in s.entries
    && var context := s.entries[key].context;
      key.SessionKey? ==>
        context.operations != {} && context.chat in s.windows && s.windows[context.chat] == key.token
  }

  /** From the `from`th acceptance on, one of this key finished at `u` or later. */
  ghost predicate AcceptedFrom(s: State, key: Key, consume: bool, from: nat, u: real) {
    exists k :: from <= k < |s.accepted|
      && s.accepted[k].request.key == key && s.accepted[k].request.consume == consume && s.accepted[k].acceptedAt >= u
  }

  /** Whatever consumes this key takes this entry. */
  ghost predicate OnlyEntry(s: State, key: Key, entry: Entry, from: nat) {
    && key.token in s.used
    && (forall pid :: pid in s.issuers && s.issuers[pid].SettingSession? ==> SessionKey(s.issuers[pid].token) != key)
    && (key in s.entries ==> s.entries[key] == entry)
    && from <= |s.accepted|
    && forall k :: from <= k < |s.accepted| && s.accepted[k].request.key == key && s.accepted[k].request.consume ==>
      s.accepted[k].entry == Some(entry)
  }

  /** A consuming acceptance names the stored entry of its key. */
  predicate Taken(s: State, r: Resolver, a: Acceptance) {
    && a.request == r.request
    && (r.request.consume ==> r.request.key in s.entries && a.entry == Some(s.entries[r.request.key]))
  }

  /** What one resolver's step does to issuers, entries and acceptances. */
  predicate Taking(s: State, r: Resolver, after: State) {
    && after.issuers == s.issuers && after.used == s.used
    && (after.entries == s.entries || after.entries == s.entries - {r.request.key})
    && (after.accepted == s.accepted
        || (|after.accepted| == |s.accepted| + 1 && after.accepted[..|s.accepted|] == s.accepted
            && Taken(s, r, after.accepted[|s.accepted|])))
  }

  lemma {:induction false} PopTakes(s: State, pid: nat, now: real, identityMatches: bool)
    requires pid in s.resolvers && s.resolvers[pid].pc.Popping?
    ensures Taking(s, s.resolvers[pid], StepResolver(s, pid, s.resolvers[pid], now, identityMatches))
  {
  }

  lemma {:induction false} ReadsTake(s: State, pid: nat, now: real, identityMatches: bool)
    requires pid in s.resolvers && (s.resolvers[pid].pc.Reading? || s.resolvers[pid].pc.CheckingWindow?)
    ensures Taking(s, s.resolvers[pid], StepResolver(s, pid, s.resolvers[pid], now, identityMatches))
  {
    hide Binds;
  }

  /** A lookup accepted without taking an entry. */
  lemma {:induction false} LookupTakes(s: State, pid: nat, r: Resolver, context: Context, checkedAt: real, now: real)
    requires !r.request.consume
    ensures Taking(s, r, Accept(s, pid, r, context, checkedAt, now, None))
  {
  }

  lemma {:induction false} ChecksTake(s: State, pid: nat, now: real, identityMatches: bool)
    requires pid in s.resolvers && (s.resolvers[pid].pc.CheckingIdentity? || s.resolvers[pid].pc.Confirming?)
    ensures Taking(s, s.resolvers[pid], StepResolver(s, pid, s.resolvers[pid], now, identityMatches))
  {
    var r := s.resolvers[pid];
    var known := r.(identified := identityMatches);
    if !r.request.consume {
      LookupTakes(s, pid, known, r.pc.raw, if r.pc.Confirming? then now else r.pc.checkedAt, now);
      assert forall after :: Taking(s, known, after) ==> Taking(s, r, after);
    }
    hide Binds, Accept;
  }

  lemma OnlyEntryStep(s: State, a: Action, key: Key, entry: Entry, from: nat)
    requires OnlyEntry(s, key, entry, from)
    ensures OnlyEntry(Act(s, a), key, entry, from)
  {
    if a.StepResolve? {
      if a.pid in s.resolvers { OnlyEntryResolves(s, a.pid, a.now, a.identityMatches, key, entry, from); }
    } else if a.StepIssue? {
      if a.pid in s.issuers { OnlyEntryIssues(s, a.pid, a.token, a.now, key, entry, from); }
    } else {
      OnlyEntryOtherwise(s, a, key, entry, from);
    }
  }

  lemma OnlyEntryIssues(s: State, pid: nat, token: Token, now: real, key: Key, entry: Entry, from: nat)
    requires OnlyEntry(s, key, entry, from) && pid in s.issuers
    ensures OnlyEntry(StepIssuer(s, pid, s.issuers[pid], token, now), key, entry, from)
  {
    hide Lifetime;
  }

  lemma OnlyEntryOtherwise(s: State, a: Action, key: Key, entry: Entry, from: nat)
    requires OnlyEntry(s, key, entry, from) && !a.StepResolve? && !a.StepIssue?
    ensures OnlyEntry(Act(s, a), key, entry, from)
  {
    hide Lifetime;
  }

  lemma OnlyEntryResolves(s: State, pid: nat, now: real, identityMatches: bool, key: Key, entry: Entry, from: nat)
    requires OnlyEntry(s, key, entry, from) && pid in s.resolvers
    ensures OnlyEntry(StepResolver(s, pid, s.resolvers[pid], now, identityMatches), key, entry, from)
  {
    if s.resolvers[pid].pc.Popping? { PopTakes(s, pid, now, identityMatches); }
    else if s.resolvers[pid].pc.Reading? || s.resolvers[pid].pc.CheckingWindow? {
      ReadsTake(s, pid, now, identityMatches);
    } else { ChecksTake(s, pid, now, identityMatches); }
    hide StepResolver;
  }

  lemma {:induction false} OnlyEntryRun(s: State, actions: seq<Action>, key: Key, entry: Entry, from: nat)
    requires OnlyEntry(s, key, entry, from)
    ensures OnlyEntry(Run(s, actions), key, entry, from)
    decreases |actions|
  {
    hide OnlyEntry, Act;
    if actions != [] {
      OnlyEntryStep(s, actions[0], key, entry, from);
      OnlyEntryRun(Act(s, actions[0]), actions[1..], key, entry, from);
    }
  }

  /** An entry stored in time is consumed before its expiry in every continuation, if at all. */
  lemma {:induction false} TimelyStaysInTime(s: State, more: seq<Action>, key: Key)
    requires Inv(s) && key in s.entries && Timely(s.entries[key])
    ensures !AcceptedFrom(Run(s, more), key, true, |s.accepted|, s.entries[key].context.expiresAt)
  {
    var entry := s.entries[key];
    StoredIsUnspent(s, key);
    OnlyEntryRun(s, more, key, entry, |s.accepted|);
    RunKeeps(s, more);
    var after := Run(s, more);
    forall k | |s.accepted| <= k < |after.accepted|
      && after.accepted[k].request.key == key && after.accepted[k].request.consume
      ensures after.accepted[k].acceptedAt < entry.context.expiresAt
    {
      assert after.accepted[k].entry == Some(entry);
    }
  }

  lemma {:induction false} FreshPid(pids: set<nat>) returns (p: nat)
    ensures forall q :: q in pids ==> q < p
  {
    p := 0;
    if pids != {} {
      var q :| q in pids;
      var rest := FreshPid(pids - {q});
      assert forall o :: o in pids ==> o == q || o in pids - {q};
      p := if rest > q then rest else q + 1;
    }
  }

  /** One resolve: read at `t`, checked at `t` and `v`, finished at `u` if not before. */
  function Resolve(pid: nat, r: Request, t: real, v: real, u: real): seq<Action> {
    [BeginResolve(pid, r), StepResolve(pid, t, true), StepResolve(pid, t, true), StepResolve(pid, v, true),
     StepResolve(pid, u, true)]
  }

  lemma {:induction false} ResolveIsOrdered(pid: nat, r: Request, t: real, v: real, u: real)
    requires t <= v <= u
    ensures Ordered(t, Resolve(pid, r, t, v, u))
  {
    var all := Resolve(pid, r, t, v, u);
    assert Ordered(v, all[4..]);
    assert all[3..][1..] == all[4..];
    assert Ordered(t, all[3..]);
    assert all[2..][1..] == all[3..];
    assert Ordered(t, all[2..]);
    assert all[1..][1..] == all[2..];
    assert Ordered(t, all[1..]);
  }

  /** The request that the live entry was made for. */
  function Holder(context: Context, key: Key, operation: string, consume: bool): Request {
    Request(key, operation, if context.actor.Some? then context.actor.value else 0,
            context.chat, context.messageId, consume)
  }

  /** State `s` with one more resolver at `pc`. */
  function At(s: State, pid: nat, r: Request, pc: ResolverPc): State {
    s.(resolvers := s.resolvers[pid := Begun(s, r).(identified := pc.Popping?, pc := pc)])
  }

  lemma {:induction false} ReadsLiveEntry(s: State, pid: nat, key: Key, operation: string, consume: bool, t: real)
    requires Live(s, key) && pid !in s.resolvers && (key.SessionKey? ==> operation in s.entries[key].context.operations)
    requires t < s.entries[key].context.expiresAt && t < s.entries[key].until
    ensures var context := s.entries[key].context; var r := Holder(context, key, operation, consume);
      Act(Act(s, BeginResolve(pid, r)), StepResolve(pid, t, true))
      == At(s, pid, r, if key.SessionKey? then CheckingWindow(context, t) else Confirming(context))
  {
    var context := s.entries[key].context;
    var r := Holder(context, key, operation, consume);
    assert Act(s, BeginResolve(pid, r)) == At(s, pid, r, Reading);
    assert Binds(context, r, t);
  }

  lemma {:induction false} SessionIsChecked(
    s: State, pid: nat, key: Key, operation: string, consume: bool, t: real, v: real)
    requires Live(s, key) && key.SessionKey?
    ensures var context := s.entries[key].context; var r := Holder(context, key, operation, consume);
      && Act(At(s, pid, r, CheckingWindow(context, t)), StepResolve(pid, t, true))
        == At(s, pid, r, CheckingIdentity(context, t))
      && (consume ==>
            Act(At(s, pid, r, CheckingIdentity(context, t)), StepResolve(pid, v, true))
            == At(s, pid, r, Popping(context, t)))
  {
  }

  lemma {:induction false} SessionIsLookedUp(s: State, pid: nat, key: Key, operation: string, t: real, u: real)
    requires key in s.entries
    ensures var context := s.entries[key].context; var r := Holder(context, key, operation, false);
      var before := At(s, pid, r, CheckingIdentity(context, t));
      var after := Act(before, StepResolve(pid, u, true));
      && Act(after, StepResolve(pid, u, true)) == after
      && AcceptedFrom(after, key, false, |s.accepted|, u)
  {
    var context := s.entries[key].context;
    var r := Holder(context, key, operation, false);
    var after := Act(At(s, pid, r, CheckingIdentity(context, t)), StepResolve(pid, u, true));
    assert after.accepted[|s.accepted|].acceptedAt == u && |after.accepted| == |s.accepted| + 1;
  }

  lemma {:induction false} ConfirmationIsChecked(s: State, pid: nat, key: Key, operation: string, t: real)
    requires key in s.entries && key.ConfirmationKey? && t < s.entries[key].context.expiresAt
    ensures var context := s.entries[key].context; var r := Holder(context, key, operation, true);
      Act(At(s, pid, r, Confirming(context)), StepResolve(pid, t, true)) == At(s, pid, r, Popping(context, t))
  {
    var context := s.entries[key].context;
    assert Binds(context, Holder(context, key, operation, true), t);
  }

  lemma {:induction false} PopsEntry(s: State, pid: nat, key: Key, operation: string, t: real, u: real)
    requires key in s.entries && u < s.entries[key].until
    ensures var context := s.entries[key].context; var r := Holder(context, key, operation, true);
      var after := Act(At(s, pid, r, Popping(context, t)), StepResolve(pid, u, true));
      && Act(after, StepResolve(pid, u, true)) == after
      && AcceptedFrom(after, key, true, |s.accepted|, u)
  {
    var context := s.entries[key].context;
    var r := Holder(context, key, operation, true);
    var after := Act(At(s, pid, r, Popping(context, t)), StepResolve(pid, u, true));
    assert after.accepted[|s.accepted|].acceptedAt == u && |after.accepted| == |s.accepted| + 1;
  }

  /** A live entry that outlives its expiry is consumed there by a resolve that was checked before. */
  lemma {:induction false} UntimelyCanBeLate(s: State, key: Key, t: real)
    requires Inv(s) && Live(s, key) && t < s.entries[key].context.expiresAt && !Timely(s.entries[key])
    ensures exists more ::
      && Ordered(t, more)
      && AcceptedFrom(Run(s, more), key, true, |s.accepted|, s.entries[key].context.expiresAt)
  {
    StoredIsUnspent(s, key);
    hide Inv;
    var context := s.entries[key].context;
    var u := context.expiresAt;
    var pid := FreshPid(s.resolvers.Keys);
    var operation := "";
    if key.SessionKey? { operation :| operation in context.operations; }
    var r := Holder(context, key, operation, true);
    var v := if key.SessionKey? then t else u;
    var all := Resolve(pid, r, t, v, u);
    ReadsLiveEntry(s, pid, key, operation, true, t);
    if key.SessionKey? { SessionIsChecked(s, pid, key, operation, true, t, v); }
    else { ConfirmationIsChecked(s, pid, key, operation, t); }
    PopsEntry(s, pid, key, operation, t, u);
    hide Act, AcceptedFrom, At;
    ResolveIsOrdered(pid, r, t, v, u);
    RunsFive(s, all);
  }

  /**
   * Some continuation consumes a live token at or after its expiry if and only if its entry was stored so late
   * that the whole seconds it was given end after the expiry; for a confirmation these are thirty.
   */
  lemma {:induction false} LateExactlyWhenStoredLate(before: seq<Action>, key: Key, t: real)
    requires var s := Run(EMPTY_STATE, before); Live(s, key) && t < s.entries[key].context.expiresAt
    ensures var s := Run(EMPTY_STATE, before); var entry := s.entries[key];
      (exists more :: Ordered(t, more) && AcceptedFrom(Run(s, more), key, true, |s.accepted|, entry.context.expiresAt))
      <==> entry.storedAt + Lifetime(entry.context, entry.begun) as real > entry.context.expiresAt
    ensures var entry := Run(EMPTY_STATE, before).entries[key];
      key.ConfirmationKey? ==> Lifetime(entry.context, entry.begun) == 30
  {
    EmptyHolds();
    RunKeeps(EMPTY_STATE, before);
    var s := Run(EMPTY_STATE, before);
    var entry := s.entries[key];
    assert EntriesOk(s.entries, s.expiries, s.used, s.consumed);
    hide Run, Inv, AcceptedFrom;
    if Timely(entry) {
      forall more ensures !AcceptedFrom(Run(s, more), key, true, |s.accepted|, entry.context.expiresAt) {
        TimelyStaysInTime(s, more, key);
      }
    } else {
      UntimelyCanBeLate(s, key, t);
    }
  }

  /** A session that is looked up without being consumed has no bound at all: its answer can come at any later time. */
  lemma {:induction false} LookupsHaveNoBound(before: seq<Action>, key: Key, t: real, u: real)
    requires Live(Run(EMPTY_STATE, before), key) && key.SessionKey?
    requires var entry := Run(EMPTY_STATE, before).entries[key]; t < entry.context.expiresAt && t < entry.until
    requires t <= u
    ensures var s := Run(EMPTY_STATE, before);
      exists more :: Ordered(t, more) && AcceptedFrom(Run(s, more), key, false, |s.accepted|, u)
  {
    var s := Run(EMPTY_STATE, before);
    var context := s.entries[key].context;
    var pid := FreshPid(s.resolvers.Keys);
    var operation :| operation in context.operations;
    var r := Holder(context, key, operation, false);
    ReadsLiveEntry(s, pid, key, operation, false, t);
    SessionIsChecked(s, pid, key, operation, false, t, t);
    SessionIsLookedUp(s, pid, key, operation, t, u);
    hide Act, AcceptedFrom, At;
    ResolveIsOrdered(pid, r, t, u, u);
    RunsFive(s, Resolve(pid, r, t, u, u));
  }

  // ----- A late acceptance -----

  lemma {:induction false} RunSnoc(s: State, actions: seq<Action>, a: Action)
    ensures Run(s, actions + [a]) == Act(Run(s, actions), a)
    decreases |actions|
  {
    hide Act;
    if actions == [] {
      assert [] + [a] == [a];
      assert Run(s, [a]) == Run(Act(s, a), []);
    } else {
      assert (actions + [a])[1..] == actions[1..] + [a];
      RunSnoc(Act(s, actions[0]), actions[1..], a);
    }
  }

  /** A window prepared at time 0 whose token was stored a second after its lifetime was computed. */
  function StoredLate(): State {
    var context := Context(0, 5, 1, None, 30.0, {"open"});
    State(
      map[SessionKey("t") := Entry(context, 0.0, 1.0, 31.0)], map[SessionKey("t") := Entry(context, 0.0, 1.0, 31.0)],
      map[5 := "t"], map[], map[], {"t"}, [30.0],
      {context.(operations := {})}, {}, multiset{}, [])
  }

  const OPEN_REQUEST := Request(SessionKey("t"), "open", 9, 5, 1, true)

  function IssueActions(): seq<Action> {
    [Prepare(Context(0, 5, 1, None, 0.0, {}), 0.0),
     BeginIssue(1, Context(0, 5, 1, None, 30.0, {}), {"open"}, 0.0),
     StepIssue(1, "t", 0.0), StepIssue(1, "t", 0.0), StepIssue(1, "t", 1.0), StepIssue(1, "t", 1.0)]
  }

  function ResolveActions(): seq<Action> {
    [BeginResolve(1, OPEN_REQUEST), StepResolve(1, 29.5, true), StepResolve(1, 29.5, true), StepResolve(1, 29.5, true),
     StepResolve(1, 30.5, true)]
  }

  lemma {:induction false} IssuesLate()
    ensures Run(EMPTY_STATE, IssueActions()) == StoredLate()
  {
    var all := IssueActions();
    var plain := Context(0, 5, 1, None, 30.0, {});
    var context := plain.(operations := {"open"});
    var s1 := Act(EMPTY_STATE, all[0]);
    assert s1 == EMPTY_STATE.(expiries := [30.0], held := {plain});
    var s2 := Act(s1, all[1]);
    assert s2 == s1.(issuers := map[1 := ReadingWindow(context, 0.0)]);
    var s3 := Act(s2, all[2]);
    assert s3 == s1.(issuers := map[1 := ChoosingToken(context, 0.0)]);
    var s4 := Act(s3, all[3]);
    assert s4 == s1.(used := {"t"}, issuers := map[1 := SettingSession(context, 0.0, "t")]);
    var s5 := Act(s4, all[4]);
    assert s5 == s4.(
      entries := map[SessionKey("t") := Entry(context, 0.0, 1.0, 31.0)],
      issued := map[SessionKey("t") := Entry(context, 0.0, 1.0, 31.0)],
      issuers := map[1 := SettingWindow(context, 0.0, "t")]);
    assert Act(s5, all[5]) == StoredLate();
    RunsSix(EMPTY_STATE, all);
  }

  lemma {:induction false} RunsSix(s: State, all: seq<Action>)
    requires |all| == 6
    ensures Run(s, all) == Act(Act(Act(Act(Act(Act(s, all[0]), all[1]), all[2]), all[3]), all[4]), all[5])
  {
    hide Act, Run;
    RunsFive(s, all[..5]);
    RunSnoc(s, all[..5], all[5]);
    assert all == all[..5] + [all[5]];
  }

  lemma {:induction false} RunsFive(s: State, all: seq<Action>)
    requires |all| == 5
    ensures Run(s, all) == Act(Act(Act(Act(Act(s, all[0]), all[1]), all[2]), all[3]), all[4])
  {
    hide Act;
    assert Run(s, []) == s;
    hide Run;
    RunSnoc(s, [], all[0]);
    RunSnoc(s, [all[0]], all[1]);
    RunSnoc(s, [all[0], all[1]], all[2]);
    RunSnoc(s, [all[0], all[1], all[2]], all[3]);
    RunSnoc(s, [all[0], all[1], all[2], all[3]], all[4]);
    assert [] + [all[0]] == [all[0]];
    assert [all[0]] + [all[1]] == [all[0], all[1]];
    assert [all[0], all[1]] + [all[2]] == [all[0], all[1], all[2]];
    assert [all[0], all[1], all[2]] + [all[3]] == [all[0], all[1], all[2], all[3]];
    assert [all[0], all[1], all[2], all[3]] + [all[4]] == all;
  }

  function Resolving(pc: ResolverPc): State {
    StoredLate().(resolvers := map[1 := Resolver(OPEN_REQUEST, false, false, pc.Popping?, pc)])
  }

  function LateContext(): Context {
    Context(0, 5, 1, None, 30.0, {"open"})
  }

  lemma {:induction false} ChecksInTime()
    ensures Act(StoredLate(), ResolveActions()[0]) == Resolving(Reading)
    ensures Act(Resolving(Reading), ResolveActions()[1]) == Resolving(CheckingWindow(LateContext(), 29.5))
  {
    assert Binds(LateContext(), OPEN_REQUEST, 29.5);
  }

  lemma {:induction false} PassesChecks()
    ensures Act(Resolving(CheckingWindow(LateContext(), 29.5)), ResolveActions()[2])
      == Resolving(CheckingIdentity(LateContext(), 29.5))
    ensures Act(Resolving(CheckingIdentity(LateContext(), 29.5)), ResolveActions()[3])
      == Resolving(Popping(LateContext(), 29.5))
  {
  }

  lemma {:induction false} PopsLate()
    ensures var s := Act(Resolving(Popping(LateContext(), 29.5)), ResolveActions()[4]);
      && s.expiries == [30.0]
      && s.accepted == [Acceptance(OPEN_REQUEST, LateContext(), false, false, true, 29.5, 30.5,
                                   Some(Entry(LateContext(), 0.0, 1.0, 31.0)))]
  {
  }

  /** "No token is accepted at or after its expiry" is false: this one is, half a second late. */
  lemma {:induction false} LateAcceptanceCanHappen()
    ensures var s := Run(Run(EMPTY_STATE, IssueActions()), ResolveActions());
      && |s.accepted| == 1 && s.accepted[0].request.consume
      && s.expiries == [30.0] && s.accepted[0].acceptedAt == 30.5 && s.accepted[0].checkedAt == 29.5
  {
    hide Act, Run, StoredLate;
    IssuesLate();
    ChecksInTime();
    PassesChecks();
    PopsLate();
    RunsFive(StoredLate(), ResolveActions());
  }
}
