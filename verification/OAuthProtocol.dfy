/** The OAuth request handlers as a step machine.  A request is a program counter; each
    step performs one atomic store operation or one local decision, so a run is any
    interleaving of any number of requests in any number of processes.

    The store operations have the grain of the DynamoDB backend (a two-key read, a two-key
    conditional update, a family revocation item by item).  A single SQL statement is the
    special case in which those steps happen next to each other. */
module OAuthProtocol {
  import opened Options
  import opened TokenStore

  const REFRESH_TTL := 2592000
  const CODE_TTL := 60.0
  const LOGIN_TTL := 600

  /** What an authorization request asks a code for. */
  datatype Ask = Ask(client: string, redirect: string, challenge: Challenge)

  /** A login-state token signed by `authorize` and presented again to the callback. */
  datatype Login = Login(ask: Ask, expires: int)

  /** What was known of an authorization request when it was approved. */
  datatype Approval = Approval(ask: Ask, login: Option<Login>, identity: bool, at: real)

  /** The code exchange that founded a token family. */
  datatype Birth = Birth(code: string, request: nat, client: string, redirect: string,
                         verifier: string, at: real)

  datatype Pc =
    // GET /oauth/authorize and its callback
    | AuthorizeClient(ask: Ask)
    | CallbackClient(login: Login)
    | AuthorizeIssue(approval: Approval)
    // POST /oauth/token, grant authorization_code
    | ExchangePop(code: string, redirect: string, client: string, verifier: string)
    | ExchangeCheck(code: string, found: Code, redirect: string, client: string, verifier: string)
    | ExchangeIssue(birth: Birth)
    // POST /oauth/token, grant refresh_token
    | RefreshRead(t: Token, client: string)
    | RefreshReadPlain(t: Token, client: string)
    | RefreshCheck(t: Token, client: string, key: Token, row: Row)
    | RefreshFlip(t: Token, client: string, key: Token, row: Row)
    | RefreshFlipPlain(t: Token, client: string, key: Token, row: Row)
    | RefreshIssue(key: Token, client: string, family: string)
    | FamilyRevoke(key: Token, family: string)
    // POST /oauth/revoke
    | RevokeRead(t: Token)
    | RevokeReadPlain(t: Token)
    | RevokeFlip(t: Token)
    | RevokeFlipPlain(t: Token)
    | Done(ok: bool)
  {
    predicate Starting() {
      AuthorizeClient? || CallbackClient? || ExchangePop? || RefreshRead? || RevokeRead?
    }
  }

  /** What has happened so far.  `legacy` holds the texts of rows stored before digests,
      `oldFamilies` their families, `drawn` every random value; `issued`, `grants` and
      `popped` are the codes ever stored, the approval each came from and the request that
      took each; `births`, `chains` and
      `parents` record how each family began, its rows in order, and which row each
      rotation replaced. */
  datatype Log = Log(
    legacy: set<string>, oldFamilies: set<string>, drawn: set<string>,
    asked: set<Ask>, approved: set<Approval>, logins: set<Login>,
    issued: map<string, Code>, grants: map<string, Approval>, popped: map<string, nat>,
    births: map<string, Birth>, chains: map<string, seq<Token>>, parents: map<Token, Token>)

  /** The shared store, the clock, the requests and the record. */
  datatype State = State(store: Store, now: real, gated: bool, reqs: map<nat, Pc>, log: Log)

  datatype Step =
    | Tick(to: real)
    | Register(name: string, redirects: seq<string>, draw: string)
    | Begin(id: nat, pc: Pc)
    | Advance(id: nat, draw: string, draw2: string, identityOk: bool)
    | RevokeMember(id: nat, key: Token)

  /** Random values never collide with any value drawn before. */
  predicate Fresh(s: State, x: string) {
    x != "" && x !in s.log.drawn
  }

  function At(s: State, id: nat, pc: Pc): State {
    s.(reqs := s.reqs[id := pc])
  }

  /** `redirect_uri in client.redirect_uris` for a client that exists. */
  predicate Registered(s: Store, ask: Ask) {
    ask.client in s.clients && ask.redirect in s.clients[ask.client].redirects
  }

  function AskOf(c: Code): Ask { Ask(c.client, c.redirect, c.challenge) }

  /** A step that is not enabled changes nothing. */
  function Next(s: State, step: Step): State {
    match step
    case Tick(to) => if s.now <= to then s.(now := to) else s
    case Register(name, redirects, draw) => RegisterStep(s, name, redirects, draw)
    case Begin(id, pc) => if id !in s.reqs && pc.Starting() then At(s, id, pc) else s
    case Advance(id, draw, draw2, identityOk) =>
      if id in s.reqs then AdvanceStep(s, id, draw, draw2, identityOk) else s
    case RevokeMember(id, key) => MemberStep(s, id, key)
  }

  function AdvanceStep(s: State, id: nat, draw: string, draw2: string, identityOk: bool): State
    requires id in s.reqs
  {
    match s.reqs[id]
    case AuthorizeClient(_) => AuthorizeStep(s, id, identityOk)
    case CallbackClient(_) => AuthorizeStep(s, id, identityOk)
    case AuthorizeIssue(_) => CodeStep(s, id, draw)
    case ExchangePop(_, _, _, _) => PopStep(s, id)
    case ExchangeCheck(_, _, _, _, _) => At(s, id, Checked(s.reqs[id], id, s.now))
    case ExchangeIssue(_) => FoundStep(s, id, draw, draw2)
    case RefreshIssue(_, _, _) => RotateStep(s, id, draw)
    case _ => RefreshStep(s, id)
  }

  function RegisterStep(s: State, name: string, redirects: seq<string>, draw: string): State {
    if !Fresh(s, draw) then s
    else s.(store := PutClient(s.store, draw, Client(name, redirects, s.now.Floor)),
            log := s.log.(drawn := s.log.drawn + {draw}))
  }

  /** One item update of a family revocation. */
  function MemberStep(s: State, id: nat, key: Token): State {
    if id in s.reqs && s.reqs[id].FamilyRevoke? && s.reqs[id].family != ""
       && key in s.store.rows && s.store.rows[key].family == s.reqs[id].family
    then s.(store := Flip(s.store, key))
    else s
  }

  /** The client check of `authorize`, and of the callback after the identity provider.
      A gated deployment issues a code only from the callback. */
  function AuthorizeStep(s: State, id: nat, identityOk: bool): State
    requires id in s.reqs && (s.reqs[id].AuthorizeClient? || s.reqs[id].CallbackClient?)
  {
    match s.reqs[id]
    case AuthorizeClient(ask) =>
      if !Registered(s.store, ask) then At(s, id, Done(false))
      else if s.gated then
        At(s, id, Done(true)).(log := s.log.(
          asked := s.log.asked + {ask},
          logins := s.log.logins + {Login(ask, s.now.Floor + LOGIN_TTL)}))
      else
        var a := Approval(ask, None, false, s.now);
        At(s, id, AuthorizeIssue(a)).(log := s.log.(
          asked := s.log.asked + {ask}, approved := s.log.approved + {a}))
    case CallbackClient(login) =>
      // signature and expiry, then the client binding again, then the identity provider
      if !s.gated || login !in s.log.logins || login.expires as real <= s.now then At(s, id, Done(false))
      else if !Registered(s.store, login.ask) || !identityOk then At(s, id, Done(false))
      else
        var a := Approval(login.ask, Some(login), identityOk, s.now);
        At(s, id, AuthorizeIssue(a)).(log := s.log.(approved := s.log.approved + {a}))
  }

  function CodeStep(s: State, id: nat, draw: string): State
    requires id in s.reqs && s.reqs[id].AuthorizeIssue?
  {
    if !Fresh(s, draw) then s
    else
      var a := s.reqs[id].approval;
      var ask := a.ask;
      var c := Code(ask.client, ask.challenge, ask.redirect, s.now + CODE_TTL);
      At(s, id, Done(true)).(
        store := PutCode(s.store, draw, c),
        log := s.log.(
          drawn := s.log.drawn + {draw}, issued := s.log.issued[draw := c], grants := s.log.grants[draw := a]))
  }

  /** The code is deleted before anything about it is checked. */
  function PopStep(s: State, id: nat): State
    requires id in s.reqs && s.reqs[id].ExchangePop?
  {
    var ExchangePop(code, redirect, client, verifier) := s.reqs[id];
    if code !in s.store.codes then At(s, id, Done(false))
    else
      At(s, id, ExchangeCheck(code, s.store.codes[code], redirect, client, verifier)).(
        store := s.store.(codes := s.store.codes - {code}),
        log := s.log.(popped := s.log.popped[code := id]))
  }

  function Checked(pc: Pc, id: nat, now: real): Pc
    requires pc.ExchangeCheck?
  {
    var ExchangeCheck(code, found, redirect, client, verifier) := pc;
    if found.expires <= now then Done(false)
    else if found.client != client || found.redirect != redirect then Done(false)
    else if S256(verifier) != found.challenge then Done(false)
    else ExchangeIssue(Birth(code, id, client, redirect, verifier, now))
  }

  function FoundStep(s: State, id: nat, draw: string, draw2: string): State
    requires id in s.reqs && s.reqs[id].ExchangeIssue?
  {
    if !Fresh(s, draw) || !Fresh(s, draw2) || draw == draw2 then s
    else
      var b := s.reqs[id].birth;
      At(s, id, Done(true)).(
        store := PutRefresh(s.store, Text(draw), FreshRow(b.client, draw2, s.now.Floor, REFRESH_TTL)),
        log := s.log.(
          drawn := s.log.drawn + {draw, draw2},
          births := s.log.births[draw2 := b],
          chains := s.log.chains[draw2 := [Digest(Text(draw))]]))
  }

  /** The refresh grant up to the won rotation, and token revocation: where the request
      goes next and which row, if any, its conditional update turns from active to revoked. */
  function RefreshMove(store: Store, now: real, pc: Pc): (m: (Pc, Option<Token>))
    ensures m.1.Some? ==> Live(store, m.1.value)
    ensures pc.Done? ==> m == (pc, None)
  {
    match pc
    case RefreshRead(t, client) =>
      if Digest(t) in store.rows then (RefreshCheck(t, client, Digest(t), store.rows[Digest(t)]), None)
      else (RefreshReadPlain(t, client), None)
    case RefreshReadPlain(t, client) =>
      if t in store.rows then (RefreshCheck(t, client, t, store.rows[t]), None) else (Done(false), None)
    case RefreshCheck(t, client, key, row) =>
      if row.revoked then (FamilyRevoke(key, row.family), None)
      else if row.expires <= now.Floor || row.client != client then (Done(false), None)
      else (RefreshFlip(t, client, key, row), None)
    case RefreshFlip(t, client, key, row) =>
      if Live(store, Digest(t)) then (RefreshIssue(Digest(t), client, row.family), Some(Digest(t)))
      else (RefreshFlipPlain(t, client, key, row), None)
    case RefreshFlipPlain(t, client, key, row) =>
      if Live(store, t) then (RefreshIssue(t, client, row.family), Some(t)) else (Done(false), None)
    case FamilyRevoke(key, family) => (Done(false), None)
    case RevokeRead(t) =>
      if Digest(t) in store.rows then (RevokeFlip(t), None) else (RevokeReadPlain(t), None)
    case RevokeReadPlain(t) => if t in store.rows then (RevokeFlip(t), None) else (Done(true), None)
    case RevokeFlip(t) =>
      if Live(store, Digest(t)) then (Done(true), Some(Digest(t))) else (RevokeFlipPlain(t), None)
    case RevokeFlipPlain(t) => (Done(true), if Live(store, t) then Some(t) else None)
    case _ => (pc, None)
  }

  function RefreshStep(s: State, id: nat): State
    requires id in s.reqs
  {
    var (pc, k) := RefreshMove(s.store, s.now, s.reqs[id]);
    At(s, id, pc).(store := if k.Some? then Flip(s.store, k.value) else s.store)
  }

  /** The empty family has no chain. */
  function Extended(chains: map<string, seq<Token>>, family: string, k: Token): map<string, seq<Token>> {
    if family == "" then chains
    else chains[family := (if family in chains then chains[family] else []) + [k]]
  }

  /** The winner of a rotation stores the successor in the family of the token it read. */
  function RotateStep(s: State, id: nat, draw: string): State
    requires id in s.reqs && s.reqs[id].RefreshIssue?
  {
    var RefreshIssue(key, client, family) := s.reqs[id];
    if !Fresh(s, draw) then s
    else
      var new' := Digest(Text(draw));
      At(s, id, Done(true)).(
        store := PutRefresh(s.store, Text(draw), FreshRow(client, family, s.now.Floor, REFRESH_TTL)),
        log := s.log.(
          drawn := s.log.drawn + {draw},
          chains := Extended(s.log.chains, family, new'),
          parents := s.log.parents[new' := key]))
  }

  function Run(s: State, steps: seq<Step>): State
    decreases |steps|
  {
    if steps == [] then s else Run(Next(s, steps[0]), steps[1..])
  }

  /** A deployment before its first request: registered clients, and refresh rows written
      by older code under the plain token, at most one of them live in a named family. */
  ghost predicate Init(s: State) {
    && s.reqs == map[] && s.store.codes == map[] && s.log.issued == map[] && s.log.popped == map[]
    && s.log.grants == map[]
    && s.log.births == map[] && s.log.parents == map[]
    && s.log.asked == {} && s.log.approved == {} && s.log.logins == {}
    && s.log.legacy <= s.log.drawn && s.store.clients.Keys <= s.log.drawn
    && s.log.chains.Keys == s.log.oldFamilies
    && (forall k :: k in s.store.rows ==> k.Text? && k.text in s.log.legacy)
    && ChainsOk(s)
  }

  // ---------------------------------------------------------------- the invariant

  /** Every row is a legacy row under its text, or a row under the digest of a drawn text. */
  ghost predicate KeyOk(s: State, k: Token) {
    || (k.Text? && k.text in s.log.legacy)
    || (k.Digest? && k.of.Text? && k.of.text in s.log.drawn && k.of.text !in s.log.legacy)
  }

  ghost predicate KeysOk(s: State) {
    s.log.legacy <= s.log.drawn && forall k :: k in s.store.rows ==> KeyOk(s, k)
  }

  ghost predicate CodesOk(s: State) {
    && s.store.clients.Keys <= s.log.drawn
    && s.log.issued.Keys <= s.log.drawn
    && s.log.issued.Keys == s.store.codes.Keys + s.log.popped.Keys
    && s.store.codes.Keys !! s.log.popped.Keys
    && (forall c :: c in s.store.codes ==> s.store.codes[c] == s.log.issued[c])
  }

  /** Every code comes from an approval of just what it was issued for, at least its life
      before its expiry, and every approval was in order. */
  ghost predicate ApprovalsOk(s: State) {
    && s.log.grants.Keys == s.log.issued.Keys
    && (forall c :: c in s.log.issued ==> GrantOk(s.log, c))
    && (forall a :: a in s.log.approved ==> Sanctioned(s, a))
    && (forall a :: a in s.log.asked ==> Registered(s.store, a))
    && (forall l :: l in s.log.logins ==> l.ask in s.log.asked)
  }

  ghost predicate GrantOk(log: Log, c: string) {
    && c in log.issued && c in log.grants && log.grants[c] in log.approved
    && log.grants[c].ask == AskOf(log.issued[c])
    && log.grants[c].at + CODE_TTL <= log.issued[c].expires
  }

  /** The request of a client that registered the redirect URI; in a gated deployment, after
      the identity provider vouched for an unexpired login state that was signed for it. */
  ghost predicate Sanctioned(s: State, a: Approval) {
    && a.ask in s.log.asked && Registered(s.store, a.ask) && a.at <= s.now
    && (s.gated ==> Verified(s.log, a))
  }

  ghost predicate Verified(log: Log, a: Approval) {
    && a.login.Some? && a.login.value in log.logins && a.login.value.ask == a.ask
    && a.identity && a.at < a.login.value.expires as real
  }

  /** The exchange presented what the code was issued for, before the code expired. */
  ghost predicate Granted(s: State, b: Birth) {
    && b.code in s.log.popped && s.log.popped[b.code] == b.request
    && b.code in s.log.issued
    && s.log.issued[b.code].client == b.client
    && s.log.issued[b.code].redirect == b.redirect
    && s.log.issued[b.code].challenge == S256(b.verifier)
    && b.at < s.log.issued[b.code].expires && b.at <= s.now
  }

  ghost predicate BirthsOk(s: State) {
    forall f :: f in s.log.births ==>
      && Granted(s, s.log.births[f])
      && s.log.births[f].request in s.reqs && s.reqs[s.log.births[f].request].Done?
      && (forall g :: g in s.log.births && s.log.births[g].code == s.log.births[f].code ==> g == f)
  }

  /** `chains[f]` lists the rows of family `f` in order of issue: no row twice, all of
      one client, and all but the last revoked. */
  ghost predicate ChainOk(s: State, f: string) {
    && f != "" && f in s.log.drawn && f in s.log.chains && |s.log.chains[f]| > 0
    && (f in s.log.births || f in s.log.oldFamilies)
    && (forall i :: 0 <= i < |s.log.chains[f]| ==>
         && s.log.chains[f][i] in s.store.rows
         && s.store.rows[s.log.chains[f][i]].family == f
         && (f in s.log.births ==> s.store.rows[s.log.chains[f][i]].client == s.log.births[f].client)
         && (i < |s.log.chains[f]| - 1 ==> s.store.rows[s.log.chains[f][i]].revoked))
    && (forall i, j :: 0 <= i < j < |s.log.chains[f]| ==> s.log.chains[f][i] != s.log.chains[f][j])
    && (forall i :: 0 < i < |s.log.chains[f]| && s.log.chains[f][i].Digest? ==>
         s.log.chains[f][i] in s.log.parents && s.log.parents[s.log.chains[f][i]] == s.log.chains[f][i - 1])
  }

  ghost predicate ChainsOk(s: State) {
    && (forall f :: f in s.log.chains ==> ChainOk(s, f))
    && (forall k :: k in s.store.rows && s.store.rows[k].family != "" ==>
         s.store.rows[k].family in s.log.chains && k in s.log.chains[s.store.rows[k].family])
    && s.log.births.Keys <= s.log.chains.Keys
  }

  function Last<T>(q: seq<T>): T requires |q| > 0 { q[|q| - 1] }

  /** The same row, up to its revoked mark. */
  predicate SameGrant(r: Row, q: Row) {
    r.client == q.client && r.issued == q.issued && r.expires == q.expires && r.family == q.family
  }

  /** `row` is what a read of `key` returned; only `revoked` may have changed since. */
  ghost predicate SeenOk(s: State, key: Token, row: Row) {
    && key in s.store.rows
    && SameGrant(row, s.store.rows[key])
    && (row.revoked ==> s.store.rows[key].revoked)
  }

  ghost predicate PcOk(s: State, id: nat, pc: Pc) {
    match pc
    case AuthorizeIssue(a) => a in s.log.approved && a.at <= s.now
    case ExchangeCheck(code, found, _, _, _) =>
      code in s.log.popped && s.log.popped[code] == id && code in s.log.issued && s.log.issued[code] == found
    case ExchangeIssue(b) => b.request == id && Granted(s, b)
    case RefreshCheck(t, client, key, row) => (key == t || key == Digest(t)) && SeenOk(s, key, row)
    case RefreshFlip(t, client, key, row) =>
      (key == t || key == Digest(t)) && SeenOk(s, key, row) && row.client == client
    case RefreshFlipPlain(t, client, key, row) =>
      (key == t || key == Digest(t)) && SeenOk(s, key, row) && row.client == client
    case RefreshIssue(key, client, family) =>
      && key in s.store.rows && s.store.rows[key].revoked
      && s.store.rows[key].client == client && s.store.rows[key].family == family
    case FamilyRevoke(key, family) =>
      key in s.store.rows && s.store.rows[key].revoked && s.store.rows[key].family == family
    case _ => true
  }

  ghost predicate PcsOk(s: State) {
    forall id :: id in s.reqs ==> PcOk(s, id, s.reqs[id])
  }

  predicate SameRotation(p: Pc, q: Pc) {
    p.RefreshIssue? && q.RefreshIssue? && p.key == q.key
  }

  /** A rotated row has one request about to store its successor, or one successor. */
  ghost predicate RotationsOk(s: State) {
    && (forall id :: id in s.reqs && s.reqs[id].RefreshIssue? ==>
         && (forall k :: k in s.log.parents ==> s.log.parents[k] != s.reqs[id].key)
         && (s.reqs[id].family in s.log.chains && |s.log.chains[s.reqs[id].family]| > 0 ==>
              s.reqs[id].key == Last(s.log.chains[s.reqs[id].family])))
    && (forall id, jd :: id in s.reqs && jd in s.reqs && SameRotation(s.reqs[id], s.reqs[jd]) ==> id == jd)
    && (forall k :: k in s.log.parents ==>
         && k in s.store.rows && s.log.parents[k] in s.store.rows && s.store.rows[s.log.parents[k]].revoked
         && s.store.rows[s.log.parents[k]].family == s.store.rows[k].family
         && s.store.rows[s.log.parents[k]].client == s.store.rows[k].client)
    && (forall k, l :: k in s.log.parents && l in s.log.parents && s.log.parents[k] == s.log.parents[l] ==> k == l)
  }

  ghost predicate Inv(s: State) {
    KeysOk(s) && CodesOk(s) && ApprovalsOk(s) && BirthsOk(s) && ChainsOk(s) && PcsOk(s) && RotationsOk(s)
  }
}
