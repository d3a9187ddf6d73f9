/** The token endpoint run one request at a time: the handlers as methods over a backend,
    proved against functions of the abstract store, and those functions proved to be runs
    of the step machine. */
module OAuthHandlers {
  import opened Options
  import opened TokenStore
  import opened OAuthBackends
  import opened OAuthProtocol
  import opened OAuthSafety
  import opened OAuthInvariant
  import opened OAuthTheorems

  datatype Refusal =
    | CodeUnusable | BindingMismatch | PkceMismatch
    | UnknownToken | Reused | Expired | ClientMismatch | RaceLost

  datatype Reply = Refused(why: Refusal) | Issued(refresh: Token, client: string, family: string)

  /** The clock is read when the code is taken and again when the token is stored. */
  function ExchangeHandler(s: Store, code: string, redirect: string, client: string, verifier: string,
                           now: real, later: real, draw: string, family: string): (Store, Reply)
  {
    var (u, entry) := PopCode(s, code, now);
    if entry.None? then (u, Refused(CodeUnusable))
    else if entry.value.client != client || entry.value.redirect != redirect then (u, Refused(BindingMismatch))
    else if S256(verifier) != entry.value.challenge then (u, Refused(PkceMismatch))
    else (PutRefresh(u, Text(draw), FreshRow(client, family, later.Floor, REFRESH_TTL)),
          Issued(Text(draw), client, family))
  }

  /** The clock is read for the expiry check and again when the successor is stored. */
  function RefreshHandler(s: Store, t: Token, client: string, now: real, later: real, draw: string): (Store, Reply) {
    match GetRefresh(s, t)
    case None => (s, Refused(UnknownToken))
    case Some(rec) =>
      if rec.revoked then (RevokeFamily(s, rec.family), Refused(Reused))
      else if rec.expires <= now.Floor then (s, Refused(Expired))
      else if rec.client != client then (s, Refused(ClientMismatch))
      else
        var (u, won) := RevokeRefresh(s, t);
        if !won then (u, Refused(RaceLost))
        else (PutRefresh(u, Text(draw), FreshRow(client, rec.family, later.Floor, REFRESH_TTL)),
              Issued(Text(draw), client, rec.family))
  }

  /** Always answers 200; only the presented token's own row changes. */
  function RevokeHandler(s: Store, t: Token): Store {
    if GetRefresh(s, t).Some? then RevokeRefresh(s, t).0 else s
  }

  // ---------------------------------------------------------------- over the DynamoDB store

  method ExchangeGrant(store: DynamoDbStore, code: string, redirect: string, client: string, verifier: string,
                       now: real, later: real, draw: string, family: string) returns (reply: Reply)
    requires store.Valid()
    modifies store
    ensures store.Valid()
    ensures (store.abs, reply)
            == ExchangeHandler(old(store.abs), code, redirect, client, verifier, now, later, draw, family)
  {
    var entry := store.PopAuthCode(code, now);
    if entry.None? {
      return Refused(CodeUnusable);
    }
    if entry.value.client != client || entry.value.redirect != redirect {
      return Refused(BindingMismatch);
    }
    if S256(verifier) != entry.value.challenge {
      return Refused(PkceMismatch);
    }
    store.PutRefresh(Text(draw), client, family, REFRESH_TTL, later);
    return Issued(Text(draw), client, family);
  }

  method RefreshGrant(store: DynamoDbStore, t: Token, client: string, now: real, later: real, draw: string,
                      pages: seq<seq<Pk>>) returns (reply: Reply)
    requires store.Valid()
    requires var rec := GetRefresh(store.abs, t);
             rec.Some? && rec.value.family != "" ==> PagesOf(pages, IndexOf(store.table, rec.value.family))
    modifies store
    ensures store.Valid()
    ensures (store.abs, reply) == RefreshHandler(old(store.abs), t, client, now, later, draw)
  {
    var rec := store.GetRefresh(t);
    if rec.None? {
      return Refused(UnknownToken);
    }
    if rec.value.revoked {
      store.RevokeFamily(rec.value.family, pages);
      return Refused(Reused);
    }
    if rec.value.expires <= now.Floor {
      return Refused(Expired);
    }
    if rec.value.client != client {
      return Refused(ClientMismatch);
    }
    var won := store.RevokeRefresh(t);
    if !won {
      return Refused(RaceLost);
    }
    store.PutRefresh(Text(draw), client, rec.value.family, REFRESH_TTL, later);
    return Issued(Text(draw), client, rec.value.family);
  }

  method RevokeToken(store: DynamoDbStore, t: Token)
    requires store.Valid()
    modifies store
    ensures store.Valid()
    ensures store.abs == RevokeHandler(old(store.abs), t)
  {
    var rec := store.GetRefresh(t);
    if rec.Some? {
      var _ := store.RevokeRefresh(t);
    }
  }

  // ---------------------------------------------------------------- over the SQLite store

  /** A drawn token never collides with a stored one, so the insert does not raise. */
  method SqliteExchangeGrant(store: SqliteStore, code: string, redirect: string, client: string, verifier: string,
                             now: real, later: real, draw: string, family: string) returns (reply: Reply)
    requires Digest(Text(draw)) !in store.Abs().rows
    modifies store
    ensures (store.Abs(), reply)
            == ExchangeHandler(old(store.Abs()), code, redirect, client, verifier, now, later, draw, family)
  {
    var entry := store.PopAuthCode(code, now);
    if entry.None? {
      return Refused(CodeUnusable);
    }
    if entry.value.client != client || entry.value.redirect != redirect {
      return Refused(BindingMismatch);
    }
    if S256(verifier) != entry.value.challenge {
      return Refused(PkceMismatch);
    }
    var stored := store.PutRefresh(Text(draw), client, family, REFRESH_TTL, later);
    assert stored;
    return Issued(Text(draw), client, family);
  }

  lemma RevokeKeepsKeys(s: Store, t: Token)
    ensures RevokeRefresh(s, t).0.rows.Keys == s.rows.Keys
  {
  }

  /** No presented token is ambiguous in any store a sequence of operations leads to. */
  method SqliteRefreshGrant(store: SqliteStore, t: Token, client: string, now: real, later: real, draw: string)
    returns (reply: Reply)
    requires Unambiguous(store.Abs(), t) && Digest(Text(draw)) !in store.Abs().rows
    modifies store
    ensures (store.Abs(), reply) == RefreshHandler(old(store.Abs()), t, client, now, later, draw)
  {
    var rec := store.GetRefresh(t);
    if rec.None? {
      return Refused(UnknownToken);
    }
    if rec.value.revoked {
      store.RevokeFamily(rec.value.family);
      return Refused(Reused);
    }
    if rec.value.expires <= now.Floor {
      return Refused(Expired);
    }
    if rec.value.client != client {
      return Refused(ClientMismatch);
    }
    RevokeKeepsKeys(store.Abs(), t);
    var won := store.RevokeRefresh(t);
    if !won {
      return Refused(RaceLost);
    }
    var stored := store.PutRefresh(Text(draw), client, rec.value.family, REFRESH_TTL, later);
    assert stored;
    return Issued(Text(draw), client, rec.value.family);
  }

  method SqliteRevokeToken(store: SqliteStore, t: Token)
    requires Unambiguous(store.Abs(), t)
    modifies store
    ensures store.Abs() == RevokeHandler(old(store.Abs()), t)
  {
    var rec := store.GetRefresh(t);
    if rec.Some? {
      var _ := store.RevokeRefresh(t);
    }
  }

  // ------------------------------------------------- handlers are runs of the machine

  function Go(id: nat, draw: string): Step { Advance(id, draw, "", false) }

  function {:induction false} MemberSteps(id: nat, keys: seq<Token>): (q: seq<Step>)
    ensures |q| == |keys|
  {
    if keys == [] then [] else [RevokeMember(id, keys[0])] + MemberSteps(id, keys[1..])
  }

  function Opening(s: Store, id: nat, t: Token, client: string, draw: string): seq<Step> {
    [Begin(id, RefreshRead(t, client)), Go(id, draw), Go(id, draw)]
    + if Digest(t) in s.rows then [] else [Go(id, draw)]
  }

  /** The steps of one refresh request with no other request in between; time passes before
      its last ones. */
  function RefreshSteps(
    s: Store, id: nat, t: Token, client: string, draw: string, later: real, keys: seq<Token>): seq<Step>
  {
    Opening(s, id, t, client, draw) + MemberSteps(id, keys) + ([Tick(later)] + Closing(id, draw))
  }

  function Closing(id: nat, draw: string): seq<Step> { [Go(id, draw), Go(id, draw), Go(id, draw)] }

  /** The row after the family revocation of `pc`, if it is one, has gone through `keys`. */
  function Marked(pc: Pc, keys: seq<Token>, k: Token, row: Row): Row {
    if k in keys && pc.FamilyRevoke? && pc.family != "" && row.family == pc.family
    then row.(revoked := true) else row
  }

  /** Only these rows of the store have changed, and as the revocation marks them. */
  ghost predicate MembersMarked(s: State, u: State, pc: Pc, keys: seq<Token>) {
    && u == s.(store := s.store.(rows := u.store.rows)) && u.store.rows.Keys == s.store.rows.Keys
    && (forall k :: k in s.store.rows ==> u.store.rows[k] == Marked(pc, keys, k, s.store.rows[k]))
  }

  lemma OneMoreMember(s: State, v: State, u: State, pc: Pc, key: Token, rest: seq<Token>)
    requires MembersMarked(s, v, pc, [key]) && MembersMarked(v, u, pc, rest)
    ensures MembersMarked(s, u, pc, [key] + rest)
  {
    forall k | k in s.store.rows ensures u.store.rows[k] == Marked(pc, [key] + rest, k, s.store.rows[k]) {
      assert k in v.store.rows;
    }
  }

  lemma OneMember(s: State, id: nat, key: Token)
    requires id in s.reqs
    ensures MembersMarked(s, MemberStep(s, id, key), s.reqs[id], [key])
  {
  }

  /** Revoking the members one item at a time, in any order, is the family revocation;
      in a request that revokes no family these steps do nothing. */
  lemma {:induction false} MemberRun(s: State, id: nat, keys: seq<Token>)
    requires id in s.reqs
    ensures MembersMarked(s, Run(s, MemberSteps(id, keys)), s.reqs[id], keys)
    decreases |keys|
  {
    if keys != [] {
      var v := MemberStep(s, id, keys[0]);
      OneMember(s, id, keys[0]);
      RunFirst(s, RevokeMember(id, keys[0]), MemberSteps(id, keys[1..]));
      MemberRun(v, id, keys[1..]);
      OneMoreMember(s, v, Run(v, MemberSteps(id, keys[1..])), s.reqs[id], keys[0], keys[1..]);
      assert keys == [keys[0]] + keys[1..];
    }
  }

  /** Where the request stands once it has read the row and looked at it. */
  function AfterRead(s: Store, t: Token, client: string, now: real): Pc {
    match Lookup(s, t)
    case None => Done(false)
    case Some(key) =>
      var row := s.rows[key];
      if row.revoked then FamilyRevoke(key, row.family)
      else if row.expires <= now.Floor || row.client != client then Done(false)
      else RefreshFlip(t, client, key, row)
  }

  lemma RunFirst(s: State, a: Step, rest: seq<Step>)
    ensures Run(s, [a] + rest) == Run(Next(s, a), rest)
  {
    var q := [a] + rest;
    assert q[0] == a && q[1..] == rest;
  }

  lemma Run1(s: State, a: Step)
    ensures Run(s, [a]) == Next(s, a)
  {
    RunFirst(s, a, []);
    assert [a] + [] == [a];
  }

  lemma Run3(s: State, a: Step, b: Step, c: Step)
    ensures Run(s, [a, b, c]) == Next(Next(Next(s, a), b), c)
  {
    assert [a, b, c] == [a] + [b, c] && [b, c] == [b] + [c];
    RunFirst(s, a, [b, c]);
    RunFirst(Next(s, a), b, [c]);
    Run1(Next(Next(s, a), b), c);
  }

  lemma Run2(s: State, a: Step, b: Step)
    ensures Run(s, [a, b]) == Next(Next(s, a), b)
  {
    assert [a, b] == [a] + [b];
    RunFirst(s, a, [b]);
    Run1(Next(s, a), b);
  }

  lemma CheckRun(s: State, id: nat, t: Token, client: string, key: Token, draw: string)
    requires Lookup(s.store, t) == Some(key)
    ensures key in s.store.rows
    ensures Next(At(s, id, RefreshCheck(t, client, key, s.store.rows[key])), Go(id, draw))
            == At(s, id, AfterRead(s.store, t, client, s.now))
  {
  }

  lemma BeginRun(s: State, id: nat, t: Token, client: string, draw: string)
    requires id !in s.reqs
    ensures var v := At(s, id, RefreshRead(t, client));
            && Next(s, Begin(id, RefreshRead(t, client))) == v
            && Next(v, Go(id, draw))
               == At(s, id, if Digest(t) in s.store.rows
                            then RefreshCheck(t, client, Digest(t), s.store.rows[Digest(t)])
                            else RefreshReadPlain(t, client))
  {
  }

  lemma PlainRun(s: State, id: nat, t: Token, client: string, draw: string)
    requires Digest(t) !in s.store.rows
    ensures Next(At(s, id, RefreshReadPlain(t, client)), Go(id, draw))
            == At(s, id, if t in s.store.rows then RefreshCheck(t, client, t, s.store.rows[t]) else Done(false))
  {
  }

  lemma OpeningRunDigest(s: State, id: nat, t: Token, client: string, draw: string)
    requires id !in s.reqs && Digest(t) in s.store.rows
    ensures Run(s, Opening(s.store, id, t, client, draw)) == At(s, id, AfterRead(s.store, t, client, s.now))
  {
    var b, g := Begin(id, RefreshRead(t, client)), Go(id, draw);
    assert Opening(s.store, id, t, client, draw) == [b, g, g];
    Run3(s, b, g, g);
    BeginRun(s, id, t, client, draw);
    CheckRun(s, id, t, client, Digest(t), draw);
  }

  lemma OpeningRunPlain(s: State, id: nat, t: Token, client: string, draw: string)
    requires id !in s.reqs && Digest(t) !in s.store.rows
    ensures Run(s, Opening(s.store, id, t, client, draw)) == At(s, id, AfterRead(s.store, t, client, s.now))
  {
    var b, g := Begin(id, RefreshRead(t, client)), Go(id, draw);
    assert Opening(s.store, id, t, client, draw) == [b, g, g] + [g];
    RunConcat(s, [b, g, g], [g]);
    Run3(s, b, g, g);
    BeginRun(s, id, t, client, draw);
    PlainRun(s, id, t, client, draw);
    Run1(Next(At(s, id, RefreshReadPlain(t, client)), g), g);
    if t in s.store.rows {
      CheckRun(s, id, t, client, t, draw);
    }
  }

  lemma OpeningRun(s: State, id: nat, t: Token, client: string, draw: string)
    requires id !in s.reqs
    ensures Run(s, Opening(s.store, id, t, client, draw)) == At(s, id, AfterRead(s.store, t, client, s.now))
  {
    if Digest(t) in s.store.rows {
      OpeningRunDigest(s, id, t, client, draw);
    } else {
      OpeningRunPlain(s, id, t, client, draw);
    }
  }

  lemma ClosingRun(s: State, id: nat, draw: string)
    requires id in s.reqs && Fresh(s, draw)
    requires s.reqs[id].Done? || s.reqs[id].FamilyRevoke?
    ensures var u := Run(s, Closing(id, draw));
            && u.store == s.store && u.log == s.log
            && u.reqs == s.reqs[id := if s.reqs[id].Done? then s.reqs[id] else Done(false)]
  {
    var g := Go(id, draw);
    Run3(s, g, g, g);
    var v := At(s, id, if s.reqs[id].Done? then s.reqs[id] else Done(false));
    assert Next(s, g) == v;
    assert Next(v, g) == v;
  }

  /** The key whose row the conditional update flips first. */
  function WonKey(s: Store, t: Token): Token { if Live(s, Digest(t)) then Digest(t) else t }

  /** What a rotation does to the store from its conditional update on. */
  ghost predicate Rotated(s: State, u: State, id: nat, draw: string)
    requires id in s.reqs && s.reqs[id].RefreshFlip?
  {
    var RefreshFlip(t, client, _, row) := s.reqs[id];
    var (v, won) := RevokeRefresh(s.store, t);
    && u.reqs == s.reqs[id := Done(won)]
    && u.log.parents == (if won then s.log.parents[Digest(Text(draw)) := WonKey(s.store, t)] else s.log.parents)
    && u.store == if won
                  then PutRefresh(v, Text(draw), FreshRow(client, row.family, s.now.Floor, REFRESH_TTL)) else v
  }

  lemma RotationRunDigest(s: State, id: nat, draw: string)
    requires id in s.reqs && s.reqs[id].RefreshFlip? && Fresh(s, draw) && Live(s.store, Digest(s.reqs[id].t))
    ensures Rotated(s, Next(Next(Next(s, Go(id, draw)), Go(id, draw)), Go(id, draw)), id, draw)
  {
    var RefreshFlip(t, client, _, row) := s.reqs[id];
    var g := Go(id, draw);
    var v := At(s, id, RefreshIssue(Digest(t), client, row.family)).(store := Flip(s.store, Digest(t)));
    assert Next(s, g) == v;
    assert Next(v, g).reqs[id].Done?;
  }

  lemma RotationRunPlain(s: State, id: nat, draw: string)
    requires id in s.reqs && s.reqs[id].RefreshFlip? && Fresh(s, draw) && !Live(s.store, Digest(s.reqs[id].t))
    ensures Rotated(s, Next(Next(Next(s, Go(id, draw)), Go(id, draw)), Go(id, draw)), id, draw)
  {
    var RefreshFlip(t, client, key, row) := s.reqs[id];
    var g, v := Go(id, draw), At(s, id, RefreshFlipPlain(t, client, key, row));
    assert Next(s, g) == v;
    if Live(s.store, t) {
      var w := At(s, id, RefreshIssue(t, client, row.family)).(store := Flip(s.store, t));
      assert Next(v, g) == w;
    } else {
      assert Next(v, g) == At(s, id, Done(false));
    }
  }

  /** The conditional update and, for the winner, the successor. */
  lemma RotationRun(s: State, id: nat, draw: string)
    requires id in s.reqs && s.reqs[id].RefreshFlip? && Fresh(s, draw)
    ensures Rotated(s, Run(s, Closing(id, draw)), id, draw)
  {
    var g := Go(id, draw);
    Run3(s, g, g, g);
    if Live(s.store, Digest(s.reqs[id].t)) {
      RotationRunDigest(s, id, draw);
    } else {
      RotationRunPlain(s, id, draw);
    }
  }

  /** The request after its reads and its member steps, when time has passed. */
  lemma FirstHalf(s: State, id: nat, t: Token, client: string, draw: string, later: real, keys: seq<Token>)
    returns (w: State)
    requires id !in s.reqs && s.now <= later
    ensures var pc := AfterRead(s.store, t, client, s.now);
            && Run(s, RefreshSteps(s.store, id, t, client, draw, later, keys)) == Run(w, Closing(id, draw))
            && MembersMarked(At(s, id, pc).(now := later), w, pc, keys)
  {
    var opening, members := Opening(s.store, id, t, client, draw), MemberSteps(id, keys);
    OpeningRun(s, id, t, client, draw);
    var v := At(s, id, AfterRead(s.store, t, client, s.now));
    RunConcat(s, opening + members, [Tick(later)] + Closing(id, draw));
    RunConcat(s, opening, members);
    MemberRun(v, id, keys);
    var u := Run(v, members);
    RunFirst(u, Tick(later), Closing(id, draw));
    w := u.(now := later);
  }

  /** The run from `s` to `u` has done what the handler did: the same store, a good end exactly
      when a token was handed out, and then that token recorded as the successor of the row
      that was presented. */
  ghost predicate RefreshedAs(s: State, u: State, id: nat, t: Token, done: (Store, Reply)) {
    && u.store == done.0 && u.reqs == s.reqs[id := Done(done.1.Issued?)]
    && (done.1.Issued? ==> Lookup(s.store, t).Some?)
    && u.log.parents == if done.1.Issued?
                        then s.log.parents[Digest(done.1.refresh) := Lookup(s.store, t).value] else s.log.parents
  }

  /** Without a family revocation the member steps do nothing. */
  lemma RotatingHalf(s: State, w: State, id: nat, t: Token, client: string, draw: string, keys: seq<Token>)
    requires id in s.reqs && s.reqs[id] == AfterRead(s.store, t, client, s.now) && s.reqs[id].RefreshFlip?
    requires Fresh(s, draw) && s.now <= w.now && MembersMarked(s.(now := w.now), w, s.reqs[id], keys)
    ensures var u := Run(w, Closing(id, draw));
            RefreshedAs(s, u, id, t, RefreshHandler(s.store, t, client, s.now, w.now, draw))
  {
    assert w.store.rows == s.store.rows;
    RotationRun(w, id, draw);
  }

  lemma RefusingHalf(s: State, w: State, id: nat, t: Token, client: string, draw: string, keys: seq<Token>)
    requires id in s.reqs && s.reqs[id] == AfterRead(s.store, t, client, s.now) && !s.reqs[id].RefreshFlip?
    requires Fresh(s, draw) && s.now <= w.now && MembersMarked(s.(now := w.now), w, s.reqs[id], keys)
    requires forall k :: k in s.store.rows ==> k in keys
    ensures var u := Run(w, Closing(id, draw));
            RefreshedAs(s, u, id, t, RefreshHandler(s.store, t, client, s.now, w.now, draw))
  {
    var pc := s.reqs[id];
    if pc.FamilyRevoke? {
      assert w.store.rows == RevokeFamily(s.store, pc.family).rows;
    } else {
      assert w.store.rows == s.store.rows;
    }
    ClosingRun(w, id, draw);
  }

  /** A refresh request run alone does to the store what the handler does. */
  lemma RefreshIsARun(s: State, id: nat, t: Token, client: string, draw: string, later: real, keys: seq<Token>)
    requires id !in s.reqs && Fresh(s, draw) && s.now <= later
    requires forall k :: k in s.store.rows ==> k in keys
    ensures var u := Run(s, RefreshSteps(s.store, id, t, client, draw, later, keys));
            RefreshedAs(s, u, id, t, RefreshHandler(s.store, t, client, s.now, later, draw))
  {
    var w := FirstHalf(s, id, t, client, draw, later, keys);
    var v := At(s, id, AfterRead(s.store, t, client, s.now));
    if v.reqs[id].RefreshFlip? {
      RotatingHalf(v, w, id, t, client, draw, keys);
    } else {
      RefusingHalf(v, w, id, t, client, draw, keys);
    }
  }

  // ------------------------------------------------- the exchange and the revocation are runs

  /** The steps of one code exchange with no other request in between; time passes before
      the token is stored. */
  function ExchangeSteps(id: nat, code: string, redirect: string, client: string, verifier: string,
                         later: real, draw: string, family: string): seq<Step>
  {
    [Begin(id, ExchangePop(code, redirect, client, verifier)), Go(id, ""), Go(id, "")]
    + [Tick(later), Advance(id, draw, family, false)]
  }

  /** Where the request stands once it has taken the code and looked at it. */
  function AfterTake(s: State, id: nat, code: string, redirect: string, client: string, verifier: string): Pc {
    if code !in s.store.codes then Done(false)
    else Checked(ExchangeCheck(code, s.store.codes[code], redirect, client, verifier), id, s.now)
  }

  /** The code is gone, and its taker on record, whatever the check says. */
  function Took(s: State, id: nat, code: string): State {
    if code !in s.store.codes then s
    else s.(store := s.store.(codes := s.store.codes - {code}), log := s.log.(popped := s.log.popped[code := id]))
  }

  lemma TakingRun(s: State, id: nat, code: string, redirect: string, client: string, verifier: string)
    requires id !in s.reqs
    ensures Run(s, [Begin(id, ExchangePop(code, redirect, client, verifier)), Go(id, ""), Go(id, "")])
            == At(Took(s, id, code), id, AfterTake(s, id, code, redirect, client, verifier))
  {
    var b, g := Begin(id, ExchangePop(code, redirect, client, verifier)), Go(id, "");
    Run3(s, b, g, g);
    var v := At(s, id, ExchangePop(code, redirect, client, verifier));
    assert Next(s, b) == v && Next(v, g) == PopStep(v, id);
    if code in s.store.codes {
      assert PopStep(v, id)
             == At(Took(s, id, code), id, ExchangeCheck(code, s.store.codes[code], redirect, client, verifier));
    } else {
      assert PopStep(v, id) == At(s, id, Done(false));
    }
  }

  lemma StoringRun(w: State, id: nat, later: real, draw: string, family: string)
    requires id in w.reqs && (w.reqs[id].ExchangeIssue? || w.reqs[id] == Done(false)) && w.now <= later
    requires Fresh(w, draw) && Fresh(w, family) && draw != family
    ensures var u := Run(w, [Tick(later), Advance(id, draw, family, false)]);
            if w.reqs[id].ExchangeIssue? then u == FoundStep(w.(now := later), id, draw, family)
            else u == w.(now := later)
  {
    assert [Tick(later), Advance(id, draw, family, false)] == [Tick(later)] + [Advance(id, draw, family, false)];
    RunFirst(w, Tick(later), [Advance(id, draw, family, false)]);
    Run1(w.(now := later), Advance(id, draw, family, false));
    if !w.reqs[id].ExchangeIssue? {
      assert w.reqs[id := Done(false)] == w.reqs;
    }
  }

  /** A code exchange run alone does to the store what the handler does; it ends well exactly
      when the handler issues a token, and then it has founded the family. */
  lemma ExchangeIsARun(s: State, id: nat, code: string, redirect: string, client: string, verifier: string,
                       later: real, draw: string, family: string)
    requires id !in s.reqs && s.now <= later && Fresh(s, draw) && Fresh(s, family) && draw != family
    ensures var u := Run(s, ExchangeSteps(id, code, redirect, client, verifier, later, draw, family));
            var (v, reply) :=
              ExchangeHandler(s.store, code, redirect, client, verifier, s.now, later, draw, family);
            && u.store == v && u.now == later && u.reqs == s.reqs[id := Done(reply.Issued?)]
            && u.log.popped == (if code in s.store.codes then s.log.popped[code := id] else s.log.popped)
            && u.log.births == (if reply.Issued?
                                then s.log.births[family := Birth(code, id, client, redirect, verifier, s.now)]
                                else s.log.births)
            && u.log.chains == if reply.Issued? then s.log.chains[family := [Digest(reply.refresh)]] else s.log.chains
  {
    var taking := [Begin(id, ExchangePop(code, redirect, client, verifier)), Go(id, ""), Go(id, "")];
    RunConcat(s, taking, [Tick(later), Advance(id, draw, family, false)]);
    TakingRun(s, id, code, redirect, client, verifier);
    StoringRun(At(Took(s, id, code), id, AfterTake(s, id, code, redirect, client, verifier)), id, later, draw, family);
  }

  /** The handler issues exactly when the code is there, not expired, and was issued for the
      client, the redirect URI and the challenge of the verifier presented.  The code is gone
      in any case, and the token is the only row that appears. */
  lemma ExchangeIssuesExactlyWhen(s: Store, code: string, redirect: string, client: string, verifier: string,
                                  now: real, later: real, draw: string, family: string)
    ensures var (u, reply) := ExchangeHandler(s, code, redirect, client, verifier, now, later, draw, family);
            && (reply.Issued? <==>
                 code in s.codes && now < s.codes[code].expires && s.codes[code].client == client
                 && s.codes[code].redirect == redirect && s.codes[code].challenge == S256(verifier))
            && (reply == Refused(CodeUnusable) <==> code !in s.codes || s.codes[code].expires <= now)
            && (reply == Refused(PkceMismatch) <==>
                 code in s.codes && now < s.codes[code].expires && s.codes[code].client == client
                 && s.codes[code].redirect == redirect && s.codes[code].challenge != S256(verifier))
            && u.clients == s.clients && u.codes == s.codes - {code}
            && (reply.Issued? ==>
                 && reply == Issued(Text(draw), client, family)
                 && Lookup(u, reply.refresh) == Some(Digest(Text(draw)))
                 && u.rows[Digest(Text(draw))]
                    == Row(client, later.Floor, later.Floor + 30 * 24 * 3600, false, family))
            && u.rows.Keys == s.rows.Keys + (if reply.Issued? then {Digest(Text(draw))} else {})
            && (forall k :: k in s.rows && (reply.Issued? ==> k != Digest(Text(draw))) ==> u.rows[k] == s.rows[k])
  {
    if code !in s.codes {
      assert s.codes - {code} == s.codes;
    }
  }

  /** A presented token is accepted for this row: it is there, neither revoked nor expired, and
      the client is its own. */
  predicate Usable(s: Store, t: Token, client: string, now: real) {
    && Lookup(s, t).Some?
    && var row := s.rows[Lookup(s, t).value];
       !row.revoked && now.Floor < row.expires && row.client == client
  }

  /** The rows of this family are revoked, unless it is the empty one, and nothing else changes. */
  ghost predicate SweptFamily(s: Store, u: Store, family: string) {
    && u.rows.Keys == s.rows.Keys && u.clients == s.clients && u.codes == s.codes
    && forall k :: k in s.rows ==>
         u.rows[k] == if family != "" && s.rows[k].family == family then s.rows[k].(revoked := true) else s.rows[k]
  }

  /** A refresh hands out a token exactly when the presented one is usable, otherwise it says
      why not; one request at a time it never loses a race. */
  lemma RefreshIssuesExactlyWhen(s: Store, t: Token, client: string, now: real, later: real, draw: string)
    ensures var (u, reply) := RefreshHandler(s, t, client, now, later, draw);
            && (reply.Issued? <==> Usable(s, t, client, now))
            && (reply == Refused(UnknownToken) <==> Lookup(s, t).None?)
            && (reply == Refused(Reused) <==> Lookup(s, t).Some? && s.rows[Lookup(s, t).value].revoked)
            && (reply == Refused(ClientMismatch) <==>
                 Lookup(s, t).Some? && Usable(s, t, s.rows[Lookup(s, t).value].client, now)
                 && s.rows[Lookup(s, t).value].client != client)
            && reply != Refused(RaceLost)
            && (reply.Refused? && reply.why != Reused ==> u == s)
            && (reply == Refused(Reused) ==> SweptFamily(s, u, s.rows[Lookup(s, t).value].family))
  {
  }

  /** The token it hands out is the one it has stored under its digest, for the client and the
      family of the presented row and for thirty days; that row is revoked and no other row
      changes. */
  lemma RefreshHandsOutTheSuccessor(s: Store, t: Token, client: string, now: real, later: real, draw: string)
    requires Usable(s, t, client, now) && Digest(Text(draw)) !in s.rows
    ensures var (u, reply) := RefreshHandler(s, t, client, now, later, draw);
            var k, added := Lookup(s, t).value, Digest(Text(draw));
            && reply == Issued(Text(draw), client, s.rows[k].family)
            && Lookup(u, reply.refresh) == Some(added) && added != k
            && u.rows.Keys == s.rows.Keys + {added}
            && u.rows[added] == Row(client, later.Floor, later.Floor + 30 * 24 * 3600, false, s.rows[k].family)
            && u.rows[k] == s.rows[k].(revoked := true)
            && (forall l :: l in s.rows && l != k ==> u.rows[l] == s.rows[l])
            && u.clients == s.clients && u.codes == s.codes
  {
  }

  /** Once taken a code is refused, to anyone and at any later time. */
  lemma CodesAreExchangedOnce(s0: State, before: seq<Step>, after: seq<Step>, code: string, redirect: string,
                              client: string, verifier: string, now: real, later: real, draw: string, family: string)
    requires Init(s0) && code in Run(s0, before).log.popped
    ensures ExchangeHandler(Run(Run(s0, before), after).store, code, redirect, client, verifier,
                            now, later, draw, family)
            == (Run(Run(s0, before), after).store, Refused(CodeUnusable))
  {
    NothingComesBack(s0, before, after);
  }

  /** The client of this token gets a successor for it as long as it has not expired. */
  ghost predicate GoesOn(u: Store, t: Token, client: string, family: string, expires: int) {
    forall now: real, later: real, draw: string :: now.Floor < expires ==>
      RefreshHandler(u, t, client, now, later, draw).1 == Issued(Text(draw), client, family)
  }

  lemma IssuedGoesOn(s: Store, code: string, redirect: string, client: string, verifier: string, now: real,
                     later: real, draw: string, family: string)
    requires ExchangeHandler(s, code, redirect, client, verifier, now, later, draw, family).1.Issued?
    ensures GoesOn(ExchangeHandler(s, code, redirect, client, verifier, now, later, draw, family).0, Text(draw),
                   client, family, later.Floor + 30 * 24 * 3600)
  {
  }

  /** The handler that creates families, in any reachable state: what it issues is the one live
      token of a family that goes back to the code presented, its client gets a successor for it
      for thirty days, and the code is never again exchanged. */
  lemma ExchangeFoundsAFamily(s0: State, before: seq<Step>, id: nat, code: string, redirect: string, client: string,
                              verifier: string, later: real, draw: string, family: string)
    requires Init(s0)
    requires var s := Run(s0, before);
             && id !in s.reqs && s.now <= later && Fresh(s, draw) && Fresh(s, family) && draw != family
             && ExchangeHandler(s.store, code, redirect, client, verifier, s.now, later, draw, family).1.Issued?
    ensures var s := Run(s0, before);
            var steps := ExchangeSteps(id, code, redirect, client, verifier, later, draw, family);
            var u := Run(s0, before + steps);
            && u.store == ExchangeHandler(s.store, code, redirect, client, verifier, s.now, later, draw, family).0
            && LiveRows(u, family) == {Digest(Text(draw))}
            && FromCode(u, u.store.rows[Digest(Text(draw))])
            && u.log.births[family].code == code && code in u.log.popped
            && GoesOn(u.store, Text(draw), client, family, later.Floor + 30 * 24 * 3600)
  {
    var s := Run(s0, before);
    var steps := ExchangeSteps(id, code, redirect, client, verifier, later, draw, family);
    RunConcat(s0, before, steps);
    InitInv(s0);
    RunKeepsInv(s0, before);
    RunKeepsInv(s, steps);
    ExchangeIsARun(s, id, code, redirect, client, verifier, later, draw, family);
    FreshFamily(s, family);
    IssuedGoesOn(s.store, code, redirect, client, verifier, s.now, later, draw, family);
    IssuedRow(s, code, redirect, client, verifier, later, draw, family);
    RowComesFromCode(Run(s, steps), Digest(Text(draw)));
  }

  lemma IssuedRow(s: State, code: string, redirect: string, client: string, verifier: string,
                  later: real, draw: string, family: string)
    requires forall k :: k in s.store.rows ==> s.store.rows[k].family != family
    ensures var (u, reply) :=
              ExchangeHandler(s.store, code, redirect, client, verifier, s.now, later, draw, family);
            reply.Issued? ==>
              && Digest(Text(draw)) in u.rows && u.rows[Digest(Text(draw))].family == family
              && LiveRows(s.(store := u), family) == {Digest(Text(draw))}
  {
  }

  lemma OnlyLiveRow(s: State, family: string, k: Token)
    requires Inv(s) && family != "" && k in LiveRows(s, family)
    ensures LiveRows(s, family) == {k}
  {
    OneInInv(s, family);
    var live := LiveRows(s, family);
    assert |live - {k}| == 0;
    assert live == (live - {k}) + {k};
  }

  lemma PresentedIsNotDrawn(s: State, t: Token, draw: string)
    requires KeysOk(s) && Fresh(s, draw) && Lookup(s.store, t).Some?
    ensures Digest(Text(draw)) !in s.store.rows && t != Text(draw)
  {
    FreshKey(s, draw);
    assert KeyOk(s, Lookup(s.store, t).value);
  }

  /** The new token goes on, and the one it replaced is detected as reused. */
  ghost predicate Continues(u: Store, t: Token, added: Token, client: string, family: string, expires: int) {
    && GoesOn(u, added, client, family, expires)
    && (forall other: string, now: real, later: real, draw: string ::
         RefreshHandler(u, t, other, now, later, draw).1 == Refused(Reused))
  }

  lemma SuccessorIsAccepted(s: Store, t: Token, client: string, now: real, later: real, draw: string)
    requires Usable(s, t, client, now) && Digest(Text(draw)) !in s.rows && t != Text(draw)
    ensures Continues(RefreshHandler(s, t, client, now, later, draw).0, t, Text(draw), client,
                      s.rows[Lookup(s, t).value].family, later.Floor + 30 * 24 * 3600)
  {
    var u, family := RefreshHandler(s, t, client, now, later, draw).0, s.rows[Lookup(s, t).value].family;
    RefreshHandsOutTheSuccessor(s, t, client, now, later, draw);
    assert Lookup(u, t) == Lookup(s, t);
    forall now2: real, later2: real, draw2: string | now2.Floor < later.Floor + 30 * 24 * 3600
      ensures RefreshHandler(u, Text(draw), client, now2, later2, draw2).1 == Issued(Text(draw2), client, family)
    {
    }
    forall other: string, now2: real, later2: real, draw2: string
      ensures RefreshHandler(u, t, other, now2, later2, draw2).1 == Refused(Reused)
    {
    }
  }

  lemma RefreshLeavesOneLive(s: State, u: State, t: Token, client: string, later: real, draw: string)
    requires Inv(s) && Inv(u) && Fresh(s, draw) && Usable(s.store, t, client, s.now)
    requires u.store == RefreshHandler(s.store, t, client, s.now, later, draw).0
    ensures var family := s.store.rows[Lookup(s.store, t).value].family;
            family != "" ==> LiveRows(u, family) == {Digest(Text(draw))}
  {
    var family := s.store.rows[Lookup(s.store, t).value].family;
    PresentedIsNotDrawn(s, t, draw);
    RefreshHandsOutTheSuccessor(s.store, t, client, s.now, later, draw);
    if family != "" {
      OnlyLiveRow(u, family, Digest(Text(draw)));
    }
  }

  lemma RefreshFrom(s: State, id: nat, t: Token, client: string, later: real, draw: string, keys: seq<Token>)
    requires Inv(s) && id !in s.reqs && Fresh(s, draw) && s.now <= later
    requires (forall k :: k in s.store.rows ==> k in keys) && Usable(s.store, t, client, s.now)
    ensures var family := s.store.rows[Lookup(s.store, t).value].family;
            var u := Run(s, RefreshSteps(s.store, id, t, client, draw, later, keys));
            && RefreshHandler(s.store, t, client, s.now, later, draw) == (u.store, Issued(Text(draw), client, family))
            && (family != "" ==> LiveRows(u, family) == {Digest(Text(draw))})
            && Continues(u.store, t, Text(draw), client, family, later.Floor + 30 * 24 * 3600)
  {
    var steps := RefreshSteps(s.store, id, t, client, draw, later, keys);
    RefreshIsARun(s, id, t, client, draw, later, keys);
    RunKeepsInv(s, steps);
    PresentedIsNotDrawn(s, t, draw);
    RefreshHandsOutTheSuccessor(s.store, t, client, s.now, later, draw);
    RefreshLeavesOneLive(s, Run(s, steps), t, client, later, draw);
    SuccessorIsAccepted(s.store, t, client, s.now, later, draw);
  }

  /** In every reachable state: the token that a refresh hands out is the one live token of its
      family; its client gets a successor for it for thirty days, and the token it replaced is
      from then on detected as reused. */
  lemma RefreshContinuesTheFamily(s0: State, before: seq<Step>, id: nat, t: Token, client: string,
                                  later: real, draw: string, keys: seq<Token>)
    requires Init(s0)
    requires var s := Run(s0, before);
             && id !in s.reqs && Fresh(s, draw) && s.now <= later
             && (forall k :: k in s.store.rows ==> k in keys) && Usable(s.store, t, client, s.now)
    ensures var s := Run(s0, before);
            var family := s.store.rows[Lookup(s.store, t).value].family;
            var u := Run(s0, before + RefreshSteps(s.store, id, t, client, draw, later, keys));
            && RefreshHandler(s.store, t, client, s.now, later, draw) == (u.store, Issued(Text(draw), client, family))
            && (family != "" ==> LiveRows(u, family) == {Digest(Text(draw))})
            && Continues(u.store, t, Text(draw), client, family, later.Floor + 30 * 24 * 3600)
  {
    var s := Run(s0, before);
    RunConcat(s0, before, RefreshSteps(s.store, id, t, client, draw, later, keys));
    InitInv(s0);
    RunKeepsInv(s0, before);
    RefreshFrom(s, id, t, client, later, draw, keys);
  }

  function RevokeSteps(id: nat, t: Token): seq<Step> {
    [Begin(id, RevokeRead(t)), Go(id, ""), Go(id, "")] + [Go(id, ""), Go(id, "")]
  }

  lemma DoneStays(v: State, id: nat)
    requires id in v.reqs && v.reqs[id].Done?
    ensures Next(v, Go(id, "")) == v
  {
    assert v.reqs[id := v.reqs[id]] == v.reqs;
  }

  /** The conditional update over both keys, with a step to spare. */
  lemma RevokeFlipRun(v: State, id: nat, t: Token)
    requires id in v.reqs && v.reqs[id] == RevokeFlip(t)
    ensures var w := At(v, id, Done(true)).(store := RevokeRefresh(v.store, t).0);
            Next(Next(v, Go(id, "")), Go(id, "")) == w && Next(w, Go(id, "")) == w
  {
    var g, w := Go(id, ""), At(v, id, Done(true)).(store := RevokeRefresh(v.store, t).0);
    DoneStays(w, id);
    if Live(v.store, Digest(t)) {
      assert Next(v, g) == w;
    } else {
      assert Next(v, g) == At(v, id, RevokeFlipPlain(t));
      assert Next(At(v, id, RevokeFlipPlain(t)), g) == w;
    }
  }

  lemma RevokeReadRun(s: State, id: nat, t: Token)
    ensures Next(At(s, id, RevokeRead(t)), Go(id, ""))
            == At(s, id, if Digest(t) in s.store.rows then RevokeFlip(t) else RevokeReadPlain(t))
  {
  }

  lemma RevokePlainRun(s: State, id: nat, t: Token)
    requires Digest(t) !in s.store.rows
    ensures var g := Go(id, "");
            Next(Next(Next(At(s, id, RevokeReadPlain(t)), g), g), g)
            == At(s, id, Done(true)).(store := RevokeHandler(s.store, t))
  {
    var g, v, w := Go(id, ""), At(s, id, RevokeReadPlain(t)), At(s, id, Done(true));
    if t in s.store.rows {
      assert Next(v, g) == At(s, id, RevokeFlip(t));
      RevokeFlipRun(At(s, id, RevokeFlip(t)), id, t);
    } else {
      assert Next(v, g) == w;
      DoneStays(w, id);
    }
  }

  /** A revocation request run alone does to the store what the handler does, and ends well
      whatever was presented. */
  lemma RevokeIsARun(s: State, id: nat, t: Token)
    requires id !in s.reqs
    ensures Run(s, RevokeSteps(id, t)) == At(s, id, Done(true)).(store := RevokeHandler(s.store, t))
  {
    var b, g := Begin(id, RevokeRead(t)), Go(id, "");
    RunConcat(s, [b, g, g], [g, g]);
    Run3(s, b, g, g);
    Run2(Next(Next(Next(s, b), g), g), g, g);
    assert Next(s, b) == At(s, id, RevokeRead(t));
    RevokeReadRun(s, id, t);
    if Digest(t) in s.store.rows {
      RevokeFlipRun(At(s, id, RevokeFlip(t)), id, t);
    } else {
      RevokePlainRun(s, id, t);
    }
  }

  /** The revocation endpoint changes the presented token's row and no other. */
  lemma RevokeTouchesOneRow(s: Store, t: Token, k: Token)
    requires Unambiguous(s, t) && k in s.rows
    ensures var u := RevokeHandler(s, t); u.rows.Keys == s.rows.Keys && u.clients == s.clients && u.codes == s.codes
    ensures RevokeHandler(s, t).rows[k] ==
            if k == t || k == Digest(t) then s.rows[k].(revoked := true) else s.rows[k]
  {
  }
}
