/** Safety of the token protocol over every interleaving. */
module OAuthSafety {
  import opened TokenStore
  import opened OAuthProtocol

  // ------------------------------------------------------- what no step takes back

  /** Nothing is forgotten: rows and clients stay, a revoked row stays revoked, and the
      record of codes, approvals and foundings only grows. */
  ghost predicate Grows(s: State, u: State) {
    && RowsGrow(s.store, u.store) && ClientsGrow(s.store, u.store)
    && s.gated == u.gated && s.now <= u.now && LogGrows(s.log, u.log) && ReqsGrow(s.reqs, u.reqs)
  }

  ghost predicate ClientsGrow(s: Store, u: Store) {
    s.clients.Keys <= u.clients.Keys && forall c :: c in s.clients ==> u.clients[c] == s.clients[c]
  }

  ghost predicate ReqsGrow(p: map<nat, Pc>, q: map<nat, Pc>) {
    forall id :: id in p ==> id in q && (p[id].Done? ==> q[id].Done?)
  }

  ghost predicate LogGrows(p: Log, q: Log) {
    && p.legacy == q.legacy && p.oldFamilies == q.oldFamilies && p.drawn <= q.drawn
    && p.asked <= q.asked && p.approved <= q.approved && p.logins <= q.logins
    && (forall c :: c in p.issued ==> c in q.issued && q.issued[c] == p.issued[c])
    && (forall c :: c in p.grants ==> c in q.grants && q.grants[c] == p.grants[c])
    && (forall c :: c in p.popped ==> c in q.popped && q.popped[c] == p.popped[c])
    && (forall f :: f in p.births ==> f in q.births && q.births[f] == p.births[f])
    && (forall k :: k in p.parents ==> k in q.parents && q.parents[k] == p.parents[k])
    && (forall f :: f in p.chains ==> f in q.chains)
  }

  ghost predicate RowsGrow(s: Store, u: Store) {
    forall k :: k in s.rows ==>
      && k in u.rows && SameGrant(s.rows[k], u.rows[k])
      && (s.rows[k].revoked ==> u.rows[k].revoked)
  }

  lemma GrowsTransitive(s: State, u: State, v: State)
    requires Grows(s, u) && Grows(u, v)
    ensures Grows(s, v)
  {
    RowsGrowTransitive(s.store, u.store, v.store);
    LogGrowsTransitive(s.log, u.log, v.log);
    assert ReqsGrow(s.reqs, v.reqs);
    assert ClientsGrow(s.store, v.store);
  }

  lemma RowsGrowTransitive(s: Store, u: Store, v: Store)
    requires RowsGrow(s, u) && RowsGrow(u, v)
    ensures RowsGrow(s, v)
  {
    forall k | k in s.rows
      ensures k in v.rows && SameGrant(s.rows[k], v.rows[k]) && (s.rows[k].revoked ==> v.rows[k].revoked)
    {
      assert k in u.rows;
    }
  }

  lemma LogGrowsTransitive(p: Log, q: Log, r: Log)
    requires LogGrows(p, q) && LogGrows(q, r)
    ensures LogGrows(p, r)
  {
  }

  lemma FreshKey(s: State, draw: string)
    requires KeysOk(s) && Fresh(s, draw)
    ensures Digest(Text(draw)) !in s.store.rows
  {
  }

  lemma FreshFamily(s: State, draw: string)
    requires ChainsOk(s) && Fresh(s, draw)
    ensures draw !in s.log.births && draw !in s.log.chains
    ensures forall k :: k in s.store.rows ==> s.store.rows[k].family != draw
  {
  }

  /** A presented token never names both a digest row and a plain row. */
  lemma NeverAmbiguous(s: State, t: Token)
    requires KeysOk(s)
    ensures Unambiguous(s.store, t)
  {
  }

  lemma AuthorizeGrows(s: State, id: nat, identityOk: bool)
    requires id in s.reqs && (s.reqs[id].AuthorizeClient? || s.reqs[id].CallbackClient?)
    ensures Grows(s, AuthorizeStep(s, id, identityOk))
  {
  }

  lemma CodeGrows(s: State, id: nat, draw: string)
    requires CodesOk(s) && ApprovalsOk(s) && id in s.reqs && s.reqs[id].AuthorizeIssue?
    ensures Grows(s, CodeStep(s, id, draw))
  {
    assert Fresh(s, draw) ==> draw !in s.log.issued && draw !in s.log.grants;
  }

  lemma PopGrows(s: State, id: nat)
    requires CodesOk(s) && id in s.reqs && s.reqs[id].ExchangePop?
    ensures Grows(s, PopStep(s, id))
  {
    assert s.reqs[id].code in s.store.codes ==> s.reqs[id].code !in s.log.popped;
  }

  lemma FoundGrows(s: State, id: nat, draw: string, draw2: string)
    requires KeysOk(s) && ChainsOk(s) && id in s.reqs && s.reqs[id].ExchangeIssue?
    ensures Grows(s, FoundStep(s, id, draw, draw2))
  {
    if Fresh(s, draw) && Fresh(s, draw2) {
      FreshKey(s, draw);
      FreshFamily(s, draw2);
    }
  }

  lemma FlipGrows(s: Store, k: Token)
    requires k in s.rows
    ensures RowsGrow(s, Flip(s, k))
  {
  }

  lemma RefreshGrows(s: State, id: nat)
    requires id in s.reqs
    ensures Grows(s, RefreshStep(s, id))
  {
    var (pc, k) := RefreshMove(s.store, s.now, s.reqs[id]);
    if k.Some? {
      FlipGrows(s.store, k.value);
    }
    assert ReqsGrow(s.reqs, s.reqs[id := pc]);
  }

  lemma RotateGrows(s: State, id: nat, draw: string)
    requires KeysOk(s) && RotationsOk(s) && id in s.reqs && s.reqs[id].RefreshIssue?
    ensures Grows(s, RotateStep(s, id, draw))
  {
    if Fresh(s, draw) {
      FreshKey(s, draw);
    }
  }

  lemma RegisterGrows(s: State, name: string, redirects: seq<string>, draw: string)
    requires CodesOk(s)
    ensures Grows(s, RegisterStep(s, name, redirects, draw))
  {
    assert Fresh(s, draw) ==> draw !in s.store.clients;
  }

  lemma MemberGrows(s: State, id: nat, key: Token)
    ensures Grows(s, MemberStep(s, id, key))
  {
  }

  lemma BeginGrows(s: State, id: nat, pc: Pc)
    ensures Grows(s, Next(s, Begin(id, pc)))
  {
  }

  lemma TickGrows(s: State, to: real)
    ensures Grows(s, Next(s, Tick(to)))
  {
  }

  /** The counters whose step draws nothing and takes no code. */
  predicate Plain(pc: Pc) {
    !pc.AuthorizeClient? && !pc.CallbackClient? && !pc.AuthorizeIssue? && !pc.ExchangePop?
    && !pc.ExchangeCheck? && !pc.ExchangeIssue? && !pc.RefreshIssue?
  }

  lemma CheckGrows(s: State, id: nat)
    requires id in s.reqs && s.reqs[id].ExchangeCheck?
    ensures Grows(s, At(s, id, Checked(s.reqs[id], id, s.now)))
  {
    assert ReqsGrow(s.reqs, s.reqs[id := Checked(s.reqs[id], id, s.now)]);
  }

  lemma AdvanceGrows(s: State, id: nat, draw: string, draw2: string, identityOk: bool)
    requires CodesOk(s) && ApprovalsOk(s) && KeysOk(s) && ChainsOk(s) && RotationsOk(s) && id in s.reqs
    ensures Grows(s, AdvanceStep(s, id, draw, draw2, identityOk))
  {
    var pc := s.reqs[id];
    if Plain(pc) {
      RefreshGrows(s, id);
    } else if pc.AuthorizeClient? || pc.CallbackClient? {
      AuthorizeGrows(s, id, identityOk);
    } else if pc.AuthorizeIssue? {
      CodeGrows(s, id, draw);
    } else if pc.ExchangePop? {
      PopGrows(s, id);
    } else if pc.ExchangeCheck? {
      CheckGrows(s, id);
    } else if pc.ExchangeIssue? {
      FoundGrows(s, id, draw, draw2);
    } else {
      RotateGrows(s, id, draw);
    }
  }

  lemma NextGrows(s: State, step: Step)
    requires CodesOk(s) && ApprovalsOk(s) && KeysOk(s) && ChainsOk(s) && RotationsOk(s)
    ensures Grows(s, Next(s, step))
  {
    match step
    case Tick(to) => TickGrows(s, to);
    case Register(name, redirects, draw) => RegisterGrows(s, name, redirects, draw);
    case Begin(id, pc) => BeginGrows(s, id, pc);
    case Advance(id, draw, draw2, identityOk) =>
      if id in s.reqs {
        AdvanceGrows(s, id, draw, draw2, identityOk);
      }
    case RevokeMember(id, key) => MemberGrows(s, id, key);
  }

  lemma {:induction false} RunConcat(s: State, p: seq<Step>, q: seq<Step>)
    ensures Run(s, p + q) == Run(Run(s, p), q)
    decreases |p|
  {
    if p == [] {
      assert p + q == q;
    } else {
      assert (p + q)[1..] == p[1..] + q;
      RunConcat(Next(s, p[0]), p[1..], q);
    }
  }
}
