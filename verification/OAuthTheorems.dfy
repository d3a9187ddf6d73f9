/** What the token protocol guarantees over every run, from any legal start and for any
    interleaving of requests. */
module OAuthTheorems {
  import opened Options
  import opened TokenStore
  import opened OAuthProtocol
  import opened OAuthSafety
  import opened OAuthInvariant

  ghost function LiveRows(s: State, family: string): set<Token> {
    set k | k in s.store.rows && !s.store.rows[k].revoked && s.store.rows[k].family == family
  }

  /** Requests that have revoked a row of the family and not yet stored its successor. */
  ghost function Rotating(s: State, family: string): set<nat> {
    set id | id in s.reqs && s.reqs[id].RefreshIssue? && s.reqs[id].family == family
  }

  lemma AtMostOne<T>(q: set<T>, x: T)
    requires q <= {x}
    ensures |q| <= 1
  {
    assert q == {} || q == {x};
  }

  lemma OneInInv(s: State, family: string)
    requires Inv(s) && family != ""
    ensures |LiveRows(s, family)| + |Rotating(s, family)| <= 1
  {
    if family !in s.log.chains {
      assert LiveRows(s, family) == {};
      forall id | id in s.reqs && s.reqs[id].RefreshIssue? ensures s.reqs[id].family != family {
        assert PcOk(s, id, s.reqs[id]);
      }
      assert Rotating(s, family) == {};
    } else {
      assert ChainOk(s, family);
      var last := Last(s.log.chains[family]);
      assert LiveRows(s, family) <= {last};
      AtMostOne(LiveRows(s, family), last);
      if id :| id in Rotating(s, family) {
        assert s.reqs[id].key == last && PcOk(s, id, s.reqs[id]);
        assert LiveRows(s, family) == {};
        forall jd | jd in Rotating(s, family) ensures jd == id {
          assert SameRotation(s.reqs[id], s.reqs[jd]);
        }
        AtMostOne(Rotating(s, family), id);
      } else {
        assert Rotating(s, family) == {};
      }
    }
  }

  /** In every reachable state a named family has at most one live token or one rotation
      under way, never both. */
  lemma OneLiveTokenPerFamily(s0: State, steps: seq<Step>, family: string)
    requires Init(s0) && family != ""
    ensures |LiveRows(Run(s0, steps), family)| + |Rotating(Run(s0, steps), family)| <= 1
  {
    InitInv(s0);
    RunKeepsInv(s0, steps);
    OneInInv(Run(s0, steps), family);
  }

  /** `q` lists the tokens of a family in order of issue. */
  ghost predicate IsChain(s: State, family: string, q: seq<Token>) {
    && (forall k :: k in q <==> k in s.store.rows && s.store.rows[k].family == family)
    && (forall i, j :: 0 <= i < j < |q| ==> q[i] != q[j])
    && (forall i :: 0 <= i < |q| - 1 ==> q[i] in s.store.rows && s.store.rows[q[i]].revoked)
    && (forall i :: 0 < i < |q| && q[i].Digest? ==> q[i] in s.log.parents && s.log.parents[q[i]] == q[i - 1])
  }

  /** The tokens of a named family form one line, each issued by rotating the one before
      it; and no token, of any family, was ever rotated twice. */
  lemma FamiliesAreLinear(s0: State, steps: seq<Step>)
    requires Init(s0)
    ensures var s := Run(s0, steps);
            && (forall f :: f in s.log.chains ==> IsChain(s, f, s.log.chains[f]))
            && (forall k :: k in s.store.rows && s.store.rows[k].family != "" ==>
                 s.store.rows[k].family in s.log.chains)
            && (forall k, l ::
                 k in s.log.parents && l in s.log.parents && s.log.parents[k] == s.log.parents[l] ==> k == l)
            && (forall k :: k in s.log.parents ==>
                 s.log.parents[k] in s.store.rows && s.store.rows[s.log.parents[k]].revoked)
  {
    InitInv(s0);
    RunKeepsInv(s0, steps);
    var s := Run(s0, steps);
    forall f | f in s.log.chains ensures IsChain(s, f, s.log.chains[f]) {
      assert ChainOk(s, f);
    }
  }

  /** From one reachable state to any later one, rows stay, keep client, family and expiry,
      and a revoked row stays revoked; a taken code is gone for good and keeps its taker. */
  lemma NothingComesBack(s0: State, before: seq<Step>, after: seq<Step>)
    requires Init(s0)
    ensures var s, u := Run(s0, before), Run(Run(s0, before), after);
            && RowsGrow(s.store, u.store)
            && (forall c :: c in s.log.popped ==>
                 c !in u.store.codes && c in u.log.popped && u.log.popped[c] == s.log.popped[c])
  {
    InitInv(s0);
    RunKeepsInv(s0, before);
    RunKeepsInv(Run(s0, before), after);
  }

  // ---------------------------------------------------------------- dead families

  /** No live token, and no rotation about to store one. */
  ghost predicate Dead(s: State, family: string) {
    && family != "" && family in s.log.drawn
    && LiveRows(s, family) == {} && Rotating(s, family) == {}
  }

  lemma NextStaysDead(s: State, step: Step, family: string)
    requires Inv(s) && Dead(s, family)
    ensures Dead(Next(s, step), family)
  {
    var u := Next(s, step);
    NextGrows(s, step);
    NoNewLiveRow(s, step, family);
    NoNewRotation(s, step, family);
    assert LiveRows(u, family) == {} && Rotating(u, family) == {};
  }

  lemma NoNewLiveRow(s: State, step: Step, family: string)
    requires Dead(s, family) && Grows(s, Next(s, step))
    ensures forall k :: k in Next(s, step).store.rows && Next(s, step).store.rows[k].family == family ==>
              Next(s, step).store.rows[k].revoked
  {
    forall k | k in Next(s, step).store.rows && k !in s.store.rows
      ensures Next(s, step).store.rows[k].family != family
    {
      NewRowOrigin(s, step, k);
      if s.reqs[step.id].RefreshIssue? {
        assert step.id !in Rotating(s, family);
      }
    }
    forall k | k in Next(s, step).store.rows && Next(s, step).store.rows[k].family == family
      ensures Next(s, step).store.rows[k].revoked
    {
      assert k !in LiveRows(s, family);
    }
  }

  lemma NoNewRotation(s: State, step: Step, family: string)
    requires KeysOk(s) && ChainsOk(s) && PcsOk(s) && RotationsOk(s) && Dead(s, family)
    ensures forall id :: id in Next(s, step).reqs && Next(s, step).reqs[id].RefreshIssue? ==>
              Next(s, step).reqs[id].family != family
  {
    forall id | id in Next(s, step).reqs && Next(s, step).reqs[id].RefreshIssue?
      ensures Next(s, step).reqs[id].family != family
    {
      if id in s.reqs && s.reqs[id].RefreshIssue? {
        assert id !in Rotating(s, family);
        RotationFixed(s, step, id);
      } else {
        NewRotationOrigin(s, step, id);
        WonRow(s, id);
        assert RefreshMove(s.store, s.now, s.reqs[id]).0.key !in LiveRows(s, family);
      }
    }
  }

  lemma RotationFixed(s: State, step: Step, id: nat)
    requires id in s.reqs && s.reqs[id].RefreshIssue?
    ensures id in Next(s, step).reqs
    ensures Next(s, step).reqs[id].RefreshIssue? ==> Next(s, step).reqs[id] == s.reqs[id]
  {
  }

  /** A new row is the first of a newly drawn family or the successor in a rotation. */
  lemma NewRowOrigin(s: State, step: Step, k: Token)
    requires k in Next(s, step).store.rows && k !in s.store.rows
    ensures step.Advance? && step.id in s.reqs
    ensures (s.reqs[step.id].RefreshIssue? && Next(s, step).store.rows[k].family == s.reqs[step.id].family)
            || (s.reqs[step.id].ExchangeIssue? && Next(s, step).store.rows[k].family !in s.log.drawn)
  {
  }

  /** A rotation under way begins with the step that wins the conditional update. */
  lemma NewRotationOrigin(s: State, step: Step, id: nat)
    requires id in Next(s, step).reqs && Next(s, step).reqs[id].RefreshIssue?
    requires !(id in s.reqs && s.reqs[id].RefreshIssue?)
    ensures id in s.reqs && step.Advance? && step.id == id
    ensures Next(s, step) == RefreshStep(s, id)
    ensures RefreshMove(s.store, s.now, s.reqs[id]).0 == Next(s, step).reqs[id]
  {
  }

  /** A family that is dead stays dead, whatever any request does from then on. */
  lemma {:induction false} DeadFamiliesStayDead(s: State, steps: seq<Step>, family: string)
    requires Inv(s) && Dead(s, family)
    ensures Dead(Run(s, steps), family)
    decreases |steps|
  {
    if steps != [] {
      NextStaysDead(s, steps[0], family);
      NextKeepsInv(s, steps[0]);
      DeadFamiliesStayDead(Next(s, steps[0]), steps[1..], family);
    }
  }

  // ---------------------------------------------------------------- who revokes what

  /** A row turns revoked only by a conditional update of a request that presented it, or
      by a family revocation, and then some row of that family was revoked already. */
  lemma WhoRevokes(s: State, step: Step, k: Token)
    requires Inv(s) && Live(s.store, k) && !Live(Next(s, step).store, k)
    ensures (step.Advance? || step.RevokeMember?) && step.id in s.reqs
    ensures step.Advance? ==> Presents(s.reqs[step.id], k)
    ensures step.RevokeMember? ==>
              && step.key == k && s.reqs[step.id].FamilyRevoke?
              && s.reqs[step.id].family == s.store.rows[k].family != ""
              && s.reqs[step.id].key in s.store.rows && s.store.rows[s.reqs[step.id].key].revoked
              && s.store.rows[s.reqs[step.id].key].family == s.store.rows[k].family
  {
    match step
    case Advance(id, draw, draw2, identityOk) =>
      assert id in s.reqs;
      AdvanceFlips(s, id, draw, draw2, identityOk, k);
    case RevokeMember(id, key) =>
      assert PcOk(s, id, s.reqs[id]);
    case _ =>
  }

  /** About to run the conditional update of a refresh or a revocation on this row. */
  ghost predicate Presents(pc: Pc, k: Token) {
    && (pc.RefreshFlip? || pc.RefreshFlipPlain? || pc.RevokeFlip? || pc.RevokeFlipPlain?)
    && (k == pc.t || k == Digest(pc.t))
  }

  lemma AdvanceFlips(s: State, id: nat, draw: string, draw2: string, identityOk: bool, k: Token)
    requires KeysOk(s) && id in s.reqs && Live(s.store, k)
    requires !Live(AdvanceStep(s, id, draw, draw2, identityOk).store, k)
    ensures Presents(s.reqs[id], k)
  {
    assert Fresh(s, draw) ==> Digest(Text(draw)) !in s.store.rows;
  }

  // ---------------------------------------------------------------- where tokens come from

  ghost predicate FromCode(s: State, row: Row) {
    && row.family in s.log.births
    && Granted(s, s.log.births[row.family])
    && row.client == s.log.births[row.family].client
    && s.log.births[row.family].code in s.log.grants
    && Sanctioned(s, s.log.grants[s.log.births[row.family].code])
    && s.log.grants[s.log.births[row.family].code].ask
       == Ask(row.client, s.log.births[row.family].redirect, S256(s.log.births[row.family].verifier))
  }

  lemma RowComesFromCode(s: State, k: Token)
    requires Inv(s) && k in s.store.rows && s.store.rows[k].family != ""
    ensures s.store.rows[k].family in s.log.oldFamilies || FromCode(s, s.store.rows[k])
  {
    var f := s.store.rows[k].family;
    assert ChainOk(s, f);
    var i :| 0 <= i < |s.log.chains[f]| && s.log.chains[f][i] == k;
    if f in s.log.births {
      assert Granted(s, s.log.births[f]);
      assert GrantOk(s.log, s.log.births[f].code);
    }
  }

  /** Every token of a family that is not inherited goes back to one authorization code:
      taken once, before it expired, by the founding request, which presented the client,
      redirect URI and verifier the code was issued for; the client had registered that
      URI and the request had been approved.  Two families never share a code. */
  lemma TokensComeFromCodes(s0: State, steps: seq<Step>)
    requires Init(s0)
    ensures var s := Run(s0, steps);
            && (forall k :: k in s.store.rows && s.store.rows[k].family != "" ==>
                 s.store.rows[k].family in s.log.oldFamilies || FromCode(s, s.store.rows[k]))
            && (forall f, g :: f in s.log.births && g in s.log.births && f != g ==>
                 s.log.births[f].code != s.log.births[g].code)
  {
    InitInv(s0);
    RunKeepsInv(s0, steps);
    var s := Run(s0, steps);
    forall k | k in s.store.rows && s.store.rows[k].family != ""
      ensures s.store.rows[k].family in s.log.oldFamilies || FromCode(s, s.store.rows[k])
    {
      RowComesFromCode(s, k);
    }
  }

  /** In a gated deployment every code ever issued, over any run, comes from the callback: the
      identity provider had vouched for the user, and the login state presented was one that
      `authorize` had signed for this very request and that had not expired.  The code was
      issued no earlier than that. */
  lemma GatedCodesWereSigned(s0: State, steps: seq<Step>, code: string)
    requires Init(s0) && s0.gated && code in Run(s0, steps).log.issued
    ensures var log := Run(s0, steps).log;
            && code in log.grants && Verified(log, log.grants[code])
            && log.grants[code].ask == AskOf(log.issued[code])
            && log.grants[code].at <= log.issued[code].expires - 60.0
  {
    InitInv(s0);
    RunKeepsInv(s0, steps);
    assert GrantOk(Run(s0, steps).log, code);
  }

  /** In every run of any deployment a code is only ever issued to a registered client, for a
      redirect URI that it registered, and after somebody asked for just that. */
  lemma CodesAreForRegisteredClients(s0: State, steps: seq<Step>, code: string)
    requires Init(s0) && code in Run(s0, steps).log.issued
    ensures var s := Run(s0, steps);
            Registered(s.store, AskOf(s.log.issued[code])) && AskOf(s.log.issued[code]) in s.log.asked
  {
    InitInv(s0);
    RunKeepsInv(s0, steps);
    assert GrantOk(Run(s0, steps).log, code);
  }

  // ---------------------------------------------------------------- the life of a code

  /** A code is issued for what was approved and for sixty seconds from its issue. */
  lemma CodeStepIssues(s: State, id: nat, draw: string)
    requires id in s.reqs && s.reqs[id].AuthorizeIssue? && Fresh(s, draw)
    ensures var ask, u := s.reqs[id].approval.ask, CodeStep(s, id, draw);
            && draw in u.store.codes && draw in u.log.issued
            && u.store.codes[draw] == u.log.issued[draw] == Code(ask.client, ask.challenge, ask.redirect, s.now + 60.0)
            && u.store.codes.Keys == s.store.codes.Keys + {draw} && u.store.rows == s.store.rows
  {
  }

  lemma NoCodeElsewhere(s: State, id: nat, draw: string, draw2: string, identityOk: bool)
    requires id in s.reqs && !s.reqs[id].AuthorizeIssue?
    ensures AdvanceStep(s, id, draw, draw2, identityOk).log.issued == s.log.issued
  {
    if Plain(s.reqs[id]) {
      assert RefreshStep(s, id).log == s.log;
    }
  }

  lemma NewCode(s: State, step: Step, c: string)
    requires c in Next(s, step).log.issued && c !in s.log.issued
    ensures Next(s, step).log.issued[c].expires == s.now + 60.0
  {
    match step
    case Advance(id, draw, draw2, identityOk) =>
      if id in s.reqs && !s.reqs[id].AuthorizeIssue? {
        NoCodeElsewhere(s, id, draw, draw2, identityOk);
      }
    case _ =>
  }

  ghost predicate WithinAMinute(s: State) { forall c :: c in s.log.issued ==> s.log.issued[c].expires <= s.now + 60.0 }

  lemma NextWithinAMinute(s: State, step: Step)
    requires Grows(s, Next(s, step)) && WithinAMinute(s)
    ensures WithinAMinute(Next(s, step))
  {
    var u := Next(s, step);
    forall c | c in u.log.issued ensures u.log.issued[c].expires <= u.now + 60.0 {
      if c in s.log.issued {
        assert u.log.issued[c] == s.log.issued[c];
      } else {
        NewCode(s, step, c);
      }
    }
  }

  lemma {:induction false} RunWithinAMinute(s: State, steps: seq<Step>)
    requires Inv(s) && WithinAMinute(s)
    ensures WithinAMinute(Run(s, steps))
    decreases |steps|
  {
    if steps != [] {
      NextGrows(s, steps[0]);
      NextWithinAMinute(s, steps[0]);
      NextKeepsInv(s, steps[0]);
      RunWithinAMinute(Next(s, steps[0]), steps[1..]);
    }
  }

  /** In every run no code ever outlives the next sixty seconds: what was issued before is
      unusable a minute later, taken or not. */
  lemma CodesExpireWithinAMinute(s0: State, before: seq<Step>, after: seq<Step>, code: string)
    requires Init(s0) && code in Run(s0, before).log.issued
    requires Run(Run(s0, before), after).now >= Run(s0, before).now + 60.0
    ensures var u := Run(Run(s0, before), after);
            PopCode(u.store, code, u.now).1 == None
  {
    InitInv(s0);
    RunKeepsInv(s0, before);
    RunWithinAMinute(s0, before);
    RunKeepsInv(Run(s0, before), after);
  }

  // ---------------------------------------------------------------- the life of a login state

  ghost predicate LoginsShort(s: State) { forall l :: l in s.log.logins ==> l.expires as real <= s.now + 600.0 }

  lemma NextLoginsShort(s: State, step: Step)
    requires LoginsShort(s)
    ensures LoginsShort(Next(s, step)) && s.now <= Next(s, step).now
  {
    match step
    case Advance(id, draw, draw2, identityOk) =>
      if id in s.reqs {
        AdvanceLogins(s, id, draw, draw2, identityOk);
      }
    case _ =>
  }

  lemma AdvanceLogins(s: State, id: nat, draw: string, draw2: string, identityOk: bool)
    requires id in s.reqs
    ensures var u := AdvanceStep(s, id, draw, draw2, identityOk);
            u.now == s.now
            && forall l :: l in u.log.logins && l !in s.log.logins ==> l.expires as real <= s.now + 600.0
  {
    if Plain(s.reqs[id]) {
      assert RefreshStep(s, id).log == s.log;
    }
  }

  lemma {:induction false} RunLoginsShort(s: State, steps: seq<Step>)
    requires LoginsShort(s)
    ensures LoginsShort(Run(s, steps)) && s.now <= Run(s, steps).now
    decreases |steps|
  {
    if steps != [] {
      NextLoginsShort(s, steps[0]);
      RunLoginsShort(Next(s, steps[0]), steps[1..]);
    }
  }

  /** In every run, ten minutes after a login state was signed no callback with it gets any
      further, whoever presents it and whatever the identity provider says. */
  lemma LoginsExpireInTenMinutes(
    s0: State, before: seq<Step>, after: seq<Step>, id: nat, identityOk: bool, draw: string, draw2: string)
    requires Init(s0)
    requires var s, u := Run(s0, before), Run(Run(s0, before), after);
             && id in u.reqs && u.reqs[id].CallbackClient? && u.reqs[id].login in s.log.logins
             && u.now >= s.now + 600.0
    ensures var u := Run(Run(s0, before), after);
            Next(u, Advance(id, draw, draw2, identityOk)) == At(u, id, Done(false))
  {
    RunLoginsShort(s0, before);
  }
}
