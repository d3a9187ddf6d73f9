/** The protocol invariant holds in every reachable state. */
module OAuthInvariant {
  import opened Options
  import opened TokenStore
  import opened OAuthProtocol
  import opened OAuthSafety

  // ---------------------------------------------------------------- rows and keys

  /** New rows appear only under the digest of a text drawn by the step. */
  lemma KeysKept(s: State, u: State)
    requires KeysOk(s) && Grows(s, u)
    requires forall k :: k in u.store.rows && k !in s.store.rows ==> KeyOk(u, k)
    ensures KeysOk(u)
  {
    forall k | k in u.store.rows ensures KeyOk(u, k) {
      if k in s.store.rows {
        assert KeyOk(s, k);
      }
    }
  }

  // ---------------------------------------------------------------- codes

  lemma CodesFrame(s: State, u: State)
    requires CodesOk(s) && Grows(s, u)
    requires u.store.codes == s.store.codes && u.store.clients == s.store.clients
    requires u.log.issued == s.log.issued && u.log.popped == s.log.popped
    ensures CodesOk(u)
  {
  }

  lemma CodesRegister(s: State, name: string, redirects: seq<string>, draw: string)
    requires CodesOk(s)
    ensures CodesOk(RegisterStep(s, name, redirects, draw))
  {
  }

  lemma CodesCode(s: State, id: nat, draw: string)
    requires CodesOk(s) && id in s.reqs && s.reqs[id].AuthorizeIssue?
    ensures CodesOk(CodeStep(s, id, draw))
  {
    assert Fresh(s, draw) ==> draw !in s.log.issued;
  }

  lemma CodesPop(s: State, id: nat)
    requires CodesOk(s) && id in s.reqs && s.reqs[id].ExchangePop?
    ensures CodesOk(PopStep(s, id))
  {
    var u, code := PopStep(s, id), s.reqs[id].code;
    if code in s.store.codes {
      assert u.store.codes.Keys == s.store.codes.Keys - {code};
      assert u.log.popped.Keys == s.log.popped.Keys + {code};
    }
  }

  // ---------------------------------------------------------------- approvals

  lemma SanctionedStays(s: State, u: State, a: Approval)
    requires Grows(s, u) && Sanctioned(s, a)
    ensures Sanctioned(u, a)
  {
  }

  /** Nothing is asked, signed, approved or issued. */
  lemma ApprovalsFrame(s: State, u: State)
    requires ApprovalsOk(s) && Grows(s, u)
    requires u.log.asked == s.log.asked && u.log.approved == s.log.approved && u.log.logins == s.log.logins
    requires u.log.issued == s.log.issued && u.log.grants == s.log.grants
    ensures ApprovalsOk(u)
  {
    forall a | a in u.log.approved ensures Sanctioned(u, a) {
      SanctionedStays(s, u, a);
    }
    forall c | c in u.log.issued ensures GrantOk(u.log, c) {
      assert GrantOk(s.log, c);
    }
  }

  /** More requests, login states and approvals on record, each in order. */
  lemma ApprovalsMore(s: State, u: State)
    requires ApprovalsOk(s) && Grows(s, u) && u.store == s.store
    requires u.log.issued == s.log.issued && u.log.grants == s.log.grants
    requires forall a :: a in u.log.asked && a !in s.log.asked ==> Registered(s.store, a)
    requires forall a :: a in u.log.approved && a !in s.log.approved ==> Sanctioned(u, a)
    requires forall l :: l in u.log.logins && l !in s.log.logins ==> l.ask in u.log.asked
    ensures ApprovalsOk(u)
  {
    forall a | a in u.log.approved ensures Sanctioned(u, a) {
      if a in s.log.approved {
        SanctionedStays(s, u, a);
      }
    }
    forall c | c in u.log.issued ensures GrantOk(u.log, c) {
      assert GrantOk(s.log, c);
    }
  }

  /** The first visit does not ask who the user is. */
  lemma ApprovalsAsk(s: State, id: nat)
    requires ApprovalsOk(s) && id in s.reqs && s.reqs[id].AuthorizeClient?
    ensures ApprovalsOk(AuthorizeStep(s, id, false))
  {
    AuthorizeGrows(s, id, false);
    ApprovalsMore(s, AuthorizeStep(s, id, false));
  }

  lemma ApprovalsCallback(s: State, id: nat, identityOk: bool)
    requires ApprovalsOk(s) && id in s.reqs && s.reqs[id].CallbackClient?
    ensures ApprovalsOk(AuthorizeStep(s, id, identityOk))
  {
    AuthorizeGrows(s, id, identityOk);
    ApprovalsMore(s, AuthorizeStep(s, id, identityOk));
  }

  lemma ApprovalsAuthorize(s: State, id: nat, identityOk: bool)
    requires ApprovalsOk(s) && id in s.reqs && (s.reqs[id].AuthorizeClient? || s.reqs[id].CallbackClient?)
    ensures ApprovalsOk(AuthorizeStep(s, id, identityOk))
  {
    if s.reqs[id].AuthorizeClient? {
      ApprovalsAsk(s, id);
      assert AuthorizeStep(s, id, identityOk) == AuthorizeStep(s, id, false);
    } else {
      ApprovalsCallback(s, id, identityOk);
    }
  }

  lemma ApprovalsCode(s: State, id: nat, draw: string)
    requires CodesOk(s) && ApprovalsOk(s) && PcsOk(s) && id in s.reqs && s.reqs[id].AuthorizeIssue?
    ensures ApprovalsOk(CodeStep(s, id, draw))
  {
    var u := CodeStep(s, id, draw);
    CodeGrows(s, id, draw);
    assert PcOk(s, id, s.reqs[id]);
    forall a | a in u.log.approved ensures Sanctioned(u, a) {
      SanctionedStays(s, u, a);
    }
    forall c | c in u.log.issued ensures GrantOk(u.log, c) {
      if c in s.log.issued {
        assert GrantOk(s.log, c);
      }
    }
  }

  // ---------------------------------------------------------------- foundings

  lemma GrantedStays(s: State, u: State, b: Birth)
    requires Grows(s, u) && Granted(s, b)
    ensures Granted(u, b)
  {
  }

  lemma BirthsFrame(s: State, u: State)
    requires BirthsOk(s) && Grows(s, u) && u.log.births == s.log.births
    ensures BirthsOk(u)
  {
    forall f | f in u.log.births ensures Granted(u, u.log.births[f]) {
      GrantedStays(s, u, s.log.births[f]);
    }
  }

  /** A code that founded a family belongs to a finished request, so the founding request
      holds a code of its own. */
  lemma BirthsFound(s: State, id: nat, draw: string, draw2: string)
    requires KeysOk(s) && ChainsOk(s) && BirthsOk(s) && PcsOk(s) && id in s.reqs && s.reqs[id].ExchangeIssue?
    ensures BirthsOk(FoundStep(s, id, draw, draw2))
  {
    var u, b := FoundStep(s, id, draw, draw2), s.reqs[id].birth;
    FoundGrows(s, id, draw, draw2);
    assert PcOk(s, id, s.reqs[id]);
    if Fresh(s, draw) && Fresh(s, draw2) && draw != draw2 {
      FreshFamily(s, draw2);
      forall f | f in s.log.births ensures s.log.births[f].code != b.code {
        assert Granted(s, s.log.births[f]);
        assert s.reqs[s.log.births[f].request].Done?;
      }
      forall f | f in u.log.births ensures Granted(u, u.log.births[f]) {
        GrantedStays(s, u, u.log.births[f]);
      }
    }
  }

  // ---------------------------------------------------------------- chains

  lemma ChainsFrame(s: State, u: State)
    requires ChainsOk(s) && Grows(s, u) && u.store.rows.Keys == s.store.rows.Keys
    requires u.log.chains == s.log.chains && u.log.births == s.log.births && u.log.parents == s.log.parents
    ensures ChainsOk(u)
  {
    forall f | f in u.log.chains ensures ChainOk(u, f) {
      assert ChainOk(s, f);
    }
    forall k | k in u.store.rows && u.store.rows[k].family != ""
      ensures u.store.rows[k].family in u.log.chains && k in u.log.chains[u.store.rows[k].family]
    {
      assert SameGrant(s.store.rows[k], u.store.rows[k]);
    }
  }

  lemma ChainsFound(s: State, id: nat, draw: string, draw2: string)
    requires KeysOk(s) && ChainsOk(s) && PcsOk(s) && id in s.reqs && s.reqs[id].ExchangeIssue?
    ensures ChainsOk(FoundStep(s, id, draw, draw2))
  {
    var u := FoundStep(s, id, draw, draw2);
    if Fresh(s, draw) && Fresh(s, draw2) && draw != draw2 {
      FreshKey(s, draw);
      FreshFamily(s, draw2);
      var new' := Digest(Text(draw));
      assert ChainOk(u, draw2);
      forall f | f in u.log.chains && f != draw2 ensures ChainOk(u, f) {
        ChainElsewhere(s, u, f, new');
      }
    }
  }

  /** A family to which the step adds no row keeps its chain. */
  lemma ChainElsewhere(s: State, u: State, f: string, added: Token)
    requires ChainOk(s, f) && added !in s.store.rows
    requires f in u.log.chains && u.log.chains[f] == s.log.chains[f]
    requires s.log.drawn <= u.log.drawn && u.log.oldFamilies == s.log.oldFamilies
    requires f in u.log.births <==> f in s.log.births
    requires f in s.log.births ==> u.log.births[f] == s.log.births[f]
    requires forall k :: k in s.store.rows ==> k in u.store.rows && u.store.rows[k] == s.store.rows[k]
    requires forall k :: k in s.log.parents && k != added ==> k in u.log.parents && u.log.parents[k] == s.log.parents[k]
    ensures ChainOk(u, f)
  {
    var q := s.log.chains[f];
    forall i | 0 < i < |q| && q[i].Digest? ensures q[i] in u.log.parents && u.log.parents[q[i]] == q[i - 1] {
      assert q[i] in s.store.rows;
    }
  }

  /** A rotation leaves the chains of the other families as they are. */
  lemma RotateElsewhere(s: State, id: nat, draw: string, f: string)
    requires KeysOk(s) && ChainOk(s, f) && id in s.reqs && s.reqs[id].RefreshIssue?
    requires Fresh(s, draw) && f != s.reqs[id].family
    ensures ChainOk(RotateStep(s, id, draw), f)
  {
    FreshKey(s, draw);
    ChainElsewhere(s, RotateStep(s, id, draw), f, Digest(Text(draw)));
  }

  /** Every row of a named family is in its chain, the successor at the end of its own. */
  lemma RotateListed(s: State, id: nat, draw: string)
    requires KeysOk(s) && ChainsOk(s) && id in s.reqs && s.reqs[id].RefreshIssue? && Fresh(s, draw)
    ensures var u := RotateStep(s, id, draw);
            forall k :: k in u.store.rows && u.store.rows[k].family != "" ==>
              u.store.rows[k].family in u.log.chains && k in u.log.chains[u.store.rows[k].family]
  {
    FreshKey(s, draw);
  }

  /** The successor goes to the end of the chain, right after the row it replaces. */
  lemma ChainsRotate(s: State, id: nat, draw: string)
    requires KeysOk(s) && ChainsOk(s) && PcsOk(s) && RotationsOk(s) && id in s.reqs && s.reqs[id].RefreshIssue?
    ensures ChainsOk(RotateStep(s, id, draw))
  {
    var u := RotateStep(s, id, draw);
    if Fresh(s, draw) {
      var family := s.reqs[id].family;
      assert PcOk(s, id, s.reqs[id]);
      if family != "" {
        assert s.store.rows[s.reqs[id].key].family in s.log.chains;
        ChainExtended(s, id, draw);
      }
      forall f | f in u.log.chains && f != family ensures ChainOk(u, f) {
        RotateElsewhere(s, id, draw, f);
      }
      RotateListed(s, id, draw);
    }
  }

  lemma ChainExtended(s: State, id: nat, draw: string)
    requires KeysOk(s) && RotationsOk(s) && id in s.reqs && s.reqs[id].RefreshIssue?
    requires Fresh(s, draw) && PcOk(s, id, s.reqs[id]) && ChainOk(s, s.reqs[id].family)
    ensures ChainOk(RotateStep(s, id, draw), s.reqs[id].family)
  {
    var u := RotateStep(s, id, draw);
    FreshKey(s, draw);
    var f, new' := s.reqs[id].family, Digest(Text(draw));
    var q := s.log.chains[f];
    assert u.log.chains[f] == q + [new'];
    assert s.reqs[id].key == Last(q);
    assert s.store.rows[Last(q)].revoked;
    assert new' !in q;
    forall i | 0 < i < |q + [new']| && (q + [new'])[i].Digest?
      ensures (q + [new'])[i] in u.log.parents && u.log.parents[(q + [new'])[i]] == (q + [new'])[i - 1]
    {
      if i < |q| {
        assert q[i] in s.store.rows && q[i] != new';
      }
    }
  }

  // ---------------------------------------------------------------- requests

  lemma PcStays(s: State, u: State, id: nat, pc: Pc)
    requires Grows(s, u) && PcOk(s, id, pc)
    ensures PcOk(u, id, pc)
  {
  }

  /** One request moves to a counter that fits the new state; the others stay. */
  lemma PcsMove(s: State, u: State, id: nat, pc: Pc)
    requires PcsOk(s) && Grows(s, u) && u.reqs == s.reqs[id := pc] && PcOk(u, id, pc)
    ensures PcsOk(u)
  {
    forall jd | jd in u.reqs ensures PcOk(u, jd, u.reqs[jd]) {
      if jd != id {
        PcStays(s, u, jd, s.reqs[jd]);
      }
    }
  }

  /** The conditional update flips the very row that was read, and the request that wins
      carries that row's client and family. */
  lemma RefreshMoves(s: State, id: nat)
    requires KeysOk(s) && PcsOk(s) && id in s.reqs && !s.reqs[id].RefreshIssue?
    requires !s.reqs[id].ExchangeCheck? && !s.reqs[id].ExchangeIssue? && !s.reqs[id].AuthorizeIssue?
    ensures PcOk(RefreshStep(s, id), id, RefreshStep(s, id).reqs[id])
  {
    assert PcOk(s, id, s.reqs[id]);
    match s.reqs[id]
    case RefreshFlip(t, client, key, row) => NeverAmbiguous(s, t);
    case RefreshFlipPlain(t, client, key, row) => NeverAmbiguous(s, t);
    case _ =>
  }

  // ---------------------------------------------------------------- rotations

  lemma RotationsFrame(s: State, u: State)
    requires RotationsOk(s) && Grows(s, u)
    requires u.log.parents == s.log.parents && u.log.chains == s.log.chains
    requires forall id :: id in u.reqs && u.reqs[id].RefreshIssue? ==> id in s.reqs && u.reqs[id] == s.reqs[id]
    ensures RotationsOk(u)
  {
  }

  /** The row a request wins is live, so it ends its chain, and no other request and no
      successor has it. */
  lemma WonRow(s: State, id: nat)
    requires KeysOk(s) && ChainsOk(s) && PcsOk(s) && RotationsOk(s) && id in s.reqs && !s.reqs[id].RefreshIssue?
    requires RefreshMove(s.store, s.now, s.reqs[id]).0.RefreshIssue?
    ensures var pc := RefreshMove(s.store, s.now, s.reqs[id]).0;
            && RefreshMove(s.store, s.now, s.reqs[id]).1 == Some(pc.key)
            && Live(s.store, pc.key) && s.store.rows[pc.key].family == pc.family
            && s.store.rows[pc.key].client == pc.client
            && (pc.family in s.log.chains ==>
                 |s.log.chains[pc.family]| > 0 && pc.key == Last(s.log.chains[pc.family]))
            && (forall jd :: jd in s.reqs && s.reqs[jd].RefreshIssue? ==> s.reqs[jd].key != pc.key)
            && (forall k :: k in s.log.parents ==> s.log.parents[k] != pc.key)
  {
    var pc := RefreshMove(s.store, s.now, s.reqs[id]).0;
    assert PcOk(s, id, s.reqs[id]);
    NeverAmbiguous(s, s.reqs[id].t);
    if pc.family in s.log.chains {
      assert ChainOk(s, pc.family);
      assert s.store.rows[pc.key].family in s.log.chains && pc.key in s.log.chains[pc.family];
    }
    forall jd | jd in s.reqs && s.reqs[jd].RefreshIssue? ensures s.reqs[jd].key != pc.key {
      assert PcOk(s, jd, s.reqs[jd]);
    }
  }

  lemma RotationsWon(s: State, id: nat)
    requires KeysOk(s) && ChainsOk(s) && PcsOk(s) && RotationsOk(s) && id in s.reqs && !s.reqs[id].RefreshIssue?
    requires RefreshMove(s.store, s.now, s.reqs[id]).0.RefreshIssue?
    ensures RotationsOk(RefreshStep(s, id))
  {
    WonRow(s, id);
    RefreshGrows(s, id);
    RotationsAfterFlip(s, RefreshStep(s, id), id);
  }

  lemma RotationsAfterFlip(s: State, u: State, id: nat)
    requires RotationsOk(s) && Grows(s, u) && id in u.reqs && u.reqs[id].RefreshIssue?
    requires u.log == s.log && u.reqs == s.reqs[id := u.reqs[id]]
    requires var pc := u.reqs[id];
             && (pc.family in s.log.chains ==>
                  |s.log.chains[pc.family]| > 0 && pc.key == Last(s.log.chains[pc.family]))
             && (forall jd :: jd in s.reqs && s.reqs[jd].RefreshIssue? ==> s.reqs[jd].key != pc.key)
             && (forall k :: k in s.log.parents ==> s.log.parents[k] != pc.key)
    ensures RotationsOk(u)
  {
  }

  /** A new family leaves every rotation as it is. */
  lemma RotationsBeside(s: State, u: State, family: string)
    requires RotationsOk(s) && RowsGrow(s.store, u.store)
    requires u.log.parents == s.log.parents
    requires forall f :: f in u.log.chains && f != family ==> f in s.log.chains && u.log.chains[f] == s.log.chains[f]
    requires forall jd :: jd in u.reqs && u.reqs[jd].RefreshIssue? ==>
               jd in s.reqs && u.reqs[jd] == s.reqs[jd] && s.reqs[jd].family != family
    ensures RotationsOk(u)
  {
  }

  lemma NotInNewFamily(s: State, jd: nat, family: string)
    requires PcsOk(s) && jd in s.reqs && s.reqs[jd].RefreshIssue?
    requires forall k :: k in s.store.rows ==> s.store.rows[k].family != family
    ensures s.reqs[jd].family != family
  {
    assert PcOk(s, jd, s.reqs[jd]);
  }

  lemma RotationsFound(s: State, id: nat, draw: string, draw2: string)
    requires KeysOk(s) && ChainsOk(s) && PcsOk(s) && RotationsOk(s) && id in s.reqs && s.reqs[id].ExchangeIssue?
    ensures RotationsOk(FoundStep(s, id, draw, draw2))
  {
    if Fresh(s, draw) && Fresh(s, draw2) && draw != draw2 {
      FoundGrows(s, id, draw, draw2);
      FreshFamily(s, draw2);
      forall jd | jd in s.reqs && s.reqs[jd].RefreshIssue? ensures s.reqs[jd].family != draw2 {
        NotInNewFamily(s, jd, draw2);
      }
      RotationsBeside(s, FoundStep(s, id, draw, draw2), draw2);
    }
  }

  /** No other request under way holds the row that is being replaced or its family. */
  lemma OthersElsewhere(s: State, id: nat, jd: nat)
    requires ChainsOk(s) && PcsOk(s) && RotationsOk(s) && id in s.reqs && jd in s.reqs && id != jd
    requires s.reqs[id].RefreshIssue? && s.reqs[jd].RefreshIssue?
    ensures s.reqs[jd].key != s.reqs[id].key
    ensures s.reqs[id].family != "" ==> s.reqs[jd].family != s.reqs[id].family
  {
    var pc := s.reqs[id];
    assert PcOk(s, id, pc) && PcOk(s, jd, s.reqs[jd]) && !SameRotation(pc, s.reqs[jd]);
    if pc.family != "" {
      assert s.store.rows[pc.key].family in s.log.chains;
      assert ChainOk(s, pc.family);
    }
  }

  lemma SuccessorRecorded(s: State, u: State, id: nat, added: Token)
    requires RotationsOk(s) && id in s.reqs && s.reqs[id].RefreshIssue? && PcOk(s, id, s.reqs[id])
    requires added !in s.store.rows && added in u.store.rows
    requires var pc := s.reqs[id];
             && u.reqs == s.reqs[id := Done(true)]
             && u.store.rows == s.store.rows[added := u.store.rows[added]]
             && u.store.rows[added].family == pc.family && u.store.rows[added].client == pc.client
             && u.log.parents == s.log.parents[added := pc.key]
             && u.log.chains == Extended(s.log.chains, pc.family, added)
             && (forall jd :: jd in u.reqs && u.reqs[jd].RefreshIssue? ==>
                  s.reqs[jd].key != pc.key && (pc.family != "" ==> s.reqs[jd].family != pc.family))
    ensures RotationsOk(u)
  {
  }

  /** The successor is recorded under its own key; no other request held the same row. */
  lemma RotationsRotate(s: State, id: nat, draw: string)
    requires KeysOk(s) && ChainsOk(s) && PcsOk(s) && RotationsOk(s) && id in s.reqs && s.reqs[id].RefreshIssue?
    ensures RotationsOk(RotateStep(s, id, draw))
  {
    var u := RotateStep(s, id, draw);
    if Fresh(s, draw) {
      FreshKey(s, draw);
      forall jd | jd in u.reqs && u.reqs[jd].RefreshIssue?
        ensures s.reqs[jd].key != s.reqs[id].key
        ensures s.reqs[id].family != "" ==> s.reqs[jd].family != s.reqs[id].family
      {
        OthersElsewhere(s, id, jd);
      }
      SuccessorRecorded(s, u, id, Digest(Text(draw)));
    }
  }

  // ---------------------------------------------------------------- every step

  /** No row is added and no family, successor or founding is recorded. */
  ghost predicate RowsQuiet(s: State, u: State) {
    && u.store.rows.Keys == s.store.rows.Keys
    && u.log.births == s.log.births && u.log.chains == s.log.chains && u.log.parents == s.log.parents
  }

  /** No client, code or approval changes. */
  ghost predicate AsksQuiet(s: State, u: State) {
    && u.store.codes == s.store.codes && u.store.clients == s.store.clients
    && u.log.issued == s.log.issued && u.log.popped == s.log.popped && u.log.grants == s.log.grants
    && u.log.asked == s.log.asked && u.log.approved == s.log.approved && u.log.logins == s.log.logins
  }

  /** At most one request moves, to a counter that fits, other than a won rotation. */
  ghost predicate OneMove(s: State, u: State, id: nat) {
    || u.reqs == s.reqs
    || (&& id in u.reqs && u.reqs == s.reqs[id := u.reqs[id]] && PcOk(u, id, u.reqs[id])
        && (u.reqs[id].RefreshIssue? ==> id in s.reqs && u.reqs[id] == s.reqs[id]))
  }

  lemma RowsParts(s: State, u: State)
    requires KeysOk(s) && BirthsOk(s) && ChainsOk(s) && Grows(s, u) && RowsQuiet(s, u)
    ensures KeysOk(u) && BirthsOk(u) && ChainsOk(u)
  {
    KeysKept(s, u);
    BirthsFrame(s, u);
    ChainsFrame(s, u);
  }

  lemma AsksParts(s: State, u: State)
    requires CodesOk(s) && ApprovalsOk(s) && Grows(s, u) && AsksQuiet(s, u)
    ensures CodesOk(u) && ApprovalsOk(u)
  {
    CodesFrame(s, u);
    ApprovalsFrame(s, u);
  }

  lemma ReqsParts(s: State, u: State, id: nat)
    requires PcsOk(s) && RotationsOk(s) && Grows(s, u) && RowsQuiet(s, u) && OneMove(s, u, id)
    ensures PcsOk(u) && RotationsOk(u)
  {
    RotationsFrame(s, u);
    if u.reqs == s.reqs {
      forall jd | jd in u.reqs ensures PcOk(u, jd, u.reqs[jd]) {
        PcStays(s, u, jd, s.reqs[jd]);
      }
    } else {
      PcsMove(s, u, id, u.reqs[id]);
    }
  }

  /** A step that touches no rows, with the part about codes and approvals done. */
  lemma InvQuiet(s: State, u: State, id: nat)
    requires Inv(s) && Grows(s, u) && RowsQuiet(s, u) && OneMove(s, u, id) && CodesOk(u) && ApprovalsOk(u)
    ensures Inv(u)
  {
    RowsParts(s, u);
    ReqsParts(s, u, id);
  }

  /** A step that touches neither rows nor codes nor approvals. */
  lemma InvIdle(s: State, u: State, id: nat)
    requires Inv(s) && Grows(s, u) && RowsQuiet(s, u) && AsksQuiet(s, u) && OneMove(s, u, id)
    ensures Inv(u)
  {
    AsksParts(s, u);
    InvQuiet(s, u, id);
  }

  lemma RegisterEffect(s: State, name: string, redirects: seq<string>, draw: string)
    ensures RowsQuiet(s, RegisterStep(s, name, redirects, draw))
    ensures OneMove(s, RegisterStep(s, name, redirects, draw), 0)
  {
  }

  lemma ApprovalsRegister(s: State, name: string, redirects: seq<string>, draw: string)
    requires CodesOk(s) && ApprovalsOk(s)
    ensures ApprovalsOk(RegisterStep(s, name, redirects, draw))
  {
    RegisterGrows(s, name, redirects, draw);
    ApprovalsFrame(s, RegisterStep(s, name, redirects, draw));
  }

  lemma InvRegister(s: State, name: string, redirects: seq<string>, draw: string)
    requires Inv(s)
    ensures Inv(RegisterStep(s, name, redirects, draw))
  {
    RegisterEffect(s, name, redirects, draw);
    RegisterGrows(s, name, redirects, draw);
    CodesRegister(s, name, redirects, draw);
    ApprovalsRegister(s, name, redirects, draw);
    InvQuiet(s, RegisterStep(s, name, redirects, draw), 0);
  }

  lemma MemberEffect(s: State, id: nat, key: Token)
    ensures var u := MemberStep(s, id, key);
            Grows(s, u) && RowsQuiet(s, u) && AsksQuiet(s, u) && OneMove(s, u, 0)
  {
    MemberGrows(s, id, key);
  }

  lemma InvMember(s: State, id: nat, key: Token)
    requires Inv(s)
    ensures Inv(MemberStep(s, id, key))
  {
    MemberEffect(s, id, key);
    InvIdle(s, MemberStep(s, id, key), 0);
  }

  lemma TickEffect(s: State, to: real)
    ensures var u := Next(s, Tick(to));
            Grows(s, u) && RowsQuiet(s, u) && AsksQuiet(s, u) && OneMove(s, u, 0)
  {
    TickGrows(s, to);
  }

  lemma InvTick(s: State, to: real)
    requires Inv(s)
    ensures Inv(Next(s, Tick(to)))
  {
    TickEffect(s, to);
    InvIdle(s, Next(s, Tick(to)), 0);
  }

  lemma BeginEffect(s: State, id: nat, pc: Pc)
    ensures var u := Next(s, Begin(id, pc));
            Grows(s, u) && RowsQuiet(s, u) && AsksQuiet(s, u) && OneMove(s, u, id)
  {
    BeginGrows(s, id, pc);
  }

  lemma InvBegin(s: State, id: nat, pc: Pc)
    requires Inv(s)
    ensures Inv(Next(s, Begin(id, pc)))
  {
    BeginEffect(s, id, pc);
    InvIdle(s, Next(s, Begin(id, pc)), id);
  }

  /** Only the request and the lists of asked, approved and signed requests change. */
  lemma AuthorizeEffect(s: State, id: nat, identityOk: bool)
    requires CodesOk(s) && id in s.reqs && (s.reqs[id].AuthorizeClient? || s.reqs[id].CallbackClient?)
    ensures var u := AuthorizeStep(s, id, identityOk);
            Grows(s, u) && RowsQuiet(s, u) && OneMove(s, u, id) && CodesOk(u)
  {
    AuthorizeGrows(s, id, identityOk);
    CodesFrame(s, AuthorizeStep(s, id, identityOk));
  }

  lemma InvAuthorize(s: State, id: nat, identityOk: bool)
    requires Inv(s) && id in s.reqs && (s.reqs[id].AuthorizeClient? || s.reqs[id].CallbackClient?)
    ensures Inv(AuthorizeStep(s, id, identityOk))
  {
    AuthorizeEffect(s, id, identityOk);
    ApprovalsAuthorize(s, id, identityOk);
    InvQuiet(s, AuthorizeStep(s, id, identityOk), id);
  }

  lemma CodeEffect(s: State, id: nat, draw: string)
    requires CodesOk(s) && ApprovalsOk(s) && id in s.reqs && s.reqs[id].AuthorizeIssue?
    ensures var u := CodeStep(s, id, draw);
            Grows(s, u) && RowsQuiet(s, u) && OneMove(s, u, id) && CodesOk(u)
  {
    CodeGrows(s, id, draw);
    CodesCode(s, id, draw);
  }

  lemma InvCode(s: State, id: nat, draw: string)
    requires Inv(s) && id in s.reqs && s.reqs[id].AuthorizeIssue?
    ensures Inv(CodeStep(s, id, draw))
  {
    CodeEffect(s, id, draw);
    ApprovalsCode(s, id, draw);
    InvQuiet(s, CodeStep(s, id, draw), id);
  }

  lemma PopEffect(s: State, id: nat)
    requires CodesOk(s) && id in s.reqs && s.reqs[id].ExchangePop?
    ensures var u := PopStep(s, id);
            && Grows(s, u) && RowsQuiet(s, u) && OneMove(s, u, id) && CodesOk(u)
            && u.store.clients == s.store.clients && u.log.(popped := s.log.popped) == s.log
  {
    PopGrows(s, id);
    CodesPop(s, id);
  }

  lemma InvPop(s: State, id: nat)
    requires Inv(s) && id in s.reqs && s.reqs[id].ExchangePop?
    ensures Inv(PopStep(s, id))
  {
    PopEffect(s, id);
    ApprovalsFrame(s, PopStep(s, id));
    InvQuiet(s, PopStep(s, id), id);
  }

  lemma CheckEffect(s: State, id: nat)
    requires id in s.reqs && s.reqs[id].ExchangeCheck? && PcOk(s, id, s.reqs[id])
    ensures var u := At(s, id, Checked(s.reqs[id], id, s.now));
            Grows(s, u) && RowsQuiet(s, u) && AsksQuiet(s, u) && OneMove(s, u, id)
  {
    CheckGrows(s, id);
  }

  lemma InvChecked(s: State, id: nat)
    requires Inv(s) && id in s.reqs && s.reqs[id].ExchangeCheck?
    ensures Inv(At(s, id, Checked(s.reqs[id], id, s.now)))
  {
    CheckEffect(s, id);
    InvIdle(s, At(s, id, Checked(s.reqs[id], id, s.now)), id);
  }

  lemma FoundEffect(s: State, id: nat, draw: string, draw2: string)
    requires KeysOk(s) && ChainsOk(s) && PcsOk(s) && id in s.reqs && s.reqs[id].ExchangeIssue?
    ensures var u := FoundStep(s, id, draw, draw2);
            Grows(s, u) && AsksQuiet(s, u) && KeysOk(u) && PcsOk(u)
  {
    var u := FoundStep(s, id, draw, draw2);
    FoundGrows(s, id, draw, draw2);
    if u != s {
      KeysKept(s, u);
      PcsMove(s, u, id, Done(true));
    }
  }

  lemma InvFound(s: State, id: nat, draw: string, draw2: string)
    requires Inv(s) && id in s.reqs && s.reqs[id].ExchangeIssue?
    ensures Inv(FoundStep(s, id, draw, draw2))
  {
    FoundEffect(s, id, draw, draw2);
    AsksParts(s, FoundStep(s, id, draw, draw2));
    BirthsFound(s, id, draw, draw2);
    ChainsFound(s, id, draw, draw2);
    RotationsFound(s, id, draw, draw2);
  }

  lemma RotateEffect(s: State, id: nat, draw: string)
    requires KeysOk(s) && BirthsOk(s) && PcsOk(s) && RotationsOk(s) && id in s.reqs && s.reqs[id].RefreshIssue?
    ensures var u := RotateStep(s, id, draw);
            Grows(s, u) && AsksQuiet(s, u) && KeysOk(u) && BirthsOk(u) && PcsOk(u)
  {
    var u := RotateStep(s, id, draw);
    RotateGrows(s, id, draw);
    BirthsFrame(s, u);
    if u != s {
      KeysKept(s, u);
      PcsMove(s, u, id, Done(true));
    }
  }

  lemma InvRotate(s: State, id: nat, draw: string)
    requires Inv(s) && id in s.reqs && s.reqs[id].RefreshIssue?
    ensures Inv(RotateStep(s, id, draw))
  {
    RotateEffect(s, id, draw);
    AsksParts(s, RotateStep(s, id, draw));
    ChainsRotate(s, id, draw);
    RotationsRotate(s, id, draw);
  }

  lemma RefreshEffect(s: State, id: nat)
    requires KeysOk(s) && PcsOk(s) && id in s.reqs && !s.reqs[id].RefreshIssue?
    requires !s.reqs[id].ExchangeCheck? && !s.reqs[id].ExchangeIssue? && !s.reqs[id].AuthorizeIssue?
    ensures var u := RefreshStep(s, id);
            && Grows(s, u) && RowsQuiet(s, u) && AsksQuiet(s, u)
            && u.reqs == s.reqs[id := u.reqs[id]] && PcOk(u, id, u.reqs[id])
            && u.reqs[id] == RefreshMove(s.store, s.now, s.reqs[id]).0
  {
    RefreshGrows(s, id);
    RefreshMoves(s, id);
  }

  /** A won rotation. */
  lemma InvWon(s: State, id: nat)
    requires Inv(s) && id in s.reqs && !s.reqs[id].RefreshIssue?
    requires !s.reqs[id].ExchangeCheck? && !s.reqs[id].ExchangeIssue? && !s.reqs[id].AuthorizeIssue?
    requires RefreshMove(s.store, s.now, s.reqs[id]).0.RefreshIssue?
    ensures Inv(RefreshStep(s, id))
  {
    var u := RefreshStep(s, id);
    RefreshEffect(s, id);
    RotationsWon(s, id);
    AsksParts(s, u);
    RowsParts(s, u);
    PcsMove(s, u, id, u.reqs[id]);
  }

  lemma InvRefresh(s: State, id: nat)
    requires Inv(s) && id in s.reqs && !s.reqs[id].RefreshIssue?
    requires !s.reqs[id].ExchangeCheck? && !s.reqs[id].ExchangeIssue? && !s.reqs[id].AuthorizeIssue?
    ensures Inv(RefreshStep(s, id))
  {
    if RefreshMove(s.store, s.now, s.reqs[id]).0.RefreshIssue? {
      InvWon(s, id);
    } else {
      RefreshEffect(s, id);
      InvIdle(s, RefreshStep(s, id), id);
    }
  }

  lemma InvAdvance(s: State, id: nat, draw: string, draw2: string, identityOk: bool)
    requires Inv(s) && id in s.reqs
    ensures Inv(AdvanceStep(s, id, draw, draw2, identityOk))
  {
    var pc := s.reqs[id];
    if Plain(pc) {
      InvRefresh(s, id);
    } else if pc.AuthorizeClient? || pc.CallbackClient? {
      InvAuthorize(s, id, identityOk);
    } else if pc.AuthorizeIssue? {
      InvCode(s, id, draw);
    } else if pc.ExchangePop? {
      InvPop(s, id);
    } else if pc.ExchangeCheck? {
      InvChecked(s, id);
    } else if pc.ExchangeIssue? {
      InvFound(s, id, draw, draw2);
    } else {
      InvRotate(s, id, draw);
    }
  }

  /** Every step of every request keeps the invariant. */
  lemma NextKeepsInv(s: State, step: Step)
    requires Inv(s)
    ensures Inv(Next(s, step))
  {
    match step
    case Tick(to) => InvTick(s, to);
    case Register(name, redirects, draw) => InvRegister(s, name, redirects, draw);
    case Begin(id, pc) => InvBegin(s, id, pc);
    case RevokeMember(id, key) => InvMember(s, id, key);
    case Advance(id, draw, draw2, identityOk) =>
      if id in s.reqs {
        InvAdvance(s, id, draw, draw2, identityOk);
      }
  }

  lemma InitInv(s: State)
    requires Init(s)
    ensures Inv(s)
  {
  }

  /** From a good state every run stays good and takes nothing back. */
  lemma {:induction false} RunKeepsInv(s: State, steps: seq<Step>)
    requires Inv(s)
    ensures Inv(Run(s, steps)) && Grows(s, Run(s, steps))
    decreases |steps|
  {
    if steps == [] {
      assert ReqsGrow(s.reqs, s.reqs);
    } else {
      NextKeepsInv(s, steps[0]);
      NextGrows(s, steps[0]);
      RunKeepsInv(Next(s, steps[0]), steps[1..]);
      GrowsTransitive(s, Next(s, steps[0]), Run(s, steps));
    }
  }
}
