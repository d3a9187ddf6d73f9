/** What a request can do over its whole life, in any run. */
module OAuthLives {
  import opened TokenStore
  import opened OAuthProtocol
  import opened OAuthSafety
  import opened OAuthInvariant

  /** The state after the first `n` steps. */
  function After(s0: State, steps: seq<Step>, n: nat): State
    requires n <= |steps|
  {
    Run(s0, steps[..n])
  }

  lemma AfterStep(s0: State, steps: seq<Step>, n: nat)
    requires n < |steps|
    ensures After(s0, steps, n + 1) == Next(After(s0, steps, n), steps[n])
  {
    var s := After(s0, steps, n);
    assert steps[..n + 1] == steps[..n] + [steps[n]];
    RunConcat(s0, steps[..n], [steps[n]]);
    assert Run(s, [steps[n]]) == Run(Next(s, steps[n]), []);
  }

  predicate IsAt(s: State, id: nat, pc: Pc) { id in s.reqs && s.reqs[id] == pc }

  /** The step is one of this request. */
  predicate Acts(step: Step, id: nat) { (step.Advance? || step.RevokeMember?) && step.id == id }

  /** Steps other than its own advance do not move a request, and only a request that revokes
      a family has member steps that do anything. */
  lemma Unmoved(s: State, step: Step, id: nat)
    requires !step.Advance? || step.id != id
    ensures id in s.reqs ==> id in Next(s, step).reqs && Next(s, step).reqs[id] == s.reqs[id]
    ensures id !in s.reqs && id in Next(s, step).reqs ==> Next(s, step).reqs[id].Starting()
    ensures Acts(step, id) && !(id in s.reqs && s.reqs[id].FamilyRevoke?) ==> Next(s, step).store == s.store
  {
    if step.Advance? && step.id in s.reqs {
      AdvanceMovesOne(s, step.id, step.draw, step.draw2, step.identityOk);
    }
  }

  lemma AdvanceMovesOne(s: State, id: nat, draw: string, draw2: string, identityOk: bool)
    requires id in s.reqs
    ensures var u := AdvanceStep(s, id, draw, draw2, identityOk); id in u.reqs && u.reqs == s.reqs[id := u.reqs[id]]
  {
  }

  /** An authorization, an exchange or a rotation stays one until it is done. */
  lemma OtherKinds(s: State, id: nat, draw: string, draw2: string, identityOk: bool)
    requires id in s.reqs && !Plain(s.reqs[id])
    ensures var u := AdvanceStep(s, id, draw, draw2, identityOk);
            && id in u.reqs
            && (u == s || u.reqs[id].Done? || u.reqs[id].AuthorizeIssue? || u.reqs[id].ExchangeCheck?
                || u.reqs[id].ExchangeIssue?)
            && (s.reqs[id].RefreshIssue? ==> u == s || u.reqs[id] == Done(true))
  {
  }

  lemma PlainAdvance(s: State, id: nat, draw: string, draw2: string, identityOk: bool)
    requires id in s.reqs && Plain(s.reqs[id])
    ensures AdvanceStep(s, id, draw, draw2, identityOk) == RefreshStep(s, id)
  {
  }

  /** One step of a request: either its own advance or nothing. */
  lemma OneStep(s: State, step: Step, id: nat)
    ensures id in s.reqs ==> id in Next(s, step).reqs
    ensures id !in s.reqs && id in Next(s, step).reqs ==> Next(s, step).reqs[id].Starting()
    ensures id !in s.reqs && Acts(step, id) ==> Next(s, step).store == s.store
    ensures id in s.reqs ==>
              || Moved(s, Next(s, step), id)
              || (&& Next(s, step).reqs[id] == s.reqs[id]
                  && (Acts(step, id) && !s.reqs[id].FamilyRevoke? ==> Next(s, step).store == s.store))
  {
    if step.Advance? && step.id == id && id in s.reqs {
      AdvanceMovesOne(s, id, step.draw, step.draw2, step.identityOk);
      if Plain(s.reqs[id]) {
        PlainAdvance(s, id, step.draw, step.draw2, step.identityOk);
      } else {
        OtherKinds(s, id, step.draw, step.draw2, step.identityOk);
      }
    } else if !step.Advance? || step.id != id {
      Unmoved(s, step, id);
    }
  }

  /** The request has made a step of its own. */
  ghost predicate Moved(s: State, u: State, id: nat)
    requires id in s.reqs && id in u.reqs
  {
    if Plain(s.reqs[id]) then u == RefreshStep(s, id)
    else
      && (u.reqs[id].Done? || u.reqs[id].AuthorizeIssue? || u.reqs[id].ExchangeCheck? || u.reqs[id].ExchangeIssue?)
      && (s.reqs[id].RefreshIssue? ==> u.reqs[id] == Done(true))
  }

  // ---------------------------------------------------------------- family revocations

  /** At this moment the request holds a row of the family that it read revoked, and the row
      is revoked in the store. */
  ghost predicate ReadReuse(s: State, id: nat, key: Token, family: string) {
    && id in s.reqs && s.reqs[id].RefreshCheck? && s.reqs[id].row.revoked
    && s.reqs[id].key == key && s.reqs[id].row.family == family
    && key in s.store.rows && s.store.rows[key].revoked && s.store.rows[key].family == family
  }

  lemma {:induction false} RevokersReadReuse(s0: State, steps: seq<Step>, n: nat, id: nat, key: Token, family: string)
    returns (m: nat)
    requires Init(s0) && n <= |steps| && IsAt(After(s0, steps, n), id, FamilyRevoke(key, family))
    ensures m < n && ReadReuse(After(s0, steps, m), id, key, family)
    decreases n
  {
    assert n > 0;
    var s := After(s0, steps, n - 1);
    AfterStep(s0, steps, n - 1);
    BecomesRevoker(s, steps[n - 1], id, key, family);
    if IsAt(s, id, FamilyRevoke(key, family)) {
      m := RevokersReadReuse(s0, steps, n - 1, id, key, family);
    } else {
      m := n - 1;
      InitInv(s0);
      RunKeepsInv(s0, steps[..n - 1]);
      assert PcOk(s, id, s.reqs[id]);
    }
  }

  lemma BecomesRevoker(s: State, step: Step, id: nat, key: Token, family: string)
    requires IsAt(Next(s, step), id, FamilyRevoke(key, family))
    ensures id in s.reqs
    ensures IsAt(s, id, FamilyRevoke(key, family))
            || (s.reqs[id].RefreshCheck? && s.reqs[id].row.revoked && s.reqs[id].key == key
                && s.reqs[id].row.family == family)
  {
    OneStep(s, step, id);
  }

  /** Over any run: whenever a family revocation changes a row, the request it belongs to had
      presented a token of that family and had read it as already revoked. */
  lemma OnlyReuseRevokesAFamily(s0: State, steps: seq<Step>, n: nat) returns (m: nat)
    requires Init(s0) && n < |steps| && steps[n].RevokeMember?
    requires After(s0, steps, n + 1).store != After(s0, steps, n).store
    ensures m < n
    ensures var key := steps[n].key;
            && key in After(s0, steps, n).store.rows
            && exists k :: ReadReuse(After(s0, steps, m), steps[n].id, k, After(s0, steps, n).store.rows[key].family)
  {
    var s, id := After(s0, steps, n), steps[n].id;
    AfterStep(s0, steps, n);
    assert id in s.reqs && s.reqs[id].FamilyRevoke?;
    m := RevokersReadReuse(s0, steps, n, id, s.reqs[id].key, s.reqs[id].family);
  }

  // ---------------------------------------------------------------- lost races

  /** The token has been read and checked. */
  predicate Racing(pc: Pc) { pc.RefreshFlip? || pc.RefreshFlipPlain? }

  predicate Undecided(pc: Pc) { pc.RefreshRead? || pc.RefreshReadPlain? || pc.RefreshCheck? || Racing(pc) }

  predicate Won(pc: Pc) { pc.RefreshIssue? || pc == Done(true) }

  lemma StepFromUndecided(s: State, step: Step, id: nat)
    requires id in Next(s, step).reqs && Undecided(Next(s, step).reqs[id])
    ensures id in s.reqs ==> Undecided(s.reqs[id])
    ensures Acts(step, id) ==> Next(s, step).store == s.store
  {
    OneStep(s, step, id);
  }

  lemma StepOfRacer(s: State, step: Step, id: nat)
    requires id in s.reqs && Racing(s.reqs[id])
    ensures id in Next(s, step).reqs
    ensures var pc := Next(s, step).reqs[id];
            Racing(pc) || Won(pc) || (pc == Done(false) && (Acts(step, id) ==> Next(s, step).store == s.store))
  {
    OneStep(s, step, id);
  }

  lemma StepOfWinner(s: State, step: Step, id: nat)
    requires id in s.reqs && Won(s.reqs[id])
    ensures id in Next(s, step).reqs && Won(Next(s, step).reqs[id])
  {
    OneStep(s, step, id);
  }

  lemma StepOfLoser(s: State, step: Step, id: nat)
    requires IsAt(s, id, Done(false))
    ensures IsAt(Next(s, step), id, Done(false)) && (Acts(step, id) ==> Next(s, step).store == s.store)
  {
    OneStep(s, step, id);
  }

  /** Before it races a request is undecided, and changes nothing. */
  lemma {:induction false} UndecidedBefore(s0: State, steps: seq<Step>, id: nat, j: nat, i: nat)
    requires i <= j <= |steps|
    requires id in After(s0, steps, j).reqs && Undecided(After(s0, steps, j).reqs[id])
    ensures id in After(s0, steps, i).reqs ==> Undecided(After(s0, steps, i).reqs[id])
    ensures i < j && Acts(steps[i], id) ==> After(s0, steps, i + 1).store == After(s0, steps, i).store
    decreases j - i
  {
    if i < j {
      AfterStep(s0, steps, i);
      if id in After(s0, steps, i + 1).reqs {
        UndecidedBefore(s0, steps, id, j, i + 1);
        StepFromUndecided(After(s0, steps, i), steps[i], id);
      } else {
        ActsNeedsRequest(After(s0, steps, i), steps[i], id);
      }
    }
  }

  lemma ActsNeedsRequest(s: State, step: Step, id: nat)
    requires id !in Next(s, step).reqs
    ensures id !in s.reqs
    ensures Acts(step, id) ==> Next(s, step).store == s.store
  {
    OneStep(s, step, id);
  }

  lemma {:induction false} WinnerStays(s0: State, steps: seq<Step>, id: nat, i: nat, n: nat)
    requires i <= n <= |steps| && id in After(s0, steps, i).reqs && Won(After(s0, steps, i).reqs[id])
    ensures id in After(s0, steps, n).reqs && Won(After(s0, steps, n).reqs[id])
    decreases n
  {
    if i < n {
      WinnerStays(s0, steps, id, i, n - 1);
      AfterStep(s0, steps, n - 1);
      StepOfWinner(After(s0, steps, n - 1), steps[n - 1], id);
    }
  }

  /** A racer that ends refused is a racer or refused at every moment in between. */
  lemma {:induction false} LoserAfter(s0: State, steps: seq<Step>, id: nat, j: nat, i: nat)
    requires j <= i <= |steps| && id in After(s0, steps, j).reqs && Racing(After(s0, steps, j).reqs[id])
    requires IsAt(After(s0, steps, |steps|), id, Done(false))
    ensures id in After(s0, steps, i).reqs
    ensures Racing(After(s0, steps, i).reqs[id]) || After(s0, steps, i).reqs[id] == Done(false)
    decreases i
  {
    if j < i {
      LoserAfter(s0, steps, id, j, i - 1);
      var s := After(s0, steps, i - 1);
      AfterStep(s0, steps, i - 1);
      if Racing(s.reqs[id]) {
        StepOfRacer(s, steps[i - 1], id);
        if Won(After(s0, steps, i).reqs[id]) {
          WinnerStays(s0, steps, id, i, |steps|);
        }
      } else {
        StepOfLoser(s, steps[i - 1], id);
      }
    }
  }

  /** A refresh request that passed its checks and ends refused, which is to lose the race
      for the rotation, changes nothing in its whole life: neither a row nor anything else in
      the store. */
  lemma RaceLosersChangeNothing(s0: State, steps: seq<Step>, id: nat, j: nat, i: nat)
    requires j <= |steps| && i < |steps| && Acts(steps[i], id)
    requires id in After(s0, steps, j).reqs && Racing(After(s0, steps, j).reqs[id])
    requires IsAt(After(s0, steps, |steps|), id, Done(false))
    ensures After(s0, steps, i + 1).store == After(s0, steps, i).store
  {
    if i < j {
      UndecidedBefore(s0, steps, id, j, i);
    } else {
      var s := After(s0, steps, i);
      LoserAfter(s0, steps, id, j, i);
      LoserAfter(s0, steps, id, j, i + 1);
      AfterStep(s0, steps, i);
      if Racing(s.reqs[id]) {
        RacerChangesNothing(s, steps[i], id);
      } else {
        StepOfLoser(s, steps[i], id);
      }
    }
  }

  lemma RacerChangesNothing(s: State, step: Step, id: nat)
    requires id in s.reqs && Racing(s.reqs[id]) && Acts(step, id)
    requires id in Next(s, step).reqs && !Won(Next(s, step).reqs[id])
    ensures Next(s, step).store == s.store
  {
    OneStep(s, step, id);
  }
}
