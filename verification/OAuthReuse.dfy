/** Reuse detection: when presenting a rotated token ends its family, and when it does not. */
module OAuthReuse {
  import opened TokenStore
  import opened OAuthProtocol
  import opened OAuthSafety
  import opened OAuthInvariant
  import opened OAuthTheorems
  import opened OAuthLives
  import opened OAuthHandlers

  /** Some value has not been drawn yet. */
  lemma {:induction false} LongerText(texts: set<string>) returns (x: string)
    ensures x != "" && forall y :: y in texts ==> |y| < |x|
    decreases |texts|
  {
    if texts == {} {
      x := "x";
    } else {
      var y :| y in texts;
      x := LongerText(texts - {y});
      var longer := x + y;
      forall z | z in texts ensures |z| < |longer| {
        assert z == y || z in texts - {y};
      }
      x := longer;
    }
  }

  /** The token's row is revoked and belongs to this family. */
  ghost predicate Reuses(s: Store, t: Token, family: string) {
    GetRefresh(s, t).Some? && GetRefresh(s, t).value.revoked && GetRefresh(s, t).value.family == family && family != ""
  }

  lemma FamilyIsDrawn(s: State, t: Token, family: string)
    requires ChainsOk(s) && Reuses(s.store, t, family)
    ensures family in s.log.drawn
  {
    assert family in s.log.chains && ChainOk(s, family);
  }

  lemma RevokedFamily(s: State, u: State, family: string)
    requires u.store == RevokeFamily(s.store, family) && family != ""
    ensures LiveRows(u, family) == {}
    ensures forall k :: k in s.store.rows && s.store.rows[k].family != family ==>
              k in u.store.rows && u.store.rows[k] == s.store.rows[k]
  {
  }

  /** Presenting a revoked token at once leaves its family without a live token and every
      other family, and every other request, as it was. */
  lemma ReuseRevokes(
    s: State, id: nat, t: Token, client: string, draw: string, later: real, keys: seq<Token>, family: string)
    requires Inv(s) && id !in s.reqs && Fresh(s, draw) && s.now <= later
    requires forall k :: k in s.store.rows ==> k in keys
    requires Reuses(s.store, t, family)
    ensures var u := Run(s, RefreshSteps(s.store, id, t, client, draw, later, keys));
            && Inv(u) && family in u.log.drawn
            && u.store == RevokeFamily(s.store, family) && u.reqs == s.reqs[id := Done(false)]
            && LiveRows(u, family) == {} && Rotating(u, family) == Rotating(s, family)
  {
    var steps := RefreshSteps(s.store, id, t, client, draw, later, keys);
    var u := Run(s, steps);
    RefreshIsARun(s, id, t, client, draw, later, keys);
    RunKeepsInv(s, steps);
    FamilyIsDrawn(s, t, family);
    RevokedFamily(s, u, family);
    SameRotations(s, u, id, family);
  }

  lemma SameRotations(s: State, u: State, id: nat, family: string)
    requires id !in s.reqs && u.reqs == s.reqs[id := Done(false)]
    ensures Rotating(u, family) == Rotating(s, family)
  {
  }

  /** A rotation that is still under way stores a live successor. */
  lemma RotationEscapes(u: State, family: string, jd: nat) returns (draw: string)
    requires jd in u.reqs && u.reqs[jd].RefreshIssue? && u.reqs[jd].family == family
    ensures LiveRows(Run(u, [Advance(jd, draw, "", false)]), family) != {}
  {
    draw := LongerText(u.log.drawn);
    assert Fresh(u, draw);
    Run1(u, Advance(jd, draw, "", false));
    var v := RotateStep(u, jd, draw);
    assert Next(u, Advance(jd, draw, "", false)) == v;
    assert Digest(Text(draw)) in LiveRows(v, family);
  }

  /** No token of the family is live now or in any continuation. */
  ghost predicate EndedForGood(u: State, family: string) {
    forall after :: LiveRows(Run(u, after), family) == {}
  }

  lemma DeadHasEnded(u: State, family: string)
    requires Inv(u) && Dead(u, family)
    ensures EndedForGood(u, family) && forall after :: Dead(Run(u, after), family)
  {
    forall after ensures Dead(Run(u, after), family) {
      DeadFamiliesStayDead(u, after, family);
    }
  }

  lemma RotationHasNotEnded(u: State, family: string)
    requires Rotating(u, family) != {}
    ensures !EndedForGood(u, family)
  {
    var jd :| jd in Rotating(u, family);
    var draw := RotationEscapes(u, family, jd);
    assert LiveRows(Run(u, [Advance(jd, draw, "", false)]), family) != {};
  }

  /** A family has ended for good if and only if it has neither a live row nor a rotation
      between revoking and storing. */
  lemma EndedExactlyWhenDead(u: State, family: string)
    requires Inv(u) && family != "" && family in u.log.drawn
    ensures EndedForGood(u, family) <==> Rotating(u, family) == {} && LiveRows(u, family) == {}
    ensures (forall after :: Dead(Run(u, after), family)) <==> EndedForGood(u, family)
  {
    assert Run(u, []) == u;
    if Dead(u, family) {
      DeadHasEnded(u, family);
    } else {
      assert !Dead(Run(u, []), family);
      if Rotating(u, family) != {} {
        RotationHasNotEnded(u, family);
      } else {
        assert LiveRows(Run(u, []), family) != {};
      }
    }
  }

  /** A detected reuse ends the family for good, in every continuation, if and only if no
      rotation of that family is between revoking and storing: such a rotation stores a live
      token after the family was revoked.  Other requests do not matter. */
  lemma ReuseEndsTheFamilyExactlyWhen(
    s: State, id: nat, t: Token, client: string, draw: string, later: real, keys: seq<Token>, family: string)
    requires Inv(s) && id !in s.reqs && Fresh(s, draw) && s.now <= later
    requires forall k :: k in s.store.rows ==> k in keys
    requires Reuses(s.store, t, family)
    ensures var u := Run(s, RefreshSteps(s.store, id, t, client, draw, later, keys));
            && (forall k :: k in s.store.rows && s.store.rows[k].family != family ==>
                 k in u.store.rows && u.store.rows[k] == s.store.rows[k])
            && ((forall after :: Dead(Run(u, after), family)) <==> Rotating(s, family) == {})
            && (EndedForGood(u, family) <==> Rotating(s, family) == {})
  {
    var u := Run(s, RefreshSteps(s.store, id, t, client, draw, later, keys));
    ReuseRevokes(s, id, t, client, draw, later, keys, family);
    RevokedFamily(s, u, family);
    EndedExactlyWhenDead(u, family);
  }

  /** A deployment with one token, stored by older code. */
  function OneToken(): State {
    State(Store(map[], map[], map[Text("a") := Row("c", 0, 100, false, "f")]), 0.0, false, map[],
          Log({"a"}, {"f"}, {"a", "f"}, {}, {}, {}, map[], map[], map[], map[], map["f" := [Text("a")]], map[]))
  }

  lemma OneTokenStarts()
    ensures Init(OneToken())
  {
    assert ChainOk(OneToken(), "f");
  }

  /** Request 0 has revoked the token and not yet stored its successor. */
  function Halfway(): State {
    At(OneToken(), 0, RefreshIssue(Text("a"), "c", "f")).(store := Flip(OneToken().store, Text("a")))
  }

  lemma HalfwayFlips()
    ensures var row := OneToken().store.rows[Text("a")];
            var v := At(OneToken(), 0, RefreshFlip(Text("a"), "c", Text("a"), row));
            Next(Next(v, Go(0, "")), Go(0, "")) == Halfway()
  {
    var s, t, g := OneToken(), Text("a"), Go(0, "");
    var row := s.store.rows[t];
    var w := At(s, 0, RefreshFlipPlain(t, "c", t, row));
    assert Next(At(s, 0, RefreshFlip(t, "c", t, row)), g) == w;
    assert Next(w, g) == Halfway();
  }

  lemma HalfwayIsReached() returns (before: seq<Step>)
    ensures Run(OneToken(), before) == Halfway()
  {
    var s, t, g := OneToken(), Text("a"), Go(0, "");
    before := Opening(s.store, 0, t, "c", "") + [g, g];
    OpeningRun(s, 0, t, "c", "");
    RunConcat(s, Opening(s.store, 0, t, "c", ""), [g, g]);
    var v := At(s, 0, AfterRead(s.store, t, "c", s.now));
    assert [g, g] == [g] + [g];
    RunFirst(v, g, [g]);
    Run1(Next(v, g), g);
    HalfwayFlips();
  }

  lemma HalfwayReuses()
    ensures Reuses(Halfway().store, Text("a"), "f") && 0 in Rotating(Halfway(), "f")
    ensures Fresh(Halfway(), "b")
    ensures Halfway().store.rows.Keys == {Text("a")} && Halfway().reqs.Keys == {0}
  {
  }

  /** The case occurs: from a lawful start, a token is rotated, presented again before the
      rotation has stored its successor, and the reuse is detected; the successor is live
      afterwards. */
  lemma EscapingRun() returns (before: seq<Step>, after: seq<Step>)
    ensures Init(OneToken()) && Run(OneToken(), before) == Halfway() && Reuses(Halfway().store, Text("a"), "f")
    ensures var u := Run(Halfway(), RefreshSteps(Halfway().store, 1, Text("a"), "c", "b", 0.0, [Text("a")]));
            LiveRows(u, "f") == {} && LiveRows(Run(u, after), "f") != {}
  {
    OneTokenStarts();
    before := HalfwayIsReached();
    HalfwayReuses();
    InitInv(OneToken());
    RunKeepsInv(OneToken(), before);
    after := HalfwayEscapes();
  }

  lemma HalfwayEscapes() returns (after: seq<Step>)
    requires Inv(Halfway())
    ensures var u := Run(Halfway(), RefreshSteps(Halfway().store, 1, Text("a"), "c", "b", 0.0, [Text("a")]));
            LiveRows(u, "f") == {} && LiveRows(Run(u, after), "f") != {}
  {
    HalfwayReuses();
    ReuseRevokes(Halfway(), 1, Text("a"), "c", "b", 0.0, [Text("a")], "f");
    var u := Run(Halfway(), RefreshSteps(Halfway().store, 1, Text("a"), "c", "b", 0.0, [Text("a")]));
    assert 0 in Rotating(u, "f");
    var draw := RotationEscapes(u, "f", 0);
    after := [Advance(0, draw, "", false)];
  }

  // ------------------------------------------------- revoking a family among other requests

  /** The request has read a revoked row of the family and is about to revoke the family. */
  ghost predicate Sweeping(s: State, id: nat, family: string) {
    id in s.reqs && s.reqs[id].FamilyRevoke? && s.reqs[id].family == family && family != ""
  }

  /** The steps revoke every row the family has at their start, in any order and with any
      steps of other requests in between; the request itself does not go on. */
  ghost predicate Sweep(s: State, steps: seq<Step>, id: nat, family: string) {
    && (forall i :: 0 <= i < |steps| ==> !(steps[i].Advance? && steps[i].id == id))
    && (forall k :: k in s.store.rows && s.store.rows[k].family == family ==> RevokeMember(id, k) in steps)
  }

  lemma SweepIsDrawn(s: State, id: nat, family: string)
    requires ChainsOk(s) && PcsOk(s) && Sweeping(s, id, family)
    ensures family in s.log.drawn
  {
    assert PcOk(s, id, s.reqs[id]);
    assert family in s.log.chains && ChainOk(s, family);
  }

  lemma {:induction false} StillSweeping(s: State, steps: seq<Step>, id: nat, family: string, i: nat)
    requires Sweeping(s, id, family) && Sweep(s, steps, id, family) && i <= |steps|
    ensures Sweeping(After(s, steps, i), id, family)
  {
    if i > 0 {
      StillSweeping(s, steps, id, family, i - 1);
      AfterStep(s, steps, i - 1);
      Unmoved(After(s, steps, i - 1), steps[i - 1], id);
    }
  }

  lemma MemberRevoked(v: State, id: nat, family: string, k: Token)
    requires Sweeping(v, id, family) && k in v.store.rows && v.store.rows[k].family == family
    ensures k in Next(v, RevokeMember(id, k)).store.rows && Next(v, RevokeMember(id, k)).store.rows[k].revoked
  {
  }

  lemma AfterThen(s: State, steps: seq<Step>, i: nat)
    requires i <= |steps|
    ensures Run(s, steps) == Run(After(s, steps, i), steps[i..])
  {
    assert steps == steps[..i] + steps[i..];
    RunConcat(s, steps[..i], steps[i..]);
  }

  lemma MemberAt(s: State, steps: seq<Step>, i: nat, k: Token)
    requires Inv(s) && i <= |steps| && k in s.store.rows
    ensures k in After(s, steps, i).store.rows
    ensures After(s, steps, i).store.rows[k].family == s.store.rows[k].family
  {
    RunKeepsInv(s, steps[..i]);
  }

  lemma RevokedStays(s: State, steps: seq<Step>, i: nat, k: Token)
    requires Inv(s) && i <= |steps|
    requires k in After(s, steps, i).store.rows && After(s, steps, i).store.rows[k].revoked
    ensures k in Run(s, steps).store.rows && Run(s, steps).store.rows[k].revoked
  {
    RunKeepsInv(s, steps[..i]);
    AfterThen(s, steps, i);
    RunKeepsInv(After(s, steps, i), steps[i..]);
  }

  /** Every row the family had at the start is revoked at the end. */
  lemma SweptRow(s: State, steps: seq<Step>, id: nat, family: string, k: Token)
    requires Inv(s) && Sweeping(s, id, family) && Sweep(s, steps, id, family)
    requires k in s.store.rows && s.store.rows[k].family == family
    ensures k in Run(s, steps).store.rows && Run(s, steps).store.rows[k].revoked
  {
    var i :| 0 <= i < |steps| && steps[i] == RevokeMember(id, k);
    StillSweeping(s, steps, id, family, i);
    MemberAt(s, steps, i, k);
    MemberRevoked(After(s, steps, i), id, family, k);
    AfterStep(s, steps, i);
    RevokedStays(s, steps, i + 1, k);
  }

  lemma SweptLive(s: State, steps: seq<Step>, id: nat, family: string)
    requires Inv(s) && Sweeping(s, id, family) && Sweep(s, steps, id, family)
    ensures LiveRows(Run(s, steps), family) !! s.store.rows.Keys
  {
    forall k | k in LiveRows(Run(s, steps), family) ensures k !in s.store.rows {
      if k in s.store.rows {
        MemberAt(s, steps, |steps|, k);
        assert steps[..|steps|] == steps;
        SweptRow(s, steps, id, family, k);
      }
    }
  }

  /** Revoking the family row by row, interleaved with any other requests, leaves every row
      it had at the start revoked.  The family has then ended for good if and only if no
      rotation of it is under way and no successor was stored meanwhile. */
  lemma SweptFamilyHasEndedExactlyWhen(s: State, steps: seq<Step>, id: nat, family: string)
    requires Inv(s) && Sweeping(s, id, family) && Sweep(s, steps, id, family)
    ensures var u := Run(s, steps);
            && LiveRows(u, family) !! s.store.rows.Keys
            && (EndedForGood(u, family) <==> Rotating(u, family) == {} && LiveRows(u, family) == {})
            && ((forall after :: Dead(Run(u, after), family)) <==> EndedForGood(u, family))
  {
    SweepIsDrawn(s, id, family);
    RunKeepsInv(s, steps);
    SweptLive(s, steps, id, family);
    EndedExactlyWhenDead(Run(s, steps), family);
  }

  lemma NoNewMember(v: State, step: Step, family: string, k: Token)
    requires Rotating(v, family) == {} && family in v.log.drawn
    requires k in Next(v, step).store.rows && k !in v.store.rows
    ensures Next(v, step).store.rows[k].family != family
  {
    NewRowOrigin(v, step, k);
    if v.reqs[step.id].RefreshIssue? {
      assert step.id !in Rotating(v, family);
    }
  }

  /** While no rotation of the family is under way it gets no new row. */
  lemma MemberBefore(s: State, steps: seq<Step>, family: string, i: nat, k: Token)
    requires Inv(s) && family in s.log.drawn && 0 < i <= |steps|
    requires Rotating(After(s, steps, i - 1), family) == {}
    requires k in After(s, steps, i).store.rows && After(s, steps, i).store.rows[k].family == family
    ensures k in After(s, steps, i - 1).store.rows && After(s, steps, i - 1).store.rows[k].family == family
  {
    var v := After(s, steps, i - 1);
    RunKeepsInv(s, steps[..i - 1]);
    AfterStep(s, steps, i - 1);
    NextGrows(v, steps[i - 1]);
    if k !in v.store.rows {
      NoNewMember(v, steps[i - 1], family, k);
    }
  }

  lemma {:induction false} MembersStay(s: State, steps: seq<Step>, family: string, i: nat, k: Token)
    requires Inv(s) && family in s.log.drawn && i <= |steps|
    requires forall j :: 0 <= j <= |steps| ==> Rotating(After(s, steps, j), family) == {}
    requires k in After(s, steps, i).store.rows && After(s, steps, i).store.rows[k].family == family
    ensures k in s.store.rows && s.store.rows[k].family == family
  {
    if i > 0 {
      MemberBefore(s, steps, family, i, k);
      MembersStay(s, steps, family, i - 1, k);
    }
  }

  /** So once every row is revoked, with no rotation of the family under way at any moment in
      between, the family is dead for good, whatever other requests did meanwhile. */
  lemma SweepEndsTheFamily(s: State, steps: seq<Step>, id: nat, family: string)
    requires Inv(s) && Sweeping(s, id, family) && Sweep(s, steps, id, family)
    requires forall i :: 0 <= i <= |steps| ==> Rotating(After(s, steps, i), family) == {}
    ensures forall after :: Dead(Run(Run(s, steps), after), family)
  {
    var u := Run(s, steps);
    SweptFamilyHasEndedExactlyWhen(s, steps, id, family);
    SweepIsDrawn(s, id, family);
    assert steps[..|steps|] == steps && After(s, steps, |steps|) == u;
    forall k | k in LiveRows(u, family) ensures false {
      MembersStay(s, steps, family, |steps|, k);
    }
  }
}
