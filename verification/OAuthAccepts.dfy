/** Which presented tokens are accepted for which stored rows, in every reachable state. */
module OAuthAccepts {
  import opened Options
  import opened TokenStore
  import opened OAuthProtocol
  import opened OAuthSafety
  import opened OAuthInvariant
  import opened OAuthHandlers
  import opened OAuthReuse

  /** The token that was handed out for the row under this key. */
  function IssuedText(k: Token): Token { if k.Digest? then k.of else k }

  lemma LookupOfKey(s: State, t: Token, k: Token)
    requires KeysOk(s)
    ensures Lookup(s.store, t) == Some(k) <==> k in s.store.rows && (t == IssuedText(k) || t == k)
  {
    NeverAmbiguous(s, t);
    if t in s.store.rows {
      assert KeyOk(s, t);
    }
    if k in s.store.rows {
      assert KeyOk(s, k);
    }
  }

  /** A presented token resolves to a row if and only if it is the token that was handed out
      for it or the stored key itself. */
  lemma ResolvesExactlyWhen(s0: State, steps: seq<Step>, t: Token, k: Token)
    requires Init(s0)
    ensures var s := Run(s0, steps);
            Lookup(s.store, t) == Some(k) <==> k in s.store.rows && (t == IssuedText(k) || t == k)
  {
    InitInv(s0);
    RunKeepsInv(s0, steps);
    LookupOfKey(Run(s0, steps), t, k);
  }

  /** No row accepts anything but the token handed out for it if and only if the row was
      written under its text: the fallback for such rows also takes a stored digest. */
  lemma OnlyIssuedTextExactlyWhen(s0: State, steps: seq<Step>, k: Token)
    requires Init(s0) && k in Run(s0, steps).store.rows
    ensures (forall t :: Lookup(Run(s0, steps).store, t) == Some(k) ==> t == IssuedText(k)) <==> k.Text?
  {
    var s := Run(s0, steps);
    forall t ensures Lookup(s.store, t) == Some(k) <==> t == IssuedText(k) || t == k {
      ResolvesExactlyWhen(s0, steps, t, k);
    }
    if k.Digest? {
      assert Lookup(s.store, k) == Some(k) && k != k.of;
    }
  }

  lemma SameRevocation(s: State, k: Token)
    requires KeysOk(s) && k in s.store.rows
    ensures RevokeRefresh(s.store, k) == RevokeRefresh(s.store, IssuedText(k))
  {
    assert KeyOk(s, k);
    NeverAmbiguous(s, k);
    NeverAmbiguous(s, IssuedText(k));
  }

  /** To the refresh and the revocation the stored key is as good as the token. */
  lemma StoredKeyActsAsToken(
    s0: State, steps: seq<Step>, k: Token, client: string, now: real, later: real, draw: string)
    requires Init(s0) && k in Run(s0, steps).store.rows
    ensures var s := Run(s0, steps).store;
            && RefreshHandler(s, k, client, now, later, draw)
               == RefreshHandler(s, IssuedText(k), client, now, later, draw)
            && RevokeHandler(s, k) == RevokeHandler(s, IssuedText(k))
  {
    ResolvesExactlyWhen(s0, steps, k, k);
    ResolvesExactlyWhen(s0, steps, IssuedText(k), k);
    InitInv(s0);
    RunKeepsInv(s0, steps);
    SameRevocation(Run(s0, steps), k);
  }

  /** The case occurs: after one rotation from a lawful start the new row is found under its
      stored digest, which is not the token that was handed out. */
  lemma StoredDigestIsAccepted() returns (steps: seq<Step>)
    ensures var s, k := Run(OneToken(), steps), Digest(Text("b"));
            Init(OneToken()) && Live(s.store, k) && Lookup(s.store, k) == Some(k) && k != IssuedText(k)
  {
    var s := OneToken();
    steps := RefreshSteps(s.store, 0, Text("a"), "c", "b", 0.0, [Text("a")]);
    OneTokenStarts();
    RefreshIsARun(s, 0, Text("a"), "c", "b", 0.0, [Text("a")]);
    assert RefreshHandler(s.store, Text("a"), "c", s.now, 0.0, "b").1.Issued?;
    ResolvesExactlyWhen(s, steps, Digest(Text("b")), Digest(Text("b")));
  }
}
