/** The two backends give the same answers to every sequence of operations, as long as the
    values that are put are freshly drawn. */
module OAuthSequences {
  import opened Options
  import opened TokenStore
  import opened OAuthBackends

  datatype Op =
    | AddClient(id: string, name: string, redirects: seq<string>, at: real)
    | FindClient(id: string)
    | AddCode(code: string, client: string, challenge: Challenge, redirect: string, ttl: int, at: real)
    | TakeCode(code: string, at: real)
    | AddToken(text: string, client: string, family: string, ttl: int, at: real)
    | FindToken(t: Token)
    | EndToken(t: Token)
    | EndFamily(family: string)

  datatype Answer =
    | Stored(ok: bool)
    | Known(client: Option<Client>)
    | Taken(entry: Option<Code>)
    | Found(row: Option<Row>)
    | Flipped(won: bool)

  /** The abstract store, which the DynamoDB backend follows step by step. */
  function Do(s: Store, op: Op): (Store, Answer) {
    match op
    case AddClient(id, name, redirects, at) =>
      (PutClient(s, id, Client(name, redirects, at.Floor)), Stored(true))
    case FindClient(id) => (s, Known(if id in s.clients then Some(s.clients[id]) else None))
    case AddCode(code, client, challenge, redirect, ttl, at) =>
      (PutCode(s, code, Code(client, challenge, redirect, at + ttl as real)), Stored(true))
    case TakeCode(code, at) => (PopCode(s, code, at).0, Taken(PopCode(s, code, at).1))
    case AddToken(text, client, family, ttl, at) =>
      (PutRefresh(s, Text(text), FreshRow(client, family, at.Floor, ttl)), Stored(true))
    case FindToken(t) => (s, Found(GetRefresh(s, t)))
    case EndToken(t) => (RevokeRefresh(s, t).0, Flipped(RevokeRefresh(s, t).1))
    case EndFamily(family) => (RevokeFamily(s, family), Stored(true))
  }

  /** The value a put is keyed by. */
  function Drawn(op: Op): set<string> {
    match op
    case AddClient(id, _, _, _) => {id}
    case AddCode(code, _, _, _, _, _) => {code}
    case AddToken(text, _, _, _, _) => {text}
    case _ => {}
  }

  /** What SQLite may do: an insert under a key that exists fails, a SELECT over two keys
      returns any row it finds, and one UPDATE covers both keys. */
  ghost predicate SqliteDoes(s: Store, op: Op, u: Store, a: Answer) {
    match op
    case AddClient(id, _, _, _) => (u, a) == if id in s.clients then (s, Stored(false)) else Do(s, op)
    case AddCode(code, _, _, _, _, _) => (u, a) == if code in s.codes then (s, Stored(false)) else Do(s, op)
    case AddToken(text, _, _, _, _) =>
      (u, a) == if Digest(Text(text)) in s.rows then (s, Stored(false)) else Do(s, op)
    case FindToken(t) =>
      && u == s && a.Found? && (a.row.Some? <==> Digest(t) in s.rows || t in s.rows)
      && (a.row.Some? ==> (Digest(t) in s.rows && s.rows[Digest(t)] == a.row.value)
                          || (t in s.rows && s.rows[t] == a.row.value))
    case EndToken(t) => (u, a) == (SqliteRevoke(s, t).0, Flipped(SqliteRevoke(s, t).1))
    case _ => (u, a) == Do(s, op)
  }

  method SqlitePerform(store: SqliteStore, op: Op) returns (a: Answer)
    modifies store
    ensures SqliteDoes(old(store.Abs()), op, store.Abs(), a)
  {
    match op
    case AddClient(id, name, redirects, at) =>
      var ok, _ := store.PutClient(id, name, redirects, at);
      a := Stored(ok);
    case FindClient(id) =>
      var client := store.GetClient(id);
      a := Known(client);
    case AddCode(code, client, challenge, redirect, ttl, at) =>
      var ok := store.PutAuthCode(code, client, challenge, redirect, ttl, at);
      a := Stored(ok);
    case TakeCode(code, at) =>
      var entry := store.PopAuthCode(code, at);
      a := Taken(entry);
    case AddToken(text, client, family, ttl, at) =>
      var ok := store.PutRefresh(Text(text), client, family, ttl, at);
      a := Stored(ok);
    case FindToken(t) =>
      var row := store.GetRefresh(t);
      a := Found(row);
    case EndToken(t) =>
      var won := store.RevokeRefresh(t);
      a := Flipped(won);
    case EndFamily(family) =>
      store.RevokeFamily(family);
      a := Stored(true);
  }

  /** `pages` is the answer of the family query, when there is one. */
  method DynamoDbPerform(store: DynamoDbStore, op: Op, pages: seq<seq<Pk>>) returns (a: Answer)
    requires store.Valid()
    requires op.EndFamily? && op.family != "" ==> PagesOf(pages, IndexOf(store.table, op.family))
    modifies store
    ensures store.Valid() && (store.abs, a) == Do(old(store.abs), op)
  {
    match op
    case AddClient(id, name, redirects, at) =>
      var _ := store.PutClient(id, name, redirects, at);
      a := Stored(true);
    case FindClient(id) =>
      var client := store.GetClient(id);
      a := Known(client);
    case AddCode(code, client, challenge, redirect, ttl, at) =>
      store.PutAuthCode(code, client, challenge, redirect, ttl, at);
      a := Stored(true);
    case TakeCode(code, at) =>
      var entry := store.PopAuthCode(code, at);
      a := Taken(entry);
    case AddToken(text, client, family, ttl, at) =>
      store.PutRefresh(Text(text), client, family, ttl, at);
      a := Stored(true);
    case FindToken(t) =>
      var row := store.GetRefresh(t);
      a := Found(row);
    case EndToken(t) =>
      var won := store.RevokeRefresh(t);
      a := Flipped(won);
    case EndFamily(family) =>
      store.RevokeFamily(family, pages);
      a := Stored(true);
  }

  // ---------------------------------------------------------------- lawful stores

  /** Every row is a legacy row under its text or a row under the digest of a drawn text, and
      every client and code was drawn. */
  ghost predicate Lawful(s: Store, legacy: set<string>, drawn: set<string>) {
    && legacy <= drawn && s.clients.Keys <= drawn && s.codes.Keys <= drawn
    && forall k :: k in s.rows ==> LawfulKey(k, legacy, drawn)
  }

  predicate LawfulKey(k: Token, legacy: set<string>, drawn: set<string>) {
    || (k.Text? && k.text in legacy)
    || (k.Digest? && k.of.Text? && k.of.text in drawn && k.of.text !in legacy)
  }

  lemma LawfulIsUnambiguous(s: Store, legacy: set<string>, drawn: set<string>, t: Token)
    requires Lawful(s, legacy, drawn)
    ensures Unambiguous(s, t)
  {
  }

  /** On a lawful store SQLite has no choice, and does what the abstract store does. */
  lemma SqliteFollows(s: Store, op: Op, u: Store, a: Answer, legacy: set<string>, drawn: set<string>)
    requires Lawful(s, legacy, drawn) && Drawn(op) !! drawn && SqliteDoes(s, op, u, a)
    ensures (u, a) == Do(s, op)
  {
    match op
    case FindToken(t) => LawfulIsUnambiguous(s, legacy, drawn, t);
    case EndToken(t) =>
      LawfulIsUnambiguous(s, legacy, drawn, t);
      SqliteRevokeAgrees(s, t);
    case AddToken(text, _, _, _, _) =>
      assert Digest(Text(text)) in s.rows ==> LawfulKey(Digest(Text(text)), legacy, drawn);
    case _ =>
  }

  lemma DoKeepsLawful(s: Store, op: Op, legacy: set<string>, drawn: set<string>)
    requires Lawful(s, legacy, drawn) && Drawn(op) !! drawn
    ensures Lawful(Do(s, op).0, legacy, drawn + Drawn(op))
  {
    var u := Do(s, op).0;
    forall k | k in u.rows ensures LawfulKey(k, legacy, drawn + Drawn(op)) {
      if k in s.rows {
        assert LawfulKey(k, legacy, drawn);
      }
    }
  }

  // ---------------------------------------------------------------- sequences

  /** Every put uses a value that was never used before. */
  ghost predicate FreshPuts(ops: seq<Op>, drawn: set<string>)
    decreases |ops|
  {
    ops == [] || (Drawn(ops[0]) !! drawn && FreshPuts(ops[1..], drawn + Drawn(ops[0])))
  }

  function DoAll(s: Store, ops: seq<Op>): (Store, seq<Answer>)
    decreases |ops|
  {
    if ops == [] then (s, [])
    else
      var rest := DoAll(Do(s, ops[0]).0, ops[1..]);
      (rest.0, [Do(s, ops[0]).1] + rest.1)
  }

  /** A run of the SQLite backend: its states and its answers. */
  ghost predicate SqliteRun(states: seq<Store>, ops: seq<Op>, answers: seq<Answer>) {
    && |states| == |ops| + 1 && |answers| == |ops|
    && forall i :: 0 <= i < |ops| ==> SqliteDoes(states[i], ops[i], states[i + 1], answers[i])
  }

  /** From a lawful store every run of the SQLite backend ends in the state and gives the
      answers of the abstract store, and so of the DynamoDB backend. */
  lemma {:induction false} BackendsAgree(
    states: seq<Store>, ops: seq<Op>, answers: seq<Answer>, legacy: set<string>, drawn: set<string>)
    requires SqliteRun(states, ops, answers) && Lawful(states[0], legacy, drawn) && FreshPuts(ops, drawn)
    ensures (states[|ops|], answers) == DoAll(states[0], ops)
    decreases |ops|
  {
    if ops != [] {
      assert SqliteDoes(states[0], ops[0], states[0 + 1], answers[0]);
      SqliteFollows(states[0], ops[0], states[1], answers[0], legacy, drawn);
      DoKeepsLawful(states[0], ops[0], legacy, drawn);
      RunRest(states, ops, answers);
      BackendsAgree(states[1..], ops[1..], answers[1..], legacy, drawn + Drawn(ops[0]));
      assert states[1..][|ops[1..]|] == states[|ops|];
      assert answers == [answers[0]] + answers[1..];
    }
  }

  lemma RunRest(states: seq<Store>, ops: seq<Op>, answers: seq<Answer>)
    requires SqliteRun(states, ops, answers) && ops != []
    ensures SqliteRun(states[1..], ops[1..], answers[1..])
  {
    forall i | 0 <= i < |ops[1..]|
      ensures SqliteDoes(states[1..][i], ops[1..][i], states[1..][i + 1], answers[1..][i])
    {
      assert SqliteDoes(states[i + 1], ops[i + 1], states[i + 1 + 1], answers[i + 1]);
    }
  }

  /** Along the way no presented token is ever ambiguous. */
  lemma {:induction false} NeverAmbiguous(s: Store, ops: seq<Op>, legacy: set<string>, drawn: set<string>, t: Token)
    requires Lawful(s, legacy, drawn) && FreshPuts(ops, drawn)
    ensures Unambiguous(DoAll(s, ops).0, t)
    decreases |ops|
  {
    if ops == [] {
      LawfulIsUnambiguous(s, legacy, drawn, t);
    } else {
      DoKeepsLawful(s, ops[0], legacy, drawn);
      NeverAmbiguous(Do(s, ops[0]).0, ops[1..], legacy, drawn + Drawn(ops[0]), t);
    }
  }
}
