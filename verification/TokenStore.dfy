/** The OAuth state store as one map-based specification: registered clients,
    single-use authorization codes and refresh rows.  Both storage backends are
    proved to refine the functions of this module. */
module TokenStore {
  import opened Options

  /** A presented or stored token string, in a symbolic model of SHA-256: `Digest(t)`
      is the storage key of `t`.  The digest is injective and never a random text. */
  datatype Token = Text(text: string) | Digest(of: Token)

  /** An S256 code challenge; `Unmatched` is any string that no verifier hashes to. */
  datatype Challenge = S256(verifier: string) | Unmatched(text: string)

  datatype Client = Client(name: string, redirects: seq<string>, createdAt: int)

  datatype Code = Code(client: string, challenge: Challenge, redirect: string, expires: real)

  datatype Row = Row(client: string, issued: int, expires: int, revoked: bool, family: string)

  datatype Store = Store(
    clients: map<string, Client>,
    codes: map<string, Code>,
    rows: map<Token, Row>)

  const EMPTY := Store(map[], map[], map[])

  function PutClient(s: Store, id: string, c: Client): Store {
    s.(clients := s.clients[id := c])
  }

  function PutCode(s: Store, code: string, c: Code): Store {
    s.(codes := s.codes[code := c])
  }

  /** The row is deleted whether or not it has expired; only a fresh one is returned. */
  function PopCode(s: Store, code: string, now: real): (Store, Option<Code>) {
    if code !in s.codes then (s, None)
    else
      (s.(codes := s.codes - {code}),
       if s.codes[code].expires <= now then None else Some(s.codes[code]))
  }

  function FreshRow(client: string, family: string, now: int, ttl: int): Row {
    Row(client, now, now + ttl, false, family)
  }

  /** New rows are stored under the digest of the token, never under the token. */
  function PutRefresh(s: Store, t: Token, row: Row): Store {
    s.(rows := s.rows[Digest(t) := row])
  }

  /** The key a presented token resolves to: its digest, else itself (rows written
      before digests were stored). */
  function Lookup(s: Store, t: Token): Option<Token> {
    if Digest(t) in s.rows then Some(Digest(t))
    else if t in s.rows then Some(t)
    else None
  }

  function GetRefresh(s: Store, t: Token): Option<Row> {
    match Lookup(s, t)
    case None => None
    case Some(k) => Some(s.rows[k])
  }

  predicate Live(s: Store, k: Token) {
    k in s.rows && !s.rows[k].revoked
  }

  function Flip(s: Store, k: Token): Store
    requires k in s.rows
  {
    s.(rows := s.rows[k := s.rows[k].(revoked := true)])
  }

  /** True exactly for the call that turned an active row into a revoked one. */
  function RevokeRefresh(s: Store, t: Token): (Store, bool) {
    if Live(s, Digest(t)) then (Flip(s, Digest(t)), true)
    else if Live(s, t) then (Flip(s, t), true)
    else (s, false)
  }

  /** The empty family is shared by unrelated rows, so revoking it does nothing. */
  function RevokeFamily(s: Store, family: string): Store {
    if family == "" then s
    else s.(rows := map k | k in s.rows ::
      if s.rows[k].family == family then s.rows[k].(revoked := true) else s.rows[k])
  }

  /** A presented token names at most one row. */
  predicate Unambiguous(s: Store, t: Token) {
    !(Digest(t) in s.rows && t in s.rows)
  }

  /** What was put is what is read, under its key and no other. */
  lemma PutThenGet(
    s: Store, id: string, c: Client, code: string, entry: Code, t: Token, row: Row, x: string, u: Token, now: real)
    ensures PutClient(s, id, c).clients.Keys == s.clients.Keys + {id}
    ensures x in PutClient(s, id, c).clients ==>
              PutClient(s, id, c).clients[x] == if x == id then c else s.clients[x]
    ensures PopCode(PutCode(s, code, entry), x, now).1
            == if x != code then PopCode(s, x, now).1 else if now < entry.expires then Some(entry) else None
    ensures GetRefresh(PutRefresh(s, t, row), u)
            == if u == t || (u == Digest(t) && Digest(u) !in s.rows) then Some(row) else GetRefresh(s, u)
  {
  }
}
