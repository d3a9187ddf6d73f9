/** The two storage backends, each proved to refine `TokenStore`. */
module OAuthBackends {
  import opened Options
  import opened TokenStore

  /** The UPDATE marks every active row named by the digest or by the plain token, and
      the caller wins when exactly one row changed. */
  function SqliteRevoke(s: Store, t: Token): (Store, bool) {
    (s.(rows := map k | k in s.rows ::
       if (k == Digest(t) || k == t) && !s.rows[k].revoked
       then s.rows[k].(revoked := true) else s.rows[k]),
     Live(s, Digest(t)) != Live(s, t))
  }

  /** One UPDATE over both keys does what trying them in turn does, unless both are live:
      then it flips two rows and reports a loss. */
  lemma SqliteRevokeAgrees(s: Store, t: Token)
    ensures SqliteRevoke(s, t) == RevokeRefresh(s, t) <==> !(Live(s, Digest(t)) && Live(s, t))
  {
    var u, r := SqliteRevoke(s, t), RevokeRefresh(s, t);
    if Live(s, Digest(t)) && Live(s, t) {
      assert u.1 != r.1;
    } else if Live(s, Digest(t)) || Live(s, t) {
      var k := if Live(s, Digest(t)) then Digest(t) else t;
      assert r == (Flip(s, k), true);
      assert u.0.rows == r.0.rows;
    } else {
      assert u.0.rows == s.rows;
    }
  }

  /** The number of changed rows is one exactly when one of the two keys was live. */
  lemma HitCount(s: Store, t: Token, hit: set<Token>)
    requires forall k :: k in hit <==> k in {Digest(t), t} && Live(s, k)
    ensures |hit| == 1 <==> SqliteRevoke(s, t).1
  {
    assert t != Digest(t);
    assert hit == (if Live(s, Digest(t)) then {Digest(t)} else {}) + (if Live(s, t) then {t} else {});
  }

  datatype SqlRow = SqlRow(client: string, issued: int, expires: int, revoked: int, family: string) {
    function ToRow(): Row { Row(client, issued, expires, revoked != 0, family) }
  }

  /** One row per primary key in each of the three tables. */
  class SqliteStore {
    var clients: map<string, Client>
    var authCodes: map<string, Code>
    var refreshTokens: map<Token, SqlRow>

    ghost function Abs(): Store
      reads this
    {
      Store(clients, authCodes, map k | k in refreshTokens :: refreshTokens[k].ToRow())
    }

    constructor ()
      ensures Abs() == EMPTY
    {
      clients, authCodes, refreshTokens := map[], map[], map[];
    }

    /** A duplicate primary key makes the INSERT raise; `ok` is false and nothing changes. */
    method PutClient(id: string, name: string, redirects: seq<string>, now: real) returns (ok: bool, at: int)
      modifies this`clients
      ensures at == now.Floor
      ensures ok == (id !in old(clients))
      ensures Abs() == if ok then TokenStore.PutClient(old(Abs()), id, Client(name, redirects, at)) else old(Abs())
    {
      at := now.Floor;
      ok := id !in clients;
      if ok {
        clients := clients[id := Client(name, redirects, at)];
      }
    }

    method GetClient(id: string) returns (r: Option<Client>)
      ensures r == if id in Abs().clients then Some(Abs().clients[id]) else None
    {
      r := if id in clients then Some(clients[id]) else None;
    }

    method PutAuthCode(code: string, client: string, challenge: Challenge, redirect: string,
                       ttl: int, now: real) returns (ok: bool)
      modifies this`authCodes
      ensures ok == (code !in old(authCodes))
      ensures Abs() == if ok
                       then PutCode(old(Abs()), code, Code(client, challenge, redirect, now + ttl as real))
                       else old(Abs())
    {
      ok := code !in authCodes;
      if ok {
        authCodes := authCodes[code := Code(client, challenge, redirect, now + ttl as real)];
      }
    }

    method PopAuthCode(code: string, now: real) returns (r: Option<Code>)
      modifies this`authCodes
      ensures (Abs(), r) == PopCode(old(Abs()), code, now)
    {
      if code !in authCodes {
        return None;
      }
      var row := authCodes[code];
      authCodes := authCodes - {code};
      r := if row.expires <= now then None else Some(row);
    }

    method PutRefresh(t: Token, client: string, family: string, ttl: int, now: real) returns (ok: bool)
      modifies this`refreshTokens
      ensures ok == (Digest(t) !in old(refreshTokens))
      ensures Abs() == if ok
                       then TokenStore.PutRefresh(old(Abs()), t, FreshRow(client, family, now.Floor, ttl))
                       else old(Abs())
    {
      var n := now.Floor;
      ok := Digest(t) !in refreshTokens;
      if ok {
        refreshTokens := refreshTokens[Digest(t) := SqlRow(client, n, n + ttl, 0, family)];
      }
    }

    /** With a row under each of the two keys the SELECT may return either. */
    method GetRefresh(t: Token) returns (r: Option<Row>)
      ensures r.Some? <==> Digest(t) in Abs().rows || t in Abs().rows
      ensures r.Some? ==> exists k | k in {Digest(t), t} && k in Abs().rows :: Abs().rows[k] == r.value
      ensures Unambiguous(Abs(), t) ==> r == TokenStore.GetRefresh(Abs(), t)
    {
      if Digest(t) !in refreshTokens && t !in refreshTokens {
        return None;
      }
      var k :| k in {Digest(t), t} && k in refreshTokens;
      assert k in Abs().rows;
      r := Some(refreshTokens[k].ToRow());
    }

    method RevokeRefresh(t: Token) returns (flipped: bool)
      modifies this`refreshTokens
      ensures (Abs(), flipped) == SqliteRevoke(old(Abs()), t)
      ensures !(Live(old(Abs()), Digest(t)) && Live(old(Abs()), t)) ==>
                (Abs(), flipped) == TokenStore.RevokeRefresh(old(Abs()), t)
    {
      ghost var before := Abs();
      var hit := set k | k in {Digest(t), t} && k in refreshTokens && refreshTokens[k].revoked == 0;
      HitCount(before, t, hit);
      flipped := |hit| == 1;
      refreshTokens := map k | k in refreshTokens ::
        if k in hit then refreshTokens[k].(revoked := 1) else refreshTokens[k];
      assert Abs().rows == SqliteRevoke(before, t).0.rows;
      SqliteRevokeAgrees(before, t);
    }

    method RevokeFamily(family: string)
      modifies this`refreshTokens
      ensures Abs() == TokenStore.RevokeFamily(old(Abs()), family)
    {
      ghost var before := Abs();
      refreshTokens := map k | k in refreshTokens ::
        if refreshTokens[k].family == family && refreshTokens[k].family != ""
        then refreshTokens[k].(revoked := 1) else refreshTokens[k];
      assert Abs().rows == TokenStore.RevokeFamily(before, family).rows;
    }
  }

  /** The partition keys `client#…`, `code#…` and `refresh#…` of the single table. */
  datatype Pk = ClientPk(id: string) | CodePk(code: string) | RefreshPk(key: Token)

  datatype Item =
    | ClientItem(info: Client)
    | CodeItem(code: Code, ttl: int)
    | RefreshItem(client: string, issued: int, expires: int, revoked: int,
                  family: Option<string>, ttl: int)
  {
    function ToRow(): Row
      requires RefreshItem?
    {
      Row(client, issued, expires, revoked != 0, if family.Some? then family.value else "")
    }
  }

  /** `s` is the store a table holds: each item is one client, code or refresh row. */
  ghost predicate Holds(table: map<Pk, Item>, s: Store) {
    && (forall i :: ClientPk(i) in table <==> i in s.clients)
    && (forall i :: i in s.clients ==> table[ClientPk(i)] == ClientItem(s.clients[i]))
    && (forall c :: CodePk(c) in table <==> c in s.codes)
    && (forall c :: c in s.codes ==> table[CodePk(c)].CodeItem? && table[CodePk(c)].code == s.codes[c])
    && (forall t :: RefreshPk(t) in table <==> t in s.rows)
    && (forall t :: t in s.rows ==> HoldsRow(table[RefreshPk(t)], s.rows[t]))
  }

  ghost predicate HoldsRow(item: Item, row: Row) {
    item.RefreshItem? && item.family != Some("") && item.ToRow() == row
  }

  /** A table holds one store only. */
  lemma HoldsUnique(table: map<Pk, Item>, s: Store, u: Store)
    requires Holds(table, s) && Holds(table, u)
    ensures s == u
  {
    forall i ensures i in s.clients <==> i in u.clients {
      assert ClientPk(i) in table <==> i in s.clients;
    }
    forall c ensures c in s.codes <==> c in u.codes {
      assert CodePk(c) in table <==> c in s.codes;
    }
    forall t ensures t in s.rows <==> t in u.rows {
      assert RefreshPk(t) in table <==> t in s.rows;
    }
    forall t | t in s.rows ensures s.rows[t] == u.rows[t] {
      assert HoldsRow(table[RefreshPk(t)], s.rows[t]) && HoldsRow(table[RefreshPk(t)], u.rows[t]);
    }
    assert s.clients == u.clients && s.codes == u.codes && s.rows == u.rows;
  }

  /** The family index holds only the items that carry the attribute. */
  ghost function IndexOf(table: map<Pk, Item>, family: string): set<Pk> {
    set k | k in table && table[k].RefreshItem? && table[k].family == Some(family)
  }

  /** `after` is `start` with some members marked revoked. */
  ghost predicate Marking(start: map<Pk, Item>, after: map<Pk, Item>, members: set<Pk>) {
    && after.Keys == start.Keys
    && (forall k :: k in members ==> k in after && after[k].RefreshItem?)
    && (forall k :: k in after ==>
      || after[k] == start[k]
      || (k in members && start[k].RefreshItem? && after[k] == start[k].(revoked := 1)))
  }

  /** Marking every member of a family's index is the abstract family revocation. */
  lemma MarkedFamily(table: map<Pk, Item>, after: map<Pk, Item>, family: string, s: Store)
    requires family != "" && Holds(table, s) && Marking(table, after, IndexOf(table, family))
    requires forall k :: k in IndexOf(table, family) ==> after[k].revoked == 1
    ensures Holds(after, RevokeFamily(s, family))
  {
    var u := RevokeFamily(s, family);
    forall t | t in u.rows ensures HoldsRow(after[RefreshPk(t)], u.rows[t]) {
      assert HoldsRow(table[RefreshPk(t)], s.rows[t]);
      assert RefreshPk(t) in IndexOf(table, family) <==> s.rows[t].family == family;
    }
  }

  /** Any way the service may split a query's answer into pages: together they hold
      exactly the index members, in any order; a page may be empty. */
  ghost predicate PagesOf(pages: seq<seq<Pk>>, members: set<Pk>) {
    && |pages| > 0
    && (forall p, i :: 0 <= p < |pages| && 0 <= i < |pages[p]| ==> pages[p][i] in members)
    && (forall k :: k in members ==> exists p :: 0 <= p < |pages| && k in pages[p])
  }

  /** A table of items under one partition key, with an index on the family attribute. */
  class DynamoDbStore {
    var table: map<Pk, Item>
    ghost var abs: Store

    ghost predicate Valid()
      reads this
    {
      Holds(table, abs)
    }

    constructor ()
      ensures Valid() && abs == EMPTY
    {
      table, abs := map[], EMPTY;
    }

    method PutClient(id: string, name: string, redirects: seq<string>, now: real) returns (at: int)
      requires Valid()
      modifies this
      ensures Valid() && at == now.Floor
      ensures abs == TokenStore.PutClient(old(abs), id, Client(name, redirects, at))
    {
      at := now.Floor;
      table := table[ClientPk(id) := ClientItem(Client(name, redirects, at))];
      abs := TokenStore.PutClient(abs, id, Client(name, redirects, at));
    }

    method GetClient(id: string) returns (r: Option<Client>)
      requires Valid()
      ensures r == if id in abs.clients then Some(abs.clients[id]) else None
    {
      r := if ClientPk(id) in table then Some(table[ClientPk(id)].info) else None;
    }

    method PutAuthCode(code: string, client: string, challenge: Challenge, redirect: string,
                       ttl: int, now: real)
      requires Valid()
      modifies this
      ensures Valid()
      ensures abs == PutCode(old(abs), code, Code(client, challenge, redirect, now + ttl as real))
    {
      var expires := now + ttl as real;
      table := table[CodePk(code) := CodeItem(Code(client, challenge, redirect, expires), expires.Floor + 5)];
      abs := PutCode(abs, code, Code(client, challenge, redirect, expires));
    }

    method PopAuthCode(code: string, now: real) returns (r: Option<Code>)
      requires Valid()
      modifies this
      ensures Valid()
      ensures (abs, r) == PopCode(old(abs), code, now)
    {
      if CodePk(code) !in table {
        return None;
      }
      var item := table[CodePk(code)];
      table := table - {CodePk(code)};
      abs := PopCode(abs, code, now).0;
      r := if item.code.expires <= now then None else Some(item.code);
    }

    /** The family attribute is omitted when empty: the index rejects empty keys. */
    method PutRefresh(t: Token, client: string, family: string, ttl: int, now: real)
      requires Valid()
      modifies this
      ensures Valid()
      ensures abs == TokenStore.PutRefresh(old(abs), t, FreshRow(client, family, now.Floor, ttl))
    {
      var n := now.Floor;
      var member := if family != "" then Some(family) else None;
      table := table[RefreshPk(Digest(t)) := RefreshItem(client, n, n + ttl, 0, member, n + ttl + 5)];
      abs := TokenStore.PutRefresh(abs, t, FreshRow(client, family, n, ttl));
    }

    method GetRefresh(t: Token) returns (r: Option<Row>)
      requires Valid()
      ensures r == TokenStore.GetRefresh(abs, t)
    {
      if RefreshPk(Digest(t)) in table {
        assert HoldsRow(table[RefreshPk(Digest(t))], abs.rows[Digest(t)]);
        r := Some(table[RefreshPk(Digest(t))].ToRow());
      } else if RefreshPk(t) in table {
        assert HoldsRow(table[RefreshPk(t)], abs.rows[t]);
        r := Some(table[RefreshPk(t)].ToRow());
      } else {
        r := None;
      }
    }

    /** A conditional update on the digest key, then on the plain key. */
    method RevokeRefresh(t: Token) returns (flipped: bool)
      requires Valid()
      modifies this
      ensures Valid()
      ensures (abs, flipped) == TokenStore.RevokeRefresh(old(abs), t)
    {
      var keys := [Digest(t), t];
      for i := 0 to 2
        invariant table == old(table) && abs == old(abs)
        invariant i > 0 ==> !Live(abs, Digest(t))
        invariant i > 1 ==> !Live(abs, t)
      {
        var pk := RefreshPk(keys[i]);
        assert pk in table ==> HoldsRow(table[pk], abs.rows[keys[i]]);
        if pk in table && table[pk].revoked == 0 {
          table := table[pk := table[pk].(revoked := 1)];
          abs := Flip(abs, keys[i]);
          return true;
        }
      }
      return false;
    }

    /** One query page at a time, resuming where the last answer stopped. */
    method RevokeFamily(family: string, pages: seq<seq<Pk>>)
      requires Valid()
      requires family != "" ==> PagesOf(pages, IndexOf(table, family))
      modifies this
      ensures Valid()
      ensures abs == TokenStore.RevokeFamily(old(abs), family)
    {
      if family == "" {
        return;
      }
      ghost var members := IndexOf(table, family);
      var p := 0;
      while true
        invariant 0 <= p < |pages|
        invariant abs == old(abs) && Marking(old(table), table, members)
        invariant forall q, i :: 0 <= q < p && 0 <= i < |pages[q]| ==> table[pages[q][i]].revoked == 1
        decreases |pages| - p
      {
        MarkPage(pages[p], members, old(table));
        if p == |pages| - 1 {
          break;
        }
        p := p + 1;
      }
      MarkedFamily(old(table), table, family, abs);
      abs := TokenStore.RevokeFamily(abs, family);
    }

    /** The update loop over the items of one page. */
    method MarkPage(page: seq<Pk>, ghost members: set<Pk>, ghost start: map<Pk, Item>)
      requires Marking(start, table, members)
      requires forall i :: 0 <= i < |page| ==> page[i] in members
      modifies this`table
      ensures Marking(start, table, members)
      ensures forall i :: 0 <= i < |page| ==> table[page[i]].revoked == 1
      ensures forall k :: k in members && old(table[k]).revoked == 1 ==> table[k].revoked == 1
    {
      for i := 0 to |page|
        invariant Marking(start, table, members)
        invariant forall j :: 0 <= j < i ==> table[page[j]].revoked == 1
        invariant forall k :: k in members && old(table[k]).revoked == 1 ==> table[k].revoked == 1
      {
        table := table[page[i] := table[page[i]].(revoked := 1)];
      }
    }
  }
}
