// The OAuth token cache and the retry on 401, over the in-memory cache and an authorization server that
// accepts exactly the unexpired tokens it issued to the caller.
module TokenClient {
  import opened Basics
  import opened Decimals
  import opened TimedCache

  const TOKEN_PREFIX := "phonepe:token"
  const DEFAULT_LIFETIME := 3600
  const SAFETY_BUFFER := 60

  // A tenant in one of its environments.
  datatype Client = Client(tenant: string, env: string)

  function TokenKey(who: Client): string {
    TOKEN_PREFIX + ":" + who.tenant + ":" + who.env
  }

  // A token issued: to whom, when by the server's clock, for how long, and when the client cached it.
  datatype Grant = Grant(who: Client, token: string, issuedAt: real, lifetime: int, cachedAt: real)

  // The token endpoint's answer: the token, the reported expires_in, and the two clock readings.
  datatype Exchange = Issued(token: string, expiresIn: Option<int>, issuedAt: real, cachedAt: real) | Refused

  // An absent or zero expires_in reads as an hour.
  function Lifetime(expiresIn: Option<int>): int {
    if expiresIn.Some? && expiresIn.value != 0 then expiresIn.value else DEFAULT_LIFETIME
  }

  function CacheTtl(lifetime: int): int {
    if lifetime - SAFETY_BUFFER > 60 then lifetime - SAFETY_BUFFER else 60
  }

  datatype World = World(memory: Memory, grants: set<Grant>)

  datatype TokenResult = Token(token: string) | NoToken

  datatype TokenStep = TokenStep(world: World, result: TokenResult, fetched: bool)

  function Succeeds(ex: Exchange): bool {
    ex.Issued? && ex.token != ""
  }

  function GrantOf(who: Client, ex: Exchange): Grant
    requires ex.Issued?
  {
    Grant(who, ex.token, ex.issuedAt, Lifetime(ex.expiresIn), ex.cachedAt)
  }

  // The client-credentials grant (section 4.4 of RFC 6749), answered from the cache when possible.
  function GetToken(w: World, who: Client, force: bool, at: real, ex: Exchange): TokenStep {
    var key := TokenKey(who);
    var m := if force then w.memory else AfterGet(w.memory, key, at);
    if !force && Truthy(Read(w.memory, key, at)) then
      TokenStep(w.(memory := m), Token(Read(w.memory, key, at).value), false)
    else if !Succeeds(ex) then TokenStep(w.(memory := m), NoToken, true)
    else
      TokenStep(World(AfterSet(m, key, ex.token, Some(CacheTtl(Lifetime(ex.expiresIn))), ex.cachedAt),
                      w.grants + {GrantOf(who, ex)}),
                Token(ex.token), true)
  }

  predicate Valid(g: Grant, who: Client, token: string, now: real) {
    g.who == who && g.token == token && g.issuedAt <= now < g.issuedAt + g.lifetime as real
  }

  predicate Accepts(grants: set<Grant>, who: Client, token: string, now: real) {
    exists g :: g in grants && Valid(g, who, token, now)
  }

  // What reaches the sender of a request: nothing, or the status an accepted token gets.
  datatype Reply = Code(code: int) | Unreachable

  // One upstream request makes up to two tries: for each the exchange it may need, the time of the send and
  // what comes back.
  datatype Try = Try(ex: Exchange, at: real, reply: Reply)

  // How a request ends: with the last status, which the caller sees as an exception from 400 on, or with the
  // exception for want of a token or of a connection.
  datatype Ending = Status(code: int) | AuthFailed | NetworkError

  datatype SendStep = SendStep(world: World, ending: Ending, sends: nat, fetches: nat)

  // The end of one send: 401 for a token the server does not accept, whatever it likes otherwise.
  function Respond(grants: set<Grant>, who: Client, token: string, now: real, reply: Reply): Ending {
    if reply.Unreachable? then NetworkError
    else if Accepts(grants, who, token, now) then Status(reply.code)
    else Status(401)
  }

  function SendAuthenticated(w: World, who: Client, lookup: real, first: Try, second: Try): SendStep {
    var t := GetToken(w, who, false, lookup, first.ex);
    var n := if t.fetched then 1 else 0;
    if t.result.NoToken? then SendStep(t.world, AuthFailed, 0, n)
    else
      var ending := Respond(t.world.grants, who, t.result.token, first.at, first.reply);
      if ending != Status(401) then SendStep(t.world, ending, 1, n)
      else
        var u := GetToken(t.world, who, true, first.at, second.ex);
        if u.result.NoToken? then SendStep(u.world, AuthFailed, 1, n + 1)
        else SendStep(u.world, Respond(u.world.grants, who, u.result.token, second.at, second.reply), 2, n + 1)
  }

  // ---------- The client ----------

  class AuthServer {
    var grants: set<Grant>

    constructor ()
      ensures grants == {}
    {
      grants := {};
    }

    method Exchange(who: Client, ex: Exchange)
      modifies this
      ensures grants == if Succeeds(ex) then old(grants) + {GrantOf(who, ex)} else old(grants)
    {
      if ex.Issued? && ex.token != "" {
        grants := grants + {GrantOf(who, ex)};
      }
    }
  }

  class PhonePeClient {
    const who: Client
    const cache: RedisManager
    const server: AuthServer

    constructor (who: Client, cache: RedisManager, server: AuthServer)
      ensures this.who == who && this.cache == cache && this.server == server
    {
      this.who, this.cache, this.server := who, cache, server;
    }

    function State(): World
      reads cache, server
    {
      World(cache.memory, server.grants)
    }

    method GetAccessToken(force: bool, at: real, ex: Exchange) returns (r: TokenResult, ghost fetched: bool)
      modifies cache, server
      ensures TokenStep(State(), r, fetched) == GetToken(old(State()), who, force, at, ex)
    {
      var key := TokenKey(who);
      if !force {
        var cached := cache.Get(key, at);
        if cached.Some? && cached.value != "" {
          return Token(cached.value), false;
        }
      }
      fetched := true;
      server.Exchange(who, ex);
      match ex {
        case Refused => r := NoToken;
        case Issued(token, expiresIn, _, cachedAt) =>
          var lifetime := if expiresIn.Some? && expiresIn.value != 0 then expiresIn.value else DEFAULT_LIFETIME;
          if token == "" {
            return NoToken, fetched;
          }
          var ttl := if lifetime - SAFETY_BUFFER > 60 then lifetime - SAFETY_BUFFER else 60;
          cache.Set(key, token, Some(ttl), cachedAt);
          r := Token(token);
      }
    }

    method Send(lookup: real, first: Try, second: Try) returns (ending: Ending, sends: nat, fetches: nat)
      modifies cache, server
      ensures SendStep(State(), ending, sends, fetches) == SendAuthenticated(old(State()), who, lookup, first, second)
    {
      sends, fetches := 0, 0;
      ghost var fetched;
      ghost var n: nat := 0;
      var before := cache.memory;
      var hit := Read(before, TokenKey(who), lookup);
      var token;
      token, fetched := GetAccessToken(false, lookup, first.ex);
      if !Truthy(hit) {
        fetches := fetches + 1;
      }
      if token.NoToken? {
        return AuthFailed, sends, fetches;
      }
      ending := Respond(server.grants, who, token.token, first.at, first.reply);
      sends := sends + 1;
      if ending == Status(401) {
        token, fetched := GetAccessToken(true, first.at, second.ex);
        fetches := fetches + 1;
        if token.NoToken? {
          return AuthFailed, sends, fetches;
        }
        ending := Respond(server.grants, who, token.token, second.at, second.reply);
        sends := sends + 1;
      }
    }
  }

  // ---------- Main results: one request ----------

  // The server has granted the token to the client before.
  ghost predicate Known(grants: set<Grant>, who: Client, token: string) {
    exists g :: g in grants && g.who == who && g.token == token
  }

  lemma AcceptsNewToken(grants: set<Grant>, g: Grant, now: real)
    requires !Known(grants, g.who, g.token)
    ensures Accepts(grants + {g}, g.who, g.token, now) <==> Valid(g, g.who, g.token, now)
  {
    if Valid(g, g.who, g.token, now) {
      assert g in grants + {g};
    }
  }

  // The try reached the server and came back with 401: the token was not accepted, or the answer was 401 anyway.
  ghost predicate Refused401(grants: set<Grant>, who: Client, token: string, try_: Try) {
    try_.reply.Code? && (try_.reply.code == 401 || !Accepts(grants, who, token, try_.at))
  }

  // An exchange that yields a token.
  predicate Yields(ex: Exchange) {
    ex.Issued? && ex.token != ""
  }

  // Whatever the cache held, a request whose exchanges succeed makes at most two sends and two exchanges. It is
  // sent again if and only if it came back with 401, and the fresh token is then cached. It ends in 401 if and
  // only if the second send comes back with 401, too; for a token not granted before and an answer other than
  // 401, that is one sent outside its own lifetime.
  lemma RetryRecovers(w: World, who: Client, lookup: real, first: Try, second: Try)
    requires Yields(first.ex) && Yields(second.ex)
    ensures var t := GetToken(w, who, false, lookup, first.ex);
            var r := SendAuthenticated(w, who, lookup, first, second);
            var last := if r.sends == 1 then first else second;
            var grant := GrantOf(who, second.ex);
            && t.result.Token? && 1 <= r.sends <= 2 && r.fetches <= 2
            && (r.sends == 2 <==> Refused401(t.world.grants, who, t.result.token, first))
            && (r.sends == 2 ==> TokenKey(who) in r.world.memory
                                 && r.world.memory[TokenKey(who)].value == second.ex.token)
            && (r.ending == Status(401) <==> r.sends == 2 && Refused401(r.world.grants, who, grant.token, second))
            && (r.ending != Status(401) ==>
                  r.ending == if last.reply.Unreachable? then NetworkError else Status(last.reply.code))
            && (r.ending == Status(401) && second.reply != Code(401) ==> !Valid(grant, who, grant.token, second.at))
            && (r.sends == 2 && second.reply != Code(401) && !Known(t.world.grants, who, grant.token) ==>
                  (r.ending == Status(401) <==> second.reply.Code? && !Valid(grant, who, grant.token, second.at)))
  {
    var t := GetToken(w, who, false, lookup, first.ex);
    var r := SendAuthenticated(w, who, lookup, first, second);
    assert r.sends == 2 ==> GrantOf(who, second.ex) in r.world.grants;
    if !Known(t.world.grants, who, second.ex.token) {
      AcceptsNewToken(t.world.grants, GrantOf(who, second.ex), second.at);
    }
  }

  // A request fails for want of a token exactly when an exchange it needs yields none: the first, with nothing
  // in the cache, or the second, after a 401.
  lemma AuthFailsExactlyWhen(w: World, who: Client, lookup: real, first: Try, second: Try)
    ensures var t := GetToken(w, who, false, lookup, first.ex);
            var r := SendAuthenticated(w, who, lookup, first, second);
            && (t.result.NoToken? <==> t.fetched && !Yields(first.ex))
            && (t.result.NoToken? && TokenKey(who) in t.world.memory ==> t.world.memory[TokenKey(who)].value == "")
            && (r.ending.AuthFailed? <==>
                  t.result.NoToken?
                  || (Refused401(t.world.grants, who, t.result.token, first) && !Yields(second.ex)))
            && (r.ending.AuthFailed? ==> r.sends == if t.result.NoToken? then 0 else 1)
  {
  }

  // How many seconds the cache serves a token of a reported lifetime; one of none, or of 0, counts as an hour.
  function ServingSeconds(expiresIn: Option<int>): int {
    match expiresIn
    case None => 3540
    case Some(n) => if n == 0 then 3540 else if n > 120 then n - 60 else 60
  }

  // A token fetched now answers every later request of the client without an exchange, for exactly that long
  // and unless it is forced; the server takes it for as long as it reported.
  lemma FetchedTokenServes(w: World, who: Client, force: bool, at: real, ex: Exchange, later: real, next: Exchange)
    requires GetToken(w, who, force, at, ex).fetched && Yields(ex) && ex.cachedAt > 0.0
    ensures var w' := GetToken(w, who, force, at, ex).world;
            var again := GetToken(w', who, false, later, next);
            && (again.fetched <==> later >= ex.cachedAt + ServingSeconds(ex.expiresIn) as real)
            && (!again.fetched ==> again.result == Token(ex.token) && again.world == w')
            && GetToken(w', who, true, later, next).fetched
            && (ex.issuedAt <= later < ex.issuedAt + (match ex.expiresIn case None => 3600.0
                                                      case Some(n) => if n == 0 then 3600.0 else n as real) ==>
                  Accepts(w'.grants, who, ex.token, later))
  {
    var w' := GetToken(w, who, force, at, ex).world;
    var g := GrantOf(who, ex);
    assert g in w'.grants;
    assert Valid(g, who, ex.token, later) ==> Accepts(w'.grants, who, ex.token, later);
  }

  // ---------- Main results: every history of the cache ----------

  datatype Event = Ask(who: Client, force: bool, at: real, ex: Exchange) | Other(op: Op)

  ghost predicate IsTokenKey(key: string) {
    exists who :: key == TokenKey(who)
  }

  // Environments are "sandbox" or "production"; other traffic uses other keys; tokens are cached at a
  // positive time, no earlier than they were issued.
  ghost predicate Plausible(e: Event) {
    match e
    case Ask(who, _, _, ex) => ':' !in who.env && (ex.Issued? ==> 0.0 < ex.issuedAt <= ex.cachedAt)
    case Other(op) => !IsTokenKey(op.key)
  }

  function After(w: World, e: Event): World {
    match e
    case Ask(who, force, at, ex) => GetToken(w, who, force, at, ex).world
    case Other(op) => w.(memory := Step(w.memory, op))
  }

  function Play(w: World, es: seq<Event>): World
    decreases |es|
  {
    if es == [] then w else Play(After(w, es[0]), es[1..])
  }

  // The cached entry under a client's key is a token granted to that client, with the expiry set at caching.
  ghost predicate Backed(w: World, who: Client, e: Entry) {
    exists g :: g in w.grants && g.who == who && g.token == e.value && 0.0 < g.issuedAt <= g.cachedAt
                && e.expiresAt == g.cachedAt + CacheTtl(g.lifetime) as real
  }

  ghost predicate CacheOk(w: World) {
    forall who: Client :: ':' !in who.env && TokenKey(who) in w.memory ==> Backed(w, who, w.memory[TokenKey(who)])
  }

  lemma TokenKeyInjective(a: Client, b: Client)
    requires ':' !in a.env && ':' !in b.env && TokenKey(a) == TokenKey(b)
    ensures a == b
  {
    JoinInjective(TOKEN_PREFIX + ":" + a.tenant, a.env, TOKEN_PREFIX + ":" + b.tenant, b.env);
    var p := TOKEN_PREFIX + ":";
    assert a.tenant == (p + a.tenant)[|p|..] == (p + b.tenant)[|p|..] == b.tenant;
  }

  lemma AfterKeeps(w: World, e: Event)
    requires CacheOk(w) && Plausible(e)
    ensures CacheOk(After(w, e))
  {
    hide TokenKey;
    var w' := After(w, e);
    forall who: Client | ':' !in who.env && TokenKey(who) in w'.memory
      ensures Backed(w', who, w'.memory[TokenKey(who)])
    {
      match e
      case Ask(asker, force, at, ex) =>
        if TokenKey(who) == TokenKey(asker) {
          TokenKeyInjective(who, asker);
        }
        var s := GetToken(w, asker, force, at, ex);
        if who == asker && s.fetched && Succeeds(ex) {
          assert GrantOf(asker, ex) in w'.grants;
        } else {
          assert Backed(w, who, w.memory[TokenKey(who)]);
        }
      case Other(op) =>
        assert IsTokenKey(TokenKey(who));
        assert Backed(w, who, w.memory[TokenKey(who)]);
    }
  }

  lemma {:induction false} PlayKeeps(w: World, es: seq<Event>)
    requires CacheOk(w) && forall i :: 0 <= i < |es| ==> Plausible(es[i])
    ensures CacheOk(Play(w, es))
    decreases |es|
  {
    hide CacheOk, After, Plausible;
    if es == [] {
    } else {
      AfterKeeps(w, es[0]);
      PlayKeeps(After(w, es[0]), es[1..]);
    }
  }

  // How long after the server issued it the client cached the token.
  function Latency(g: Grant): real {
    g.cachedAt - g.issuedAt
  }

  // Whether the cache still serves the token, and whether the server still accepts it.
  predicate Served(g: Grant, now: real) {
    now < g.cachedAt + CacheTtl(g.lifetime) as real
  }

  predicate Unexpired(g: Grant, now: real) {
    now < g.issuedAt + g.lifetime as real
  }

  predicate CoversBuffer(g: Grant) {
    g.lifetime as real >= 60.0 + Latency(g) && Latency(g) <= 60.0
  }

  // A cached token stays within its lifetime for as long as the cache serves it, exactly when the lifetime
  // covers the minimum cache time of 60 seconds plus the latency, and the latency stays within the buffer.
  lemma ServedOnlyWhileValid(g: Grant)
    requires g.issuedAt <= g.cachedAt
    ensures (forall t :: Served(g, t) ==> Unexpired(g, t)) <==> CoversBuffer(g)
  {
    var expiry := g.issuedAt + g.lifetime as real;
    assert Served(g, expiry) ==> !Unexpired(g, expiry);
  }

  // In every history, from an empty cache on: a token answered from the cache was granted to the very tenant
  // and environment that asks; it has not expired if its lifetime covers 60 seconds and the latency; and
  // with a lifetime of at least 120 seconds more than 60 seconds less the latency are left.
  lemma CachedTokensAreOwnAndFresh(es: seq<Event>, who: Client, at: real, ex: Exchange) returns (g: Grant)
    requires forall i :: 0 <= i < |es| ==> Plausible(es[i])
    requires ':' !in who.env
    requires var w := Play(World(map[], {}), es); !GetToken(w, who, false, at, ex).fetched
    ensures var w := Play(World(map[], {}), es);
            var r := GetToken(w, who, false, at, ex);
            && g in w.grants && g.who == who && r.result == Token(g.token)
            && (CoversBuffer(g) ==> Unexpired(g, at))
            && (g.lifetime >= 120 ==> g.issuedAt + g.lifetime as real - at > 60.0 - Latency(g))
  {
    PlayKeeps(World(map[], {}), es);
    var w := Play(World(map[], {}), es);
    assert Backed(w, who, w.memory[TokenKey(who)]);
    g :| g in w.grants && g.who == who && g.token == w.memory[TokenKey(who)].value && 0.0 < g.issuedAt <= g.cachedAt
         && w.memory[TokenKey(who)].expiresAt == g.cachedAt + CacheTtl(g.lifetime) as real;
  }

  // The limiter and the token cache share one dictionary without sharing a key.
  lemma KeysDisjoint(who: Client, ident: string, bucket: nat)
    ensures TokenKey(who) != LimiterKey(ident, bucket)
  {
    assert TokenKey(who)[8] == 't' && LimiterKey(ident, bucket)[8] == 'r';
  }
}
