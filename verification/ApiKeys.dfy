// API keys: issued once in the clear, stored as a hash, authenticated and revoked.
module ApiKeys {
  import opened Basics
  import Redaction

  type TenantId = string
  type KeyId = string

  // str.strip(): Unicode white space on both ends.
  predicate IsSpace(c: char) {
    || '\U{0009}' <= c <= '\U{000D}' || '\U{001C}' <= c <= '\U{0020}'
    || c == '\U{0085}' || c == '\U{00A0}' || c == '\U{1680}'
    || '\U{2000}' <= c <= '\U{200A}' || c == '\U{2028}' || c == '\U{2029}'
    || c == '\U{202F}' || c == '\U{205F}' || c == '\U{3000}'
  }

  predicate Blank(s: string) {
    forall c :: c in s ==> IsSpace(c)
  }

  function StripLeft(s: string): string {
    if s != "" && IsSpace(s[0]) then StripLeft(s[1..]) else s
  }

  function StripRight(s: string): string {
    if s != "" && IsSpace(s[|s| - 1]) then StripRight(s[..|s| - 1]) else s
  }

  function Strip(s: string): string {
    StripRight(StripLeft(s))
  }

  // A text that neither begins nor ends with white space.
  predicate Trim(s: string) {
    s != "" && !IsSpace(s[0]) && !IsSpace(s[|s| - 1])
  }

  lemma {:induction false} StripLeftPadding(left: string, s: string)
    requires Blank(left) && (s == "" || !IsSpace(s[0]))
    ensures StripLeft(left + s) == s
  {
    if left == "" {
      assert left + s == s;
    } else {
      assert left[0] in left;
      StripLeftPadding(left[1..], s);
      assert (left + s)[1..] == left[1..] + s;
    }
  }

  lemma {:induction false} StripRightPadding(s: string, right: string)
    requires Blank(right) && s != "" && !IsSpace(s[|s| - 1])
    ensures StripRight(s + right) == s
  {
    if right == "" {
      assert s + right == s;
    } else {
      var n := |right| - 1;
      assert right[n] in right;
      StripRightPadding(s, right[..n]);
      assert (s + right)[..|s| + n] == s + right[..n];
    }
  }

  // White space around a key does not matter.
  lemma StripPadding(left: string, s: string, right: string)
    requires Blank(left) && Blank(right) && Trim(s)
    ensures Strip(left + s + right) == s
  {
    assert left + s + right == left + (s + right);
    StripLeftPadding(left, s + right);
    StripRightPadding(s, right);
  }

  // ---------- The rows ----------

  datatype ApiKey = ApiKey(tenant: TenantId, hash: string, prefix: string, active: bool, lastUsed: Option<int>)

  // Tenants by id, with their active flag, and the issued keys.
  datatype Store = Store(tenants: map<TenantId, bool>, keys: map<KeyId, ApiKey>)

  datatype Error = InvalidApiKey | TenantInactive | MultipleResults | IntegrityError | NotFound
  datatype Outcome = Authenticated(tenant: TenantId, key: KeyId) | Issued(raw: string) | Done | Raised(error: Error)

  // A hash function, kept abstract.
  type Hash = string -> string

  ghost predicate Injective(h: Hash) {
    forall a, b :: h(a) == h(b) ==> a == b
  }

  // pg_ + environment + _ + random hexadecimal digits.
  function RawKey(environment: string, random: string): string {
    "pg_" + (if |environment| > 4 then environment[..4] else environment) + "_" + random
  }

  predicate HexDigits(s: string) {
    |s| == 48 && forall c :: c in s ==> '0' <= c <= '9' || 'a' <= c <= 'f'
  }

  function HashApiKey(h: Hash, raw: string): string {
    h(Strip(raw))
  }

  function Prefix(raw: string): string {
    if |raw| > 12 then raw[..12] else raw
  }

  datatype Op =
    | PutTenant(tenant: TenantId, active: bool)
    | Create(tenant: TenantId, environment: string, random: string, newId: KeyId)
    | Revoke(key: KeyId)
    | Authenticate(raw: string, now: int)

  ghost function Candidates(keys: map<KeyId, ApiKey>, hash: string): set<KeyId> {
    set k | k in keys && keys[k].hash == hash && keys[k].active
  }

  predicate HashTaken(keys: map<KeyId, ApiKey>, hash: string) {
    exists k :: k in keys && keys[k].hash == hash
  }

  ghost function Serve(s: Store, h: Hash, op: Op): (Store, Outcome) {
    match op
    case PutTenant(t, active) => (s.(tenants := s.tenants[t := active]), Done)
    case Create(t, environment, random, newId) =>
      var raw := RawKey(environment, random);
      if t !in s.tenants then (s, Raised(NotFound))
      else if newId in s.keys || HashTaken(s.keys, HashApiKey(h, raw)) then (s, Raised(IntegrityError))
      else (s.(keys := s.keys[newId := ApiKey(t, HashApiKey(h, raw), Prefix(raw), true, None)]), Issued(raw))
    case Revoke(k) =>
      if k !in s.keys then (s, Raised(NotFound))
      else (s.(keys := s.keys[k := s.keys[k].(active := false)]), Done)
    case Authenticate(raw, now) =>
      if Strip(raw) == "" then (s, Raised(InvalidApiKey))
      else
        match ScalarOneOrNone(Candidates(s.keys, HashApiKey(h, Strip(raw))))
        case NoRow => (s, Raised(InvalidApiKey))
        case ManyRows => (s, Raised(MultipleResults))
        case OneRow(k) => AuthenticateRow(s, k, now)
  }

  function AuthenticateRow(s: Store, k: KeyId, now: int): (Store, Outcome) {
    if k !in s.keys then (s, Raised(InvalidApiKey))
    else if s.keys[k].tenant !in s.tenants || !s.tenants[s.keys[k].tenant] then (s, Raised(TenantInactive))
    else (s.(keys := s.keys[k := s.keys[k].(lastUsed := Some(now))]), Authenticated(s.keys[k].tenant, k))
  }

  ghost function Run(s: Store, h: Hash, ops: seq<Op>): Store
    decreases |ops|
  {
    if ops == [] then s else Run(Serve(s, h, ops[0]).0, h, ops[1..])
  }

  // ---------- The service ----------

  class TenantService {
    var tenants: map<TenantId, bool>
    var keys: map<KeyId, ApiKey>

    constructor ()
      ensures tenants == map[] && keys == map[]
    {
      tenants, keys := map[], map[];
    }

    ghost function State(): Store
      reads this
    {
      Store(tenants, keys)
    }

    method CreateApiKey(h: Hash, t: TenantId, environment: string, random: string, newId: KeyId) returns (r: Outcome)
      modifies this`keys
      ensures (State(), r) == Serve(old(State()), h, Create(t, environment, random, newId))
    {
      if t !in tenants {
        return Raised(NotFound);
      }
      var raw := RawKey(environment, random);
      var hash := HashApiKey(h, raw);
      if newId in keys || exists k :: k in keys && keys[k].hash == hash {
        return Raised(IntegrityError);
      }
      keys := keys[newId := ApiKey(t, hash, Prefix(raw), true, None)];
      r := Issued(raw);
    }

    method RevokeApiKey(k: KeyId) returns (r: Outcome)
      modifies this`keys
      ensures forall h :: (State(), r) == Serve(old(State()), h, Revoke(k))
    {
      if k !in keys {
        return Raised(NotFound);
      }
      var row := keys[k];
      row := row.(active := false);
      keys := keys[k := row];
      r := Done;
    }

    method AuthenticateApiKey(h: Hash, raw: string, now: int) returns (r: Outcome)
      modifies this`keys
      ensures (State(), r) == Serve(old(State()), h, Authenticate(raw, now))
    {
      if Strip(raw) == "" {
        return Raised(InvalidApiKey);
      }
      var hash := HashApiKey(h, Strip(raw));
      var rows := keys;
      var found := ReadScalar(set k | k in rows && rows[k].hash == hash && rows[k].active);
      assert (set k | k in rows && rows[k].hash == hash && rows[k].active) == Candidates(rows, hash);
      match found {
        case NoRow => return Raised(InvalidApiKey);
        case ManyRows => return Raised(MultipleResults);
        case OneRow(k) =>
          var row := keys[k];
          if row.tenant !in tenants || !tenants[row.tenant] {
            return Raised(TenantInactive);
          }
          row := row.(lastUsed := Some(now));
          keys := keys[k := row];
          r := Authenticated(row.tenant, k);
      }
    }
  }

  // ---------- What every operation keeps ----------

  ghost predicate UniqueHashes(s: Store) {
    forall j, k :: j in s.keys && k in s.keys && s.keys[j].hash == s.keys[k].hash ==> j == k
  }

  // Keys stay, with their tenant and hash; one that is revoked stays revoked.
  ghost predicate Later(s: Store, s': Store) {
    forall k :: k in s.keys ==> k in s'.keys && SameKey(s.keys[k], s'.keys[k])
  }

  predicate SameKey(a: ApiKey, b: ApiKey) {
    b.tenant == a.tenant && b.hash == a.hash && (b.active ==> a.active)
  }

  lemma RewriteKeeps(s: Store, k: KeyId, row: ApiKey)
    requires UniqueHashes(s) && k in s.keys && SameKey(s.keys[k], row)
    ensures var s' := s.(keys := s.keys[k := row]); UniqueHashes(s') && Later(s, s')
  {
  }

  lemma InsertKeeps(s: Store, k: KeyId, row: ApiKey)
    requires UniqueHashes(s) && k !in s.keys && !HashTaken(s.keys, row.hash)
    ensures var s' := s.(keys := s.keys[k := row]); UniqueHashes(s') && Later(s, s')
  {
  }

  lemma ServeKeeps(s: Store, h: Hash, op: Op)
    requires UniqueHashes(s)
    ensures UniqueHashes(Serve(s, h, op).0) && Later(s, Serve(s, h, op).0)
  {
    hide Strip, RawKey, Prefix, UniqueHashes, HashApiKey, HashTaken, Candidates;
    var (s', r) := Serve(s, h, op);
    if r.Issued? {
      InsertKeeps(s, op.newId, s'.keys[op.newId]);
    } else if r.Authenticated? {
      RewriteKeeps(s, r.key, s'.keys[r.key]);
    } else if op.Revoke? && r.Done? {
      RewriteKeeps(s, op.key, s'.keys[op.key]);
    } else if op.PutTenant? {
      SameKeysKeep(s, s');
    }
  }

  lemma SameKeysKeep(s: Store, s': Store)
    requires UniqueHashes(s) && s'.keys == s.keys
    ensures UniqueHashes(s') && Later(s, s')
  {
  }

  lemma {:induction false} RunKeeps(s: Store, h: Hash, ops: seq<Op>)
    requires UniqueHashes(s)
    ensures UniqueHashes(Run(s, h, ops)) && Later(s, Run(s, h, ops))
    decreases |ops|
  {
    hide UniqueHashes, Serve;
    if ops == [] {
    } else {
      ServeKeeps(s, h, ops[0]);
      RunKeeps(Serve(s, h, ops[0]).0, h, ops[1..]);
    }
  }

  // ---------- Main results ----------

  lemma RawKeyTrim(environment: string, random: string)
    requires HexDigits(random)
    ensures Trim(RawKey(environment, random))
  {
    var raw := RawKey(environment, random);
    assert raw[|raw| - 1] == random[47] && random[47] in random;
  }

  // A raw key with any white space around it authenticates to its own key and tenant exactly while both
  // are active; otherwise the error says which of the two is not.
  lemma AuthenticatesExactlyWhen(s: Store, h: Hash, k: KeyId, raw: string, left: string, right: string, now: int)
    requires UniqueHashes(s) && k in s.keys && s.keys[k].hash == HashApiKey(h, raw)
    requires Trim(raw) && Blank(left) && Blank(right)
    ensures var r := Serve(s, h, Authenticate(left + raw + right, now)).1;
            var t := s.keys[k].tenant;
            if !s.keys[k].active then r == Raised(InvalidApiKey)
            else if t in s.tenants && s.tenants[t] then r == Authenticated(t, k)
            else r == Raised(TenantInactive)
  {
    hide Strip, Trim;
    StripPadding(left, raw, right);
    assert "" + raw + "" == raw;
    StripPadding("", raw, "");
    assert raw != "" by { assert Trim(raw); NonEmpty(raw); }
    var found := Candidates(s.keys, HashApiKey(h, raw));
    assert forall j :: j in found ==> j == k;
    if s.keys[k].active {
      OnlyElement(found, k);
    } else {
      assert found == {};
    }
  }

  lemma NonEmpty(s: string)
    requires Trim(s)
    ensures s != ""
  {
  }

  // In every run: the raw key that a creation hands out authenticates afterwards, padded or not, to that key
  // and the tenant it was made for, exactly while key and tenant are active.
  lemma IssuedKeyAuthenticates(s: Store, h: Hash, create: Op, ops: seq<Op>, left: string, right: string, now: int)
    requires UniqueHashes(s) && create.Create? && HexDigits(create.random)
    requires Serve(s, h, create).1.Issued? && Blank(left) && Blank(right)
    ensures var raw := Serve(s, h, create).1.raw;
            var s' := Run(Serve(s, h, create).0, h, ops);
            var r := Serve(s', h, Authenticate(left + raw + right, now)).1;
            && create.newId in s'.keys
            && (r.Authenticated? <==>
                s'.keys[create.newId].active && create.tenant in s'.tenants && s'.tenants[create.tenant])
            && (r.Authenticated? ==> r == Authenticated(create.tenant, create.newId))
  {
    hide Strip, Trim, UniqueHashes;
    var made := Serve(s, h, create).0;
    ServeKeeps(s, h, create);
    RunKeeps(made, h, ops);
    RawKeyTrim(create.environment, create.random);
    AuthenticatesExactlyWhen(Run(made, h, ops), h, create.newId, RawKey(create.environment, create.random),
                             left, right, now);
  }

  // Once revoked, no later sequence of operations makes any spelling of the key authenticate again: any
  // string that authenticates from then on is, stripped, a different key.
  lemma RevokedForGood(s: Store, h: Hash, k: KeyId, raw: string, ops: seq<Op>, attempt: string, now: int)
    requires UniqueHashes(s) && k in s.keys && s.keys[k].hash == HashApiKey(h, raw) && Trim(raw)
    ensures var s' := Run(Serve(s, h, Revoke(k)).0, h, ops);
            var r := Serve(s', h, Authenticate(attempt, now)).1;
            && (Strip(attempt) == raw ==> r == Raised(InvalidApiKey))
            && (r.Authenticated? ==> r.key != k && Strip(attempt) != raw)
  {
    hide Trim, Strip;
    var revoked := Serve(s, h, Revoke(k)).0;
    ServeKeeps(s, h, Revoke(k));
    RunKeeps(revoked, h, ops);
    var s' := Run(revoked, h, ops);
    assert SameKey(revoked.keys[k], s'.keys[k]);
    assert "" + raw + "" == raw;
    StripPadding("", raw, "");
    var hash := HashApiKey(h, Strip(attempt));
    StripStrip(attempt);
    if Strip(attempt) == raw {
      assert Candidates(s'.keys, hash) == {};
    }
    assert k !in Candidates(s'.keys, hash);
  }

  // With a hash that does not collide, no string but the raw key, padded or not, authenticates to its key.
  lemma OnlyTheRawKey(s: Store, h: Hash, k: KeyId, raw: string, attempt: string, now: int)
    requires Injective(h) && k in s.keys && s.keys[k].hash == HashApiKey(h, raw) && Trim(raw)
    requires var r := Serve(s, h, Authenticate(attempt, now)).1; r.Authenticated? && r.key == k
    ensures Strip(attempt) == raw
  {
    hide Trim, Strip;
    assert "" + raw + "" == raw;
    StripPadding("", raw, "");
    StripStrip(attempt);
    assert k in Candidates(s.keys, HashApiKey(h, Strip(attempt)));
  }

  lemma {:induction false} StripLeftTrims(s: string)
    ensures StripLeft(s) == "" || !IsSpace(StripLeft(s)[0])
  {
    if s == "" || !IsSpace(s[0]) {
    } else {
      StripLeftTrims(s[1..]);
    }
  }

  lemma {:induction false} StripRightTrims(s: string)
    ensures StripRight(s) <= s
    ensures StripRight(s) == "" || !IsSpace(StripRight(s)[|StripRight(s)| - 1])
  {
    if s == "" || !IsSpace(s[|s| - 1]) {
    } else {
      StripRightTrims(s[..|s| - 1]);
    }
  }

  lemma StripStrip(s: string)
    ensures Strip(Strip(s)) == Strip(s)
  {
    StripLeftTrims(s);
    StripRightTrims(StripLeft(s));
    var t := Strip(s);
    if t != "" {
      assert "" + t + "" == t;
      StripPadding("", t, "");
    }
  }

  // ---------- What is issued, stored and logged ----------

  lemma RawKeyStripped(environment: string, random: string)
    requires HexDigits(random)
    ensures Strip(RawKey(environment, random)) == RawKey(environment, random)
  {
    hide Strip;
    var raw := RawKey(environment, random);
    RawKeyTrim(environment, random);
    StripPadding("", raw, "");
    assert "" + raw + "" == raw;
  }

  // A key is issued exactly when the tenant exists and neither its id nor its hash is in use. The row holds the
  // hash and the first twelve characters, and the key is active from the start. The environment gives at most
  // four characters of it.
  lemma IssuesExactlyWhen(s: Store, h: Hash, t: TenantId, environment: string, random: string, newId: KeyId)
    requires HexDigits(random)
    ensures var tag := if |environment| < 4 then environment else environment[..4];
            var raw := "pg_" + tag + "_" + random;
            var (s', r) := Serve(s, h, Create(t, environment, random, newId));
            if t !in s.tenants then r == Raised(NotFound) && s' == s
            else if newId in s.keys || exists k :: k in s.keys && s.keys[k].hash == h(raw) then
              r == Raised(IntegrityError) && s' == s
            else
              && r == Issued(raw)
              && s' == s.(keys := s.keys[newId :=
                   ApiKey(t, h(raw), "pg_" + tag + "_" + random[..8 - |tag|], true, None)])
  {
    hide Strip;
    var tag := if |environment| < 4 then environment else environment[..4];
    var raw := "pg_" + tag + "_" + random;
    assert |environment| == 4 ==> environment[..4] == environment;
    assert |raw| == 52 + |tag|;
    RawKeyStripped(environment, random);
    assert raw[..12] == "pg_" + tag + "_" + random[..8 - |tag|];
  }

  // The design forbids logging raw keys; only the prefix may appear. Redacted, an issued key is its row's prefix
  // and the mask.
  lemma IssuedKeyLogged(s: Store, h: Hash, t: TenantId, environment: string, random: string, newId: KeyId)
    requires (environment == "live" || environment == "test") && HexDigits(random)
    requires Serve(s, h, Create(t, environment, random, newId)).1.Issued?
    ensures var (s', r) := Serve(s, h, Create(t, environment, random, newId));
            newId in s'.keys && Redaction.Redacted(r.raw) == s'.keys[newId].prefix + "...[REDACTED]"
  {
    hide Serve, Redaction.Sub;
    IssuesExactlyWhen(s, h, t, environment, random, newId);
    assert |environment| == 4 && environment[..4] == environment;
    KeyShown(environment, random);
  }

  lemma KeyShown(environment: string, random: string)
    requires (environment == "live" || environment == "test") && HexDigits(random)
    ensures Redaction.Redacted("pg_" + environment + "_" + random)
         == "pg_" + environment + "_" + random[..4] + "...[REDACTED]"
  {
    hide Redaction.Sub, Redaction.LetterOrDigit;
    var mark := "pg_" + environment + "_";
    assert mark == "pg_live_" || mark == "pg_test_";
    HexShown(mark, random);
    NoWInPrefix(mark, random);
    Redaction.NoSecretWithoutW(mark + random[..4] + "...[REDACTED]");
  }

  lemma HexShown(mark: string, random: string)
    requires (mark == "pg_live_" || mark == "pg_test_") && HexDigits(random)
    ensures Redaction.Sub(Redaction.ApiKeyPattern, mark + random) == mark + random[..4] + "...[REDACTED]"
  {
    hide Redaction.Sub;
    assert forall c :: c in random ==> Redaction.LetterOrDigit(c);
    Redaction.ApiKeyShown(mark, random, "");
    EmptySub();
    assert mark + random + "" == mark + random;
    assert mark + random[..4] + "...[REDACTED]" + "" == mark + random[..4] + "...[REDACTED]";
  }

  lemma NoWInPrefix(mark: string, random: string)
    requires (mark == "pg_live_" || mark == "pg_test_") && HexDigits(random)
    ensures 'w' !in mark + random[..4] + "...[REDACTED]"
  {
    assert forall c :: c in random[..4] ==> c in random;
    assert 'w' !in "...[REDACTED]";
  }

  lemma EmptySub()
    ensures Redaction.Sub(Redaction.ApiKeyPattern, "") == ""
  {
  }

  // Authentication writes the time of use on the key it accepts, and nothing else. Blank text and text of no
  // stored hash are refused.
  lemma AuthenticationWrites(s: Store, h: Hash, attempt: string, now: int)
    ensures var (s', r) := Serve(s, h, Authenticate(attempt, now));
            && (r.Authenticated? ==>
                  r.key in s.keys && r.tenant == s.keys[r.key].tenant
                  && s' == s.(keys := s.keys[r.key := s.keys[r.key].(lastUsed := Some(now))]))
            && (!r.Authenticated? ==> r.Raised? && s' == s)
            && (Blank(attempt) ==> r == Raised(InvalidApiKey))
            && ((forall k :: k in s.keys ==> s.keys[k].hash != h(Strip(attempt))) ==> r == Raised(InvalidApiKey))
  {
    hide Strip;
    StripStrip(attempt);
    if Blank(attempt) {
      BlankStrips(attempt);
    }
    if forall k :: k in s.keys ==> s.keys[k].hash != h(Strip(attempt)) {
      assert Candidates(s.keys, HashApiKey(h, Strip(attempt))) == {};
    }
  }

  // A key's hash is that of the key without the white space around it.
  lemma HashIgnoresPadding(h: Hash, left: string, raw: string, right: string)
    requires Blank(left) && Blank(right) && Trim(raw)
    ensures HashApiKey(h, left + raw + right) == h(raw)
  {
    hide Strip, Trim;
    StripPadding(left, raw, right);
  }

  // A revocation clears the flag of the key it names, and nothing else, whoever the tenant is; switching a tenant
  // off or on touches no key, and decides alone whether its active keys are accepted.
  lemma RevokeAndSwitch(s: Store, h: Hash, k: KeyId, t: TenantId, active: bool, now: int)
    ensures k !in s.keys ==> Serve(s, h, Revoke(k)) == (s, Raised(NotFound))
    ensures k in s.keys ==>
      var row := s.keys[k];
      Serve(s, h, Revoke(k)) ==
      (s.(keys := s.keys[k := ApiKey(row.tenant, row.hash, row.prefix, false, row.lastUsed)]), Done)
    ensures var s' := Serve(s, h, PutTenant(t, active)).0;
            && s'.keys == s.keys && s'.tenants.Keys == s.tenants.Keys + {t}
            && (forall u :: u in s.tenants && u != t ==> s'.tenants[u] == s.tenants[u])
            && forall j :: j in s.keys && s.keys[j].tenant == t ==>
                 AuthenticateRow(s', j, now).1 == if active then Authenticated(t, j) else Raised(TenantInactive)
  {
  }

  lemma BlankStrips(s: string)
    requires Blank(s)
    ensures Strip(s) == ""
  {
    StripLeftPadding(s, "");
    assert s + "" == s;
  }

  // The usual white space is white space; nothing that an issued key is made of is.
  lemma UsualSpaces()
    ensures Blank(" \t\n\r") && !exists c :: IsSpace(c) && (c == '_' || Redaction.LetterOrDigit(c))
  {
    forall c | IsSpace(c) ensures c != '_' && !Redaction.LetterOrDigit(c) {
      Redaction.Alphabet(c);
    }
  }
}
