// Secrets at rest, and the rotation of the key that protects them.
module KeyRotation {
  import opened Basics

  // An authenticated cipher, kept abstract. Encryption takes a nonce; decryption fails on anything that is
  // not a ciphertext under the key.
  datatype Cipher = Cipher(
    validKey: string -> bool,
    enc: (string, string, string) -> string,
    dec: (string, string) -> Option<string>
  )

  // Ciphertexts are never empty and decrypt to what was encrypted.
  ghost predicate Fernet(c: Cipher) {
    forall k, nonce, p :: c.validKey(k) ==> c.enc(k, nonce, p) != "" && c.dec(k, c.enc(k, nonce, p)) == Some(p)
  }

  // A custom key, or the configured one when none is given.
  function KeyOf(custom: string, master: string): string {
    if custom != "" then custom else master
  }

  // None stands for the exception.
  function EncryptSecret(c: Cipher, key: string, nonce: string, plain: string): Option<string> {
    if plain == "" then Some("")
    else if c.validKey(key) then Some(c.enc(key, nonce, plain)) else None
  }

  function DecryptSecret(c: Cipher, key: string, text: string): Option<string> {
    if text == "" then Some("")
    else if c.validKey(key) then c.dec(key, text) else None
  }

  datatype Row = Row(id: string, clientId: string, clientSecret: string)

  datatype Credentials = Credentials(clientId: string, clientSecret: string) | Unreadable

  // The credentials of a row, read under a key: a client id that does not decrypt is taken as it stands, as
  // rows from before encryption need.
  function Read(c: Cipher, key: string, row: Row): Credentials {
    match DecryptSecret(c, key, row.clientSecret)
    case None => Unreadable
    case Some(secret) => Credentials(ClientId(c, key, row), secret)
  }

  function ClientId(c: Cipher, key: string, row: Row): string {
    match DecryptSecret(c, key, row.clientId)
    case None => row.clientId
    case Some(id) => id
  }

  lemma EncryptThenDecrypt(c: Cipher, key: string, nonce: string, plain: string)
    requires Fernet(c) && EncryptSecret(c, key, nonce, plain).Some?
    ensures DecryptSecret(c, key, EncryptSecret(c, key, nonce, plain).value) == Some(plain)
  {
  }

  // A row can be rotated when its secret is readable under the old key, and the new key is well formed
  // or there is nothing to encrypt.
  predicate Rotatable(c: Cipher, old_: string, new_: string, row: Row) {
    match Read(c, old_, row)
    case Unreadable => false
    case Credentials(id, secret) => c.validKey(new_) || (id == "" && secret == "")
  }

  // The same tenants, and for each the same readable credentials as before, under the new key.
  ghost predicate Rotated(c: Cipher, old_: string, new_: string, before: seq<Row>, after: seq<Row>) {
    && |after| == |before|
    && forall i :: 0 <= i < |before| ==>
         && after[i].id == before[i].id
         && Read(c, new_, after[i]) == Read(c, old_, before[i])
         && Read(c, new_, after[i]).Credentials?
  }

  class Store {
    var committed: seq<Row>
    var rows: seq<Row>

    constructor (committed: seq<Row>)
      ensures this.committed == committed && rows == committed
    {
      this.committed, rows := committed, committed;
    }

    // All rows or none. nonces supplies the randomness of the two encryptions of each row.
    method RotateKeys(c: Cipher, master: string, oldKey: string, newKey: string, nonces: nat -> string)
      returns (ok: bool, count: nat)
      requires Fernet(c)
      modifies this
      ensures var old_ := if oldKey == "" then master else oldKey;
              var new_ := if newKey == "" then master else newKey;
              && (ok <==> forall i :: 0 <= i < |old(committed)| ==> Rotatable(c, old_, new_, old(committed)[i]))
              && (ok ==> count == |old(committed)| && Rotated(c, old_, new_, old(committed), committed))
      ensures !ok ==> committed == old(committed)
    {
      var old_, new_ := KeyOf(oldKey, master), KeyOf(newKey, master);
      rows := committed;
      ghost var before := rows;
      count := 0;
      for i := 0 to |rows|
        invariant |rows| == |before| && count == i && committed == before
        invariant forall j :: i <= j < |rows| ==> rows[j] == before[j]
        invariant forall j :: 0 <= j < i ==> Rotatable(c, old_, new_, before[j])
        invariant forall j :: 0 <= j < i ==>
          && rows[j].id == before[j].id
          && Read(c, new_, rows[j]) == Read(c, old_, before[j]) && Read(c, new_, rows[j]).Credentials?
      {
        var row := rows[i];
        var secret := DecryptSecret(c, old_, row.clientSecret);
        if secret.None? {
          rows := committed;
          assert !Rotatable(c, old_, new_, before[i]);
          return false, count;
        }
        var id := DecryptSecret(c, old_, row.clientId);
        var clientId := if id.Some? then id.value else row.clientId;
        var newSecret := EncryptSecret(c, new_, nonces(2 * i), secret.value);
        var newId := EncryptSecret(c, new_, nonces(2 * i + 1), clientId);
        if newSecret.None? || newId.None? {
          rows := committed;
          assert !Rotatable(c, old_, new_, before[i]);
          return false, count;
        }
        EncryptThenDecrypt(c, new_, nonces(2 * i), secret.value);
        EncryptThenDecrypt(c, new_, nonces(2 * i + 1), clientId);
        rows := rows[i := row.(clientSecret := newSecret.value, clientId := newId.value)];
        count := count + 1;
      }
      committed := rows;
      ok := true;
    }
  }

  // What a rotated tenant reads: the secret that was encrypted, and the client id, which may have been stored
  // encrypted, in the clear, or not at all.
  lemma RotatedReads(c: Cipher, old_: string, new_: string, before: seq<Row>, after: seq<Row>, i: nat,
                     nonce: string, secret: string, nonce2: string, id: string)
    requires Fernet(c) && c.validKey(old_) && Rotated(c, old_, new_, before, after) && i < |before|
    requires before[i].clientSecret == c.enc(old_, nonce, secret)
    ensures before[i].clientId == c.enc(old_, nonce2, id) ==> Read(c, new_, after[i]) == Credentials(id, secret)
    ensures before[i].clientId == id && (id == "" || c.dec(old_, id).None?) ==>
      Read(c, new_, after[i]) == Credentials(id, secret)
  {
    assert Read(c, new_, after[i]) == Read(c, old_, before[i]);
  }

  // A rotation succeeds on such rows exactly when the new key is well formed, as far as there is anything to
  // encrypt; a secret that does not decrypt stops it.
  lemma RotatableExactlyWhen(c: Cipher, old_: string, new_: string, row: Row)
    requires Fernet(c) && c.validKey(old_)
    ensures row.clientSecret != "" && c.dec(old_, row.clientSecret).None? ==> !Rotatable(c, old_, new_, row)
    ensures row.clientSecret != "" && c.dec(old_, row.clientSecret).Some? && c.validKey(new_) ==>
      Rotatable(c, old_, new_, row)
    ensures row.clientSecret == "" && row.clientId == "" ==> Rotatable(c, old_, new_, row)
  {
  }

  // A chain of successful rotations keeps every tenant's credentials, read under the last key as under the first.
  lemma {:induction false} RotationsCompose(c: Cipher, keys: seq<string>, stores: seq<seq<Row>>)
    requires |keys| == |stores| >= 2
    requires forall k :: 0 <= k < |keys| - 1 ==> Rotated(c, keys[k], keys[k + 1], stores[k], stores[k + 1])
    ensures Rotated(c, keys[0], keys[|keys| - 1], stores[0], stores[|keys| - 1])
    decreases |keys|
  {
    if |keys| == 2 {
    } else {
      var n := |keys| - 1;
      RotationsCompose(c, keys[..n], stores[..n]);
      assert Rotated(c, keys[0], keys[n - 1], stores[0], stores[n - 1]);
      assert Rotated(c, keys[n - 1], keys[n], stores[n - 1], stores[n]);
      var first, middle, last := stores[0], stores[n - 1], stores[n];
      forall i | 0 <= i < |first|
        ensures last[i].id == first[i].id && Read(c, keys[n], last[i]) == Read(c, keys[0], first[i])
      {
        assert last[i].id == middle[i].id == first[i].id;
      }
    }
  }

  // A rotation that succeeded can be undone by rotating back: every row can be rotated again, and what comes
  // out reads under the old key as the rows did at first.
  lemma RotatedIsRotatableBack(c: Cipher, old_: string, new_: string, before: seq<Row>, middle: seq<Row>)
    requires Rotated(c, old_, new_, before, middle) && c.validKey(old_)
    ensures forall i :: 0 <= i < |middle| ==> Rotatable(c, new_, old_, middle[i])
    ensures forall after :: Rotated(c, new_, old_, middle, after) ==> Rotated(c, old_, old_, before, after)
  {
    forall after | Rotated(c, new_, old_, middle, after)
      ensures Rotated(c, old_, old_, before, after)
    {
      RotationsCompose(c, [old_, new_, old_], [before, middle, after]);
    }
  }
}
