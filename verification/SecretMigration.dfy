/**
 At-rest encryption of secret columns and its in-place migration
 (internal/panel/crypt.go encrypt, decrypt, isEncrypted; internal/panel/store.go
 encryptExisting, reencryptColumn). The AEAD with its base64 armour is a
 parameter: seal takes the random nonce as an argument.
 */
module SecretMigration {
  import opened Wrappers

  const PREFIX := "enc:v1:"

  datatype Aead = Aead(seal: (int, string) -> string, open: string -> Option<string>)

  /** Opening a sealed text gives the text back, whatever the nonce. */
  ghost predicate Sound(c: Aead) {
    forall nonce: int, text: string :: c.open(c.seal(nonce, text)) == Some(text)
  }

  predicate IsEncrypted(v: string) {
    |v| >= |PREFIX| && v[..|PREFIX|] == PREFIX
  }

  function Encrypt(crypt: Option<Aead>, nonce: int, s: string): string {
    if crypt.None? || s == "" || IsEncrypted(s) then s else PREFIX + crypt.value.seal(nonce, s)
  }

  function Decrypt(crypt: Option<Aead>, s: string): string {
    if !IsEncrypted(s) then s
    else if crypt.None? then ""
    else
      var text := crypt.value.open(s[|PREFIX|..]);
      if text.None? then "" else text.value
  }

  /** A value is marked exactly if it begins with the prefix. */
  lemma MarkedExactly(v: string)
    ensures IsEncrypted(v) <==> exists rest: string :: v == PREFIX + rest
  {
    if IsEncrypted(v) {
      assert v == PREFIX + v[|PREFIX|..];
    }
  }

  /** What is stored: with a key, every non-empty value that does not begin with the prefix is sealed, and only those. */
  lemma EncryptExactly(crypt: Option<Aead>, nonce: int, s: string)
    ensures crypt.Some? && s != "" && !(exists rest: string :: s == PREFIX + rest) ==>
      Encrypt(crypt, nonce, s) == PREFIX + crypt.value.seal(nonce, s)
    ensures crypt.None? || s == "" || (exists rest: string :: s == PREFIX + rest) ==> Encrypt(crypt, nonce, s) == s
    ensures !(exists rest: string :: s == PREFIX + rest) ==> Decrypt(crypt, s) == s
  {
    MarkedExactly(s);
  }

  /** Reading back what was written: the plaintext, unless it already looks encrypted, which is stored as it is. */
  lemma DecryptEncrypt(crypt: Option<Aead>, nonce: int, s: string)
    requires crypt.Some? ==> Sound(crypt.value)
    ensures Decrypt(crypt, Encrypt(crypt, nonce, s)) == if IsEncrypted(s) then Decrypt(crypt, s) else s
    ensures crypt.Some? && s != "" ==> IsEncrypted(Encrypt(crypt, nonce, s))
  {
  }

  type Column<K> = map<K, string>

  /** Rows the migration still has to rewrite. */
  predicate Legacy(v: string) {
    v != "" && !IsEncrypted(v)
  }

  /** Every secret of the column reads as before. */
  ghost predicate SameMeaning<K>(crypt: Option<Aead>, before: Column<K>, after: Column<K>) {
    after.Keys == before.Keys && forall id :: id in before ==> Decrypt(crypt, after[id]) == Decrypt(crypt, before[id])
  }

  ghost predicate Migrated<K>(column: Column<K>) {
    forall id :: id in column && column[id] != "" ==> IsEncrypted(column[id])
  }

  /** The writes of reencryptColumn<K> for the collected rows, the nonce drawn per write. */
  function Rewrite<K>(c: Aead, nonces: int -> int, column: Column<K>, todo: seq<(K, string)>): Column<K> {
    if todo == [] then column
    else
      var n := |todo| - 1;
      Rewrite(c, nonces, column, todo[..n])[todo[n].0 := Encrypt(Some(c), nonces(n), todo[n].1)]
  }

  /** The rows collected by the first loop: the legacy rows, each once, with their values. */
  ghost predicate Collected<K>(column: Column<K>, todo: seq<(K, string)>) {
    && (forall i :: 0 <= i < |todo| ==> todo[i].0 in column && column[todo[i].0] == todo[i].1 && Legacy(todo[i].1))
    && (forall id :: id in column && Legacy(column[id]) ==> exists i :: 0 <= i < |todo| && todo[i] == (id, column[id]))
  }

  /**
   Interruption is harmless: after every prefix of the writes, each secret of the
   column still reads as the same plaintext.
   */
  lemma {:induction false} PrefixKeepsMeaning<K>(c: Aead, nonces: int -> int, column: Column<K>, todo: seq<(K, string)>, k: nat)
    requires Sound(c) && Collected(column, todo) && k <= |todo|
    ensures SameMeaning(Some(c), column, Rewrite(c, nonces, column, todo[..k]))
    ensures forall i :: 0 <= i < k ==> IsEncrypted(Rewrite(c, nonces, column, todo[..k])[todo[i].0])
    ensures forall id :: id in column && !Legacy(column[id]) ==> Rewrite(c, nonces, column, todo[..k])[id] == column[id]
  {
    if k == 0 {
    } else {
      PrefixKeepsMeaning(c, nonces, column, todo, k - 1);
      assert todo[..k][..k - 1] == todo[..k - 1];
      DecryptEncrypt(Some(c), nonces(k - 1), todo[k - 1].1);
    }
  }

  lemma FirstIsLegacy<K>(column: Column<K>, todo: seq<(K, string)>)
    requires Collected(column, todo) && todo != []
    ensures todo[0].0 in column && Legacy(column[todo[0].0])
  {
  }

  lemma NothingLeft<K>(column: Column<K>, todo: seq<(K, string)>)
    requires Collected(column, todo) && Migrated(column)
    ensures todo == []
  {
    if todo != [] {
      FirstIsLegacy(column, todo);
      assert false;
    }
  }

  /** After the whole migration every secret is marked, reads the same, and a second run has nothing to do. */
  lemma MigrationComplete<K>(c: Aead, nonces: int -> int, column: Column<K>, todo: seq<(K, string)>)
    requires Sound(c) && Collected(column, todo)
    ensures var after := Rewrite(c, nonces, column, todo);
      && SameMeaning(Some(c), column, after)
      && Migrated(after)
      && (forall again: seq<(K, string)> :: Collected(after, again) ==> again == [])
  {
    var after := Rewrite(c, nonces, column, todo);
    PrefixKeepsMeaning(c, nonces, column, todo, |todo|);
    assert todo[..|todo|] == todo;
    forall id | id in after && after[id] != "" ensures IsEncrypted(after[id]) {
      if Legacy(column[id]) {
        var i :| 0 <= i < |todo| && todo[i] == (id, column[id]);
        assert todo[i].0 == id;
      }
    }
    forall again: seq<(K, string)> | Collected(after, again) ensures again == [] {
      NothingLeft(after, again);
    }
  }

  class SecretStore {
    const crypt: Option<Aead>
    var nodeKeys: Column<int>        // nodes.reality_private_key
    var totpSecrets: Column<int>     // admins.totp_secret
    var telegram: Option<string>

    constructor (crypt: Option<Aead>, nodeKeys: Column<int>, totpSecrets: Column<int>, telegram: Option<string>)
      ensures this.crypt == crypt && this.nodeKeys == nodeKeys
      ensures this.totpSecrets == totpSecrets && this.telegram == telegram
    {
      this.crypt, this.nodeKeys, this.totpSecrets, this.telegram := crypt, nodeKeys, totpSecrets, telegram;
    }

    /** reencryptColumn<K>: collect the legacy rows completely, then write them one by one. */
    static method ReencryptColumn<K>(c: Aead, nonces: int -> int, column: Column<K>) returns (after: Column<K>)
      requires Sound(c)
      ensures SameMeaning(Some(c), column, after) && Migrated(after)
      ensures Migrated(column) ==> after == column
    {
      var todo: seq<(K, string)> := [];
      var rows := column.Keys;
      while rows != {}
        invariant rows <= column.Keys
        invariant forall i :: 0 <= i < |todo| ==>
          todo[i].0 in column && column[todo[i].0] == todo[i].1 && Legacy(todo[i].1)
        invariant forall id :: id in column && id !in rows && Legacy(column[id]) ==>
          exists i :: 0 <= i < |todo| && todo[i] == (id, column[id])
        invariant Migrated(column) ==> todo == []
        decreases rows
      {
        var id :| id in rows;
        ghost var sofar := todo;
        if column[id] != "" && !IsEncrypted(column[id]) {
          todo := todo + [(id, column[id])];
        }
        rows := rows - {id};
        forall k | k in column && k !in rows && Legacy(column[k])
          ensures exists i :: 0 <= i < |todo| && todo[i] == (k, column[k])
        {
          if k == id {
            assert todo[|sofar|] == (k, column[k]);
          } else {
            var i :| 0 <= i < |sofar| && sofar[i] == (k, column[k]);
            assert todo[i] == (k, column[k]);
          }
        }
      }
      after := column;
      for n := 0 to |todo|
        invariant after == Rewrite(c, nonces, column, todo[..n])
      {
        assert todo[..n + 1][..n] == todo[..n];
        after := after[todo[n].0 := Encrypt(Some(c), nonces(n), todo[n].1)];
      }
      assert todo[..|todo|] == todo;
      MigrationComplete(c, nonces, column, todo);
    }

    /** encryptExisting: both columns and the single settings row; nothing without a key. */
    method EncryptExisting(nonces: int -> int)
      requires crypt.Some? ==> Sound(crypt.value)
      modifies this
      ensures crypt.None? ==> nodeKeys == old(nodeKeys) && totpSecrets == old(totpSecrets) && telegram == old(telegram)
      ensures SameMeaning(crypt, old(nodeKeys), nodeKeys) && SameMeaning(crypt, old(totpSecrets), totpSecrets)
      ensures telegram.Some? == old(telegram).Some?
      ensures telegram.Some? ==> Decrypt(crypt, telegram.value) == Decrypt(crypt, old(telegram).value)
      ensures crypt.Some? ==>
        && Migrated(nodeKeys) && Migrated(totpSecrets)
        && (telegram.Some? && telegram.value != "" ==> IsEncrypted(telegram.value))
      ensures Migrated(old(nodeKeys)) ==> nodeKeys == old(nodeKeys)
      ensures Migrated(old(totpSecrets)) ==> totpSecrets == old(totpSecrets)
      ensures telegram.Some? && !Legacy(old(telegram).value) ==> telegram == old(telegram)
    {
      if crypt.None? {
        return;
      }
      var c := crypt.value;
      nodeKeys := ReencryptColumn(c, nonces, nodeKeys);
      totpSecrets := ReencryptColumn(c, nonces, totpSecrets);
      if telegram.None? {
        return;
      }
      var v := telegram.value;
      if v != "" && !IsEncrypted(v) {
        DecryptEncrypt(crypt, nonces(0), v);
        telegram := Some(Encrypt(crypt, nonces(0), v));
      }
    }
  }
}
