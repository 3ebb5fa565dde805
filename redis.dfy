/**
 * The key-value store the faucet keeps its challenges in, reduced to the
 * commands the code issues: HGETALL, HGET, HSET, EXPIRE and DEL on hashes of
 * string fields. Expiry is recorded as data (the seconds last set on a key);
 * the passing of time is not modelled.
 */
module Redis {
  import opened Wrappers

  /** The string fields of one hash. */
  type Hash = map<string, string>

  /** The store's contents: hashes by key, and the time to live last set on each key. */
  datatype Db = Db(hashes: map<string, Hash>, ttl: map<string, int>)

  const EmptyDb := Db(map[], map[])

  /** The store never holds an empty hash, and holds an expiry only for a key it holds. */
  predicate WellFormed(db: Db) {
    && (forall k :: k in db.hashes ==> db.hashes[k] != map[])
    && db.ttl.Keys <= db.hashes.Keys
  }

  /** HGETALL: every field under `key`; none when the key is absent. */
  function HGetAll(db: Db, key: string): Hash {
    if key in db.hashes then db.hashes[key] else map[]
  }

  /** HGET: one field under `key`, if it is there. */
  function HGet(db: Db, key: string, field: string): (r: Option<string>)
    ensures r.Some? <==> field in HGetAll(db, key)
    ensures r.Some? ==> r.value == HGetAll(db, key)[field]
  {
    var h := HGetAll(db, key);
    if field in h then Some(h[field]) else None
  }

  /**
   * HSET with several fields: each given field is overwritten, every other
   * field of the hash keeps its value, and the key's expiry is left alone.
   * Redis refuses an HSET without any field.
   */
  function HSetSpec(db: Db, key: string, fields: Hash): (r: Db)
    requires fields != map[]
    ensures forall f :: f in fields ==> HGet(r, key, f) == Some(fields[f])
    ensures forall f :: f !in fields ==> HGet(r, key, f) == HGet(db, key, f)
    ensures forall k :: k != key ==> HGetAll(r, k) == HGetAll(db, k)
    ensures r.ttl == db.ttl
    ensures WellFormed(db) ==> WellFormed(r)
  {
    Db(db.hashes[key := HGetAll(db, key) + fields], db.ttl)
  }

  /**
   * EXPIRE: gives an existing key a time to live; a time that is not
   * positive deletes the key at once; an absent key is left absent.
   */
  function ExpireSpec(db: Db, key: string, seconds: int): (r: Db)
    ensures forall k :: k != key ==> HGetAll(r, k) == HGetAll(db, k)
    ensures forall k :: k != key && k in db.ttl ==> k in r.ttl && r.ttl[k] == db.ttl[k]
    ensures HGetAll(r, key) == if seconds > 0 then HGetAll(db, key) else map[]
    ensures key in db.hashes && seconds > 0 ==> key in r.ttl && r.ttl[key] == seconds
    ensures WellFormed(db) ==> WellFormed(r)
  {
    if key !in db.hashes then db
    else if seconds > 0 then Db(db.hashes, db.ttl[key := seconds])
    else Db(db.hashes - {key}, db.ttl - {key})
  }

  /** DEL: removes the key and reports how many keys it removed. */
  function DelSpec(db: Db, key: string): (r: (Db, nat))
    ensures r.1 == if key in db.hashes then 1 else 0
    ensures HGetAll(r.0, key) == map[] && key !in r.0.ttl
    ensures forall k :: k != key ==> HGetAll(r.0, k) == HGetAll(db, k)
    ensures WellFormed(db) ==> WellFormed(r.0)
  {
    (Db(db.hashes - {key}, db.ttl - {key}), if key in db.hashes then 1 else 0)
  }

  /** The client object the handlers share; each command updates `db` in place. */
  class RedisClient {
    var db: Db

    constructor ()
      ensures db == EmptyDb
    {
      db := EmptyDb;
    }

    method HSet(key: string, fields: Hash)
      requires fields != map[]
      modifies this
      ensures db == HSetSpec(old(db), key, fields)
    {
      db := HSetSpec(db, key, fields);
    }

    method Expire(key: string, seconds: int)
      modifies this
      ensures db == ExpireSpec(old(db), key, seconds)
    {
      db := ExpireSpec(db, key, seconds);
    }

    method Del(key: string) returns (removed: nat)
      modifies this
      ensures (db, removed) == DelSpec(old(db), key)
    {
      var r := DelSpec(db, key);
      db, removed := r.0, r.1;
    }
  }
}
