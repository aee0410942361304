/** The part of Redis the services rely on: integer cells with an optional expiry,
    read and written by single commands. An expired cell reads as a missing one. */
module Redis {

  import opened Options

  datatype Cell = Cell(value: int, expiry: Option<nat>)

  predicate Live<K>(db: map<K, Cell>, key: K, now: nat)
  {
    key in db && (db[key].expiry.None? || now < db[key].expiry.value)
  }

  /** GET, with a missing key read as zero. */
  function Value<K>(db: map<K, Cell>, key: K, now: nat): int
  {
    if Live(db, key, now) then db[key].value else 0
  }

  /** INCRBY keeps the expiry of a live cell and creates a missing one without expiry. */
  function IncrBy<K>(db: map<K, Cell>, key: K, amount: int, now: nat): map<K, Cell>
  {
    if Live(db, key, now) then db[key := Cell(db[key].value + amount, db[key].expiry)]
    else db[key := Cell(amount, None)]
  }

  /** EXPIRE restarts the expiry of a live cell and ignores a missing one. */
  function Expire<K>(db: map<K, Cell>, key: K, ttl: nat, now: nat): map<K, Cell>
  {
    if Live(db, key, now) then db[key := Cell(db[key].value, Some(now + ttl))] else db
  }

  /** SET without a TTL clears any earlier expiry. */
  function Put<K>(db: map<K, Cell>, key: K, value: int): map<K, Cell>
  {
    db[key := Cell(value, None)]
  }
}
