/** The timed key-value map behind the counters: an entry has expired once the clock is past its
    expiry time. */
module TimedStore {

  datatype Entry = Entry(value: int, expiry: int)

  type Db = map<string, Entry>

  predicate Expired(e: Entry, now: int) { now > e.expiry }

  predicate Live(db: Db, key: string, now: int) { key in db && !Expired(db[key], now) }
}
