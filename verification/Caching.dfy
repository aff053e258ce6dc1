/** A shared cache of encoded answers, and everything that may happen to it between two calls. */
module Caching {
  import opened Options

  type Cache = map<string, string>

  /** JSON, as far as the caches need it. */
  datatype Codec<!T> = Codec(encode: T -> string, decode: string -> Option<T>)

  ghost predicate RoundTrips<T(!new)>(codec: Codec<T>) {
    forall x :: codec.decode(codec.encode(x)) == Some(x)
  }

  /** Whether a cache read and a cache write get through. */
  datatype Io = Io(getOk: bool, setOk: bool)

  /** Entries expire or are evicted, are damaged, or belong to somebody else. */
  datatype Disturbance =
    | Lose(keys: set<string>)
    | Damage(key: string, junk: string)
    | Foreign(key: string, data: string)

  function Disturb(cache: Cache, what: Disturbance): Cache {
    match what
    case Lose(keys) => cache - keys
    case Damage(key, junk) => cache[key := junk]
    case Foreign(key, data) => cache[key := data]
  }

  /** What a read of a decodable entry returns. */
  function Hit<T>(codec: Codec<T>, cache: Cache, key: string, io: Io): Option<T> {
    if io.getOk && key in cache then codec.decode(cache[key]) else None
  }

  function Stored<T>(codec: Codec<T>, cache: Cache, key: string, data: T, io: Io): Cache {
    if io.setOk then cache[key := codec.encode(data)] else cache
  }
}
