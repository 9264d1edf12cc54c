/** Limiter configuration as the scripts receive it: whole milliseconds and whole counts. */
module Config {

  /** One `AlgorithmConfig`. It stands for its own `config_hash`: the hash is taken to be injective. */
  datatype Algorithm =
    | TokenBucket(capacity: int, rate: int, period: int)
    | LeakyBucket(capacity: int, rate: int, period: int)
    | FixedWindow(limit: int, window: int)
    | SlidingWindow(limit: int, window: int)
  {
    /** What the scripts' arithmetic needs; a zero capacity or limit is still handled. */
    predicate Runnable() {
      match this
      case TokenBucket(c, r, p) => c >= 0 && r >= 1 && p >= 1
      case LeakyBucket(c, r, p) => c >= 0 && r >= 1 && p >= 1
      case FixedWindow(l, w) => l >= 0 && w >= 1
      case SlidingWindow(l, w) => l >= 0 && w >= 1
    }

    /** What config validation lets through. */
    predicate Valid() {
      && Runnable()
      && (TokenBucket? || LeakyBucket? ==> capacity >= 1)
      && (FixedWindow? || SlidingWindow? ==> limit >= 1)
    }
  }

  type Policy = a: Algorithm | a.Runnable() witness FixedWindow(0, 1)
}
