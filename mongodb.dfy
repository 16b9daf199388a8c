/**
 * The process-wide connection cache: a record holding the established
 * connection and the pending connect attempt, shared through a global so a
 * reloaded module finds it again, and `connectDB`'s transitions over it.
 *
 * `connectDB` suspends once, at its `await`. It is modelled as the part before
 * the suspension (BeginConnect) and the part after it (CompleteConnect); a call
 * that nobody interleaves is the two in sequence (ConnectDB). Each attempt is
 * numbered, and the database's verdict on attempt n is `network(n)`, the same
 * for every caller awaiting it.
 */
module Mongo {
  import opened Wrappers

  datatype Connection = Connection(id: nat)

  /** A `mongoose.connect` promise: the attempt's number and the URI it was given. */
  datatype Attempt = Attempt(serial: nat, uri: string)

  /** How an attempt settles. */
  datatype Settlement = Resolved(conn: Connection) | Rejected

  /** Where a call stands at its `await`, or how it ended before reaching one. */
  datatype Entry =
    | Cached(conn: Connection)   // returned the cached connection
    | Join(attempt: Attempt)     // awaits the attempt already pending
    | Started(attempt: Attempt)  // started this attempt and awaits it
    | MissingUri                 // threw before starting anything

  const MissingUriMessage: string := "MONGODB_URI environment variable is not defined"

  /** What a call returns, or the error it throws: the configuration error carries its message. */
  datatype ConnectResult = Connected(conn: Connection) | ConfigError(message: string) | ConnectFailed

  /** `!mongoUri`: unset or empty. */
  predicate UriMissing(uri: Option<string>) { uri.None? || uri.value == "" }

  /** The `{ conn, promise }` record, with a count of the attempts it has started. */
  class ConnectionCache {
    var conn: Option<Connection>
    var promise: Option<Attempt>
    var started: nat
    ghost var history: seq<Attempt>

    /**
     * The pending attempt is the latest one; every earlier attempt (and the latest,
     * once cleared) was rejected; a cached connection is what the pending attempt
     * resolved to, so it is never cached without its promise.
     */
    ghost predicate Valid(network: nat -> Settlement)
      reads this
    {
      |history| == started
      && (forall k :: 0 <= k < |history| ==> history[k].serial == k)
      && (promise.Some? ==> started > 0 && promise.value == history[started - 1])
      && (forall k :: 0 <= k < started && (promise.None? || k + 1 < started) ==> network(k).Rejected?)
      && (conn.Some? ==> promise.Some? && network(promise.value.serial) == Resolved(conn.value))
    }

    /** `{ conn: null, promise: null }` */
    constructor ()
      ensures conn == None && promise == None && started == 0 && history == []
    {
      conn := None;
      promise := None;
      started := 0;
      history := [];
    }

    /** A record that has started nothing is valid whatever the database will answer. */
    lemma EmptyValid(network: nat -> Settlement)
      requires conn == None && promise == None && history == [] && started == 0
      ensures Valid(network)
    {
    }

    /** An entry this cache can have handed out. */
    ghost predicate Issued(entry: Entry)
      reads this
    {
      match entry
      case Cached(_) => true
      case Join(a) => a.serial < |history| && history[a.serial] == a
      case Started(a) => promise == Some(a)
      case MissingUri => true
    }

    /**
     * `connectDB` up to its `await`: the cached connection is returned without
     * reading the URI; a pending attempt is joined; with neither, a missing URI
     * throws and changes nothing, and otherwise a new attempt becomes the
     * pending one.
     */
    method BeginConnect(network: nat -> Settlement, uri: Option<string>) returns (entry: Entry)
      requires Valid(network)
      modifies this
      ensures Valid(network) && Issued(entry)
      ensures old(conn).Some? ==> entry == Cached(old(conn).value)
      ensures old(conn).None? && old(promise).Some? ==> entry == Join(old(promise).value)
      ensures old(conn).None? && old(promise).None? && UriMissing(uri) ==> entry == MissingUri
      ensures old(conn).None? && old(promise).None? && !UriMissing(uri) ==>
        entry == Started(Attempt(old(started), uri.value))
      ensures entry.Started? ==>
        conn == old(conn) && promise == Some(entry.attempt) && started == old(started) + 1
      ensures !entry.Started? ==> conn == old(conn) && promise == old(promise) && started == old(started)
      ensures history == old(history) + (if entry.Started? then [entry.attempt] else [])
    {
      if conn.Some? {
        return Cached(conn.value);
      }
      if promise.Some? {
        return Join(promise.value);
      }
      if UriMissing(uri) {
        return MissingUri;
      }
      var attempt := Attempt(started, uri.value);
      promise := Some(attempt);
      started := started + 1;
      history := history + [attempt];
      return Started(attempt);
    }

    /**
     * `connectDB` after its `await`. A caller awaiting an attempt stores what it
     * resolved to in `conn`; the starter, if it was rejected, clears `promise` so
     * that the next call starts afresh; a joiner that was rejected changes nothing.
     */
    method CompleteConnect(network: nat -> Settlement, entry: Entry) returns (result: ConnectResult)
      requires Valid(network) && Issued(entry)
      modifies this
      ensures Valid(network)
      ensures started == old(started) && history == old(history)
      ensures entry.Cached? ==> result == Connected(entry.conn) && conn == old(conn) && promise == old(promise)
      ensures entry.MissingUri? ==> result == ConfigError(MissingUriMessage) && conn == old(conn) && promise == old(promise)
      ensures (entry.Join? || entry.Started?) && network(entry.attempt.serial).Resolved? ==>
        result == Connected(network(entry.attempt.serial).conn)
        && conn == Some(result.conn) && promise == old(promise) && promise == Some(entry.attempt)
      ensures entry.Started? && network(entry.attempt.serial).Rejected? ==>
        result == ConnectFailed && conn == old(conn) == None && promise == None
      ensures entry.Join? && network(entry.attempt.serial).Rejected? ==>
        result == ConnectFailed && conn == old(conn) && promise == old(promise)
    {
      match entry
      case Cached(c) =>
        return Connected(c);
      case MissingUri =>
        return ConfigError(MissingUriMessage);
      case Join(a) =>
        var s := network(a.serial);
        if s.Rejected? {
          return ConnectFailed;
        }
        conn := Some(s.conn);
        return Connected(s.conn);
      case Started(a) =>
        var s := network(a.serial);
        if s.Rejected? {
          promise := None;
          return ConnectFailed;
        }
        conn := Some(s.conn);
        return Connected(s.conn);
    }

    /** One `connectDB` call that no other call interleaves with. */
    method ConnectDB(network: nat -> Settlement, uri: Option<string>) returns (result: ConnectResult)
      requires Valid(network)
      modifies this
      ensures Valid(network)
      ensures old(conn).Some? ==>
        result == Connected(old(conn).value) && conn == old(conn) && promise == old(promise)
        && started == old(started)
      ensures old(conn).None? && old(promise).None? && UriMissing(uri) ==>
        result == ConfigError(MissingUriMessage) && conn == None && promise == None && started == old(started)
      ensures old(conn).None? && old(promise).None? && !UriMissing(uri) ==>
        started == old(started) + 1
        && (network(old(started)).Resolved? ==>
              result == Connected(network(old(started)).conn) && conn == Some(result.conn)
              && promise == Some(Attempt(old(started), uri.value)))
        && (network(old(started)).Rejected? ==> result == ConnectFailed && conn == None && promise == None)
      ensures old(conn).None? && old(promise).Some? ==>
        started == old(started) && promise == old(promise)
        && (network(old(promise).value.serial).Resolved? ==>
              result == Connected(network(old(promise).value.serial).conn) && conn == Some(result.conn))
        && (network(old(promise).value.serial).Rejected? ==> result == ConnectFailed && conn == None)
      ensures result.Connected? ==> conn == Some(result.conn) && promise.Some?
      ensures !result.Connected? ==> conn == None
    {
      var entry := BeginConnect(network, uri);
      result := CompleteConnect(network, entry);
    }
  }

  /**
   * Two calls overlapping at their `await` on a fresh cache: the second joins the
   * attempt the first started, only one attempt is made, and both obtain the same
   * connection; afterwards a third call returns it from the cache.
   */
  method OverlappingCallers(uri: string, network: nat -> Settlement)
    returns (first: ConnectResult, second: ConnectResult, third: ConnectResult, attempts: nat)
    requires uri != "" && network(0).Resolved?
    ensures first == second == third == Connected(network(0).conn)
    ensures attempts == 1
  {
    var cache := new ConnectionCache();
    cache.EmptyValid(network);
    var a := cache.BeginConnect(network, Some(uri));
    var b := cache.BeginConnect(network, Some(uri));
    assert b == Join(a.attempt);
    first := cache.CompleteConnect(network, a);
    second := cache.CompleteConnect(network, b);
    third := cache.ConnectDB(network, None);
    attempts := cache.started;
  }

  /**
   * After a failed attempt the next call starts a fresh one rather than awaiting
   * the rejected promise.
   */
  method RetryAfterFailure(uri: string, network: nat -> Settlement)
    returns (first: ConnectResult, second: ConnectResult, attempts: nat)
    requires uri != "" && network(0).Rejected? && network(1).Resolved?
    ensures first == ConnectFailed && second == Connected(network(1).conn)
    ensures attempts == 2
  {
    var cache := new ConnectionCache();
    cache.EmptyValid(network);
    first := cache.ConnectDB(network, Some(uri));
    second := cache.ConnectDB(network, Some(uri));
    attempts := cache.started;
  }

  /**
   * A caller that joined an attempt which then failed, completing only after a
   * fresh attempt has started: it fails too, and leaves the fresh attempt pending,
   * so the caller that started it still obtains its connection.
   */
  method StaleJoinerFails(uri: string, network: nat -> Settlement)
    returns (starter: ConnectResult, joiner: ConnectResult, retry: ConnectResult, attempts: nat)
    requires uri != "" && network(0).Rejected? && network(1).Resolved?
    ensures starter == ConnectFailed && joiner == ConnectFailed
    ensures retry == Connected(network(1).conn)
    ensures attempts == 2
  {
    var cache := new ConnectionCache();
    cache.EmptyValid(network);
    var a := cache.BeginConnect(network, Some(uri));
    var b := cache.BeginConnect(network, Some(uri));
    starter := cache.CompleteConnect(network, a);
    var c := cache.BeginConnect(network, Some(uri));
    joiner := cache.CompleteConnect(network, b);
    retry := cache.CompleteConnect(network, c);
    attempts := cache.started;
  }

  /** `globalThis`, which outlives module reloads in development. */
  class Global {
    var mongooseCache: ConnectionCache?

    constructor ()
      ensures mongooseCache == null
    {
      mongooseCache := null;
    }
  }

  /**
   * Module initialisation: reuse the record already on the global, or create an
   * empty one and publish it there.
   */
  method LoadModule(g: Global) returns (cached: ConnectionCache)
    modifies g
    ensures g.mongooseCache == cached
    ensures old(g.mongooseCache) != null ==> cached == old(g.mongooseCache)
    ensures old(g.mongooseCache) == null ==>
      fresh(cached) && cached.conn == None && cached.promise == None && cached.started == 0
      && cached.history == []
  {
    if g.mongooseCache != null {
      cached := g.mongooseCache;
    } else {
      cached := new ConnectionCache();
      g.mongooseCache := cached;
    }
  }

  /**
   * A reload after a connection was cached: the reloaded module gets the same
   * record and returns the connection without a new attempt.
   */
  method ReloadKeepsConnection(uri: string, network: nat -> Settlement)
    returns (before: ConnectResult, after: ConnectResult, same: bool, attempts: nat)
    requires uri != "" && network(0).Resolved?
    ensures same && before == after == Connected(network(0).conn) && attempts == 1
  {
    var g := new Global();
    var c1 := LoadModule(g);
    c1.EmptyValid(network);
    before := c1.ConnectDB(network, Some(uri));
    var c2 := LoadModule(g);
    same := c1 == c2;
    after := c2.ConnectDB(network, Some(uri));
    attempts := c2.started;
  }
}
