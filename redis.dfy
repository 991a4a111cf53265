/** The Redis keyspace the handlers talk to: string keys, values with an absolute
    expiry instant, and the five commands the handlers send (SET with a TTL, GET,
    DEL, KEYS with a prefix pattern, and a pipeline of GETs). Time is in nanoseconds. */
module Redis {
  import opened Wrappers

  /** What a key holds, as JSON. Redis stores text; the handlers only ever store objects
      whose members are strings. `JsonNull` is the text `null`; `OtherText` is any other
      text: malformed JSON, or a JSON value that is neither an object nor null. */
  datatype StoredText = JsonObject(fields: map<string, string>) | JsonNull | OtherText(raw: string)

  /** A value and the instant at which Redis forgets it. */
  datatype Entry = Entry(value: StoredText, expiresAt: int)

  type Keyspace = map<string, Entry>

  /** Whether a command reaches the server; `Down` carries the client's error text. */
  datatype Link = Up | Down(reason: string)

  /** A command that changes the keyspace. */
  datatype Write = SetKey(key: string, value: StoredText, ttl: int) | DelKey(key: string)

  /** The reply text of go-redis for a GET of a missing key (redis.Nil). */
  const NIL_REPLY := "redis: nil"

  predicate IsLive(ks: Keyspace, key: string, now: int)
  {
    key in ks && now < ks[key].expiresAt
  }

  /** GET: the value of a key that has not expired yet. */
  function Get(ks: Keyspace, key: string, now: int): Option<StoredText>
  {
    if IsLive(ks, key, now) then Some(ks[key].value) else None
  }

  /** The effect of one write issued at `now`. */
  function Apply(ks: Keyspace, w: Write, now: int): (r: Keyspace)
    ensures w.SetKey? ==> r.Keys == ks.Keys + {w.key} && r[w.key] == Entry(w.value, now + w.ttl)
    ensures w.DelKey? ==> r.Keys == ks.Keys - {w.key}
    ensures forall k :: k in ks && k != w.key ==> k in r && r[k] == ks[k]
  {
    match w
    case SetKey(key, value, ttl) => ks[key := Entry(value, now + ttl)]
    case DelKey(key) => ks - {key}
  }

  /** A key just SET reads back its value until its TTL runs out. */
  lemma GetAfterSet(ks: Keyspace, key: string, value: StoredText, ttl: int, now: int, t: int)
    ensures Get(Apply(ks, SetKey(key, value, ttl), now), key, t) == if t < now + ttl then Some(value) else None
  {
  }

  /** A key just deleted reads as missing. */
  lemma GetAfterDel(ks: Keyspace, key: string, now: int, t: int)
    ensures Get(Apply(ks, DelKey(key), now), key, t) == None
  {
  }

  /** A write leaves every other key reading as before. */
  lemma GetUnaffected(ks: Keyspace, w: Write, key: string, now: int, t: int)
    requires key != w.key
    ensures Get(Apply(ks, w, now), key, t) == Get(ks, key, t)
  {
  }

  /** The effect of a sequence of writes, in order, all issued at `now`. */
  function ApplyAll(ks: Keyspace, ws: seq<Write>, now: int): Keyspace
    decreases |ws|
  {
    if ws == [] then ks else ApplyAll(Apply(ks, ws[0], now), ws[1..], now)
  }

  lemma ApplyOne(ks: Keyspace, a: Write, now: int)
    ensures ApplyAll(ks, [a], now) == Apply(ks, a, now)
  {
  }

  lemma ApplyTwo(ks: Keyspace, a: Write, b: Write, now: int)
    ensures ApplyAll(ks, [a, b], now) == Apply(Apply(ks, a, now), b, now)
  {
    assert [a, b][1..] == [b];
    ApplyOne(Apply(ks, a, now), b, now);
  }

  /** The live keys that start with `prefix`: what KEYS "prefix*" returns. */
  function LiveKeysWithPrefix(ks: Keyspace, prefix: string, now: int): set<string>
  {
    set k | k in ks && now < ks[k].expiresAt && prefix <= k
  }

  predicate NoDuplicates(s: seq<string>)
  {
    forall i, j :: 0 <= i < j < |s| ==> s[i] != s[j]
  }

  /** A reply to KEYS: every matching live key once, in an order Redis chooses. */
  ghost predicate IsKeyListing(ks: Keyspace, prefix: string, now: int, keys: seq<string>)
  {
    && NoDuplicates(keys)
    && (forall i :: 0 <= i < |keys| ==> keys[i] in LiveKeysWithPrefix(ks, prefix, now))
    && (forall k :: k in LiveKeysWithPrefix(ks, prefix, now) ==> k in keys)
  }

  /** The replies of a pipeline of GETs, one per key, in the order queued. */
  function Replies(ks: Keyspace, keys: seq<string>, now: int): seq<Option<StoredText>>
  {
    seq(|keys|, i requires 0 <= i < |keys| => Get(ks, keys[i], now))
  }

  predicate AllHit(rs: seq<Option<StoredText>>)
  {
    forall i :: 0 <= i < |rs| ==> rs[i].Some?
  }

  /** A distinct list is as long as the set of its elements. */
  lemma {:induction false} DistinctLength(s: seq<string>)
    requires NoDuplicates(s)
    ensures |(set k | k in s)| == |s|
  {
    if s != [] {
      var rest := s[1..];
      assert NoDuplicates(rest);
      DistinctLength(rest);
      assert (set k | k in s) == (set k | k in rest) + {s[0]};
      assert s[0] !in (set k | k in rest);
    }
  }

  /** A KEYS reply is exactly as long as the number of matching live keys. */
  lemma ListingLength(ks: Keyspace, prefix: string, now: int, keys: seq<string>)
    requires IsKeyListing(ks, prefix, now, keys)
    ensures |keys| == |LiveKeysWithPrefix(ks, prefix, now)|
  {
    DistinctLength(keys);
    assert (set k | k in keys) == LiveKeysWithPrefix(ks, prefix, now);
  }

  /** A connection to the server. `writes` records, in order, every write that took effect. */
  class Client {
    var keyspace: Keyspace
    ghost var writes: seq<Write>

    constructor ()
      ensures keyspace == map[] && writes == []
    {
      keyspace := map[];
      writes := [];
    }

    /** SET key value PX ttl. */
    method Set(key: string, value: StoredText, ttl: int, now: int, link: Link) returns (err: Option<string>)
      requires ttl > 0
      modifies this
      ensures link.Up? ==> err.None? && writes == old(writes) + [SetKey(key, value, ttl)]
      ensures link.Up? ==> keyspace == Apply(old(keyspace), SetKey(key, value, ttl), now)
      ensures link.Down? ==> err == Some(link.reason) && writes == old(writes) && keyspace == old(keyspace)
    {
      if link.Down? {
        return Some(link.reason);
      }
      keyspace := keyspace[key := Entry(value, now + ttl)];
      writes := writes + [SetKey(key, value, ttl)];
      return None;
    }

    /** DEL key: removing a key that is not there is not an error. */
    method Del(key: string, link: Link) returns (err: Option<string>)
      modifies this
      ensures link.Up? ==> err.None? && writes == old(writes) + [DelKey(key)]
      ensures link.Up? ==> keyspace == Apply(old(keyspace), DelKey(key), 0)
      ensures link.Down? ==> err == Some(link.reason) && writes == old(writes) && keyspace == old(keyspace)
    {
      if link.Down? {
        return Some(link.reason);
      }
      keyspace := keyspace - {key};
      writes := writes + [DelKey(key)];
      return None;
    }

    /** KEYS "prefix*": the matching live keys, each once, in no particular order. */
    method Keys(prefix: string, now: int, link: Link) returns (r: Result<seq<string>>)
      ensures link.Down? ==> r == Failure(link.reason)
      ensures link.Up? ==> r.Success? && IsKeyListing(keyspace, prefix, now, r.value)
    {
      if link.Down? {
        return Failure(link.reason);
      }
      var remaining := LiveKeysWithPrefix(keyspace, prefix, now);
      var listed: seq<string> := [];
      while remaining != {}
        invariant NoDuplicates(listed)
        invariant forall k :: k in listed ==> k !in remaining
        invariant forall i :: 0 <= i < |listed| ==> listed[i] in LiveKeysWithPrefix(keyspace, prefix, now)
        invariant forall k :: k in LiveKeysWithPrefix(keyspace, prefix, now) ==> k in listed || k in remaining
        invariant remaining <= LiveKeysWithPrefix(keyspace, prefix, now)
        decreases remaining
      {
        var k :| k in remaining;
        listed := listed + [k];
        remaining := remaining - {k};
      }
      return Success(listed);
    }

    /** A pipeline of GETs sent in one round trip. As in go-redis, the call reports the
        error of the first command that failed, and a missing key counts as a failure. */
    method Exec(queued: seq<string>, now: int, link: Link) returns (replies: seq<Option<StoredText>>, err: Option<string>)
      ensures |replies| == |queued|
      ensures link.Up? ==> replies == Replies(keyspace, queued, now)
      ensures link.Up? ==> err == if AllHit(replies) then None else Some(NIL_REPLY)
      ensures link.Down? ==> err == Some(link.reason) && forall i :: 0 <= i < |replies| ==> replies[i].None?
    {
      replies := [];
      var missed := false;
      for i := 0 to |queued|
        invariant |replies| == i
        invariant forall j :: 0 <= j < i ==> replies[j] == (if link.Up? then Get(keyspace, queued[j], now) else None)
        invariant missed <==> !AllHit(replies)
      {
        var reply := if link.Up? then Get(keyspace, queued[i], now) else None;
        missed := missed || reply.None?;
        ghost var before := replies;
        replies := replies + [reply];
        assert forall j :: 0 <= j < i ==> replies[j] == before[j];
        assert replies[i] == reply;
      }
      if link.Down? {
        err := Some(link.reason);
      } else if missed {
        err := Some(NIL_REPLY);
      } else {
        err := None;
      }
    }
  }
}
