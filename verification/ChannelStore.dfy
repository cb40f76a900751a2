/**
 * The process-local channel store: keys with a value and a time to live, expired lazily. What a
 * caller can ever see of it, from `now` on, is `Live`: every method says what it does to that at
 * every later moment, so expired entries left behind (or purged) make no difference.
 */
module ChannelStore {
  import opened Common

  datatype Entry = Entry(value: Option<Text>, expiresAt: int)

  /** What can be seen of the entries at `now`: a claimed key has no value. */
  function LiveIn(entries: map<Text, Entry>, now: int): map<Text, Option<Text>> {
    map key | key in entries && entries[key].expiresAt > now :: entries[key].value
  }

  /** An entry can be seen until its time is up, and as it was put. */
  lemma LiveSays(entries: map<Text, Entry>, key: Text, now: int)
    ensures key in LiveIn(entries, now) <==> key in entries && now < entries[key].expiresAt
    ensures key in LiveIn(entries, now) ==> LiveIn(entries, now)[key] == entries[key].value
  {
  }

  class Store {
    var entries: map<Text, Entry>

    function Live(now: int): map<Text, Option<Text>>
      reads this
    {
      LiveIn(entries, now)
    }

    constructor ()
      ensures entries == map[]
    {
      entries := map[];
    }

    /** Looks a key up, forgetting it if it has expired. */
    method Find(key: Text, now: int) returns (entry: Option<Entry>)
      modifies this
      ensures entry.Some? <==> key in old(Live(now))
      ensures entry.Some? ==> entry.value.value == old(Live(now))[key]
      ensures forall later :: later >= now ==> Live(later) == old(Live(later))
    {
      if key !in entries {
        return None;
      }
      if entries[key].expiresAt > now {
        return Some(entries[key]);
      }
      entries := entries - {key};
      entry := None;
    }

    method Put(key: Text, value: Option<Text>, ttlMs: int, now: int)
      modifies this
      ensures forall later :: Live(later)
                              == if now + ttlMs > later then old(Live(later))[key := value]
                                 else old(Live(later)) - {key}
    {
      entries := entries[key := Entry(value, now + ttlMs)];
    }

    /** Takes the key, unless it is live: of all that ask while it is, one got it. */
    method Claim(key: Text, ttlMs: int, now: int) returns (taken: bool)
      modifies this
      ensures taken <==> key !in old(Live(now))
      ensures taken && ttlMs > 0 ==> key in Live(now) && Live(now) == old(Live(now))[key := None]
      ensures forall later :: later >= now ==>
                Live(later) == if taken && now + ttlMs > later then old(Live(later))[key := None]
                               else old(Live(later))
    {
      var entry := Find(key, now);
      if entry.Some? {
        return false;
      }
      assert forall later :: later >= now ==> key !in Live(later);
      Put(key, None, ttlMs, now);
      taken := true;
    }

    method Get(key: Text, now: int) returns (value: Option<Text>)
      modifies this
      ensures value == if key in old(Live(now)) then old(Live(now))[key] else None
      ensures forall later :: later >= now ==> Live(later) == old(Live(later))
    {
      var entry := Find(key, now);
      value := if entry.Some? then entry.value.value else None;
    }

    method Set(key: Text, value: Text, ttlMs: int, now: int)
      modifies this
      ensures forall later :: Live(later)
                              == if now + ttlMs > later then old(Live(later))[key := Some(value)]
                                 else old(Live(later)) - {key}
    {
      Put(key, Some(value), ttlMs, now);
    }

    method Delete(key: Text)
      modifies this
      ensures forall later :: Live(later) == old(Live(later)) - {key}
    {
      entries := entries - {key};
    }

    /** Forgets what has expired; nothing that can still be seen changes. */
    method PurgeExpired(now: int) returns (purged: nat)
      modifies this
      ensures forall key :: key in entries <==> key in old(entries) && old(entries)[key].expiresAt > now
      ensures purged == |old(entries)| - |entries|
      ensures forall later :: later >= now ==> Live(later) == old(Live(later))
    {
      purged := 0;
      ghost var before := entries;
      var todo := entries.Keys;
      while todo != {}
        invariant entries.Keys <= before.Keys && todo <= entries.Keys
        invariant forall key :: key in entries ==> entries[key] == before[key]
        invariant forall key :: key in before ==>
                    (key in entries <==> key in todo || before[key].expiresAt > now)
        invariant purged + |entries| == |before|
        decreases |todo|
      {
        var key :| key in todo;
        if entries[key].expiresAt <= now {
          entries := entries - {key};
          purged := purged + 1;
        }
        todo := todo - {key};
      }
    }
  }
}
