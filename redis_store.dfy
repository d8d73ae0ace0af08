/**
 * The part of a Redis server the memory manager talks to: sorted sets
 * (ZADD, ZCARD, ZRANGE, ZREMRANGEBYRANK, EXISTS) and plain string values
 * (GET, SET, DEL). A key names either a sorted set or a string; a sorted set
 * whose last member is removed no longer exists.
 */
module RedisStore {
  import opened Wrappers
  import opened SortedSet

  class Redis {
    var zsets: map<string, seq<Entry>>
    var strings: map<string, string>

    ghost predicate Valid()
      reads this
    {
      forall k :: k in zsets ==> IsSortedSet(zsets[k]) && zsets[k] != []
    }

    /** The entries of the sorted set at `key`; a missing key reads as empty. */
    function Entries(key: string): (s: seq<Entry>)
      reads this
      requires Valid()
      ensures IsSortedSet(s)
    {
      if key in zsets then zsets[key] else []
    }

    /** EXISTS. */
    function Exists(key: string): bool
      reads this
    {
      key in zsets || key in strings
    }

    constructor ()
      ensures Valid() && zsets == map[] && strings == map[]
    {
      zsets := map[];
      strings := map[];
    }

    /** ZADD key score member. */
    method ZAdd(key: string, member: string, score: int)
      requires Valid()
      modifies this
      ensures Valid()
      ensures zsets == old(zsets)[key := Add(old(Entries(key)), member, score)]
      ensures strings == old(strings)
    {
      AddKeeps(Entries(key), member, score);
      zsets := zsets[key := Add(Entries(key), member, score)];
    }

    /** ZCARD key. */
    method ZCard(key: string) returns (n: nat)
      requires Valid()
      ensures n == |Entries(key)|
    {
      n := |Entries(key)|;
    }

    /** ZRANGE key start stop: the members of the selected ranks, in order. */
    method ZRange(key: string, start: int, stop: int) returns (members: seq<string>)
      requires Valid()
      ensures members == Members(RangeByRank(Entries(key), start, stop))
    {
      members := Members(RangeByRank(Entries(key), start, stop));
    }

    /** ZREMRANGEBYRANK key start stop. */
    method ZRemRangeByRank(key: string, start: int, stop: int)
      requires Valid()
      modifies this
      ensures Valid()
      ensures var rest := RemoveRangeByRank(old(Entries(key)), start, stop);
              zsets == if rest == [] then old(zsets) - {key} else old(zsets)[key := rest]
      ensures strings == old(strings)
    {
      var s := Entries(key);
      var b := RankBounds(|s|, start, stop);
      SubsequenceKeeps(s, b.0, b.1);
      var rest := RemoveRangeByRank(s, start, stop);
      if rest == [] {
        zsets := zsets - {key};
      } else {
        zsets := zsets[key := rest];
      }
    }

    /** GET key: the string value, or nothing. */
    method Get(key: string) returns (v: Option<string>)
      ensures v == if key in strings then Some(strings[key]) else None
    {
      v := if key in strings then Some(strings[key]) else None;
    }

    /** SET key value (the expiry the source attaches is not modelled). */
    method Set(key: string, value: string)
      requires Valid()
      modifies this
      ensures Valid()
      ensures strings == old(strings)[key := value] && zsets == old(zsets) - {key}
    {
      strings := strings[key := value];
      zsets := zsets - {key};
    }

    /** DEL key. */
    method Del(key: string)
      requires Valid()
      modifies this
      ensures Valid()
      ensures strings == old(strings) - {key} && zsets == old(zsets) - {key}
    {
      strings := strings - {key};
      zsets := zsets - {key};
    }
  }
}
