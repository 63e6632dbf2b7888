/**
 * Routing: per cluster node, the tables and shard numbers it must scan, and
 * the ordered list of shard contexts one node derives from its entry.
 */
module Routing {
  import opened Values

  /** One routed shard: a table (index) name and a shard number. */
  datatype ShardKey = ShardKey(table: string, id: Int32)

  /** node id -> table name -> set of shard numbers. */
  datatype Routing = Routing(locations: map<string, map<string, set<Int32>>>)

  /** Every (table, shard) pair of one node's routing entry. */
  function RoutedShards(tables: map<string, set<Int32>>): set<ShardKey>
  {
    set t, id | t in tables && id in tables[t] :: ShardKey(t, id)
  }

  /** Shard keys ordered by table name, then by shard number. */
  function CompareKeys(a: ShardKey, b: ShardKey): int
  {
    var c := CompareStrings(a.table, b.table);
    if c != 0 then c else if a.id < b.id then -1 else if a.id == b.id then 0 else 1
  }

  lemma CompareKeysAntisymmetric(a: ShardKey, b: ShardKey)
    ensures CompareKeys(a, b) == -CompareKeys(b, a)
    ensures CompareKeys(a, b) == 0 <==> a == b
  {
    CompareStringsAntisymmetric(a.table, b.table);
    CompareStringsZero(a.table, b.table);
  }

  lemma CompareKeysTransitive(a: ShardKey, b: ShardKey, c: ShardKey)
    requires CompareKeys(a, b) <= 0 && CompareKeys(b, c) <= 0
    ensures CompareKeys(a, c) <= 0
  {
    CompareStringsZero(a.table, b.table);
    CompareStringsZero(b.table, c.table);
    if CompareStrings(a.table, b.table) < 0 && CompareStrings(b.table, c.table) < 0 {
      CompareStringsTransitive(a.table, b.table, c.table);
    }
  }

  predicate IsLeast(m: ShardKey, s: set<ShardKey>)
  {
    m in s && forall k | k in s :: CompareKeys(m, k) <= 0
  }

  lemma {:induction false} LeastExists(s: set<ShardKey>)
    requires s != {}
    ensures exists m :: IsLeast(m, s)
    decreases |s|
  {
    var x :| x in s;
    if s == {x} {
      CompareKeysAntisymmetric(x, x);
      assert IsLeast(x, s);
    } else {
      var rest := s - {x};
      LeastExists(rest);
      var m :| IsLeast(m, rest);
      CompareKeysAntisymmetric(m, x);
      if CompareKeys(m, x) <= 0 {
        assert IsLeast(m, s);
      } else {
        forall k | k in s ensures CompareKeys(x, k) <= 0 {
          if k != x {
            CompareKeysTransitive(x, m, k);
          } else {
            CompareKeysAntisymmetric(x, x);
          }
        }
        assert IsLeast(x, s);
      }
    }
  }

  lemma LeastUnique()
    ensures forall m1, m2, s :: IsLeast(m1, s) && IsLeast(m2, s) ==> m1 == m2
  {
    forall m1, m2, s | IsLeast(m1, s) && IsLeast(m2, s) ensures m1 == m2 {
      CompareKeysAntisymmetric(m1, m2);
    }
  }

  /** The least key of a non-empty set. */
  function Least(s: set<ShardKey>): (m: ShardKey)
    requires s != {}
    ensures IsLeast(m, s)
  {
    LeastExists(s);
    LeastUnique();
    var m :| IsLeast(m, s);
    m
  }

  predicate StrictlyAscending(r: seq<ShardKey>)
  {
    forall i, j | 0 <= i < j < |r| :: CompareKeys(r[i], r[j]) < 0
  }

  lemma PrependLeast(m: ShardKey, s: set<ShardKey>, tail: seq<ShardKey>)
    requires IsLeast(m, s) && StrictlyAscending(tail)
    requires |tail| == |s - {m}| && forall k :: k in tail <==> k in s - {m}
    ensures StrictlyAscending([m] + tail)
    ensures |[m] + tail| == |s| && forall k :: k in [m] + tail <==> k in s
  {
    forall j | 0 <= j < |tail| ensures CompareKeys(m, tail[j]) < 0 {
      assert tail[j] in s - {m};
      CompareKeysAntisymmetric(m, tail[j]);
    }
    var r := [m] + tail;
    forall i, j | 0 <= i < j < |r| ensures CompareKeys(r[i], r[j]) < 0 {
      if i > 0 {
        assert r[i] == tail[i - 1] && r[j] == tail[j - 1];
      } else {
        assert r[j] == tail[j - 1];
      }
    }
  }

  /** The shard keys of `s`, each once, in ascending key order. */
  function SortedKeys(s: set<ShardKey>): (r: seq<ShardKey>)
    ensures |r| == |s|
    ensures forall k :: k in r <==> k in s
    ensures StrictlyAscending(r)
    decreases |s|
  {
    if s == {} then []
    else
      var m := Least(s);
      var tail := SortedKeys(s - {m});
      PrependLeast(m, s, tail);
      [m] + tail
  }

  /** Two keys come out lower key first. */
  lemma SortedKeysOfTwo(a: ShardKey, b: ShardKey)
    requires CompareKeys(a, b) < 0
    ensures SortedKeys({a, b}) == [a, b]
  {
    CompareKeysAntisymmetric(a, b);
    var r := SortedKeys({a, b});
    assert |{a, b}| == 2;
    assert r[0] in {a, b} && r[1] in {a, b};
    assert CompareKeys(r[0], r[1]) < 0;
    CompareKeysAntisymmetric(r[0], r[1]);
  }

  /** The shard keys one node is routed to: each routed pair once, in ascending key order. */
  function ShardKeysOf(tables: map<string, set<Int32>>): (r: seq<ShardKey>)
    ensures |r| == |RoutedShards(tables)|
    ensures forall k :: k in r <==> k in RoutedShards(tables)
    ensures StrictlyAscending(r)
  {
    SortedKeys(RoutedShards(tables))
  }

  /** Two shards of one table come out lower shard number first. */
  lemma ShardKeysOfTwoShards(t: string, a: Int32, b: Int32)
    requires a < b
    ensures ShardKeysOf(map[t := {a, b}]) == [ShardKey(t, a), ShardKey(t, b)]
  {
    var tables := map[t := {a, b}];
    assert RoutedShards(tables) == {ShardKey(t, a), ShardKey(t, b)};
    CompareStringsZero(t, t);
    SortedKeysOfTwo(ShardKey(t, a), ShardKey(t, b));
  }

  /** Every routed pair appears exactly once, in ascending order. */
  lemma ShardKeysOfExact(tables: map<string, set<Int32>>)
    ensures forall k :: k in ShardKeysOf(tables) <==> k.table in tables && k.id in tables[k.table]
    ensures |ShardKeysOf(tables)| == |RoutedShards(tables)|
    ensures forall i, j | 0 <= i < j < |ShardKeysOf(tables)| :: ShardKeysOf(tables)[i] != ShardKeysOf(tables)[j]
  {
    var r := ShardKeysOf(tables);
    forall k ensures k in r <==> k.table in tables && k.id in tables[k.table] {
      assert k in RoutedShards(tables) <==> k.table in tables && k.id in tables[k.table];
    }
    forall i, j | 0 <= i < j < |r| ensures r[i] != r[j] {
      CompareKeysAntisymmetric(r[i], r[j]);
    }
  }
}
