/** Redis sets under string keys, as far as the caches use them. */
module Redis {

  type Cache = map<nat, set<nat>>

  function Members(c: Cache, key: nat): set<nat> {
    if key in c then c[key] else {}
  }

  function Sadd(c: Cache, key: nat, x: nat): Cache {
    c[key := Members(c, key) + {x}]
  }

  function Srem(c: Cache, key: nat, x: nat): Cache {
    if key in c then c[key := c[key] - {x}] else c
  }

  function Del(c: Cache, key: nat): Cache {
    c - {key}
  }

  /** `srem x` on every key of `keys`. */
  function SremAll(c: Cache, keys: set<nat>, x: nat): Cache {
    map k | k in c :: if k in keys then c[k] - {x} else c[k]
  }

  /** The loops of `initCache`: `sadd` for every row read from a table. */
  method LoadSets(rows: set<(nat, nat)>, before: Cache) returns (cache: Cache)
    ensures forall k: nat, x: nat :: x in Members(cache, k) <==> x in Members(before, k) || (k, x) in rows
  {
    cache := before;
    var todo := rows;
    while todo != {}
      invariant todo <= rows
      invariant forall k: nat, x: nat :: x in Members(cache, k) <==> x in Members(before, k) || (k, x) in rows - todo
    {
      var row :| row in todo;
      cache := Sadd(cache, row.0, row.1);
      todo := todo - {row};
    }
  }
}
