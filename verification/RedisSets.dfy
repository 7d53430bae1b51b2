/** Named Redis sets: an absent key is the empty set, and removing the last member removes the key. */
module RedisSets {
  type SetStore = map<string, set<string>>

  function Members(m: SetStore, key: string): set<string> {
    if key in m then m[key] else {}
  }

  function Sadd(m: SetStore, key: string, x: string): (m': SetStore)
    ensures forall k :: Members(m', k) == if k == key then Members(m, k) + {x} else Members(m, k)
  {
    m[key := Members(m, key) + {x}]
  }

  function Srem(m: SetStore, key: string, x: string): (m': SetStore)
    ensures forall k :: Members(m', k) == if k == key then Members(m, k) - {x} else Members(m, k)
  {
    var rest := Members(m, key) - {x};
    if rest == {} then m - {key} else m[key := rest]
  }
}
