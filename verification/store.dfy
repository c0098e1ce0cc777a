/**
 * The key-value store both drivers write to, as one immutable value: named
 * lists of strings, named sets of digests and named records (hashes) of
 * fields. A key that was never written reads as an empty list, an empty set
 * or an absent record, as it does on a Redis server.
 */
module Store {
  import opened JsValues

  type Record = map<string, Value>

  /** The digest the Redis driver keeps in a unique set: the base64 SHA-256
      of the text. Being a constructor it is injective, which is exactly the
      collision-freedom the de-duplication relies on. */
  datatype Digest = Sha256(text: string)

  /** Which end of a list a push or pop works on: `Front` is `lpush`/`lpop`,
      `Back` is `rpush`/`rpop`. */
  datatype End = Front | Back

  /** `memoryReady` is the in-memory driver's `initialized` flag. It lives
      with the maps it guards, so every queue and worker holding that one
      driver object sees the same flag. */
  datatype Store = Store(
    lists: map<string, seq<string>>,
    sets: map<string, set<Digest>>,
    hashes: map<string, Record>,
    memoryReady: bool)

  const EmptyStore: Store := Store(map[], map[], map[], false)

  function List(st: Store, key: string): seq<string> {
    if key in st.lists then st.lists[key] else []
  }

  function Members(st: Store, key: string): set<Digest> {
    if key in st.sets then st.sets[key] else {}
  }

  function Hash(st: Store, key: string): Option<Record> {
    if key in st.hashes then Some(st.hashes[key]) else None
  }

  function Field(st: Store, key: string, field: string): Option<Value> {
    if key in st.hashes && field in st.hashes[key] then Some(st.hashes[key][field]) else None
  }

  function WithList(st: Store, key: string, l: seq<string>): (r: Store)
    ensures List(r, key) == l && key in r.lists
    ensures forall k :: k != key ==> List(r, k) == List(st, k)
    ensures r.sets == st.sets && r.hashes == st.hashes && r.memoryReady == st.memoryReady
  {
    st.(lists := st.lists[key := l])
  }

  function WithMembers(st: Store, key: string, m: set<Digest>): (r: Store)
    ensures Members(r, key) == m
    ensures forall k :: k != key ==> Members(r, k) == Members(st, k)
    ensures r.lists == st.lists && r.hashes == st.hashes && r.memoryReady == st.memoryReady
  {
    st.(sets := st.sets[key := m])
  }

  /** Writes one field of one record, creating the record when absent. */
  function WithField(st: Store, key: string, field: string, v: Value): (r: Store)
    ensures Field(r, key, field) == Some(v)
    ensures forall k, f :: (k != key || f != field) ==> Field(r, k, f) == Field(st, k, f)
    ensures key in r.hashes
    ensures forall k :: k != key ==> Hash(r, k) == Hash(st, k)
    ensures r.lists == st.lists && r.sets == st.sets && r.memoryReady == st.memoryReady
  {
    var rec := if key in st.hashes then st.hashes[key] else map[];
    st.(hashes := st.hashes[key := rec[field := v]])
  }

  /** The list after a push of `x` at `end`. */
  function Pushed(l: seq<string>, end: End, x: string): (r: seq<string>)
    ensures |r| == |l| + 1
    ensures end == Front ==> r[0] == x && r[1..] == l
    ensures end == Back ==> r[|l|] == x && r[..|l|] == l
  {
    if end == Front then [x] + l else l + [x]
  }

  /** The element a pop at `end` takes from a non-empty list. */
  function EndOf(l: seq<string>, end: End): string
    requires |l| > 0
  {
    if end == Front then l[0] else l[|l| - 1]
  }

  /** The list after a pop at `end` of a non-empty list. */
  function WithoutEnd(l: seq<string>, end: End): (r: seq<string>)
    requires |l| > 0
    ensures |r| == |l| - 1
    ensures l == Pushed(r, end, EndOf(l, end))
  {
    if end == Front then l[1..] else l[..|l| - 1]
  }

  /** What a driver's batched pop hands back: the store afterwards, whether a
      store command failed part-way (the remaining pops are then not issued),
      and one entry per pop issued, `None` standing for `null`. */
  datatype PopReply = PopReply(store: Store, failed: bool, items: seq<Option<string>>)
}
