/** The bounded store of responses and their shared conversation contexts. */
module ResponseStore {
  import opened Wrappers

  /** A context node is shared by every record that continues from it; `serial` tells equal-looking nodes apart. */
  datatype Node = Node(serial: nat, parent: Option<Node>, turns: seq<string>, ownedBytes: nat)

  type Context = Option<Node>

  /** `envelope` is the size of the record itself, without its context. */
  datatype Record = Record(id: string, isObject: bool, envelope: nat, context: Context)

  // ---- Contexts ----

  function Nodes(c: Context): set<Node> {
    if c.None? then {} else {c.value} + Nodes(c.value.parent)
  }

  function Depth(c: Context): nat {
    if c.None? then 0 else 1 + Depth(c.value.parent)
  }

  lemma {:induction false} NodeDepth(c: Context, n: Node)
    requires n in Nodes(c)
    ensures Depth(Some(n)) <= Depth(c)
  {
    if n != c.value { NodeDepth(c.value.parent, n); }
  }

  /** All turns of a conversation, oldest first. */
  function Flatten(c: Context): seq<string> {
    if c.None? then [] else Flatten(c.value.parent) + c.value.turns
  }

  /** The nodes of a context, newest first. */
  function Chain(c: Context): seq<Node> {
    if c.None? then [] else [c.value] + Chain(c.value.parent)
  }

  /** The turns of nodes listed newest first. */
  function TurnsOf(nodes: seq<Node>): seq<string> {
    if nodes == [] then [] else TurnsOf(nodes[1..]) + nodes[0].turns
  }

  lemma {:induction false} ChainTurns(c: Context)
    ensures TurnsOf(Chain(c)) == Flatten(c)
  {
    if c.Some? {
      ChainTurns(c.value.parent);
      assert Chain(c)[1..] == Chain(c.value.parent);
    }
  }

  /** `flatten_response_context`: collects the nodes from the newest up, then joins their turns backwards. */
  method FlattenContext(context: Context) returns (turns: seq<string>)
    ensures turns == Flatten(context)
  {
    var nodes: seq<Node> := [];
    var node := context;
    while node.Some?
      invariant Chain(context) == nodes + Chain(node)
      decreases node
    {
      nodes := nodes + [node.value];
      node := node.value.parent;
    }
    turns := [];
    var i: nat := |nodes|;
    while i > 0
      invariant i <= |nodes| && turns == TurnsOf(nodes[i..])
    {
      i := i - 1;
      assert nodes[i..][1..] == nodes[i + 1..];
      turns := turns + nodes[i].turns;
    }
    assert nodes[0..] == nodes == nodes + Chain(node);
    ChainTurns(context);
  }

  // ---- Sizes ----

  ghost function NodeBytes(s: set<Node>): nat {
    if s == {} then 0 else
    var n :| n in s;
    n.ownedBytes + NodeBytes(s - {n})
  }

  lemma {:induction false} NodeBytesSplit(s: set<Node>, n: Node)
    requires n in s
    ensures NodeBytes(s) == n.ownedBytes + NodeBytes(s - {n})
  {
    var m :| m in s && NodeBytes(s) == m.ownedBytes + NodeBytes(s - {m});
    if m != n {
      NodeBytesSplit(s - {m}, n);
      NodeBytesSplit(s - {n}, m);
      assert s - {m} - {n} == s - {n} - {m};
    }
  }

  lemma NodeBytesMore(s: set<Node>, n: Node)
    requires n !in s
    ensures NodeBytes(s + {n}) == NodeBytes(s) + n.ownedBytes
  {
    NodeBytesSplit(s + {n}, n);
    assert s + {n} - {n} == s;
  }

  lemma {:induction false} NodeBytesMonotone(s: set<Node>, t: set<Node>)
    requires s <= t
    ensures NodeBytes(s) <= NodeBytes(t)
  {
    if s != {} {
      var n :| n in s;
      NodeBytesMonotone(s - {n}, t - {n});
      NodeBytesSplit(s, n);
      NodeBytesSplit(t, n);
    }
  }

  function ChainBytes(c: Context): nat {
    if c.None? then 0 else c.value.ownedBytes + ChainBytes(c.value.parent)
  }

  /** Along one chain no node repeats. */
  lemma {:induction false} ChainSum(c: Context)
    ensures NodeBytes(Nodes(c)) == ChainBytes(c)
  {
    if c.Some? {
      ChainSum(c.value.parent);
      assert c.value !in Nodes(c.value.parent) by {
        if c.value in Nodes(c.value.parent) { NodeDepth(c.value.parent, c.value); }
      }
      NodeBytesMore(Nodes(c.value.parent), c.value);
      assert Nodes(c) == Nodes(c.value.parent) + {c.value};
    }
  }

  /** `standalone_bytes`. */
  method StandaloneBytes(r: Record) returns (bytes: nat)
    ensures bytes == r.envelope + ChainBytes(r.context)
  {
    bytes := r.envelope;
    var node := r.context;
    while node.Some?
      invariant bytes + ChainBytes(node) == r.envelope + ChainBytes(r.context)
      decreases node
    {
      bytes := bytes + node.value.ownedBytes;
      node := node.value.parent;
    }
  }

  // ---- The size of a set of records ----

  ghost function Envelopes(m: map<string, Record>, ids: set<string>): nat
    requires ids <= m.Keys
  {
    if ids == {} then 0 else
    var id :| id in ids;
    m[id].envelope + Envelopes(m, ids - {id})
  }

  lemma {:induction false} EnvelopesSplit(m: map<string, Record>, ids: set<string>, id: string)
    requires id in ids && ids <= m.Keys
    ensures Envelopes(m, ids) == m[id].envelope + Envelopes(m, ids - {id})
  {
    var j :| j in ids && Envelopes(m, ids) == m[j].envelope + Envelopes(m, ids - {j});
    if j != id {
      EnvelopesSplit(m, ids - {j}, id);
      EnvelopesSplit(m, ids - {id}, j);
      assert ids - {j} - {id} == ids - {id} - {j};
    }
  }

  /** Every context node reachable from the records, once. */
  ghost function NodesOf(m: map<string, Record>, ids: set<string>): set<Node>
    requires ids <= m.Keys
  {
    set id, n | id in ids && n in Nodes(m[id].context) :: n
  }

  /** Envelopes plus each reachable context node counted once. */
  ghost function SizeOf(m: map<string, Record>, ids: set<string>): nat
    requires ids <= m.Keys
  {
    Envelopes(m, ids) + NodeBytes(NodesOf(m, ids))
  }

  lemma SizeWithout(m: map<string, Record>, ids: set<string>, id: string)
    requires id in ids && ids <= m.Keys
    ensures SizeOf(m, ids - {id}) <= SizeOf(m, ids)
  {
    EnvelopesSplit(m, ids, id);
    NodeBytesMonotone(NodesOf(m, ids - {id}), NodesOf(m, ids));
  }

  lemma SizeOfOne(m: map<string, Record>, id: string)
    requires id in m
    ensures SizeOf(m, {id}) == m[id].envelope + ChainBytes(m[id].context)
  {
    EnvelopesSplit(m, {id}, id);
    assert {id} - {id} == {};
    assert NodesOf(m, {id}) == Nodes(m[id].context);
    ChainSum(m[id].context);
  }

  /** Sizes do not depend on records outside the set. */
  lemma {:induction false} EnvelopesLocal(m: map<string, Record>, k: map<string, Record>, ids: set<string>)
    requires ids <= m.Keys && ids <= k.Keys && forall id | id in ids :: m[id] == k[id]
    ensures Envelopes(m, ids) == Envelopes(k, ids)
  {
    if ids != {} {
      var id :| id in ids;
      EnvelopesLocal(m, k, ids - {id});
      EnvelopesSplit(m, ids, id);
      EnvelopesSplit(k, ids, id);
    }
  }

  lemma SizeLocal(m: map<string, Record>, k: map<string, Record>, ids: set<string>)
    requires ids <= m.Keys && ids <= k.Keys && forall id | id in ids :: m[id] == k[id]
    ensures SizeOf(m, ids) == SizeOf(k, ids)
  {
    EnvelopesLocal(m, k, ids);
    assert NodesOf(m, ids) == NodesOf(k, ids);
  }

  /** The inner loop of `recompute_bytes_locked`: adds the nodes of one context that were not seen before. */
  method AddContext(context: Context, bytes: nat, seen: set<Node>) returns (bytes': nat, seen': set<Node>)
    ensures seen' == seen + Nodes(context)
    ensures bytes' == bytes + (NodeBytes(seen + Nodes(context)) - NodeBytes(seen))
  {
    bytes', seen' := bytes, seen;
    var node := context;
    while node.Some?
      invariant seen' + Nodes(node) == seen + Nodes(context)
      invariant bytes' == bytes + (NodeBytes(seen') - NodeBytes(seen))
      decreases node
    {
      if node.value !in seen' {
        NodeBytesMore(seen', node.value);
        seen' := seen' + {node.value};
        bytes' := bytes' + node.value.ownedBytes;
      }
      node := node.value.parent;
    }
    assert seen' == seen + Nodes(context);
  }

  /** `recompute_bytes_locked`, in whatever order the records are visited. */
  method RecomputeBytes(m: map<string, Record>) returns (bytes: nat)
    ensures bytes == SizeOf(m, m.Keys)
  {
    bytes := 0;
    var seen: set<Node> := {};
    var todo, done := m.Keys, {};
    while todo != {}
      invariant todo + done == m.Keys && todo !! done
      invariant seen == NodesOf(m, done) && bytes == SizeOf(m, done)
      decreases todo
    {
      var id :| id in todo;
      var before := done;
      todo, done := todo - {id}, done + {id};
      EnvelopesSplit(m, done, id);
      assert done - {id} == before;
      assert NodesOf(m, done) == NodesOf(m, before) + Nodes(m[id].context);
      bytes := bytes + m[id].envelope;
      bytes, seen := AddContext(m[id].context, bytes, seen);
    }
    assert done == m.Keys;
  }

  // ---- The store ----

  ghost predicate Distinct(s: seq<string>) {
    forall i, j | 0 <= i < j < |s| :: s[i] != s[j]
  }

  ghost function Elements(s: seq<string>): set<string> {
    set id | id in s
  }

  /** Both bounds hold for these records. */
  ghost predicate Fits(m: map<string, Record>, ids: seq<string>, maxRecords: nat, maxBytes: nat) {
    && Elements(ids) <= m.Keys
    && |ids| <= maxRecords && SizeOf(m, Elements(ids)) <= maxBytes
  }

  /** `kept` is the longest prefix of `all` that fits. */
  ghost predicate LongestFitting(m: map<string, Record>, all: seq<string>, kept: seq<string>, maxRecords: nat, maxBytes: nat) {
    kept <= all && Fits(m, kept, maxRecords, maxBytes) && NoneFits(m, all, |kept|, maxRecords, maxBytes)
  }

  /** No prefix longer than `k` fits. */
  ghost predicate NoneFits(m: map<string, Record>, all: seq<string>, k: nat, maxRecords: nat, maxBytes: nat) {
    forall n | k < n <= |all| :: !Fits(m, all[..n], maxRecords, maxBytes)
  }

  lemma NoneFitsStep(m: map<string, Record>, all: seq<string>, kept: seq<string>, maxRecords: nat, maxBytes: nat)
    requires NoneFits(m, all, |kept|, maxRecords, maxBytes) && kept <= all && kept != []
    requires !Fits(m, kept, maxRecords, maxBytes)
    ensures NoneFits(m, all, |kept| - 1, maxRecords, maxBytes)
  {
    assert all[..|kept|] == kept;
  }

  /** A shorter prefix is no larger. */
  lemma {:induction false} PrefixSize(m: map<string, Record>, all: seq<string>, n: nat)
    requires n <= |all| && Distinct(all) && Elements(all) <= m.Keys
    ensures Elements(all[..n]) <= m.Keys && SizeOf(m, Elements(all[..n])) <= SizeOf(m, Elements(all))
  {
    var last := |all| - 1;
    if n <= last {
      DropLast(all);
      SizeWithout(m, Elements(all), all[last]);
      PrefixSize(m, all[..last], n);
      assert all[..last][..n] == all[..n];
    } else {
      assert all[..n] == all;
    }
  }

  lemma DropLast(all: seq<string>)
    requires all != [] && Distinct(all)
    ensures var last := |all| - 1;
            Distinct(all[..last]) && Elements(all[..last]) == Elements(all) - {all[last]} && all[last] in Elements(all)
  {
    var last := |all| - 1;
    assert all == all[..last] + [all[last]];
  }

  function IndexOf(s: seq<string>, id: string): (i: nat)
    requires id in s
    ensures i < |s| && s[i] == id
  {
    if s[0] == id then 0 else IndexOf(s[1..], id) + 1
  }

  function Without(s: seq<string>, id: string): seq<string>
    requires id in s
  {
    var i := IndexOf(s, id);
    s[..i] + s[i + 1..]
  }

  lemma WithoutSpec(s: seq<string>, id: string)
    requires id in s && Distinct(s)
    ensures Distinct(Without(s, id)) && Elements(Without(s, id)) == Elements(s) - {id}
    ensures Distinct([id] + Without(s, id)) && Elements([id] + Without(s, id)) == Elements(s)
  {
    var i := IndexOf(s, id);
    assert s == s[..i] + [id] + s[i + 1..];
  }

  datatype PutError = NoError | InvalidArgument | TooLarge | Duplicate

  class ResponseStore {
    const maxRecords: nat
    const maxBytes: nat
    var records: map<string, Record>
    /** Most recently used first. */
    var lru: seq<string>
    var currentBytes: nat

    /** The recency list names each record once, and the byte count is exact. */
    ghost predicate Consistent()
      reads this
    {
      && Distinct(lru) && Elements(lru) == records.Keys && currentBytes == SizeOf(records, records.Keys)
      && (forall id | id in records :: records[id].id == id)
    }

    ghost predicate Valid()
      reads this
    {
      maxRecords > 0 && maxBytes > 0 && Consistent() && Fits(records, lru, maxRecords, maxBytes)
    }

    constructor (maxRecords: nat, maxBytes: nat)
      requires maxRecords > 0 && maxBytes > 0
      ensures Valid() && this.maxRecords == maxRecords && this.maxBytes == maxBytes && records == map[] && lru == []
    {
      this.maxRecords, this.maxBytes := maxRecords, maxBytes;
      records, lru, currentBytes := map[], [], 0;
    }

    /** `get` refreshes recency. */
    method Get(id: string) returns (r: Option<Record>)
      requires Valid()
      modifies `lru
      ensures Valid()
      ensures r == if id in records then Some(records[id]) else None
      ensures lru == if id in records && id in old(lru) then [id] + Without(old(lru), id) else old(lru)
    {
      if id !in records { return None; }
      assert id in Elements(lru);
      WithoutSpec(lru, id);
      lru := [id] + Without(lru, id);
      assert |lru| == |old(lru)|;
      return Some(records[id]);
    }

    /** `erase_locked` and the new byte count. */
    method EraseLocked(id: string)
      requires Consistent() && id in records && id in lru
      modifies this
      ensures Consistent() && records == old(records) - {id} && lru == Without(old(lru), id)
    {
      WithoutSpec(lru, id);
      lru := Without(lru, id);
      records := records - {id};
      currentBytes := RecomputeBytes(records);
    }

    method Erase(id: string) returns (found: bool)
      requires Valid()
      modifies this
      ensures Valid() && found == (id in old(records)) && records == old(records) - {id}
      ensures lru == if id in old(lru) then Without(old(lru), id) else old(lru)
    {
      assert id in records <==> id in Elements(lru);
      if id !in records { return false; }
      SizeWithout(records, records.Keys, id);
      SizeLocal(records, records - {id}, records.Keys - {id});
      EraseLocked(id);
      assert records.Keys == old(records).Keys - {id};
      return true;
    }

    /** The oldest record other than the one just stored; `None` is the capacity error inside the loop. */
    method Victim(id: string) returns (victim: Option<string>)
      requires lru != []
      ensures lru[|lru| - 1] != id ==> victim == Some(lru[|lru| - 1])
      ensures lru[|lru| - 1] == id ==> victim == if |lru| == 1 then None else Some(lru[|lru| - 2])
    {
      var i := |lru| - 1;
      if lru[i] == id {
        if i == 0 { return None; }
        i := i - 1;
      }
      return Some(lru[i]);
    }

    /** `put`: afterwards the store holds exactly the longest most-recent prefix, new record first, that fits. */
    method Put(r: Record) returns (e: PutError)
      requires Valid()
      modifies this
      ensures Valid()
      ensures e == if r.id == "" || !r.isObject then InvalidArgument else
                   if r.envelope + ChainBytes(r.context) > maxBytes then TooLarge else
                   if r.id in old(records) then Duplicate else NoError
      ensures e != NoError ==> records == old(records) && lru == old(lru)
      ensures e == NoError ==>
                var m := old(records)[r.id := r];
                && LongestFitting(m, [r.id] + old(lru), lru, maxRecords, maxBytes) && r.id in records
                && records.Keys == Elements(lru) && SameRecords(m, records)
    {
      if r.id == "" || !r.isObject { return InvalidArgument; }
      var standalone := StandaloneBytes(r);
      if standalone > maxBytes { return TooLarge; }
      if r.id in records { return Duplicate; }
      assert r.id !in Elements(lru);
      lru := [r.id] + lru;
      records := records[r.id := r];
      ghost var m := records;
      currentBytes := RecomputeBytes(records);
      SizeOfOne(m, r.id);
      Evict(r.id, m);
      FitsExactly(m, records, lru, maxRecords, maxBytes);
      assert r.id == lru[0];
      return NoError;
    }

    /** One turn of the eviction loop; with more than the new record left there is always a victim. */
    method EvictOne(id: string)
      requires Consistent() && |lru| > 1 && lru[0] == id
      modifies this
      ensures Consistent() && lru == old(lru)[..|old(lru)| - 1] && records == old(records) - {old(lru)[|old(lru)| - 1]}
    {
      var victim := Victim(id);
      WithoutLast(lru);
      assert victim.value in Elements(lru);
      EraseLocked(victim.value);
    }

    /** The eviction loop. */
    method Evict(id: string, ghost m: map<string, Record>)
      requires Consistent() && records == m && lru != [] && lru[0] == id && maxRecords > 0
      requires SizeOf(m, {id}) <= maxBytes
      modifies this
      ensures Consistent() && LongestFitting(m, old(lru), lru, maxRecords, maxBytes) && lru != [] && SameRecords(m, records)
    {
      ghost var all := lru;
      while |records| > maxRecords || currentBytes > maxBytes
        invariant Consistent() && lru != [] && lru <= all && SameRecords(m, records)
        invariant NoneFits(m, all, |lru|, maxRecords, maxBytes)
        decreases |lru|
      {
        FitsExactly(m, records, lru, maxRecords, maxBytes);
        NoneFitsStep(m, all, lru, maxRecords, maxBytes);
        OnlyOne(lru, id);
        EvictOne(id);
      }
      FitsExactly(m, records, lru, maxRecords, maxBytes);
    }
  }

  /** The constructor of the original refuses limits of zero. */
  method NewStore(maxRecords: nat, maxBytes: nat) returns (s: ResponseStore?)
    ensures s == null <==> maxRecords == 0 || maxBytes == 0
    ensures s != null ==> s.Valid() && s.maxRecords == maxRecords && s.maxBytes == maxBytes && s.lru == []
  {
    if maxRecords == 0 || maxBytes == 0 { return null; }
    s := new ResponseStore(maxRecords, maxBytes);
  }

  /** `records` is part of `m`. */
  ghost predicate SameRecords(m: map<string, Record>, records: map<string, Record>) {
    records.Keys <= m.Keys && forall id | id in records :: records[id] == m[id]
  }

  /** The loop condition tests whether the listed records fit. */
  lemma FitsExactly(m: map<string, Record>, records: map<string, Record>, lru: seq<string>, maxRecords: nat, maxBytes: nat)
    requires Distinct(lru) && Elements(lru) == records.Keys && SameRecords(m, records)
    ensures |records.Keys| == |records| == |lru|
    ensures Fits(m, lru, maxRecords, maxBytes) <==> |records| <= maxRecords && SizeOf(records, records.Keys) <= maxBytes
    ensures Fits(m, lru, maxRecords, maxBytes) <==> Fits(records, lru, maxRecords, maxBytes)
  {
    DistinctCount(lru);
    SizeLocal(m, records, Elements(lru));
  }

  lemma OnlyOne(s: seq<string>, id: string)
    requires s != [] && s[0] == id
    ensures |s| == 1 ==> Elements(s) == {id}
  {
  }

  /** What is kept is exactly what fits: a prefix fits if and only if it is no longer than the one kept. */
  lemma KeptExactly(m: map<string, Record>, all: seq<string>, kept: seq<string>, maxRecords: nat, maxBytes: nat, n: nat)
    requires LongestFitting(m, all, kept, maxRecords, maxBytes) && Distinct(all) && n <= |all|
    ensures Fits(m, all[..n], maxRecords, maxBytes) <==> n <= |kept|
  {
    if n <= |kept| {
      PrefixSize(m, kept, n);
      assert kept[..n] == all[..n];
    }
  }

  lemma {:induction false} DistinctCount(s: seq<string>)
    requires Distinct(s)
    ensures |Elements(s)| == |s|
  {
    if s != [] {
      DropLast(s);
      DistinctCount(s[..|s| - 1]);
    }
  }

  lemma WithoutLast(s: seq<string>)
    requires s != [] && Distinct(s)
    ensures s[|s| - 1] in s && Without(s, s[|s| - 1]) == s[..|s| - 1]
  {
  }
}
