/** The bookkeeping of a paged KV pool and its allocations as values. */
module PagedKVState {
  import opened Wrappers

  /** Sizes fixed when the pool is made. */
  datatype Shape = Shape(count: nat, capacity: nat, rows: nat)

  /** What one live allocation holds: promised pages, mapped pages, bound block-table row. */
  datatype Claim = Claim(entitlement: nat, pages: seq<nat>, row: Option<nat>)

  datatype State<K> = State(free: seq<nat>, inUse: seq<bool>, tables: seq<seq<nat>>,
                            entitled: nat, mapped: nat, claims: map<K, Claim>)

  // ---- Sorted id lists ----

  ghost predicate Ascending(s: seq<nat>) {
    forall i, j | 0 <= i < j < |s| :: s[i] < s[j]
  }

  ghost predicate Distinct(s: seq<nat>) {
    forall i, j | 0 <= i < j < |s| :: s[i] != s[j]
  }

  function Insert(s: seq<nat>, x: nat): seq<nat> {
    if s == [] then [x] else if x <= s[0] then [x] + s else [s[0]] + Insert(s[1..], x)
  }

  /** `s` with `xs` added in order; on distinct ids this is appending and sorting. */
  function InsertAll(s: seq<nat>, xs: seq<nat>): seq<nat> {
    if xs == [] then s else Insert(InsertAll(s, xs[..|xs| - 1]), xs[|xs| - 1])
  }

  lemma {:induction false} InsertSpec(s: seq<nat>, x: nat)
    requires Ascending(s) && x !in s
    ensures Ascending(Insert(s, x)) && |Insert(s, x)| == |s| + 1
    ensures forall p :: p in Insert(s, x) <==> p in s || p == x
  {
    if s != [] && x > s[0] {
      InsertSpec(s[1..], x);
      var r := Insert(s[1..], x);
      assert forall p :: p in s <==> p == s[0] || p in s[1..] by { assert s == [s[0]] + s[1..]; }
      forall i | 0 <= i < |r|
        ensures s[0] < r[i]
      {
        assert r[i] in r;
        assert r[i] == x || r[i] in s[1..];
      }
    }
  }

  lemma {:induction false} InsertAllSpec(s: seq<nat>, xs: seq<nat>)
    requires Ascending(s) && Distinct(xs) && forall p | p in xs :: p !in s
    ensures Ascending(InsertAll(s, xs)) && |InsertAll(s, xs)| == |s| + |xs|
    ensures forall p :: p in InsertAll(s, xs) <==> p in s || p in xs
  {
    if xs != [] {
      var front, x := xs[..|xs| - 1], xs[|xs| - 1];
      assert xs == front + [x];
      InsertAllSpec(s, front);
      InsertSpec(InsertAll(s, front), x);
    }
  }

  // ---- Choosing pages ----

  /** `n` consecutive ids from position `i` on. */
  predicate RunAt(free: seq<nat>, i: nat, n: nat) {
    i + n <= |free| && forall j | i <= j < i + n :: free[j] == free[i] + (j - i)
  }

  function IndexOf(free: seq<nat>, x: nat): (i: nat)
    ensures i <= |free| && (i < |free| ==> free[i] == x)
  {
    if free == [] || free[0] == x then 0 else IndexOf(free[1..], x) + 1
  }

  lemma {:induction false} IndexOfMember(free: seq<nat>, x: nat)
    ensures x in free <==> IndexOf(free, x) < |free|
  {
    if free != [] && free[0] != x {
      IndexOfMember(free[1..], x);
      assert x in free <==> x in free[1..];
    }
  }

  function FirstRun(free: seq<nat>, i: nat, n: nat): (r: Option<nat>)
    ensures r.Some? ==> r.value + n <= |free|
    decreases |free| + 1 - i
  {
    if i + n > |free| then None else if RunAt(free, i, n) then Some(i) else FirstRun(free, i + 1, n)
  }

  lemma {:induction false} FirstRunSpec(free: seq<nat>, i: nat, n: nat)
    ensures var r := FirstRun(free, i, n);
            && (r.Some? ==> i <= r.value && RunAt(free, r.value, n))
            && (forall j: nat | i <= j && (r.Some? ==> j < r.value) :: !RunAt(free, j, n))
    decreases |free| + 1 - i
  {
    if i + n <= |free| && !RunAt(free, i, n) {
      FirstRunSpec(free, i + 1, n);
    }
  }

  /** Where `take_pages` cuts: the preferred run, else the first run, else the front. */
  function Select(free: seq<nat>, n: nat, preferred: Option<nat>): (i: nat)
    requires n <= |free|
    ensures i + n <= |free|
  {
    var p := if preferred.Some? then IndexOf(free, preferred.value) else |free|;
    if p < |free| && RunAt(free, p, n) then p else
    var first := FirstRun(free, 0, n);
    if first.Some? then first.value else 0
  }

  /** Ids that follow each other in value follow each other in an ascending list. */
  lemma {:induction false} RunFromMembers(free: seq<nat>, p: nat, n: nat)
    requires Ascending(free) && p < |free| && n > 0
    requires forall v | free[p] <= v < free[p] + n :: v in free
    ensures RunAt(free, p, n)
  {
    if n > 1 {
      RunFromMembers(free, p, n - 1);
      var v := free[p] + n - 1;
      assert v in free;
      var q :| 0 <= q < |free| && free[q] == v;
      assert free[p + n - 2] == v - 1;
      assert p + n - 1 < |free| ==> v - 1 < free[p + n - 1];
    }
  }

  lemma PreferredRun(free: seq<nat>, n: nat, first: nat)
    requires Ascending(free) && 0 < n
    ensures var p := IndexOf(free, first);
            (forall v | first <= v < first + n :: v in free) <==> p < |free| && RunAt(free, p, n)
  {
    var p := IndexOf(free, first);
    if p < |free| && RunAt(free, p, n) {
      forall v | first <= v < first + n
        ensures v in free
      {
        assert free[p + (v - first)] == v;
      }
    }
    if forall v | first <= v < first + n :: v in free {
      assert first in free;
      IndexOfMember(free, first);
      RunFromMembers(free, p, n);
    }
  }

  /** The order of preference of `take_pages`. */
  lemma SelectSpec(free: seq<nat>, n: nat, preferred: Option<nat>)
    requires Ascending(free) && 0 < n <= |free|
    ensures var i := Select(free, n, preferred);
            if preferred.Some? && forall v | preferred.value <= v < preferred.value + n :: v in free
            then free[i..i + n] == seq(n, d requires 0 <= d < n => preferred.value + d)
            else if exists j: nat :: RunAt(free, j, n)
            then RunAt(free, i, n) && forall j: nat | j < i :: !RunAt(free, j, n)
            else i == 0
  {
    FirstRunSpec(free, 0, n);
    if preferred.Some? { PreferredRun(free, n, preferred.value); }
  }

  lemma AscendingCut(s: seq<nat>, i: nat, n: nat)
    requires Ascending(s) && i + n <= |s|
    ensures Ascending(s[i..i + n]) && Ascending(s[..i] + s[i + n..])
    ensures var taken, rest := s[i..i + n], s[..i] + s[i + n..];
            && (forall p :: p in s <==> p in taken || p in rest)
            && (forall p | p in taken :: p !in rest)
  {
    assert s == s[..i] + s[i..i + n] + s[i + n..];
  }

  /** The id after an allocation's last page. */
  function Preferred(pages: seq<nat>): Option<nat> {
    if pages == [] then None else Some(pages[|pages| - 1] + 1)
  }

  ghost predicate AllFree(free: seq<nat>, first: nat, n: nat) {
    forall v | first <= v < first + n :: v in free
  }

  ghost predicate LowestRun(free: seq<nat>, first: nat, n: nat) {
    AllFree(free, first, n) && forall f: nat | f < first :: !AllFree(free, f, n)
  }

  ghost predicate Counting(ids: seq<nat>, first: nat) {
    forall d | 0 <= d < |ids| :: ids[d] == first + d
  }

  /** Which free ids an allocation gets next: those that continue its last page, else the lowest run of free ids that is
      long enough, else the lowest free ids. */
  ghost predicate NextPages(free: seq<nat>, pages: seq<nat>, more: seq<nat>) {
    var n := |more|;
    if pages != [] && AllFree(free, pages[|pages| - 1] + 1, n) then Counting(more, pages[|pages| - 1] + 1)
    else if exists first: nat :: AllFree(free, first, n) then exists first: nat :: LowestRun(free, first, n) && Counting(more, first)
    else
      && Ascending(more) && (forall v | v in more :: v in free)
      && forall v, w | v in more && w in free && w !in more :: v < w
  }

  lemma RunIsFree(free: seq<nat>, i: nat, n: nat)
    requires RunAt(free, i, n) && n > 0
    ensures AllFree(free, free[i], n)
  {
    forall v | free[i] <= v < free[i] + n ensures v in free { assert free[i + (v - free[i])] == v; }
  }

  lemma FreeIsRun(free: seq<nat>, first: nat, n: nat) returns (i: nat)
    requires Ascending(free) && AllFree(free, first, n) && n > 0
    ensures RunAt(free, i, n) && free[i] == first
  {
    assert first in free;
    i := IndexOf(free, first);
    IndexOfMember(free, first);
    RunFromMembers(free, i, n);
  }

  /** The first run in the list is the lowest run of ids. */
  lemma FirstIsLowest(free: seq<nat>, i: nat, n: nat)
    requires Ascending(free) && n > 0 && RunAt(free, i, n) && forall j: nat | j < i :: !RunAt(free, j, n)
    ensures LowestRun(free, free[i], n)
  {
    RunIsFree(free, i, n);
    forall f: nat | f < free[i] ensures !AllFree(free, f, n) {
      if AllFree(free, f, n) { var j := FreeIsRun(free, f, n); }
    }
  }

  lemma LowestNext(free: seq<nat>, i: nat, n: nat, pages: seq<nat>)
    requires Ascending(free) && n > 0 && RunAt(free, i, n) && forall j: nat | j < i :: !RunAt(free, j, n)
    requires pages == [] || !AllFree(free, pages[|pages| - 1] + 1, n)
    ensures NextPages(free, pages, free[i..i + n])
  {
    FirstIsLowest(free, i, n);
    assert Counting(free[i..i + n], free[i]);
  }

  lemma FrontNext(free: seq<nat>, n: nat, pages: seq<nat>)
    requires Ascending(free) && n <= |free| && forall first: nat :: !AllFree(free, first, n)
    ensures NextPages(free, pages, free[..n])
  {
    assert forall i | 0 <= i < n :: free[i] in free[..n];
    forall v, w | v in free[..n] && w in free && w !in free[..n] ensures v < w {
      var a, b :| 0 <= a < n && free[a] == v && 0 <= b < |free| && free[b] == w;
    }
  }

  lemma NoRunNoneFree(free: seq<nat>, n: nat)
    requires Ascending(free) && n > 0 && forall j: nat :: !RunAt(free, j, n)
    ensures forall first: nat :: !AllFree(free, first, n)
  {
    forall first: nat ensures !AllFree(free, first, n) {
      if AllFree(free, first, n) { var j := FreeIsRun(free, first, n); }
    }
  }

  /** The slice that `Select` cuts out is what the ids themselves determine. */
  lemma SelectNext(free: seq<nat>, n: nat, pages: seq<nat>)
    requires Ascending(free) && 0 < n <= |free|
    ensures var i := Select(free, n, Preferred(pages)); NextPages(free, pages, free[i..i + n])
  {
    var i := Select(free, n, Preferred(pages));
    SelectSpec(free, n, Preferred(pages));
    if pages != [] && AllFree(free, pages[|pages| - 1] + 1, n) {
      assert Counting(free[i..i + n], pages[|pages| - 1] + 1);
    } else if exists j: nat :: RunAt(free, j, n) {
      LowestNext(free, i, n, pages);
    } else {
      NoRunNoneFree(free, n);
      FrontNext(free, n, pages);
    }
  }

  /** The allocation has kept its pages and got the next ones. */
  ghost predicate Extended(free: seq<nat>, was: seq<nat>, now: seq<nat>, size: nat) {
    |now| == size && was <= now && NextPages(free, was, now[|was|..])
  }

  lemma SelectExtends(free: seq<nat>, was: seq<nat>, n: nat)
    requires Ascending(free) && 0 < n <= |free|
    ensures var i := Select(free, n, Preferred(was)); Extended(free, was, was + free[i..i + n], |was| + n)
  {
    var i := Select(free, n, Preferred(was));
    SelectNext(free, n, was);
    assert (was + free[i..i + n])[|was|..] == free[i..i + n];
  }

  // ---- Sums over the live allocations ----

  ghost function Entitled<K>(m: map<K, Claim>): nat
    decreases m.Keys
  {
    if m.Keys == {} then 0 else
    var k :| k in m;
    m[k].entitlement + Entitled(m - {k})
  }

  ghost function Mapped<K>(m: map<K, Claim>): nat
    decreases m.Keys
  {
    if m.Keys == {} then 0 else
    var k :| k in m;
    |m[k].pages| + Mapped(m - {k})
  }

  lemma {:induction false} EntitledSplit<K>(m: map<K, Claim>, k: K)
    requires k in m
    ensures Entitled(m) == m[k].entitlement + Entitled(m - {k})
    decreases m.Keys
  {
    var j :| j in m && Entitled(m) == m[j].entitlement + Entitled(m - {j});
    if j != k {
      EntitledSplit(m - {j}, k);
      EntitledSplit(m - {k}, j);
      assert m - {j} - {k} == m - {k} - {j};
    }
  }

  lemma {:induction false} MappedSplit<K>(m: map<K, Claim>, k: K)
    requires k in m
    ensures Mapped(m) == |m[k].pages| + Mapped(m - {k})
    decreases m.Keys
  {
    var j :| j in m && Mapped(m) == |m[j].pages| + Mapped(m - {j});
    if j != k {
      MappedSplit(m - {j}, k);
      MappedSplit(m - {k}, j);
      assert m - {j} - {k} == m - {k} - {j};
    }
  }

  lemma SumsWith<K>(m: map<K, Claim>, k: K, c: Claim)
    ensures Entitled(m[k := c]) == Entitled(m - {k}) + c.entitlement
    ensures Mapped(m[k := c]) == Mapped(m - {k}) + |c.pages|
    ensures k in m ==> Entitled(m) == Entitled(m - {k}) + m[k].entitlement && Mapped(m) == Mapped(m - {k}) + |m[k].pages|
    ensures k !in m ==> m - {k} == m
  {
    var m' := m[k := c];
    assert m' - {k} == m - {k};
    EntitledSplit(m', k);
    MappedSplit(m', k);
    if k in m {
      EntitledSplit(m, k);
      MappedSplit(m, k);
    }
  }

  lemma {:induction false} MappedWithinEntitled<K>(m: map<K, Claim>)
    requires forall k | k in m :: |m[k].pages| <= m[k].entitlement
    ensures Mapped(m) <= Entitled(m)
    decreases m.Keys
  {
    if m.Keys != {} {
      var k :| k in m;
      MappedWithinEntitled(m - {k});
      EntitledSplit(m, k);
      MappedSplit(m, k);
    }
  }

  // ---- The invariant ----

  ghost predicate ClaimOk(shape: Shape, c: Claim) {
    && |c.pages| <= c.entitlement <= shape.capacity
    && Distinct(c.pages) && (forall p | p in c.pages :: p < shape.count)
    && (c.row.Some? ==> c.row.value < shape.rows)
  }

  ghost predicate HasPage<K>(claims: map<K, Claim>, older k: K, p: nat) {
    k in claims && p in claims[k].pages
  }

  ghost predicate HasRow<K>(claims: map<K, Claim>, older k: K, r: nat) {
    k in claims && claims[k].row == Some(r)
  }

  /** Free ids and the ids of all live allocations partition `[0, count)`. */
  ghost predicate Partition<K>(shape: Shape, free: seq<nat>, claims: map<K, Claim>) {
    && Ascending(free) && (forall p | p in free :: p < shape.count)
    && (forall k, p | HasPage(claims, k, p) :: p !in free)
    && (forall j, k, p | HasPage(claims, j, p) && HasPage(claims, k, p) :: j == k)
    && (forall p: nat | p < shape.count && p !in free :: exists k :: HasPage(claims, k, p))
  }

  /** The counters are the sums over the live allocations, and promises fit the pool. */
  ghost predicate Counted<K>(shape: Shape, s: State<K>) {
    && s.mapped == Mapped(s.claims) && s.entitled == Entitled(s.claims)
    && s.entitled <= shape.count && s.mapped + |s.free| == shape.count
  }

  /** A row is in use exactly when one allocation is bound to it, and it starts with that allocation's pages. */
  ghost predicate RowsOk<K>(shape: Shape, s: State<K>) {
    && |s.inUse| == |s.tables| == shape.rows
    && (forall r | 0 <= r < shape.rows :: |s.tables[r]| == shape.capacity)
    && (forall r | 0 <= r < shape.rows && s.inUse[r] :: exists k :: HasRow(s.claims, k, r))
    && (forall k, r: nat | HasRow(s.claims, k, r) :: r < shape.rows && s.inUse[r] && s.claims[k].pages <= s.tables[r])
    && (forall j, k, r: nat | HasRow(s.claims, j, r) && HasRow(s.claims, k, r) :: j == k)
  }

  ghost predicate Sound<K>(shape: Shape, s: State<K>) {
    && (forall k | k in s.claims :: ClaimOk(shape, s.claims[k]))
    && Partition(shape, s.free, s.claims) && Counted(shape, s) && RowsOk(shape, s)
  }

  /** Every promise can be kept: what an allocation may still map is free. */
  lemma PromiseKept<K>(shape: Shape, s: State<K>, k: K)
    requires Sound(shape, s) && k in s.claims
    ensures s.claims[k].entitlement - |s.claims[k].pages| <= |s.free|
    ensures s.entitled - s.mapped <= |s.free|
  {
    EntitledSplit(s.claims, k);
    MappedSplit(s.claims, k);
    MappedWithinEntitled(s.claims - {k});
  }

  // ---- The operations ----

  function CanReserve(shape: Shape, entitled: nat, n: nat): bool {
    n != 0 && n <= shape.capacity && n <= shape.count - entitled
  }

  function CanReplace(shape: Shape, entitled: nat, was: nat, now: nat): bool {
    was <= entitled && now <= shape.capacity && now <= shape.count - (entitled - was)
  }

  function Reserved<K>(s: State<K>, k: K, n: nat): State<K> {
    s.(entitled := s.entitled + n, claims := s.claims[k := Claim(n, [], None)])
  }

  function Entitle<K>(s: State<K>, k: K, n: nat): State<K>
    requires k in s.claims && s.claims[k].entitlement <= s.entitled
  {
    s.(entitled := s.entitled - s.claims[k].entitlement + n,
       claims := s.claims[k := s.claims[k].(entitlement := n)])
  }

  function Overwrite(row: seq<nat>, at: nat, values: seq<nat>): seq<nat>
    requires at + |values| <= |row|
  {
    row[..at] + values + row[at + |values|..]
  }

  function Published(tables: seq<seq<nat>>, row: Option<nat>, at: nat, values: seq<nat>): seq<seq<nat>>
    requires row.Some? ==> row.value < |tables| && at + |values| <= |tables[row.value]|
  {
    if row.None? then tables else tables[row.value := Overwrite(tables[row.value], at, values)]
  }

  function GrownBy<K>(s: State<K>, k: K, taken: seq<nat>, rest: seq<nat>): State<K>
    requires k in s.claims
    requires var c := s.claims[k];
             c.row.Some? ==> c.row.value < |s.tables| && |c.pages| + |taken| <= |s.tables[c.row.value]|
  {
    var c := s.claims[k];
    s.(free := rest, mapped := s.mapped + |taken|, tables := Published(s.tables, c.row, |c.pages|, taken),
       claims := s.claims[k := c.(pages := c.pages + taken)])
  }

  /** `materialize_pages`: `n` more pages, appended and published. */
  function Grown<K>(s: State<K>, k: K, n: nat): State<K>
    requires k in s.claims && n <= |s.free|
    requires var c := s.claims[k]; c.row.Some? ==> c.row.value < |s.tables| && |c.pages| + n <= |s.tables[c.row.value]|
  {
    var i := Select(s.free, n, Preferred(s.claims[k].pages));
    GrownBy(s, k, s.free[i..i + n], s.free[..i] + s.free[i + n..])
  }

  function Trimmed<K>(s: State<K>, k: K, n: nat): State<K>
    requires k in s.claims && n <= |s.claims[k].pages| && |s.claims[k].pages| - n <= s.mapped
  {
    var c := s.claims[k];
    s.(free := InsertAll(s.free, c.pages[n..]), mapped := s.mapped - (|c.pages| - n),
       claims := s.claims[k := c.(pages := c.pages[..n])])
  }

  function Bound<K>(s: State<K>, k: K, row: nat): State<K>
    requires k in s.claims && row < |s.inUse| == |s.tables| && |s.claims[k].pages| <= |s.tables[row]|
  {
    var c := s.claims[k];
    s.(inUse := s.inUse[row := true], tables := Published(s.tables, Some(row), 0, c.pages),
       claims := s.claims[k := c.(row := Some(row))])
  }

  function Unbound<K>(s: State<K>, k: K): State<K>
    requires k in s.claims && (s.claims[k].row.Some? ==> s.claims[k].row.value < |s.inUse|)
  {
    var c := s.claims[k];
    if c.row.None? then s else
    s.(inUse := s.inUse[c.row.value := false], claims := s.claims[k := c.(row := None)])
  }

  function Dropped<K>(s: State<K>, k: K): State<K> {
    s.(claims := s.claims - {k})
  }

  // ---- Every operation keeps the invariant ----

  lemma OwnPages<K>(shape: Shape, free: seq<nat>, claims: map<K, Claim>, k: K)
    requires Partition(shape, free, claims) && k in claims
    ensures forall p | p in claims[k].pages :: p !in free
  {
    forall p | p in claims[k].pages
      ensures p !in free
    {
      assert HasPage(claims, k, p);
    }
  }

  lemma OwnRow<K>(shape: Shape, s: State<K>, k: K)
    requires RowsOk(shape, s) && k in s.claims && s.claims[k].row.Some?
    ensures var r := s.claims[k].row.value;
            r < shape.rows && s.inUse[r] && s.claims[k].pages <= s.tables[r] && |s.tables[r]| == shape.capacity
  {
    assert HasRow(s.claims, k, s.claims[k].row.value);
  }

  /** Changing one claim keeps the partition if ids only move between that claim and the free list. */
  lemma PartitionReplace<K>(shape: Shape, free: seq<nat>, claims: map<K, Claim>, k: K, c: Claim, free': seq<nat>)
    requires Partition(shape, free, claims) && Ascending(free')
    requires forall p :: p in free' || p in c.pages <==> p in free || HasPage(claims, k, p)
    requires forall p | p in c.pages :: p !in free'
    requires k in claims ==> forall p | p in claims[k].pages :: p < shape.count
    ensures Partition(shape, free', claims[k := c])
  {
    var m := claims[k := c];
    forall j, p | HasPage(m, j, p)
      ensures p !in free' && forall i | HasPage(m, i, p) :: i == j
    {
      forall i | HasPage(m, i, p)
        ensures i == j
      {
        assert i != k ==> HasPage(claims, i, p);
        assert j != k ==> HasPage(claims, j, p);
      }
      assert j != k ==> HasPage(claims, j, p);
    }
    forall p: nat | p < shape.count && p !in free'
      ensures exists j :: HasPage(m, j, p)
    {
      if p in c.pages {
        assert HasPage(m, k, p);
      } else {
        var j :| HasPage(claims, j, p);
        assert HasPage(m, j, p);
      }
    }
  }

  /** Changing one claim and its row keeps the row table right. */
  lemma RowsReplace<K>(shape: Shape, s: State<K>, t: State<K>, k: K, c: Claim)
    requires RowsOk(shape, s) && t.claims == s.claims[k := c]
    requires |t.inUse| == |t.tables| == shape.rows && forall r | 0 <= r < shape.rows :: |t.tables[r]| == shape.capacity
    requires forall r | 0 <= r < shape.rows :: t.inUse[r] <==> c.row == Some(r) || (s.inUse[r] && !HasRow(s.claims, k, r))
    requires forall r | 0 <= r < shape.rows && c.row != Some(r) :: t.tables[r] == s.tables[r]
    requires c.row.Some? ==> c.row.value < shape.rows && c.pages <= t.tables[c.row.value]
    requires c.row.Some? ==> HasRow(s.claims, k, c.row.value) || !s.inUse[c.row.value]
    ensures RowsOk(shape, t)
  {
    forall r | 0 <= r < shape.rows && t.inUse[r]
      ensures exists j :: HasRow(t.claims, j, r)
    {
      if c.row == Some(r) {
        assert HasRow(t.claims, k, r);
      } else {
        var j :| HasRow(s.claims, j, r);
        assert HasRow(t.claims, j, r);
      }
    }
    forall j, r: nat | HasRow(t.claims, j, r)
      ensures r < shape.rows && t.inUse[r] && t.claims[j].pages <= t.tables[r]
      ensures forall i | HasRow(t.claims, i, r) :: i == j
    {
      assert j != k ==> HasRow(s.claims, j, r);
      forall i | HasRow(t.claims, i, r)
        ensures i == j
      {
        assert i != k ==> HasRow(s.claims, i, r);
      }
    }
  }

  lemma ReservedSound<K>(shape: Shape, s: State<K>, k: K, n: nat)
    requires Sound(shape, s) && k !in s.claims && CanReserve(shape, s.entitled, n)
    ensures Sound(shape, Reserved(s, k, n))
  {
    var c := Claim(n, [], None);
    SumsWith(s.claims, k, c);
    PartitionReplace(shape, s.free, s.claims, k, c, s.free);
    RowsReplace(shape, s, Reserved(s, k, n), k, c);
  }

  /** An entitlement is part of the total, so replacing it cannot underflow. */
  lemma EntitlementInTotal<K>(shape: Shape, s: State<K>, k: K)
    requires Sound(shape, s) && k in s.claims
    ensures s.claims[k].entitlement <= s.entitled && |s.claims[k].pages| <= s.mapped
  {
    EntitledSplit(s.claims, k);
    MappedSplit(s.claims, k);
  }

  lemma EntitleSound<K>(shape: Shape, s: State<K>, k: K, n: nat)
    requires Sound(shape, s) && k in s.claims && s.claims[k].entitlement <= s.entitled
    requires |s.claims[k].pages| <= n && CanReplace(shape, s.entitled, s.claims[k].entitlement, n)
    ensures Sound(shape, Entitle(s, k, n))
  {
    OwnPages(shape, s.free, s.claims, k);
    if s.claims[k].row.Some? { OwnRow(shape, s, k); }
    var c := s.claims[k].(entitlement := n);
    SumsWith(s.claims, k, c);
    PartitionReplace(shape, s.free, s.claims, k, c, s.free);
    RowsReplace(shape, s, Entitle(s, k, n), k, c);
  }

  lemma GrownPages(pages: seq<nat>, taken: seq<nat>)
    requires Distinct(pages) && Ascending(taken) && forall p | p in pages :: p !in taken
    ensures Distinct(pages + taken)
    ensures forall p :: p in pages + taken <==> p in pages || p in taken
  {
    var all := pages + taken;
    forall i, j | 0 <= i < j < |all|
      ensures all[i] != all[j]
    {
      assert i < |pages| <= j ==> pages[i] in pages && taken[j - |pages|] in taken;
    }
  }

  lemma OverwritePrefix(row: seq<nat>, pages: seq<nat>, values: seq<nat>)
    requires pages <= row && |pages| + |values| <= |row|
    ensures pages + values <= Overwrite(row, |pages|, values)
    ensures |Overwrite(row, |pages|, values)| == |row|
  {
  }

  lemma GrownBySound<K>(shape: Shape, s: State<K>, k: K, taken: seq<nat>, rest: seq<nat>)
    requires Sound(shape, s) && k in s.claims && |s.claims[k].pages| + |taken| <= s.claims[k].entitlement
    requires Ascending(taken) && Ascending(rest) && |taken| + |rest| == |s.free|
    requires forall p :: p in s.free <==> p in taken || p in rest
    requires forall p | p in taken :: p !in rest
    ensures Sound(shape, GrownBy(s, k, taken, rest))
  {
    OwnPages(shape, s.free, s.claims, k);
    if s.claims[k].row.Some? { OwnRow(shape, s, k); }
    var c, t := s.claims[k], GrownBy(s, k, taken, rest);
    GrownPages(c.pages, taken);
    SumsWith(s.claims, k, t.claims[k]);
    PartitionReplace(shape, s.free, s.claims, k, t.claims[k], t.free);
    if c.row.Some? { OverwritePrefix(s.tables[c.row.value], c.pages, taken); }
    RowsReplace(shape, s, t, k, t.claims[k]);
  }

  lemma GrownSound<K>(shape: Shape, s: State<K>, k: K, n: nat)
    requires Sound(shape, s) && k in s.claims
    requires |s.claims[k].pages| + n <= s.claims[k].entitlement && n <= |s.free|
    ensures Sound(shape, Grown(s, k, n))
  {
    var i := Select(s.free, n, Preferred(s.claims[k].pages));
    AscendingCut(s.free, i, n);
    GrownBySound(shape, s, k, s.free[i..i + n], s.free[..i] + s.free[i + n..]);
  }

  lemma TrimmedPages(pages: seq<nat>, n: nat)
    requires Distinct(pages) && n <= |pages|
    ensures Distinct(pages[..n]) && Distinct(pages[n..])
    ensures forall p :: p in pages <==> p in pages[..n] || p in pages[n..]
    ensures forall p | p in pages[..n] :: p !in pages[n..]
  {
    assert pages == pages[..n] + pages[n..];
  }

  lemma TrimmedSound<K>(shape: Shape, s: State<K>, k: K, n: nat)
    requires Sound(shape, s) && k in s.claims && n <= |s.claims[k].pages| && |s.claims[k].pages| - n <= s.mapped
    ensures Sound(shape, Trimmed(s, k, n))
  {
    OwnPages(shape, s.free, s.claims, k);
    if s.claims[k].row.Some? { OwnRow(shape, s, k); }
    var c, t := s.claims[k], Trimmed(s, k, n);
    var back := c.pages[n..];
    TrimmedPages(c.pages, n);
    InsertAllSpec(s.free, back);
    SumsWith(s.claims, k, t.claims[k]);
    PartitionReplace(shape, s.free, s.claims, k, t.claims[k], t.free);
    RowsReplace(shape, s, t, k, t.claims[k]);
  }

  lemma BoundSound<K>(shape: Shape, s: State<K>, k: K, row: nat)
    requires Sound(shape, s) && k in s.claims && s.claims[k].row.None? && row < shape.rows && !s.inUse[row]
    ensures Sound(shape, Bound(s, k, row))
  {
    OwnPages(shape, s.free, s.claims, k);
    if s.claims[k].row.Some? { OwnRow(shape, s, k); }
    var c, t := s.claims[k], Bound(s, k, row);
    OverwritePrefix(s.tables[row], [], c.pages);
    assert [] + c.pages == c.pages;
    SumsWith(s.claims, k, t.claims[k]);
    PartitionReplace(shape, s.free, s.claims, k, t.claims[k], t.free);
    RowsReplace(shape, s, t, k, t.claims[k]);
  }

  lemma UnboundSound<K>(shape: Shape, s: State<K>, k: K)
    requires Sound(shape, s) && k in s.claims
    ensures Sound(shape, Unbound(s, k))
  {
    OwnPages(shape, s.free, s.claims, k);
    if s.claims[k].row.Some? { OwnRow(shape, s, k); }
    var c, t := s.claims[k], Unbound(s, k);
    if c.row.Some? {
      SumsWith(s.claims, k, t.claims[k]);
      PartitionReplace(shape, s.free, s.claims, k, t.claims[k], t.free);
      RowsReplace(shape, s, t, k, t.claims[k]);
    }
  }

  /** An allocation that holds nothing can disappear. */
  lemma DroppedSound<K>(shape: Shape, s: State<K>, k: K)
    requires Sound(shape, s) && k in s.claims && s.claims[k] == Claim(0, [], None)
    ensures Sound(shape, Dropped(s, k))
  {
    var m := s.claims - {k};
    EntitledSplit(s.claims, k);
    MappedSplit(s.claims, k);
    var t := Dropped(s, k);
    assert forall j, p :: HasPage(m, j, p) <==> HasPage(s.claims, j, p);
    assert forall j, r: nat :: HasRow(m, j, r) <==> HasRow(s.claims, j, r);
    assert Partition(shape, t.free, m);
    assert RowsOk(shape, t);
  }

  // ---- Runs ----

  datatype Op<K> =
    | Reserve(k: K, pages: nat)
    | SetEntitlement(k: K, pages: nat)
    | CancelUnmapped(k: K)
    | Materialize(k: K, pages: nat)
    | Trim(k: K, pages: nat)
    | Bind(k: K, row: int)
    | Unbind(k: K)
    | Release(k: K)

  /** `NotMaterializable` is the `logic_error` of an entitlement that could not be materialized. */
  datatype Error = NoError | InvalidArgument | BadAlloc | LogicError | OutOfRange | NotMaterializable

  datatype Result<K> = Result(state: State<K>, error: Error)

  /** An allocation that has given everything back. */
  ghost function Emptied<K>(shape: Shape, s: State<K>, k: K): (t: State<K>)
    requires Sound(shape, s) && k in s.claims && s.claims[k].row.None?
    ensures Sound(shape, t) && t.claims == s.claims[k := Claim(0, [], None)]
  {
    EntitlementInTotal(shape, s, k);
    TrimmedSound(shape, s, k, 0);
    var v := Trimmed(s, k, 0);
    EntitlementInTotal(shape, v, k);
    EntitleSound(shape, v, k, 0);
    Entitle(v, k, 0)
  }

  ghost function Released<K>(shape: Shape, s: State<K>, k: K): (t: State<K>)
    requires Sound(shape, s) && k in s.claims
    ensures Sound(shape, t) && t.claims == s.claims - {k}
  {
    UnboundSound(shape, s, k);
    var w := Emptied(shape, Unbound(s, k), k);
    DroppedSound(shape, w, k);
    Dropped(w, k)
  }

  /** One call on the pool or on one of its allocations, with the errors in the order the source checks them. */
  ghost function Apply<K>(shape: Shape, s: State<K>, op: Op<K>): (r: Result<K>)
    requires Sound(shape, s) && if op.Reserve? then op.k !in s.claims else op.k in s.claims
    ensures Sound(shape, r.state)
    ensures r.error != NoError ==> r.state == s
    ensures r.error != NotMaterializable
  {
    match op
    case Reserve(k, n) =>
      if !CanReserve(shape, s.entitled, n) then Result(s, BadAlloc) else
      ReservedSound(shape, s, k, n);
      Result(Reserved(s, k, n), NoError)
    case SetEntitlement(k, n) =>
      EntitlementInTotal(shape, s, k);
      if n < |s.claims[k].pages| then Result(s, InvalidArgument) else
      if !CanReplace(shape, s.entitled, s.claims[k].entitlement, n) then Result(s, BadAlloc) else
      EntitleSound(shape, s, k, n);
      Result(Entitle(s, k, n), NoError)
    case CancelUnmapped(k) =>
      EntitlementInTotal(shape, s, k);
      EntitleSound(shape, s, k, |s.claims[k].pages|);
      Result(Entitle(s, k, |s.claims[k].pages|), NoError)
    case Materialize(k, n) =>
      if n < |s.claims[k].pages| || n > s.claims[k].entitlement then Result(s, InvalidArgument) else
      var more := n - |s.claims[k].pages|;
      if more == 0 then Result(s, NoError) else
      PromiseKept(shape, s, k);
      if more > |s.free| then Result(s, NotMaterializable) else
      GrownSound(shape, s, k, more);
      Result(Grown(s, k, more), NoError)
    case Trim(k, n) =>
      EntitlementInTotal(shape, s, k);
      if n > |s.claims[k].pages| then Result(s, InvalidArgument) else
      if n == |s.claims[k].pages| then Result(s, NoError) else
      TrimmedSound(shape, s, k, n);
      Result(Trimmed(s, k, n), NoError)
    case Bind(k, row) =>
      if s.claims[k].row.Some? then Result(s, LogicError) else
      if row < 0 || row >= shape.rows then Result(s, OutOfRange) else
      if s.inUse[row] then Result(s, LogicError) else
      BoundSound(shape, s, k, row);
      Result(Bound(s, k, row), NoError)
    case Unbind(k) =>
      UnboundSound(shape, s, k);
      Result(Unbound(s, k), NoError)
    case Release(k) => Result(Released(shape, s, k), NoError)
  }

  lemma ReleaseFields<K>(shape: Shape, s: State<K>, k: K)
    requires Sound(shape, s) && k in s.claims
    ensures var c := s.claims[k];
            && |c.pages| <= s.mapped && c.entitlement <= s.entitled
            && Apply(shape, s, Release(k)).state ==
               State(InsertAll(s.free, c.pages), Unbound(s, k).inUse, s.tables,
                     s.entitled - c.entitlement, s.mapped - |c.pages|, s.claims - {k})
  {
    EntitlementInTotal(shape, s, k);
    assert s.claims[k].pages[0..] == s.claims[k].pages;
  }

  lemma GrowthFits<K>(shape: Shape, s: State<K>, k: K, n: nat)
    requires Sound(shape, s) && k in s.claims && |s.claims[k].pages| < n <= s.claims[k].entitlement
    ensures n - |s.claims[k].pages| <= |s.free| && Ascending(s.free)
    ensures s.claims[k].row.Some? ==>
              var r := s.claims[k].row.value;
              r < |s.tables| && n <= |s.tables[r]|
    ensures Sound(shape, Grown(s, k, n - |s.claims[k].pages|))
  {
    PromiseKept(shape, s, k);
    if s.claims[k].row.Some? { OwnRow(shape, s, k); }
    GrownSound(shape, s, k, n - |s.claims[k].pages|);
  }

  lemma MaterializeGrows<K>(shape: Shape, s: State<K>, k: K, n: nat, t: State<K>)
    requires Sound(shape, s) && k in s.claims && |s.claims[k].pages| < n <= s.claims[k].entitlement
    requires n - |s.claims[k].pages| <= |s.free|
    requires s.claims[k].row.Some? ==>
               var r := s.claims[k].row.value;
               r < |s.tables| && n <= |s.tables[r]|
    requires t == Grown(s, k, n - |s.claims[k].pages|)
    ensures Apply(shape, s, Materialize(k, n)) == Result(t, NoError)
  {
  }

  /** A nonzero promise is accepted exactly when it can be made: when the pool with it still keeps its invariant. */
  lemma ReserveExact<K>(shape: Shape, s: State<K>, k: K, n: nat)
    requires Sound(shape, s) && k !in s.claims
    ensures CanReserve(shape, s.entitled, n) <==> n != 0 && Sound(shape, Reserved(s, k, n))
  {
    if CanReserve(shape, s.entitled, n) { ReservedSound(shape, s, k, n); }
    assert Sound(shape, Reserved(s, k, n)) ==> ClaimOk(shape, Reserved(s, k, n).claims[k]);
  }

  /** A promise that covers the mapped pages is replaced exactly when the pool still keeps its invariant. */
  lemma ReplaceExact<K>(shape: Shape, s: State<K>, k: K, n: nat)
    requires Sound(shape, s) && k in s.claims
    ensures s.claims[k].entitlement <= s.entitled
    ensures |s.claims[k].pages| <= n && CanReplace(shape, s.entitled, s.claims[k].entitlement, n) <==>
              Sound(shape, Entitle(s, k, n))
  {
    EntitlementInTotal(shape, s, k);
    if |s.claims[k].pages| <= n && CanReplace(shape, s.entitled, s.claims[k].entitlement, n) {
      EntitleSound(shape, s, k, n);
    }
    assert Sound(shape, Entitle(s, k, n)) ==> ClaimOk(shape, Entitle(s, k, n).claims[k]);
  }

  /** What one change of a bundle does to its pool: the tail pages are free again and the promise is replaced. */
  ghost predicate Resized<K>(s: State<K>, k: K, mapped: nat, entitlement: nat, t: State<K>) {
    && k in s.claims && mapped <= |s.claims[k].pages|
    && t.free == InsertAll(s.free, s.claims[k].pages[mapped..]) && t.inUse == s.inUse && t.tables == s.tables
    && t.entitled == s.entitled - s.claims[k].entitlement + entitlement
    && t.mapped == s.mapped - (|s.claims[k].pages| - mapped)
    && t.claims == s.claims[k := Claim(entitlement, s.claims[k].pages[..mapped], s.claims[k].row)]
  }

  /** Once a change is found acceptable neither of its two steps can fail. */
  lemma ResizeCannotFail<K>(shape: Shape, s: State<K>, k: K, mapped: nat, entitlement: nat)
    requires Sound(shape, s) && k in s.claims && mapped <= |s.claims[k].pages| && mapped <= entitlement
    requires CanReplace(shape, s.entitled, s.claims[k].entitlement, entitlement)
    ensures var t := Apply(shape, s, Trim(k, mapped));
            && t.error == NoError && k in t.state.claims
            && var u := Apply(shape, t.state, SetEntitlement(k, entitlement));
               u.error == NoError && Resized(s, k, mapped, entitlement, u.state)
  {
    if mapped == |s.claims[k].pages| {
      assert s.claims[k].pages[..mapped] == s.claims[k].pages;
    }
  }

  ghost predicate Legal<K>(s: State<K>, op: Op<K>) {
    if op.Reserve? then op.k !in s.claims else op.k in s.claims
  }

  function Initial<K>(shape: Shape): State<K> {
    State(seq(shape.count, i => i), seq(shape.rows, i => false), seq(shape.rows, i => seq(shape.capacity, j => 0)), 0, 0, map[])
  }

  lemma InitialSound<K>(shape: Shape)
    ensures Sound(shape, Initial<K>(shape))
  {
    var s := Initial<K>(shape);
    forall p: nat | p < shape.count
      ensures p in s.free
    {
      assert s.free[p] == p;
    }
  }

  /** The state after a run; calls on allocations that are not live are skipped. */
  ghost function Run<K>(shape: Shape, ops: seq<Op<K>>): (s: State<K>)
    ensures Sound(shape, s)
  {
    InitialSound<K>(shape);
    if ops == [] then Initial(shape) else
    var s := Run(shape, ops[..|ops| - 1]);
    if Legal(s, ops[|ops| - 1]) then Apply(shape, s, ops[|ops| - 1]).state else s
  }

  /** In every reachable state ids are partitioned, counters are sums, promises fit and can be kept,
      and every bound row shows its allocation's pages. */
  lemma ReachableState<K>(shape: Shape, ops: seq<Op<K>>, k: K)
    ensures var s := Run(shape, ops);
            && Partition(shape, s.free, s.claims) && s.entitled <= shape.count
            && s.mapped == Mapped(s.claims) && s.entitled == Entitled(s.claims)
            && (k in s.claims ==> Materializable(shape, s, k) && Shown(s, k))
  {
    var s := Run(shape, ops);
    if k in s.claims {
      PromiseKept(shape, s, k);
      if s.claims[k].row.Some? { OwnRow(shape, s, k); }
    }
  }

  /** Every extent between what is mapped and what is promised can be materialized now. */
  ghost predicate Materializable<K>(shape: Shape, s: State<K>, k: K)
    requires Sound(shape, s) && k in s.claims
  {
    forall n | |s.claims[k].pages| <= n <= s.claims[k].entitlement :: Apply(shape, s, Materialize(k, n)).error == NoError
  }

  /** A bound row starts with the pages of its allocation. */
  ghost predicate Shown<K>(s: State<K>, k: K)
    requires k in s.claims
  {
    s.claims[k].row.Some? ==>
      s.claims[k].row.value < |s.tables| && s.claims[k].pages <= s.tables[s.claims[k].row.value]
  }
}
