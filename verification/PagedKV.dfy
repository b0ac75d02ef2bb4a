/** The paged KV pool and its allocations as objects. */
module PagedKV {
  import opened Wrappers
  import opened PagedKVState

  const PAGE_SIZE := 64

  /** `pages_for_tokens`: the least number of pages that holds the tokens. */
  function PagesForTokens(tokens: nat): (pages: nat)
    ensures tokens <= pages * PAGE_SIZE
    ensures pages > 0 ==> (pages - 1) * PAGE_SIZE < tokens
  {
    if tokens == 0 then 0 else 1 + (tokens - 1) / PAGE_SIZE
  }

  class Pool {
    const shape: Shape
    var free: seq<nat>
    var inUse: seq<bool>
    /** The block tables in device memory; copies to them are made in call order. */
    var tables: seq<seq<nat>>
    var entitled: nat
    var mapped: nat
    /** The live allocations of this pool. */
    ghost var claims: map<Allocation, Claim>

    ghost function Now(): State<Allocation>
      reads this
    {
      State(free, inUse, tables, entitled, mapped, claims)
    }

    ghost predicate Valid()
      reads this, claims.Keys
    {
      Sound(shape, Now()) && Tied()
    }

    /** The recorded claims are those of the live allocations. */
    ghost predicate Tied()
      reads this, claims.Keys
    {
      forall a | a in claims :: a.pool == this && a.AsClaim() == claims[a]
    }

    constructor (shape: Shape)
      ensures Valid() && this.shape == shape && Now() == Initial(shape)
    {
      this.shape := shape;
      free, inUse := seq(shape.count, i => i), seq(shape.rows, i => false);
      tables := seq(shape.rows, i => seq(shape.capacity, j => 0));
      entitled, mapped, claims := 0, 0, map[];
      new;
      InitialSound<Allocation>(shape);
    }

    /** The lambda `run_at`. */
    method IsRun(begin: nat, count: nat) returns (run: bool)
      ensures run <==> RunAt(free, begin, count)
    {
      if begin + count > |free| { return false; }
      var offset := 1;
      while offset < count
        invariant offset >= 1
        invariant forall j | begin <= j < begin + offset && j < begin + count :: free[j] == free[begin] + (j - begin)
      {
        if free[begin + offset] != free[begin] + offset { return false; }
        offset := offset + 1;
      }
      return true;
    }

    /** The lookup of the preferred id. */
    method Position(id: nat) returns (i: nat)
      ensures i == IndexOf(free, id)
    {
      i := 0;
      while i < |free| && free[i] != id
        invariant i <= |free| && IndexOf(free, id) == i + IndexOf(free[i..], id)
      {
        assert free[i..][1..] == free[i + 1..];
        i := i + 1;
      }
    }

    method ChooseRun(count: nat, preferred: Option<nat>) returns (selected: nat)
      requires count <= |free|
      ensures selected == Select(free, count, preferred)
    {
      if preferred.Some? {
        selected := Position(preferred.value);
        if selected < |free| {
          var run := IsRun(selected, count);
          if run { return; }
        }
      }
      selected := 0;
      while selected + count <= |free|
        invariant FirstRun(free, 0, count) == FirstRun(free, selected, count)
        decreases |free| - selected
      {
        var run := IsRun(selected, count);
        if run { return; }
        selected := selected + 1;
      }
      selected := 0;
    }

    /** `take_pages`; `None` is its `logic_error`. */
    method TakePages(count: nat, preferred: Option<nat>) returns (out: Option<seq<nat>>)
      modifies `free, `mapped
      ensures out.None? <==> count > |old(free)|
      ensures out.None? ==> free == old(free) && mapped == old(mapped)
      ensures out.Some? ==>
              var i := Select(old(free), count, preferred);
              && out.value == old(free)[i..i + count] && free == old(free)[..i] + old(free)[i + count..]
              && mapped == old(mapped) + count
    {
      if count > |free| { return None; }
      var i := ChooseRun(count, preferred);
      var taken := free[i..i + count];
      free := free[..i] + free[i + count..];
      mapped := mapped + count;
      return Some(taken);
    }

    method ReturnPages(pages: seq<nat>)
      requires |pages| <= mapped
      modifies `free, `mapped
      ensures free == InsertAll(old(free), pages) && mapped == old(mapped) - |pages|
    {
      for i := 0 to |pages|
        invariant free == InsertAll(old(free), pages[..i]) && mapped == old(mapped)
      {
        assert pages[..i + 1][..i] == pages[..i];
        free := Insert(free, pages[i]);
      }
      assert pages[..|pages|] == pages;
      mapped := mapped - |pages|;
    }

    /** `acquire_row`. */
    method AcquireRow(row: int) returns (e: Error)
      requires |inUse| == shape.rows
      modifies `inUse
      ensures e == if row < 0 || row >= shape.rows then OutOfRange else if old(inUse)[row] then LogicError else NoError
      ensures inUse == if e == NoError then old(inUse)[row := true] else old(inUse)
    {
      if row < 0 || row >= shape.rows { return OutOfRange; }
      if inUse[row] { return LogicError; }
      inUse := inUse[row := true];
      return NoError;
    }

    method ReleaseRow(row: nat)
      requires row < |inUse|
      modifies `inUse
      ensures inUse == old(inUse)[row := false]
    {
      inUse := inUse[row := false];
    }

    /** `publish_range`: copies ids to a row of the block tables. */
    method PublishRange(row: nat, first: nat, ids: seq<nat>)
      requires row < |tables| && first + |ids| <= |tables[row]|
      modifies `tables
      ensures tables == Published(old(tables), Some(row), first, ids)
    {
      tables := tables[row := Overwrite(tables[row], first, ids)];
    }

    method Reserve(pages: nat) returns (a: Allocation?)
      requires Valid()
      modifies this
      ensures Valid() && (a == null <==> !CanReserve(shape, old(entitled), pages))
      ensures a == null ==> Now() == old(Now())
      ensures a != null ==> fresh(a) && Now() == Reserved(old(Now()), a, pages)
    {
      if !CanReserve(shape, entitled, pages) { return null; }
      a := new Allocation(this, pages);
      ReservedSound(shape, Now(), a, pages);
      entitled := entitled + pages;
      claims := claims[a := a.AsClaim()];
    }
  }

  class Allocation {
    var pool: Pool?
    var pageIds: seq<nat>
    var entitlement: nat
    var boundRow: int

    ghost function AsClaim(): Claim
      reads this
    {
      Claim(entitlement, pageIds, if boundRow < 0 then None else Some(boundRow))
    }

    /** An allocation is empty, or one of the live allocations of a pool in order. */
    ghost predicate Ready()
      reads this, pool, if pool == null then {} else pool.claims.Keys
    {
      pool != null ==> pool.Valid() && this in pool.claims
    }

    constructor (pool: Pool, pages: nat)
      ensures this.pool == pool && AsClaim() == Claim(pages, [], None)
    {
      this.pool, pageIds, entitlement, boundRow := pool, [], pages, -1;
    }

    method SetPageEntitlement(pages: nat) returns (e: Error)
      requires Ready()
      modifies this, pool
      ensures pool == old(pool) && Ready()
      ensures pool == null ==> e == InvalidArgument && unchanged(this)
      ensures pool != null ==> Result(pool.Now(), e) == Apply(pool.shape, old(pool.Now()), SetEntitlement(this, pages))
    {
      if pool == null || pages < |pageIds| { return InvalidArgument; }
      EntitlementInTotal(pool.shape, pool.Now(), this);
      if !CanReplace(pool.shape, pool.entitled, entitlement, pages) { return BadAlloc; }
      ghost var next := Apply(pool.shape, pool.Now(), SetEntitlement(this, pages));
      pool.entitled := pool.entitled - entitlement + pages;
      entitlement := pages;
      pool.claims := pool.claims[this := AsClaim()];
      assert pool.Now() == next.state;
      return NoError;
    }

    method CancelUnmappedEntitlement()
      requires Ready()
      modifies this, pool
      ensures pool == old(pool) && Ready()
      ensures pool == null ==> unchanged(this)
      ensures pool != null ==> pool.Now() == Apply(pool.shape, old(pool.Now()), CancelUnmapped(this)).state
    {
      if pool == null { return; }
      EntitlementInTotal(pool.shape, pool.Now(), this);
      ghost var next := Apply(pool.shape, pool.Now(), CancelUnmapped(this));
      pool.entitled := pool.entitled - entitlement + |pageIds|;
      entitlement := |pageIds|;
      pool.claims := pool.claims[this := AsClaim()];
      assert pool.Now() == next.state;
    }

    /** Takes pages that are known to be free, appends and publishes them. */
    method AcquirePages(count: nat)
      requires pool != null && this in pool.claims && pool.Tied() && 0 < count <= |pool.free| && Ascending(pool.free)
      requires boundRow >= 0 ==> boundRow < |pool.tables| && |pageIds| + count <= |pool.tables[boundRow]|
      modifies this, pool
      ensures pool == old(pool) && pool.Now() == Grown(old(pool.Now()), this, count)
      ensures this in pool.claims && pool.Tied()
      ensures Extended(old(pool.free), old(pageIds), pageIds, |old(pageIds)| + count)
    {
      SelectExtends(pool.free, pageIds, count);
      var at := |pageIds|;
      var taken := pool.TakePages(count, Preferred(pageIds));
      pageIds := pageIds + taken.value;
      if boundRow >= 0 { pool.PublishRange(boundRow, at, taken.value); }
      pool.claims := pool.claims[this := AsClaim()];
    }

    /** The work of `materialize_pages`. */
    method GrowTo(pages: nat)
      requires Ready() && pool != null && |pageIds| < pages <= entitlement
      modifies this, pool
      ensures pool == old(pool) && Ready()
      ensures Result(pool.Now(), NoError) == Apply(pool.shape, old(pool.Now()), Materialize(this, pages))
      ensures Extended(old(pool.free), old(pageIds), pageIds, pages)
    {
      ghost var s := pool.Now();
      GrowthFits(pool.shape, s, this, pages);
      AcquirePages(pages - |pageIds|);
      MaterializeGrows(pool.shape, s, this, pages, pool.Now());
    }

    /** `materialize_pages`; the pages it takes are always free, so it never reports `NotMaterializable`. */
    method MaterializePages(pages: nat) returns (e: Error)
      requires Ready()
      modifies this, pool
      ensures pool == old(pool) && Ready()
      ensures pool == null ==> e == InvalidArgument && unchanged(this)
      ensures pool != null ==> Result(pool.Now(), e) == Apply(pool.shape, old(pool.Now()), Materialize(this, pages))
      ensures e == NoError ==> if pages == |old(pageIds)| then pageIds == old(pageIds)
                               else Extended(old(pool.free), old(pageIds), pageIds, pages)
    {
      if pool == null || pages < |pageIds| || pages > entitlement { return InvalidArgument; }
      if pages == |pageIds| { return NoError; }
      GrowTo(pages);
      return NoError;
    }

    method MaterializeTokens(tokens: nat) returns (e: Error)
      requires Ready()
      modifies this, pool
      ensures pool == old(pool) && Ready()
      ensures pool == null ==> e == InvalidArgument && unchanged(this)
      ensures e == NoError ==> tokens <= |pageIds| * PAGE_SIZE < tokens + PAGE_SIZE
      ensures pool != null ==>
                Result(pool.Now(), e) == Apply(pool.shape, old(pool.Now()), Materialize(this, PagesForTokens(tokens)))
    {
      e := MaterializePages(PagesForTokens(tokens));
    }

    method TrimPages(pages: nat) returns (e: Error)
      requires Ready()
      modifies this, pool
      ensures pool == old(pool) && Ready()
      ensures pool == null ==> e == LogicError && unchanged(this)
      ensures pool != null ==> Result(pool.Now(), e) == Apply(pool.shape, old(pool.Now()), Trim(this, pages))
    {
      if pool == null { return LogicError; }
      if pages > |pageIds| { return InvalidArgument; }
      if pages == |pageIds| { return NoError; }
      EntitlementInTotal(pool.shape, pool.Now(), this);
      ghost var next := Apply(pool.shape, pool.Now(), Trim(this, pages));
      pool.ReturnPages(pageIds[pages..]);
      pageIds := pageIds[..pages];
      pool.claims := pool.claims[this := AsClaim()];
      assert pool.Now() == next.state;
      return NoError;
    }

    method TrimTokens(tokens: nat) returns (e: Error)
      requires Ready()
      modifies this, pool
      ensures pool == old(pool) && Ready()
      ensures pool == null ==> e == LogicError && unchanged(this)
      ensures e == NoError ==> tokens <= |pageIds| * PAGE_SIZE < tokens + PAGE_SIZE
      ensures pool != null ==>
                Result(pool.Now(), e) == Apply(pool.shape, old(pool.Now()), Trim(this, PagesForTokens(tokens)))
    {
      e := TrimPages(PagesForTokens(tokens));
    }

    /** Shows the pages in a row that has been acquired. */
    method ShowIn(row: nat)
      requires pool != null && this in pool.claims && pool.Tied() && boundRow < 0
      requires row < |pool.tables| && |pageIds| <= |pool.tables[row]|
      modifies this, pool`tables, pool`claims
      ensures pool == old(pool) && this in pool.claims && pool.Tied()
      ensures pool.tables == Published(old(pool.tables), Some(row), 0, old(pageIds))
      ensures pool.claims == old(pool.claims)[this := old(AsClaim()).(row := Some(row))]
    {
      boundRow := row;
      pool.PublishRange(row, 0, pageIds);
      pool.claims := pool.claims[this := AsClaim()];
    }

    method BindRow(row: int) returns (e: Error)
      requires Ready()
      modifies this, pool
      ensures pool == old(pool) && Ready()
      ensures pool == null ==> e == LogicError && unchanged(this)
      ensures pool != null ==> Result(pool.Now(), e) == Apply(pool.shape, old(pool.Now()), Bind(this, row))
    {
      if pool == null || boundRow >= 0 { return LogicError; }
      ghost var next := Apply(pool.shape, pool.Now(), Bind(this, row));
      e := pool.AcquireRow(row);
      if e != NoError { return; }
      ShowIn(row);
      assert pool.Now() == next.state;
    }

    /** The work of `unbind_row`. */
    method LeaveRow()
      requires pool != null && this in pool.claims && pool.claims[this] == AsClaim()
      requires boundRow >= 0 ==> boundRow < |pool.inUse|
      modifies this, pool
      ensures pool == old(pool) && pool.Now() == Unbound(old(pool.Now()), this)
      ensures pool.claims[this] == AsClaim() && pageIds == old(pageIds) && entitlement == old(entitlement)
    {
      if boundRow < 0 { return; }
      pool.ReleaseRow(boundRow);
      boundRow := -1;
      pool.claims := pool.claims[this := AsClaim()];
    }

    method UnbindRow()
      requires Ready()
      modifies this, pool
      ensures pool == old(pool) && Ready()
      ensures pool == null ==> unchanged(this)
      ensures pool != null ==> pool.Now() == Apply(pool.shape, old(pool.Now()), Unbind(this)).state
    {
      if pool == null { return; }
      if boundRow >= 0 { OwnRow(pool.shape, pool.Now(), this); }
      ghost var next := Apply(pool.shape, pool.Now(), Unbind(this));
      LeaveRow();
      assert pool.Now() == next.state;
    }

    /** The work of `release`. */
    method GiveBack()
      requires pool != null && this in pool.claims && pool.claims[this] == AsClaim()
      requires |pageIds| <= pool.mapped && entitlement <= pool.entitled && (boundRow >= 0 ==> boundRow < |pool.inUse|)
      modifies this, pool
      ensures pool == null
      ensures var s := old(pool.Now());
              old(pool).Now() == State(InsertAll(s.free, old(pageIds)), Unbound(s, this).inUse, s.tables,
                                       s.entitled - old(entitlement), s.mapped - |old(pageIds)|, s.claims - {this})
    {
      ghost var s := pool.Now();
      LeaveRow();
      pool.ReturnPages(pageIds);
      pool.entitled := pool.entitled - entitlement;
      assert pool.claims - {this} == s.claims - {this};
      pool.claims := pool.claims - {this};
      pageIds, entitlement := [], 0;
      pool := null;
    }

    /** `release`: everything goes back and the allocation is empty. */
    method Release()
      requires Ready()
      modifies this, pool
      ensures pool == null
      ensures old(pool) != null ==>
                old(pool).Valid() && old(pool).Now() == Apply(old(pool).shape, old(pool.Now()), PagedKVState.Release(this)).state
    {
      if pool == null { return; }
      ghost var p, s := pool, pool.Now();
      EntitlementInTotal(pool.shape, s, this);
      if boundRow >= 0 { OwnRow(pool.shape, s, this); }
      ReleaseFields(pool.shape, s, this);
      ghost var next := Apply(pool.shape, s, PagedKVState.Release(this)).state;
      GiveBack();
      assert p.Now() == next;
    }
  }
}
