/** Reserving from and resizing in several pools at once, all or nothing. */
module PagedKVBundles {
  import opened PagedKVState
  import opened PagedKV

  datatype Reservation = Reservation(pool: Pool?, pages: nat)
  datatype Change = Change(allocation: Allocation?, mapped: nat, entitlement: nat)
  datatype Reserving = Refused(error: Error) | Allocations(all: seq<Allocation>)

  // ---- Reserve ----

  /** `validate_distinct_pools` lets the reservations through. */
  ghost predicate WellFormed(rs: seq<Reservation>) {
    && (forall i | 0 <= i < |rs| :: rs[i].pool != null && rs[i].pages != 0)
    && (forall i, j | 0 <= j < i < |rs| :: rs[i].pool != rs[j].pool)
  }

  ghost function PoolsOf(rs: seq<Reservation>): set<Pool> {
    set r | r in rs && r.pool != null :: r.pool
  }

  method ValidateDistinctPools(rs: seq<Reservation>) returns (ok: bool)
    ensures ok <==> WellFormed(rs)
  {
    for i := 0 to |rs|
      invariant WellFormed(rs[..i])
    {
      if rs[i].pool == null || rs[i].pages == 0 { return false; }
      for j := 0 to i
        invariant forall k | 0 <= k < j :: rs[i].pool != rs[k].pool
      {
        if rs[i].pool == rs[j].pool { return false; }
      }
    }
    assert rs[..|rs|] == rs;
    return true;
  }

  ghost predicate Fits(r: Reservation)
    reads r.pool
  {
    r.pool != null && CanReserve(r.pool.shape, r.pool.entitled, r.pages)
  }

  /** Every named pool is in order and in the state listed for it. */
  ghost predicate AllAt(rs: seq<Reservation>, now: seq<State<Allocation>>)
    reads PoolsOf(rs), set p, a | p in PoolsOf(rs) && a in p.claims :: a
  {
    && |now| == |rs|
    && forall i | 0 <= i < |rs| :: rs[i].pool != null && rs[i].pool.Valid() && rs[i].pool.Now() == now[i]
  }

  method ReserveStep(rs: seq<Reservation>, i: nat, ghost now: seq<State<Allocation>>) returns (a: Allocation)
    requires WellFormed(rs) && AllAt(rs, now) && i < |rs| && CanReserve(rs[i].pool.shape, now[i].entitled, rs[i].pages)
    modifies rs[i].pool
    ensures fresh(a) && AllAt(rs, now[i := Reserved(now[i], a, rs[i].pages)])
  {
    var made := rs[i].pool.Reserve(rs[i].pages);
    a := made;
  }

  /** The states of the pools once the first reservations are made. */
  ghost function After(rs: seq<Reservation>, was: seq<State<Allocation>>, all: seq<Allocation>): (now: seq<State<Allocation>>)
    requires |all| <= |rs| == |was|
    ensures |now| == |rs|
  {
    seq(|rs|, i requires 0 <= i < |rs| => if i < |all| then Reserved(was[i], all[i], rs[i].pages) else was[i])
  }

  lemma AfterNext(rs: seq<Reservation>, was: seq<State<Allocation>>, all: seq<Allocation>, a: Allocation)
    requires |all| < |rs| == |was|
    ensures var now, i := After(rs, was, all), |all|;
            now[i] == was[i] && After(rs, was, all + [a]) == now[i := Reserved(now[i], a, rs[i].pages)]
  {
  }

  ghost predicate AllFit(rs: seq<Reservation>, was: seq<State<Allocation>>) {
    |was| == |rs| &&
    forall i | 0 <= i < |rs| :: rs[i].pool != null && CanReserve(rs[i].pool.shape, was[i].entitled, rs[i].pages)
  }

  /** The next reservation of several that all fit. */
  method ReserveNext(rs: seq<Reservation>, ghost was: seq<State<Allocation>>, all: seq<Allocation>) returns (a: Allocation)
    requires WellFormed(rs) && AllFit(rs, was) && |all| < |rs| && AllAt(rs, After(rs, was, all))
    modifies rs[|all|].pool
    ensures fresh(a) && AllAt(rs, After(rs, was, all + [a]))
  {
    a := ReserveStep(rs, |all|, After(rs, was, all));
    AfterNext(rs, was, all, a);
  }

  /** Reservations that all fit distinct pools all succeed. */
  method ReserveAll(rs: seq<Reservation>, ghost was: seq<State<Allocation>>) returns (all: seq<Allocation>)
    requires WellFormed(rs) && AllAt(rs, was) && AllFit(rs, was)
    modifies PoolsOf(rs)
    ensures |all| == |rs| && forall i | 0 <= i < |all| :: fresh(all[i])
    ensures AllAt(rs, After(rs, was, all))
  {
    all := [];
    assert After(rs, was, all) == was;
    for i := 0 to |rs|
      invariant |all| == i && AllAt(rs, After(rs, was, all)) && forall j | 0 <= j < i :: fresh(all[j])
    {
      assert rs[i].pool in PoolsOf(rs);
      var a := ReserveNext(rs, was, all);
      all := all + [a];
    }
  }

  /** `reserve_paged_kv_bundle`. */
  method ReserveBundle(rs: seq<Reservation>) returns (out: Reserving)
    requires forall p | p in PoolsOf(rs) :: p.Valid()
    modifies PoolsOf(rs)
    ensures forall p | p in PoolsOf(rs) :: p.Valid()
    ensures out.Refused? ==> forall p | p in PoolsOf(rs) :: p.Now() == old(p.Now())
    ensures out == Refused(InvalidArgument) <==> !WellFormed(rs)
    ensures out == Refused(BadAlloc) <==> WellFormed(rs) && exists r | r in rs :: !old(Fits(r))
    ensures out.Allocations? ==>
              && WellFormed(rs) && |out.all| == |rs|
              && forall i | 0 <= i < |rs| ::
                   fresh(out.all[i]) && rs[i].pool.Now() == Reserved<Allocation>(old(rs[i].pool.Now()), out.all[i], rs[i].pages)
  {
    var ok := ValidateDistinctPools(rs);
    if !ok { return Refused(InvalidArgument); }
    for i := 0 to |rs|
      invariant forall j | 0 <= j < i :: Fits(rs[j])
    {
      var r := rs[i];
      if !CanReserve(r.pool.shape, r.pool.entitled, r.pages) {
        assert !Fits(r);
        return Refused(BadAlloc);
      }
    }
    ghost var was := seq(|rs|, i requires 0 <= i < |rs| reads PoolsOf(rs) => rs[i].pool.Now());
    var all := ReserveAll(rs, was);
    return Allocations(all);
  }

  // ---- Resize ----

  /** One change alone is acceptable. */
  ghost predicate Acceptable(c: Change)
    reads c.allocation, if c.allocation == null then null else c.allocation.pool
  {
    && c.allocation != null && c.allocation.pool != null
    && c.mapped <= |c.allocation.pageIds| && c.mapped <= c.entitlement
    && CanReplace(c.allocation.pool.shape, c.allocation.pool.entitled, c.allocation.entitlement, c.entitlement)
  }

  ghost function Named(cs: seq<Change>): set<Allocation> {
    set c | c in cs && c.allocation != null :: c.allocation
  }

  ghost function PoolsNamed(cs: seq<Change>): set<Pool>
    reads Named(cs)
  {
    set a | a in Named(cs) && a.pool != null :: a.pool
  }

  /** Every change is acceptable and no pool is named twice. */
  ghost predicate AllAcceptable(cs: seq<Change>)
    reads Named(cs), PoolsNamed(cs)
  {
    && (forall i | 0 <= i < |cs| :: Acceptable(cs[i]))
    && (forall i, j | 0 <= j < i < |cs| :: cs[i].allocation.pool != cs[j].allocation.pool)
  }

  /** An earlier change names the same allocation or the same pool. */
  ghost predicate Repeats(cs: seq<Change>, i: nat)
    requires i < |cs|
    reads Named(cs)
  {
    cs[i].allocation != null &&
    exists j :: 0 <= j < i && cs[j].allocation != null && cs[i].allocation.pool == cs[j].allocation.pool
  }

  /** What the validation of change `i` alone reports. */
  ghost function ErrorAt(cs: seq<Change>, i: nat): Error
    requires i < |cs|
    reads Named(cs), PoolsNamed(cs)
  {
    var c := cs[i];
    if c.allocation == null || c.allocation.pool == null then InvalidArgument else
    if c.mapped > |c.allocation.pageIds| || c.mapped > c.entitlement || Repeats(cs, i) then InvalidArgument else
    if !CanReplace(c.allocation.pool.shape, c.allocation.pool.entitled, c.allocation.entitlement, c.entitlement) then BadAlloc
    else NoError
  }

  /** The error of the first change at or after `i` that has one. */
  ghost function FirstError(cs: seq<Change>, i: nat): Error
    requires i <= |cs|
    reads Named(cs), PoolsNamed(cs)
    decreases |cs| - i
  {
    if i == |cs| then NoError else if ErrorAt(cs, i) != NoError then ErrorAt(cs, i) else FirstError(cs, i + 1)
  }

  /** The validation loop of `resize_paged_kv_bundle`: the first error wins, and there is none exactly when all is acceptable. */
  method ValidateChanges(cs: seq<Change>) returns (e: Error)
    ensures e == NoError <==> AllAcceptable(cs)
    ensures e == FirstError(cs, 0)
  {
    for i := 0 to |cs|
      invariant AllAcceptable(cs[..i]) && FirstError(cs, 0) == FirstError(cs, i)
    {
      var c := cs[i];
      if c.allocation == null || c.allocation.pool == null { return InvalidArgument; }
      if c.mapped > |c.allocation.pageIds| || c.mapped > c.entitlement { return InvalidArgument; }
      for j := 0 to i
        invariant forall k | 0 <= k < j :: cs[i].allocation.pool != cs[k].allocation.pool
      {
        if c.allocation == cs[j].allocation || c.allocation.pool == cs[j].allocation.pool {
          assert Repeats(cs, i);
          return InvalidArgument;
        }
      }
      assert !Repeats(cs, i);
      var pool := c.allocation.pool;
      if !CanReplace(pool.shape, pool.entitled, c.allocation.entitlement, c.entitlement) { return BadAlloc; }
    }
    assert cs[..|cs|] == cs;
    return NoError;
  }

  /** Trims and then replaces the entitlement; both steps succeed. */
  method ResizeOne(a: Allocation, mapped: nat, entitlement: nat)
    requires a.Ready() && a.pool != null && mapped <= |a.pageIds| && mapped <= entitlement
    requires CanReplace(a.pool.shape, a.pool.entitled, a.entitlement, entitlement)
    modifies a, a.pool
    ensures a.pool == old(a.pool) && a.Ready()
    ensures Resized<Allocation>(old(a.pool.Now()), a, mapped, entitlement, a.pool.Now())
  {
    ResizeCannotFail(a.pool.shape, a.pool.Now(), a, mapped, entitlement);
    var trimmed := a.TrimPages(mapped);
    var entitled := a.SetPageEntitlement(entitlement);
  }

  ghost predicate Live(a: Allocation, p: Pool, s: State<Allocation>)
    reads a, p, p.claims.Keys
  {
    a.pool == p && p.Valid() && a in p.claims && p.Now() == s
  }

  ghost function PoolList(cs: seq<Change>): (pools: seq<Pool>)
    reads Named(cs)
    requires forall a | a in Named(cs) :: a.pool != null
    requires forall i | 0 <= i < |cs| :: cs[i].allocation != null
    ensures |pools| == |cs| && forall i | 0 <= i < |cs| :: pools[i] == cs[i].allocation.pool
  {
    if cs == [] then [] else
    assert cs[0].allocation in Named(cs);
    [cs[0].allocation.pool] + PoolList(cs[1..])
  }

  /** Every named allocation is live in its own pool, whose state is known. */
  ghost predicate AllLive(cs: seq<Change>, pools: seq<Pool>, now: seq<State<Allocation>>)
    reads Named(cs), pools, set p, a | p in pools && a in p.claims :: a
  {
    && |cs| == |pools| == |now|
    && forall j | 0 <= j < |cs| :: cs[j].allocation != null && Live(cs[j].allocation, pools[j], now[j])
  }

  ghost predicate AcceptableIn(shape: Shape, s: State<Allocation>, c: Change) {
    && c.allocation != null && c.allocation in s.claims
    && c.mapped <= |s.claims[c.allocation].pages| && c.mapped <= c.entitlement
    && CanReplace(shape, s.entitled, s.claims[c.allocation].entitlement, c.entitlement)
  }

  /** One change leaves every other named pool alone. */
  method ResizeStep(cs: seq<Change>, i: nat, ghost pools: seq<Pool>, ghost now: seq<State<Allocation>>)
    returns (ghost t: State<Allocation>)
    requires AllLive(cs, pools, now) && i < |cs| && Distinct(pools)
    requires AcceptableIn(pools[i].shape, now[i], cs[i])
    modifies cs[i].allocation, pools[i]
    ensures AllLive(cs, pools, now[i := t])
    ensures Resized<Allocation>(now[i], cs[i].allocation, cs[i].mapped, cs[i].entitlement, t)
  {
    ghost var p := pools[i];
    assert Live(cs[i].allocation, p, now[i]);
    ResizeOne(cs[i].allocation, cs[i].mapped, cs[i].entitlement);
    t := p.Now();
    forall j | 0 <= j < |cs|
      ensures Live(cs[j].allocation, pools[j], now[i := t][j])
    {
      assert j != i ==> pools[j] != p;
    }
  }

  /** The first `i` changes have been made, and the other pools are as they were. */
  ghost predicate ResizedUpTo(cs: seq<Change>, i: nat, was: seq<State<Allocation>>, now: seq<State<Allocation>>)
    requires i <= |cs| == |was| == |now| && forall j | 0 <= j < |cs| :: cs[j].allocation != null
  {
    && (forall j | i <= j < |cs| :: now[j] == was[j])
    && forall j | 0 <= j < i :: Resized<Allocation>(was[j], cs[j].allocation, cs[j].mapped, cs[j].entitlement, now[j])
  }

  ghost predicate AllAcceptableIn(cs: seq<Change>, pools: seq<Pool>, was: seq<State<Allocation>>)
    requires |cs| == |pools| == |was|
  {
    forall j | 0 <= j < |cs| :: AcceptableIn(pools[j].shape, was[j], cs[j])
  }

  ghost predicate Distinct(pools: seq<Pool>) { forall j, k | 0 <= j < k < |pools| :: pools[j] != pools[k] }

  /** The next of several acceptable changes. */
  method ResizeNext(cs: seq<Change>, i: nat, ghost pools: seq<Pool>, ghost was: seq<State<Allocation>>,
                    ghost now: seq<State<Allocation>>) returns (ghost next: seq<State<Allocation>>)
    requires i < |cs| == |was| && AllLive(cs, pools, now) && Distinct(pools)
    requires AllAcceptableIn(cs, pools, was) && ResizedUpTo(cs, i, was, now)
    modifies cs[i].allocation, pools[i]
    ensures AllLive(cs, pools, next) && ResizedUpTo(cs, i + 1, was, next)
  {
    assert AcceptableIn(pools[i].shape, was[i], cs[i]);
    ghost var t := ResizeStep(cs, i, pools, now);
    next := now[i := t];
  }

  /** Carries out acceptable changes in pools that are all distinct. */
  method ResizeAll(cs: seq<Change>, ghost pools: seq<Pool>, ghost was: seq<State<Allocation>>)
    returns (ghost now: seq<State<Allocation>>)
    requires AllLive(cs, pools, was) && Distinct(pools) && AllAcceptableIn(cs, pools, was)
    modifies Named(cs), pools
    ensures AllLive(cs, pools, now) && ResizedUpTo(cs, |cs|, was, now)
  {
    now := was;
    for i := 0 to |cs|
      invariant AllLive(cs, pools, now) && ResizedUpTo(cs, i, was, now)
    {
      assert cs[i].allocation in Named(cs);
      now := ResizeNext(cs, i, pools, was, now);
    }
  }

  /** Acceptable changes are live in distinct pools. */
  lemma AcceptableLive(cs: seq<Change>, pools: seq<Pool>, was: seq<State<Allocation>>)
    requires AllAcceptable(cs) && forall a | a in Named(cs) :: a.Ready()
    requires |pools| == |was| == |cs|
    requires forall i | 0 <= i < |cs| :: pools[i] == cs[i].allocation.pool && was[i] == pools[i].Now()
    ensures AllLive(cs, pools, was) && forall i | 0 <= i < |cs| :: AcceptableIn(pools[i].shape, was[i], cs[i])
  {
    forall i | 0 <= i < |cs|
      ensures Live(cs[i].allocation, pools[i], was[i]) && AcceptableIn(pools[i].shape, was[i], cs[i])
    {
      assert cs[i].allocation in Named(cs);
    }
  }

  /** The changes, once they have been validated. */
  method ResizeAccepted(cs: seq<Change>)
    requires AllAcceptable(cs) && forall a | a in Named(cs) :: a.Ready()
    modifies Named(cs), PoolsNamed(cs)
    ensures forall i | 0 <= i < |cs| ::
              && cs[i].allocation.pool == old(cs[i].allocation.pool) != null && cs[i].allocation.Ready()
              && Resized<Allocation>(old(cs[i].allocation.pool.Now()), cs[i].allocation, cs[i].mapped, cs[i].entitlement, cs[i].allocation.pool.Now())
  {
    ghost var pools := PoolList(cs);
    ghost var was := seq(|cs|, i requires 0 <= i < |cs| reads pools => pools[i].Now());
    AcceptableLive(cs, pools, was);
    ghost var now := ResizeAll(cs, pools, was);
    assert forall j | 0 <= j < |cs| :: Live(cs[j].allocation, pools[j], now[j]);
  }

  /** `resize_paged_kv_bundle`. */
  method ResizeBundle(cs: seq<Change>) returns (e: Error)
    requires forall a | a in Named(cs) :: a.Ready()
    modifies Named(cs), PoolsNamed(cs)
    ensures (e == NoError <==> old(AllAcceptable(cs))) && e == old(FirstError(cs, 0))
    ensures forall a | a in Named(cs) :: a.pool == old(a.pool) && a.Ready()
    ensures e != NoError ==> forall a | a in Named(cs) :: unchanged(a) && (a.pool != null ==> a.pool.Now() == old(a.pool.Now()))
    ensures e == NoError ==>
              forall i | 0 <= i < |cs| ::
                && cs[i].allocation != null && cs[i].allocation.pool != null
                && Resized<Allocation>(old(cs[i].allocation.pool.Now()), cs[i].allocation, cs[i].mapped, cs[i].entitlement, cs[i].allocation.pool.Now())
  {
    e := ValidateChanges(cs);
    if e != NoError { return; }
    ResizeAccepted(cs);
  }
}
