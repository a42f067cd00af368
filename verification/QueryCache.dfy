/**
  The read-through cache of the analytics queries, against an adversarial cache: a hit
  returns any bytes ever set under that key; a miss, an expiry or an error may come at
  any time. Keys do not collide, and JSON round trips exactly: a cached value is the
  value that was marshalled. The store and the CRM answer each query always the same.
 */
module QueryCache {
  import opened Basics

  const YEAR := 365 * 24 * 3600 * 1_000_000_000

  /** A 64-bit float and the processor's arithmetic on it: the results hold whatever that rounds to. */
  datatype Float = Float(bits: nat)

  datatype Arith = Arith(
    zero: Float,
    ofInt: nat -> Float,
    add: (Float, Float) -> Float,
    div: (Float, Float) -> Float,
    above: (Float, Float) -> bool)

  /** `tenant` is None for the nil uuid. */
  datatype Query =
    | CallsQuery(tenant: Option<nat>, project: Option<nat>, from: int, to: int)
    | StateQuery(tenant: Option<nat>, operator: Option<nat>, project: Option<nat>, from: int, to: int)
    | RegionQuery(tenant: Option<nat>, projectId: nat, from: int, to: int)
    | HourlyQuery(tenant: Option<nat>, project: Option<nat>, from: int, to: int)
    | ComparisonQuery(tenant: Option<nat>, projectId: nat, from: int, to: int)

  datatype CallsResult = CallsResult(
    total: nat, successful: nat, failed: nat, refusals: nat, byStatus: seq<(string, nat)>)
  datatype StateBreakdown = StateBreakdown(talk: nat, pause: nat, ready: nat, wrap: nat)
  datatype RegionRow = RegionRow(region: string, done: nat, plan: nat, progress: Float)
  datatype HourlyBucket = HourlyBucket(hour: int, count: nat)
  datatype ComparisonRow = ComparisonRow(operator: nat, callsTotal: nat, successRate: Float, aboveTeamAvg: bool)

  datatype QueryError = TenantRequired | InvalidWindow | StoreFailed(code: nat)

  datatype Store = Store(
    calls: Query -> Result<CallsResult, nat>,
    states: Query -> Result<StateBreakdown, nat>,
    regions: Query -> Result<map<string, nat>, nat>,
    hourly: Query -> Result<seq<HourlyBucket>, nat>,
    comparisons: Query -> Result<seq<ComparisonRow>, nat>)

  /** The CRM's answer for a project: an error, no progress record, or a target. */
  datatype Crm = CrmError | NoProgress | Target(count: int)

  datatype Json =
    | CallsJson(calls: CallsResult) | StateJson(state: StateBreakdown) | RegionJson(rows: seq<RegionRow>)
    | HourlyJson(buckets: seq<HourlyBucket>) | ComparisonJson(comparisons: seq<ComparisonRow>)

  datatype Entry = Entry(key: Query, raw: Json)
  datatype Reply = Miss | CacheError | Hit(raw: Json)

  /** What the cache does during one query. */
  datatype Luck = Luck(get: Reply, setOk: bool)

  /** The answer comes from the store and is cached. */
  predicate Stores(luck: Luck) {
    !luck.get.Hit? && luck.setOk
  }

  // ------------------------------------------------------------- the uncached service

  /** The checks before any I/O. */
  function Checked(q: Query): Option<QueryError> {
    if q.tenant.None? then Some(TenantRequired)
    else if !(q.from < q.to) || q.to - q.from > YEAR then Some(InvalidWindow)
    else None
  }

  function Answered<T>(q: Query, r: Result<T, nat>): Result<T, QueryError> {
    if Checked(q).Some? then Failure(Checked(q).value)
    else if r.Failure? then Failure(StoreFailed(r.error))
    else Success(r.value)
  }

  /** No reader, an error, no record or a negative target all give plan 0. */
  function PlanOf(crm: Option<Query -> Crm>, q: Query): nat {
    if crm.None? then 0
    else
      var c := crm.value(q);
      if c.Target? && c.count >= 0 then c.count else 0
  }

  function RegionRowOf(fl: Arith, region: string, done: nat, plan: nat): RegionRow {
    RegionRow(region, done, plan, if plan > 0 then fl.div(fl.ofInt(done), fl.ofInt(plan)) else fl.zero)
  }

  /** The rows are one per region of `done`, in some order. */
  ghost predicate IsRegionAnswer(fl: Arith, rows: seq<RegionRow>, done: map<string, nat>, plan: nat) {
    && |rows| == |done|
    && (forall i :: 0 <= i < |rows| ==>
          rows[i].region in done && rows[i] == RegionRowOf(fl, rows[i].region, done[rows[i].region], plan))
    && (forall region :: region in done ==> exists i :: 0 <= i < |rows| && rows[i].region == region)
  }

  function SumRates(fl: Arith, rows: seq<ComparisonRow>, n: nat): Float
    requires n <= |rows|
  {
    if n == 0 then fl.zero else fl.add(SumRates(fl, rows, n - 1), rows[n - 1].successRate)
  }

  /** Every operator marked against the mean of all. */
  function Compared(fl: Arith, rows: seq<ComparisonRow>): seq<ComparisonRow> {
    if rows == [] then []
    else
      var avg := fl.div(SumRates(fl, rows, |rows|), fl.ofInt(|rows|));
      seq(|rows|, i requires 0 <= i < |rows| => rows[i].(aboveTeamAvg := fl.above(rows[i].successRate, avg)))
  }

  function ComparedResult(fl: Arith, r: Result<seq<ComparisonRow>, nat>): Result<seq<ComparisonRow>, nat> {
    if r.Failure? then r else Success(Compared(fl, r.value))
  }

  datatype Overview = Overview(
    calls: CallsResult, state: StateBreakdown, regions: seq<RegionRow>, hourly: seq<HourlyBucket>)

  // ---------------------------------------------------------------- the cached service

  class QueryService {
    const fl: Arith
    const store: Store
    const crm: Option<Query -> Crm>
    ghost var written: set<Entry>            // everything ever set

    constructor (fl: Arith, store: Store, crm: Option<Query -> Crm>)
      ensures Valid() && this.fl == fl && this.store == store && this.crm == crm && written == {}
    {
      this.fl, this.store, this.crm, written := fl, store, crm, {};
    }

    /** What was set under a key is what the uncached service answers for it. */
    ghost predicate Faithful(e: Entry) {
      match e.raw
      case CallsJson(v) => e.key.CallsQuery? && store.calls(e.key) == Success(v)
      case StateJson(v) => e.key.StateQuery? && store.states(e.key) == Success(v)
      case RegionJson(v) =>
        e.key.RegionQuery? && store.regions(e.key).Success?
          && IsRegionAnswer(fl, v, store.regions(e.key).value, PlanOf(crm, e.key))
      case HourlyJson(v) => e.key.HourlyQuery? && store.hourly(e.key) == Success(v)
      case ComparisonJson(v) => e.key.ComparisonQuery? && ComparedResult(fl, store.comparisons(e.key)) == Success(v)
    }

    ghost predicate Valid()
      reads this
    {
      forall e :: e in written ==> Faithful(e)
    }

    /** The cache may return only what was set under the key. */
    ghost predicate Possible(q: Query, luck: Luck)
      reads this
    {
      luck.get.Hit? ==> Entry(q, luck.get.raw) in written
    }

    method CacheSet(q: Query, raw: Json, luck: Luck)
      requires Valid() && Faithful(Entry(q, raw))
      modifies this
      ensures Valid() && written == old(written) + (if luck.setOk then {Entry(q, raw)} else {})
    {
      if luck.setOk {
        written := written + {Entry(q, raw)};
      }
    }

    method Calls(q: Query, luck: Luck) returns (r: Result<CallsResult, QueryError>)
      requires Valid() && q.CallsQuery? && Possible(q, luck)
      modifies this
      ensures Valid()
      ensures written == old(written) + (if r.Success? && Stores(luck) then {Entry(q, CallsJson(r.value))} else {})
      ensures r == Answered(q, store.calls(q))
    {
      if Checked(q).Some? {
        return Failure(Checked(q).value);
      }
      if luck.get.Hit? && luck.get.raw.CallsJson? {
        assert Faithful(Entry(q, luck.get.raw));
        return Success(luck.get.raw.calls);
      }
      var res := store.calls(q);
      if res.Failure? {
        return Failure(StoreFailed(res.error));
      }
      CacheSet(q, CallsJson(res.value), luck);
      r := Success(res.value);
    }

    method OperatorState(q: Query, luck: Luck) returns (r: Result<StateBreakdown, QueryError>)
      requires Valid() && q.StateQuery? && Possible(q, luck)
      modifies this
      ensures Valid()
      ensures written == old(written) + (if r.Success? && Stores(luck) then {Entry(q, StateJson(r.value))} else {})
      ensures r == Answered(q, store.states(q))
    {
      if Checked(q).Some? {
        return Failure(Checked(q).value);
      }
      if luck.get.Hit? && luck.get.raw.StateJson? {
        assert Faithful(Entry(q, luck.get.raw));
        return Success(luck.get.raw.state);
      }
      var res := store.states(q);
      if res.Failure? {
        return Failure(StoreFailed(res.error));
      }
      CacheSet(q, StateJson(res.value), luck);
      r := Success(res.value);
    }

    /** Go ranges over the map of done counts in any order. */
    method RegionRows(done: map<string, nat>, plan: nat) returns (rows: seq<RegionRow>)
      ensures IsRegionAnswer(fl, rows, done, plan)
    {
      rows := [];
      var left := done.Keys;
      while left != {}
        invariant left <= done.Keys && |rows| + |left| == |done|
        invariant forall i :: 0 <= i < |rows| ==>
                    rows[i].region in done && rows[i] == RegionRowOf(fl, rows[i].region, done[rows[i].region], plan)
        invariant forall region :: region in done ==>
                    region in left || exists i :: 0 <= i < |rows| && rows[i].region == region
        decreases |left|
      {
        var region := Choose(left);
        ghost var before := rows;
        rows := rows + [RegionRowOf(fl, region, done[region], plan)];
        assert rows[|before|].region == region;
        assert forall i :: 0 <= i < |before| ==> rows[i] == before[i];
        left := left - {region};
      }
    }

    method RegionProgress(q: Query, luck: Luck) returns (r: Result<seq<RegionRow>, QueryError>)
      requires Valid() && q.RegionQuery? && Possible(q, luck)
      modifies this
      ensures Valid()
      ensures written == old(written) + (if r.Success? && Stores(luck) then {Entry(q, RegionJson(r.value))} else {})
      ensures r.Success? <==> Checked(q).None? && store.regions(q).Success?
      ensures r.Failure? ==> Answered(q, store.regions(q)) == Failure(r.error)
      ensures r.Success? ==> IsRegionAnswer(fl, r.value, store.regions(q).value, PlanOf(crm, q))
    {
      if Checked(q).Some? {
        return Failure(Checked(q).value);
      }
      if luck.get.Hit? && luck.get.raw.RegionJson? {
        assert Faithful(Entry(q, luck.get.raw));
        return Success(luck.get.raw.rows);
      }
      var done := store.regions(q);
      if done.Failure? {
        return Failure(StoreFailed(done.error));
      }
      var rows := RegionRows(done.value, PlanOf(crm, q));
      CacheSet(q, RegionJson(rows), luck);
      r := Success(rows);
    }

    method Hourly(q: Query, luck: Luck) returns (r: Result<seq<HourlyBucket>, QueryError>)
      requires Valid() && q.HourlyQuery? && Possible(q, luck)
      modifies this
      ensures Valid()
      ensures written == old(written) + (if r.Success? && Stores(luck) then {Entry(q, HourlyJson(r.value))} else {})
      ensures r == Answered(q, store.hourly(q))
    {
      if Checked(q).Some? {
        return Failure(Checked(q).value);
      }
      if luck.get.Hit? && luck.get.raw.HourlyJson? {
        assert Faithful(Entry(q, luck.get.raw));
        return Success(luck.get.raw.buckets);
      }
      var res := store.hourly(q);
      if res.Failure? {
        return Failure(StoreFailed(res.error));
      }
      CacheSet(q, HourlyJson(res.value), luck);
      r := Success(res.value);
    }

    method Compare(rows: seq<ComparisonRow>) returns (out: seq<ComparisonRow>)
      ensures out == Compared(fl, rows)
    {
      out := rows;
      if rows != [] {
        var sum := fl.zero;
        for i := 0 to |rows|
          invariant sum == SumRates(fl, rows, i)
        {
          sum := fl.add(sum, rows[i].successRate);
        }
        var avg := fl.div(sum, fl.ofInt(|rows|));
        for i := 0 to |rows|
          invariant |out| == |rows|
          invariant forall k :: 0 <= k < |rows| ==>
                      out[k] == if k < i then rows[k].(aboveTeamAvg := fl.above(rows[k].successRate, avg)) else rows[k]
        {
          out := out[i := out[i].(aboveTeamAvg := fl.above(out[i].successRate, avg))];
        }
      }
    }

    method OperatorComparisons(q: Query, luck: Luck) returns (r: Result<seq<ComparisonRow>, QueryError>)
      requires Valid() && q.ComparisonQuery? && Possible(q, luck)
      modifies this
      ensures Valid()
      ensures written == old(written) + (if r.Success? && Stores(luck) then {Entry(q, ComparisonJson(r.value))} else {})
      ensures r == Answered(q, ComparedResult(fl, store.comparisons(q)))
    {
      if Checked(q).Some? {
        return Failure(Checked(q).value);
      }
      if luck.get.Hit? && luck.get.raw.ComparisonJson? {
        assert Faithful(Entry(q, luck.get.raw));
        return Success(luck.get.raw.comparisons);
      }
      var res := store.comparisons(q);
      if res.Failure? {
        return Failure(StoreFailed(res.error));
      }
      var rows := Compare(res.value);
      CacheSet(q, ComparisonJson(rows), luck);
      r := Success(rows);
    }

    /** Four queries in a row, each with its own cache entry; the first error is the answer. */
    method GetOverview(tenant: Option<nat>, project: Option<nat>, from: int, to: int, luck: seq<Luck>)
      returns (r: Result<Overview, QueryError>)
      requires Valid() && |luck| == 4
      requires Possible(CallsQuery(tenant, project, from, to), luck[0])
      requires Possible(StateQuery(tenant, None, project, from, to), luck[1])
      requires project.Some? ==> Possible(RegionQuery(tenant, project.value, from, to), luck[2])
      requires Possible(HourlyQuery(tenant, project, from, to), luck[3])
      modifies this
      ensures Valid()
      ensures r.Success? ==>
                && store.calls(CallsQuery(tenant, project, from, to)) == Success(r.value.calls)
                && store.states(StateQuery(tenant, None, project, from, to)) == Success(r.value.state)
                && store.hourly(HourlyQuery(tenant, project, from, to)) == Success(r.value.hourly)
                && (project.None? ==> r.value.regions == [])
                && (project.Some? ==>
                      var q := RegionQuery(tenant, project.value, from, to);
                      store.regions(q).Success?
                        && IsRegionAnswer(fl, r.value.regions, store.regions(q).value, PlanOf(crm, q)))
      ensures r.Success? <==>
                && Checked(CallsQuery(tenant, project, from, to)).None?
                && store.calls(CallsQuery(tenant, project, from, to)).Success?
                && store.states(StateQuery(tenant, None, project, from, to)).Success?
                && store.hourly(HourlyQuery(tenant, project, from, to)).Success?
                && (project.Some? ==> store.regions(RegionQuery(tenant, project.value, from, to)).Success?)
    {
      var q := CallsQuery(tenant, project, from, to);
      if Checked(q).Some? {
        return Failure(Checked(q).value);
      }
      var calls := Calls(q, luck[0]);
      if calls.Failure? {
        return Failure(calls.error);
      }
      var state := OperatorState(StateQuery(tenant, None, project, from, to), luck[1]);
      if state.Failure? {
        return Failure(state.error);
      }
      var regions := [];
      if project.Some? {
        var progress := RegionProgress(RegionQuery(tenant, project.value, from, to), luck[2]);
        if progress.Failure? {
          return Failure(progress.error);
        }
        regions := progress.value;
      }
      var hourly := Hourly(HourlyQuery(tenant, project, from, to), luck[3]);
      if hourly.Failure? {
        return Failure(hourly.error);
      }
      r := Success(Overview(calls.value, state.value, regions, hourly.value));
    }
  }

  /** Two answers to the same region query are the same rows, whatever their order. */
  lemma RegionAnswersAgree(fl: Arith, a: seq<RegionRow>, b: seq<RegionRow>, done: map<string, nat>, plan: nat)
    requires IsRegionAnswer(fl, a, done, plan) && IsRegionAnswer(fl, b, done, plan)
    ensures Elements(a) == Elements(b) && |a| == |b| == |Elements(a)|
  {
    RegionElements(fl, a, done, plan);
    RegionElements(fl, b, done, plan);
    RegionCount(fl, done, done.Keys, plan);
  }

  lemma RegionElements(fl: Arith, rows: seq<RegionRow>, done: map<string, nat>, plan: nat)
    requires IsRegionAnswer(fl, rows, done, plan)
    ensures Elements(rows) == set region | region in done :: RegionRowOf(fl, region, done[region], plan)
  {
    forall region | region in done ensures RegionRowOf(fl, region, done[region], plan) in rows {
      var i :| 0 <= i < |rows| && rows[i].region == region;
      assert rows[i] in rows;
    }
  }

  lemma {:induction false} RegionCount(fl: Arith, done: map<string, nat>, keys: set<string>, plan: nat)
    requires keys <= done.Keys
    ensures |set region | region in keys :: RegionRowOf(fl, region, done[region], plan)| == |keys|
    decreases |keys|
  {
    var rows := set region | region in keys :: RegionRowOf(fl, region, done[region], plan);
    if keys != {} {
      var region := Pick(keys);
      RegionCount(fl, done, keys - {region}, plan);
      var fewer := set r | r in keys - {region} :: RegionRowOf(fl, r, done[r], plan);
      var row := RegionRowOf(fl, region, done[region], plan);
      assert row !in fewer;
      assert rows == fewer + {row};
    }
  }
}
