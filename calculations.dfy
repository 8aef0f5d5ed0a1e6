/** The business calculations of the backend: revenue over the contracts that are
    running, contract counts per status, how complete the client records are, and
    the two date helpers. Amounts are what `parseFloat` makes of the stored amount,
    `None` when it makes `NaN` of it (null, undefined or text that is not a number). */
module Calculations {
  import opened Common

  const Active := "actif"
  const Pending := "en_cours"
  const Expired := "expir\U{E9}"
  const Cancelled := "annul\U{E9}"

  datatype Contract = Contract(amount: Option<int>, status: string)

  /** The contracts the revenue counts: status `actif` or `en_cours`. */
  predicate Running(c: Contract) {
    c.status == Active || c.status == Pending
  }

  /** `parseFloat(contract.amount) || 0`. */
  function Contribution(c: Contract): int {
    c.amount.GetOr(0)
  }

  // ----- calculateRevenue -----

  /** `contracts.filter(running).reduce((total, c) => total + amount, 0)`, written as
      the left fold it is: the last contract is added to the total of the others. */
  function Revenue(cs: seq<Contract>): int {
    if cs == [] then 0
    else Revenue(cs[..|cs| - 1]) + (if Running(cs[|cs| - 1]) then Contribution(cs[|cs| - 1]) else 0)
  }

  /** The filter step on its own: the amounts of the running contracts, in order. */
  function RunningAmounts(cs: seq<Contract>): (r: seq<int>)
    ensures |r| <= |cs|
  {
    if cs == [] then []
    else (if Running(cs[0]) then [Contribution(cs[0])] else []) + RunningAmounts(cs[1..])
  }

  function Sum(xs: seq<int>): int {
    if xs == [] then 0 else xs[0] + Sum(xs[1..])
  }

  lemma {:induction false} SumConcat(a: seq<int>, b: seq<int>)
    ensures Sum(a + b) == Sum(a) + Sum(b)
    decreases |a|
  {
    if a == [] {
      assert a + b == b;
    } else {
      assert (a + b)[1..] == a[1..] + b;
      SumConcat(a[1..], b);
    }
  }

  lemma {:induction false} RunningAmountsConcat(a: seq<Contract>, b: seq<Contract>)
    ensures RunningAmounts(a + b) == RunningAmounts(a) + RunningAmounts(b)
    decreases |a|
  {
    if a == [] {
      assert a + b == b;
    } else {
      var head := if Running(a[0]) then [Contribution(a[0])] else [];
      assert (a + b)[0] == a[0];
      assert (a + b)[1..] == a[1..] + b;
      RunningAmountsConcat(a[1..], b);
      assert RunningAmounts(a + b) == head + (RunningAmounts(a[1..]) + RunningAmounts(b));
      assert RunningAmounts(a) == head + RunningAmounts(a[1..]);
    }
  }

  /** The fold adds up exactly the amounts the filter keeps. */
  lemma {:induction false} RevenueIsSumOfRunning(cs: seq<Contract>)
    ensures Revenue(cs) == Sum(RunningAmounts(cs))
    decreases |cs|
  {
    if cs != [] {
      var init, last := cs[..|cs| - 1], cs[|cs| - 1];
      assert cs == init + [last];
      RevenueIsSumOfRunning(init);
      RunningAmountsConcat(init, [last]);
      assert RunningAmounts([last]) == (if Running(last) then [Contribution(last)] else []);
      SumConcat(RunningAmounts(init), RunningAmounts([last]));
    }
  }

  /** Revenue is additive over concatenation. */
  lemma RevenueConcat(a: seq<Contract>, b: seq<Contract>)
    ensures Revenue(a + b) == Revenue(a) + Revenue(b)
  {
    RevenueIsSumOfRunning(a + b);
    RevenueIsSumOfRunning(a);
    RevenueIsSumOfRunning(b);
    RunningAmountsConcat(a, b);
    SumConcat(RunningAmounts(a), RunningAmounts(b));
  }

  /** A contract that is not running, or whose amount does not parse, adds nothing
      wherever it stands. */
  lemma RevenueIgnores(a: seq<Contract>, c: Contract, b: seq<Contract>)
    requires !Running(c) || c.amount.None?
    ensures Revenue(a + [c] + b) == Revenue(a + b)
  {
    RevenueConcat(a + [c], b);
    RevenueConcat(a, [c]);
    RevenueConcat(a, b);
    assert [c][..0] == [];
  }

  /** Without a running contract (the empty list included) the revenue is 0. */
  lemma {:induction false} NoRunningNoRevenue(cs: seq<Contract>)
    requires forall i :: 0 <= i < |cs| ==> !Running(cs[i])
    ensures Revenue(cs) == 0
    decreases |cs|
  {
    if cs != [] {
      NoRunningNoRevenue(cs[..|cs| - 1]);
    }
  }

  /** With amounts that are not negative, revenue is not negative and stays within
      the total of all amounts. */
  lemma {:induction false} RevenueBounds(cs: seq<Contract>)
    requires forall i :: 0 <= i < |cs| ==> Contribution(cs[i]) >= 0
    ensures 0 <= Revenue(cs) <= TotalAmount(cs)
    decreases |cs|
  {
    if cs != [] {
      RevenueBounds(cs[..|cs| - 1]);
    }
  }

  /** Every amount, running or not. */
  function TotalAmount(cs: seq<Contract>): int {
    if cs == [] then 0 else TotalAmount(cs[..|cs| - 1]) + Contribution(cs[|cs| - 1])
  }

  /** Revenue of three contracts, the fold written out. */
  lemma RevenueOfThree(x: Contract, y: Contract, z: Contract)
    ensures Revenue([x, y, z]) == Revenue([x]) + Revenue([y]) + Revenue([z])
  {
    assert [x, y, z] == [x] + [y] + [z];
    RevenueConcat([x] + [y], [z]);
    RevenueConcat([x], [y]);
  }

  lemma RevenueOfOne(x: Contract)
    ensures Revenue([x]) == if Running(x) then Contribution(x) else 0
  {
    assert [x][..0] == [];
  }

  /** The four revenue cases of the test suite. */
  lemma RevenueSamples()
    ensures Revenue([Contract(Some(1000), Active), Contract(Some(2000), Pending), Contract(Some(500), Active)]) == 3500
    ensures Revenue([Contract(Some(1000), Active), Contract(Some(2000), Cancelled), Contract(Some(500), Expired)]) == 1000
    ensures Revenue([Contract(Some(1000), Cancelled), Contract(Some(2000), Expired)]) == 0
    ensures Revenue([Contract(Some(1000), Active), Contract(None, Active), Contract(None, Active)]) == 1000
  {
    var a1, p2, a5 := Contract(Some(1000), Active), Contract(Some(2000), Pending), Contract(Some(500), Active);
    var c2, e5 := Contract(Some(2000), Cancelled), Contract(Some(500), Expired);
    var c1, e2, n := Contract(Some(1000), Cancelled), Contract(Some(2000), Expired), Contract(None, Active);
    RevenueOfOne(a1);
    RevenueOfOne(p2);
    RevenueOfOne(a5);
    RevenueOfOne(c2);
    RevenueOfOne(e5);
    RevenueOfOne(n);
    RevenueOfThree(a1, p2, a5);
    RevenueOfThree(a1, c2, e5);
    RevenueOfThree(a1, n, n);
    NoRunningNoRevenue([c1, e2]);
  }

  // ----- getContractStats -----

  datatype ContractStats = ContractStats(total: nat, active: nat, pending: nat, expired: nat, cancelled: nat)

  /** `contracts.filter(c => c.status === status).length`. */
  function CountStatus(cs: seq<Contract>, status: string): (n: nat)
    ensures n <= |cs|
  {
    if cs == [] then 0 else (if cs[0].status == status then 1 else 0) + CountStatus(cs[1..], status)
  }

  /** `getContractStats`: the number of contracts and the number in each status. No
      contract is counted under two statuses. */
  function GetContractStats(cs: seq<Contract>): (r: ContractStats)
    ensures r.total == |cs|
    ensures r.active + r.pending + r.expired + r.cancelled <= r.total
  {
    StatusCountsBounded(cs);
    ContractStats(|cs|, CountStatus(cs, Active), CountStatus(cs, Pending),
                  CountStatus(cs, Expired), CountStatus(cs, Cancelled))
  }

  /** The four statuses are distinct, so no contract is counted twice. */
  lemma {:induction false} StatusCountsBounded(cs: seq<Contract>)
    ensures CountStatus(cs, Active) + CountStatus(cs, Pending) + CountStatus(cs, Expired)
      + CountStatus(cs, Cancelled) <= |cs|
    decreases |cs|
  {
    if cs != [] {
      StatusCountsBounded(cs[1..]);
    }
  }

  lemma ContractStatsEmpty()
    ensures GetContractStats([]) == ContractStats(0, 0, 0, 0, 0)
  {
  }

  /** 1 for a contract in the given status, 0 otherwise. */
  function InStatus(c: Contract, status: string): nat {
    if c.status == status then 1 else 0
  }

  /** The count over five contracts, unfolded. */
  lemma CountStatusOfFive(v: Contract, w: Contract, x: Contract, y: Contract, z: Contract, status: string)
    ensures CountStatus([v, w, x, y, z], status)
      == InStatus(v, status) + InStatus(w, status) + InStatus(x, status) + InStatus(y, status) + InStatus(z, status)
  {
    var s := [v, w, x, y, z];
    assert s[1..] == [w, x, y, z] && s[1..][1..] == [x, y, z];
    assert [x, y, z][1..] == [y, z] && [y, z][1..] == [z] && [z][1..] == [];
    assert CountStatus([z], status) == InStatus(z, status);
    assert CountStatus([y, z], status) == InStatus(y, status) + InStatus(z, status);
    assert CountStatus([x, y, z], status) == InStatus(x, status) + CountStatus([y, z], status);
    assert CountStatus([w, x, y, z], status) == InStatus(w, status) + CountStatus([x, y, z], status);
  }

  /** The statistics case of the test suite. */
  lemma ContractStatsSample()
    ensures GetContractStats([Contract(None, Active), Contract(None, Active), Contract(None, Pending),
                              Contract(None, Expired), Contract(None, Cancelled)]) == ContractStats(5, 2, 1, 1, 1)
  {
    var a, p, e, c := Contract(None, Active), Contract(None, Pending), Contract(None, Expired), Contract(None, Cancelled);
    assert Expired[0] != Cancelled[0];
    CountStatusOfFive(a, a, p, e, c, Active);
    CountStatusOfFive(a, a, p, e, c, Pending);
    CountStatusOfFive(a, a, p, e, c, Expired);
    CountStatusOfFive(a, a, p, e, c, Cancelled);
  }

  // ----- getClientMetrics -----

  datatype ClientMetrics = ClientMetrics(total: nat, withEmail: nat, withPhone: nat, complete: nat)

  /** A client as the metrics see it: only whether email and phone are set. */
  datatype Client = Client(name: string, email: Option<string>, phone: Option<string>)

  /** JavaScript truthiness of a nullable string. */
  predicate Truthy(s: Option<string>) {
    s.Some? && s.value != ""
  }

  function CountWithEmail(cs: seq<Client>): (n: nat)
    ensures n <= |cs|
  {
    if cs == [] then 0 else (if Truthy(cs[0].email) then 1 else 0) + CountWithEmail(cs[1..])
  }

  function CountWithPhone(cs: seq<Client>): (n: nat)
    ensures n <= |cs|
  {
    if cs == [] then 0 else (if Truthy(cs[0].phone) then 1 else 0) + CountWithPhone(cs[1..])
  }

  function CountComplete(cs: seq<Client>): (n: nat)
    ensures n <= |cs|
  {
    if cs == [] then 0
    else (if Truthy(cs[0].email) && Truthy(cs[0].phone) then 1 else 0) + CountComplete(cs[1..])
  }

  /** `getClientMetrics`: how many clients there are, how many have an email, a phone,
      and both. */
  function GetClientMetrics(cs: seq<Client>): (r: ClientMetrics)
    ensures r.total == |cs|
    ensures r.complete <= r.withEmail && r.complete <= r.withPhone
    ensures r.withEmail + r.withPhone - r.complete <= r.total
  {
    ClientMetricsBounds(cs);
    ClientMetrics(|cs|, CountWithEmail(cs), CountWithPhone(cs), CountComplete(cs))
  }

  /** A complete client has both, so `complete` is bounded by each count, and the
      clients with either one are at most all of them. */
  lemma {:induction false} ClientMetricsBounds(cs: seq<Client>)
    ensures CountComplete(cs) <= CountWithEmail(cs) && CountComplete(cs) <= CountWithPhone(cs)
    ensures CountWithEmail(cs) + CountWithPhone(cs) - CountComplete(cs) <= |cs|
    decreases |cs|
  {
    if cs != [] {
      ClientMetricsBounds(cs[1..]);
    }
  }

  lemma ClientMetricsSample()
    ensures GetClientMetrics([Client("Client 1", Some("c1@test.com"), Some("0612345678")),
                              Client("Client 2", Some("c2@test.com"), None),
                              Client("Client 3", None, Some("0712345678")),
                              Client("Client 4", None, None)]) == ClientMetrics(4, 2, 2, 1)
  {
  }

  // ----- isContractExpired, getDaysUntilExpiration -----

  /** Milliseconds in a day. */
  const DayMs := 1000 * 60 * 60 * 24

  /** `!endDate ? false : new Date(endDate) < new Date()`, with the end date as an
      instant (`None` for a missing or empty date) and the clock as `now`. */
  function IsContractExpired(endDate: Option<int>, now: int): (r: bool)
    ensures r ==> DaysUntilExpiration(endDate, now).Some? && DaysUntilExpiration(endDate, now).value <= 0
    ensures !r && endDate.Some? ==> DaysUntilExpiration(endDate, now).value >= 0
  {
    endDate.Some? && endDate.value < now
  }

  /** `Math.ceil((end - today) / DayMs)`, or null without an end date. */
  function DaysUntilExpiration(endDate: Option<int>, now: int): (r: Option<int>)
    ensures r.None? <==> endDate.None?
    ensures r.Some? ==> (r.value - 1) * DayMs < endDate.value - now <= r.value * DayMs
  {
    if endDate.None? then None
    else
      var diff := endDate.value - now;
      Some(-((-diff) / DayMs))
  }

  /** Without an end date a contract never counts as expired and has no day count,
      whatever the clock says. */
  lemma NullEndDate(now: int)
    ensures !IsContractExpired(None, now) && DaysUntilExpiration(None, now) == None
  {
  }

  /** The date cases of the test suite: a past and a future end date, and an end
      date one day ahead, which is one day away. */
  lemma DateSamples(now: int, past: int, future: int)
    requires past < now < future
    ensures IsContractExpired(Some(past), now) && !IsContractExpired(Some(future), now)
    ensures DaysUntilExpiration(Some(now + DayMs), now) == Some(1)
  {
  }
}
