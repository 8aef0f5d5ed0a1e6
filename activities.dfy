/** The dashboard's recent-activity feed (`GET /api/activities/recent`): the five
    clients with the highest ids and the five contracts with the latest start date,
    clients stamped with the time of the request, merged, sorted newest first and
    cut to ten records. Timestamps are integer instants (milliseconds since the
    epoch); the clock is the parameter `now`. */
module Activities {
  import opened Common
  import opened Ordering

  /** The `type` column: `'client'` or `'contract'`. */
  datatype ActivityType = ClientEvent | ContractEvent

  /** One feed record `{type, description, timestamp, id}`. A SQL NULL is `None`:
      `'Nouveau client : ' || name` is NULL when `name` is, and a contract without
      a start date keeps a NULL timestamp. */
  datatype Activity = Activity(kind: ActivityType, description: Option<string>, timestamp: Option<int>, id: int)

  /** The columns of `clients` and `contracts` that the two queries read. */
  datatype ClientRow = ClientRow(id: int, name: Option<string>)
  datatype ContractRow = ContractRow(id: int, title: Option<string>, startDate: Option<int>)

  const ClientLimit: nat := 5
  const ContractLimit: nat := 5
  const FeedLimit: nat := 10
  const ClientPrefix := "Nouveau client : "
  const ContractPrefix := "Contrat : "
  const UntitledContract := "Sans titre"

  /** The answer when either query fails: status 500 and a fixed message. */
  const FetchError := ServerError(500, "Erreur serveur")

  datatype Response = Ok(body: seq<Activity>) | ServerError(status: int, error: string)

  // ----- the two queries -----

  /** `ORDER BY id DESC`. */
  predicate IdDesc(a: ClientRow, b: ClientRow) {
    a.id >= b.id
  }

  /** `ORDER BY start_date DESC`; PostgreSQL lists NULLs first in descending order. */
  predicate StartDateDesc(a: ContractRow, b: ContractRow) {
    a.startDate.None? || (b.startDate.Some? && a.startDate.value >= b.startDate.value)
  }

  lemma IdDescIsTotalPreorder()
    ensures TotalPreorder(IdDesc)
  {
  }

  lemma StartDateDescIsTotalPreorder()
    ensures TotalPreorder(StartDateDesc)
  {
  }

  /** `SELECT ... FROM clients ORDER BY id DESC LIMIT 5`. */
  function RecentClients(table: seq<ClientRow>): seq<ClientRow> {
    Top(table, IdDesc, ClientLimit)
  }

  /** `SELECT ... FROM contracts ORDER BY start_date DESC LIMIT 5`. */
  function RecentContracts(table: seq<ContractRow>): seq<ContractRow> {
    Top(table, StartDateDesc, ContractLimit)
  }

  /** `LIMIT 5` over `ORDER BY id DESC`, as `TopIsTop` states it for any order. */
  lemma RecentClientsTop(table: seq<ClientRow>)
    ensures |RecentClients(table)| == if |table| <= ClientLimit then |table| else ClientLimit
    ensures Sorted(RecentClients(table), IdDesc)
    ensures multiset(RecentClients(table)) <= multiset(table)
    ensures forall x, y :: x in RecentClients(table) && y in table && y !in RecentClients(table) ==> IdDesc(x, y)
  {
    IdDescIsTotalPreorder();
    TopIsTop(table, IdDesc, ClientLimit);
  }

  /** `LIMIT 5` over `ORDER BY start_date DESC`. */
  lemma RecentContractsTop(table: seq<ContractRow>)
    ensures |RecentContracts(table)| == if |table| <= ContractLimit then |table| else ContractLimit
    ensures Sorted(RecentContracts(table), StartDateDesc)
    ensures multiset(RecentContracts(table)) <= multiset(table)
    ensures forall x, y :: x in RecentContracts(table) && y in table && y !in RecentContracts(table) ==> StartDateDesc(x, y)
  {
    StartDateDescIsTotalPreorder();
    TopIsTop(table, StartDateDesc, ContractLimit);
  }

  /** The select list of the clients query: the timestamp is NULL. */
  function ClientRecord(c: ClientRow): Activity {
    Activity(ClientEvent, if c.name.Some? then Some(ClientPrefix + c.name.value) else None, None, c.id)
  }

  /** The select list of the contracts query, with `COALESCE(title, 'Sans titre')`. */
  function ContractRecord(k: ContractRow): Activity {
    Activity(ContractEvent, Some(ContractPrefix + k.title.GetOr(UntitledContract)), k.startDate, k.id)
  }

  function ClientsQuery(table: seq<ClientRow>): (rows: seq<Activity>)
    ensures |rows| == |RecentClients(table)|
  {
    var selected := RecentClients(table);
    seq(|selected|, i requires 0 <= i < |selected| => ClientRecord(selected[i]))
  }

  function ContractsQuery(table: seq<ContractRow>): (rows: seq<Activity>)
    ensures |rows| == |RecentContracts(table)|
  {
    var selected := RecentContracts(table);
    seq(|selected|, i requires 0 <= i < |selected| => ContractRecord(selected[i]))
  }

  // ----- merge and sort -----

  /** `{ ...c, timestamp: now }`. */
  function Stamp(a: Activity, now: int): Activity {
    a.(timestamp := Some(now))
  }

  /** `new Date(timestamp)` as compared by the sort: `new Date(null)` is the epoch. */
  function Instant(a: Activity): int {
    a.timestamp.GetOr(0)
  }

  /** The client rows, each stamped with `now`, followed by the contract rows. */
  function Merge(clients: seq<Activity>, contracts: seq<Activity>, now: int): seq<Activity> {
    seq(|clients|, i requires 0 <= i < |clients| => Stamp(clients[i], now)) + contracts
  }

  function Combined(clientTable: seq<ClientRow>, contractTable: seq<ContractRow>, now: int): seq<Activity> {
    Merge(ClientsQuery(clientTable), ContractsQuery(contractTable), now)
  }

  /** Non-increasing by instant: what the comparator `new Date(b) - new Date(a)` sorts to. */
  predicate NewestFirst(s: seq<Activity>) {
    forall i, j :: 0 <= i < j < |s| ==> Instant(s[i]) >= Instant(s[j])
  }

  /** A feed the handler may answer with: the merged rows, newest first. The order
      among records with the same instant is left open. */
  ghost predicate IsFeed(clientTable: seq<ClientRow>, contractTable: seq<ContractRow>, now: int, feed: seq<Activity>) {
    NewestFirst(feed) && multiset(feed) == multiset(Combined(clientTable, contractTable, now))
  }

  /** During an insertion step: the first `hi + 1` records are newest first once
      the record at `j`, the one being moved, is set aside. */
  predicate SortedExcept(s: seq<Activity>, hi: nat, j: nat)
    requires hi < |s|
  {
    forall p, q :: 0 <= p < q <= hi && p != j && q != j ==> Instant(s[p]) >= Instant(s[q])
  }

  /** The record being moved is newer than every record it has passed. */
  predicate NewerThanRest(s: seq<Activity>, hi: nat, j: nat)
    requires j <= hi < |s|
  {
    forall q :: j < q <= hi ==> Instant(s[j]) > Instant(s[q])
  }

  lemma StartInsertion(s: seq<Activity>, i: nat)
    requires i < |s| && NewestFirst(s[..i])
    ensures SortedExcept(s, i, i) && NewerThanRest(s, i, i)
  {
    forall p, q | 0 <= p < q <= i && p != i && q != i ensures Instant(s[p]) >= Instant(s[q]) {
      assert s[p] == s[..i][p] && s[q] == s[..i][q];
    }
  }

  lemma SwapStep(s: seq<Activity>, hi: nat, j: nat)
    requires 0 < j <= hi < |s|
    requires SortedExcept(s, hi, j) && NewerThanRest(s, hi, j)
    requires Instant(s[j - 1]) < Instant(s[j])
    ensures SortedExcept(s[j - 1 := s[j]][j := s[j - 1]], hi, j - 1)
    ensures NewerThanRest(s[j - 1 := s[j]][j := s[j - 1]], hi, j - 1)
  {
  }

  lemma FinishInsertion(s: seq<Activity>, hi: nat, j: nat)
    requires j <= hi < |s|
    requires SortedExcept(s, hi, j) && NewerThanRest(s, hi, j)
    requires j == 0 || Instant(s[j - 1]) >= Instant(s[j])
    ensures NewestFirst(s[..hi + 1])
  {
    forall p, q | 0 <= p < q <= hi ensures Instant(s[p]) >= Instant(s[q]) {
      if q == j && p < j - 1 {
        assert Instant(s[p]) >= Instant(s[j - 1]);
      }
    }
  }

  /** `activities.sort((a, b) => new Date(b.timestamp) - new Date(a.timestamp))`, in place. */
  method SortNewestFirst(a: array<Activity>)
    modifies a
    ensures NewestFirst(a[..])
    ensures multiset(a[..]) == old(multiset(a[..]))
  {
    var i := 0;
    while i < a.Length
      invariant 0 <= i <= a.Length
      invariant NewestFirst(a[..i])
      invariant multiset(a[..]) == old(multiset(a[..]))
    {
      InsertNewest(a, i);
      i := i + 1;
    }
    assert a[..] == a[..a.Length];
  }

  /** One insertion step: the record at `i` moves left past every older record. */
  method InsertNewest(a: array<Activity>, i: nat)
    requires i < a.Length && NewestFirst(a[..i])
    modifies a
    ensures NewestFirst(a[..i + 1])
    ensures multiset(a[..]) == old(multiset(a[..]))
  {
    StartInsertion(a[..], i);
    var j := i;
    while j > 0 && Instant(a[j - 1]) < Instant(a[j])
      invariant 0 <= j <= i
      invariant SortedExcept(a[..], i, j) && NewerThanRest(a[..], i, j)
      invariant multiset(a[..]) == old(multiset(a[..]))
    {
      ghost var before := a[..];
      SwapStep(before, i, j);
      a[j - 1], a[j] := a[j], a[j - 1];
      assert a[..] == before[j - 1 := before[j]][j := before[j - 1]];
      j := j - 1;
    }
    FinishInsertion(a[..], i, j);
  }

  /** The handler. `clients` and `contracts` are the outcomes of the two queries:
      the table the query ran against, or the message it failed with. */
  method Recent(clients: Result<seq<ClientRow>, string>, contracts: Result<seq<ContractRow>, string>, now: int)
    returns (res: Response)
    ensures clients.Failure? || contracts.Failure? ==> res == FetchError
    ensures clients.Success? && contracts.Success? ==>
      res.Ok? && |res.body| <= FeedLimit && IsFeed(clients.value, contracts.value, now, res.body)
  {
    if clients.Failure? || contracts.Failure? {
      return FetchError;
    }
    var activities := Combined(clients.value, contracts.value, now);
    var a := new Activity[|activities|](i requires 0 <= i < |activities| => activities[i]);
    assert a[..] == activities;
    SortNewestFirst(a);
    CombinedLength(clients.value, contracts.value, now);
    var n := if a.Length < FeedLimit then a.Length else FeedLimit;
    assert a[..n] == a[..];
    res := Ok(a[..n]);
  }

  // ----- properties -----

  lemma CombinedLength(clientTable: seq<ClientRow>, contractTable: seq<ContractRow>, now: int)
    ensures |Combined(clientTable, contractTable, now)|
         == (if |clientTable| <= ClientLimit then |clientTable| else ClientLimit)
          + (if |contractTable| <= ContractLimit then |contractTable| else ContractLimit)
    ensures |Combined(clientTable, contractTable, now)| <= FeedLimit
  {
    RecentClientsTop(clientTable);
    RecentContractsTop(contractTable);
  }

  /** The two queries return at most five rows each (5 + 5 = 10), so slicing to ten
      drops nothing: the feed has one record per selected row. */
  lemma FeedLength(clientTable: seq<ClientRow>, contractTable: seq<ContractRow>, now: int, feed: seq<Activity>)
    requires IsFeed(clientTable, contractTable, now, feed)
    ensures |feed| == (if |clientTable| <= ClientLimit then |clientTable| else ClientLimit)
                    + (if |contractTable| <= ContractLimit then |contractTable| else ContractLimit)
    ensures |feed| <= FeedLimit
  {
    CombinedLength(clientTable, contractTable, now);
    assert |multiset(feed)| == |multiset(Combined(clientTable, contractTable, now))|;
  }

  /** Every record in the feed comes from one selected row: a client row stamped
      with `now`, or a contract row as the query returned it. */
  lemma FeedOrigins(clientTable: seq<ClientRow>, contractTable: seq<ContractRow>, now: int, feed: seq<Activity>)
    requires IsFeed(clientTable, contractTable, now, feed)
    ensures forall x :: x in feed ==>
      || (exists c :: c in RecentClients(clientTable) && x == Stamp(ClientRecord(c), now))
      || (exists k :: k in RecentContracts(contractTable) && x == ContractRecord(k))
  {
    var all := Combined(clientTable, contractTable, now);
    var cq, kq := ClientsQuery(clientTable), ContractsQuery(contractTable);
    var stamped := seq(|cq|, i requires 0 <= i < |cq| => Stamp(cq[i], now));
    assert all == stamped + kq;
    forall x | x in feed
      ensures || (exists c :: c in RecentClients(clientTable) && x == Stamp(ClientRecord(c), now))
              || (exists k :: k in RecentContracts(contractTable) && x == ContractRecord(k))
    {
      assert x in multiset(all);
      if x in stamped {
        var i :| 0 <= i < |stamped| && stamped[i] == x;
        assert RecentClients(clientTable)[i] in RecentClients(clientTable);
      } else {
        var i :| 0 <= i < |kq| && kq[i] == x;
        assert RecentContracts(contractTable)[i] in RecentContracts(contractTable);
      }
    }
  }

  /** Client records carry `now` as timestamp, their id and "Nouveau client : " +
      name; contract records carry their row's start date, id and "Contrat : " +
      title (or "Sans titre"). */
  lemma FeedRecords(clientTable: seq<ClientRow>, contractTable: seq<ContractRow>, now: int, feed: seq<Activity>)
    requires IsFeed(clientTable, contractTable, now, feed)
    ensures forall x :: x in feed && x.kind == ClientEvent ==>
      exists c :: c in clientTable && DescribesClient(x, c, now)
    ensures forall x :: x in feed && x.kind == ContractEvent ==>
      exists k :: k in contractTable && DescribesContract(x, k)
  {
    forall x | x in feed
      ensures x.kind == ClientEvent ==> exists c :: c in clientTable && DescribesClient(x, c, now)
      ensures x.kind == ContractEvent ==> exists k :: k in contractTable && DescribesContract(x, k)
    {
      assert x in multiset(feed);
      RecordOrigin(clientTable, contractTable, now, x);
    }
  }

  lemma RecordOrigin(clientTable: seq<ClientRow>, contractTable: seq<ContractRow>, now: int, x: Activity)
    requires x in Combined(clientTable, contractTable, now)
    ensures x.kind == ClientEvent ==> exists c :: c in clientTable && DescribesClient(x, c, now)
    ensures x.kind == ContractEvent ==> exists k :: k in contractTable && DescribesContract(x, k)
  {
    var all := Combined(clientTable, contractTable, now);
    var cq, kq := ClientsQuery(clientTable), ContractsQuery(contractTable);
    var stamped := seq(|cq|, i requires 0 <= i < |cq| => Stamp(cq[i], now));
    assert all == stamped + kq;
    var i :| 0 <= i < |all| && all[i] == x;
    if i < |stamped| {
      assert x == Stamp(cq[i], now);
      ClientOrigin(clientTable, now, i);
    } else {
      assert x == kq[i - |stamped|];
      ContractOrigin(contractTable, i - |stamped|);
    }
  }

  /** The i-th client record describes the i-th selected client, a row of the table. */
  lemma ClientOrigin(table: seq<ClientRow>, now: int, i: nat)
    requires i < |ClientsQuery(table)|
    ensures RecentClients(table)[i] in table
    ensures Stamp(ClientsQuery(table)[i], now).kind == ClientEvent
    ensures DescribesClient(Stamp(ClientsQuery(table)[i], now), RecentClients(table)[i], now)
  {
    var cs := RecentClients(table);
    RecentClientsTop(table);
    assert cs[i] in multiset(cs);
  }

  /** The i-th contract record describes the i-th selected contract, a row of the table. */
  lemma ContractOrigin(table: seq<ContractRow>, i: nat)
    requires i < |ContractsQuery(table)|
    ensures RecentContracts(table)[i] in table
    ensures ContractsQuery(table)[i].kind == ContractEvent
    ensures DescribesContract(ContractsQuery(table)[i], RecentContracts(table)[i])
  {
    var ks := RecentContracts(table);
    RecentContractsTop(table);
    assert ks[i] in multiset(ks);
  }

  /** A client record carries `now`, its row's id and "Nouveau client : " followed by
      the name, or no description for a NULL name. */
  predicate DescribesClient(x: Activity, c: ClientRow, now: int) {
    && x.timestamp == Some(now)
    && x.id == c.id
    && x.description == (if c.name.Some? then Some(ClientPrefix + c.name.value) else None)
  }

  /** A contract record carries its row's id and start date, and "Contrat : " followed
      by the title, or by "Sans titre" for a NULL title. */
  predicate DescribesContract(x: Activity, k: ContractRow) {
    && x.timestamp == k.startDate
    && x.id == k.id
    && x.description == Some(ContractPrefix + (if k.title.Some? then k.title.value else UntitledContract))
  }

  /** Every selected row appears in the feed. */
  lemma FeedHoldsEverySelectedRow(clientTable: seq<ClientRow>, contractTable: seq<ContractRow>, now: int, feed: seq<Activity>)
    requires IsFeed(clientTable, contractTable, now, feed)
    ensures forall c :: c in RecentClients(clientTable) ==> Stamp(ClientRecord(c), now) in feed
    ensures forall k :: k in RecentContracts(contractTable) ==> ContractRecord(k) in feed
  {
    var all := Combined(clientTable, contractTable, now);
    var cq, kq := ClientsQuery(clientTable), ContractsQuery(contractTable);
    var stamped := seq(|cq|, i requires 0 <= i < |cq| => Stamp(cq[i], now));
    assert all == stamped + kq;
    forall c | c in RecentClients(clientTable) ensures Stamp(ClientRecord(c), now) in feed {
      var i :| 0 <= i < |RecentClients(clientTable)| && RecentClients(clientTable)[i] == c;
      assert all[i] == Stamp(ClientRecord(c), now);
      assert all[i] in multiset(feed);
    }
    forall k | k in RecentContracts(contractTable) ensures ContractRecord(k) in feed {
      var i :| 0 <= i < |RecentContracts(contractTable)| && RecentContracts(contractTable)[i] == k;
      assert all[|stamped| + i] == ContractRecord(k);
      assert all[|stamped| + i] in multiset(feed);
    }
  }

  /** The clients query returns the (at most) five highest ids, highest first: with
      `id` a primary key, every client left out has a smaller id than every client kept. */
  lemma RecentClientsAreNewest(table: seq<ClientRow>)
    requires forall i, j :: 0 <= i < j < |table| ==> table[i].id != table[j].id
    ensures |RecentClients(table)| == if |table| <= ClientLimit then |table| else ClientLimit
    ensures forall c :: c in RecentClients(table) ==> c in table
    ensures forall i, j :: 0 <= i < j < |RecentClients(table)| ==> RecentClients(table)[i].id > RecentClients(table)[j].id
    ensures forall c, d :: c in RecentClients(table) && d in table && d !in RecentClients(table) ==> d.id < c.id
  {
    var r := RecentClients(table);
    RecentClientsTop(table);
    KeptAreRows(table, r);
    KeptAreDistinct(table, r);
    LeftOutAreOlder(table, r);
  }

  /** With unique ids, a row left out has a smaller id than every row kept ahead of it. */
  lemma LeftOutAreOlder(table: seq<ClientRow>, r: seq<ClientRow>)
    requires forall i, j :: 0 <= i < j < |table| ==> table[i].id != table[j].id
    requires forall c :: c in r ==> c in table
    requires forall x, y :: x in r && y in table && y !in r ==> IdDesc(x, y)
    ensures forall c, d :: c in r && d in table && d !in r ==> d.id < c.id
  {
    forall c, d | c in r && d in table && d !in r ensures d.id < c.id {
      UniqueIds(table, c, d);
    }
  }

  /** Rows drawn from a table are rows of the table. */
  lemma KeptAreRows(table: seq<ClientRow>, r: seq<ClientRow>)
    requires multiset(r) <= multiset(table)
    ensures forall c :: c in r ==> c in table
  {
    forall c | c in r ensures c in table {
      assert c in multiset(r);
    }
  }

  /** Rows kept from a table with unique ids have strictly decreasing ids. */
  lemma KeptAreDistinct(table: seq<ClientRow>, r: seq<ClientRow>)
    requires forall i, j :: 0 <= i < j < |table| ==> table[i].id != table[j].id
    requires multiset(r) <= multiset(table)
    requires Sorted(r, IdDesc)
    ensures forall i, j :: 0 <= i < j < |r| ==> r[i].id > r[j].id
  {
    forall i, j | 0 <= i < j < |r| ensures r[i].id > r[j].id {
      assert r[i] in multiset(r) && r[j] in multiset(r);
      UniqueIds(table, r[i], r[j]);
      HeldTwice(r, i, j);
    }
  }

  /** With unique ids, two rows of the table with the same id are one row, held once. */
  lemma UniqueIds(table: seq<ClientRow>, c: ClientRow, d: ClientRow)
    requires forall i, j :: 0 <= i < j < |table| ==> table[i].id != table[j].id
    requires c in table && d in table
    ensures c.id == d.id ==> c == d && multiset(table)[c] == 1
  {
    var i :| 0 <= i < |table| && table[i] == c;
    var j :| 0 <= j < |table| && table[j] == d;
    if c.id == d.id {
      assert i == j;
      var rest := table[..i] + table[i + 1..];
      assert table == table[..i] + [c] + table[i + 1..];
      assert c !in rest by {
        forall k | 0 <= k < |rest| ensures rest[k] != c {
          if k < i {
            assert rest[k] == table[k];
          } else {
            assert rest[k] == table[k + 1];
          }
        }
      }
      assert multiset(table) == multiset(rest) + multiset{c};
    }
  }

  /** The contracts query returns the (at most) five latest start dates, latest
      first and NULLs ahead of every date: a contract left out starts no later than
      any contract kept, and is left out with a NULL date only behind five NULLs. */
  lemma RecentContractsAreLatest(table: seq<ContractRow>)
    ensures |RecentContracts(table)| == if |table| <= ContractLimit then |table| else ContractLimit
    ensures forall k :: k in RecentContracts(table) ==> k in table
    ensures forall i, j :: 0 <= i < j < |RecentContracts(table)| ==>
      StartDateDesc(RecentContracts(table)[i], RecentContracts(table)[j])
    ensures forall k, l :: k in RecentContracts(table) && l in table && l !in RecentContracts(table) ==>
      k.startDate.None? || (l.startDate.Some? && l.startDate.value <= k.startDate.value)
  {
    var r := RecentContracts(table);
    RecentContractsTop(table);
    forall k | k in r ensures k in table {
      assert k in multiset(r);
    }
  }

  /** When every contract started strictly before the request time, the sort puts
      every client record ahead of every contract record. */
  lemma ClientsBeforeContracts(clientTable: seq<ClientRow>, contractTable: seq<ContractRow>, now: int, feed: seq<Activity>)
    requires IsFeed(clientTable, contractTable, now, feed)
    requires forall k :: k in contractTable ==> k.startDate.GetOr(0) < now
    ensures forall i, j :: 0 <= i < j < |feed| && feed[j].kind == ClientEvent ==> feed[i].kind == ClientEvent
  {
    FeedRecords(clientTable, contractTable, now, feed);
    forall x | x in feed && x.kind == ClientEvent ensures Instant(x) == now {
      var c :| c in clientTable && DescribesClient(x, c, now);
    }
    forall x | x in feed && x.kind == ContractEvent ensures Instant(x) < now {
      var k :| k in contractTable && DescribesContract(x, k);
    }
    forall i, j | 0 <= i < j < |feed| && feed[j].kind == ClientEvent ensures feed[i].kind == ClientEvent {
      assert feed[i] in feed && feed[j] in feed;
      assert Instant(feed[i]) >= Instant(feed[j]) == now;
    }
  }
}
