/** The service catalogue and its assignment to contracts: the `contracts`,
    `services` and `contract_services` tables held by a store object whose methods
    are the routes that change them. The store keeps one invariant: no (contract,
    service) pair is linked twice. */
module Services {
  import opened Common
  import opened Ordering

  const Active := "actif"
  const Pending := "en_cours"
  const ServicesContractTitle := "Contrat Services"

  const TargetRequired := "client_id ou contract_id requis"
  const ServiceNotFound := "Service non trouv\U{E9}"
  const AlreadyAssigned := "Ce service est d\U{E9}j\U{E0} attribu\U{E9} \U{E0} ce contrat"
  const LinkRemoved := "Service retir\U{E9} du contrat"
  const ServiceDeactivated := "Service d\U{E9}sactiv\U{E9}"

  datatype ContractRow = ContractRow(id: int, clientId: Option<int>, title: string, amount: int,
                                     startDate: int, status: string)

  datatype ServiceRow = ServiceRow(id: int, name: string, isActive: bool)

  /** A `contract_services` row. */
  datatype Link = Link(contractId: int, serviceId: int)

  /** The body of `POST /assign`; the dates are instants. `None` is a missing or
      `null` field. `client_id` and `contract_id` are read through truthiness tests
      (`Given`), where `Some(0)` counts as absent too. `date_debut` and
      `prix_convenu` are read through `||`, so for them `None` also stands for any
      other falsy value. `service_id` is only passed to the lookup, so `Some(0)` is
      the id 0 and `None` matches no service. */
  datatype AssignRequest = AssignRequest(clientId: Option<int>, serviceId: Option<int>,
                                         dateDebut: Option<int>, prixConvenu: Option<int>,
                                         contractId: Option<int>)

  datatype Body = Error(error: string) | Assigned(contractId: int, serviceId: int) | Message(message: string)

  datatype Reply = Reply(status: int, body: Body)

  /** JavaScript truthiness of an optional number. */
  predicate Given(x: Option<int>) {
    x.Some? && x.value != 0
  }

  predicate NoDuplicateLinks(links: seq<Link>) {
    forall i, j :: 0 <= i < j < |links| ==> links[i] != links[j]
  }

  // ----- finding the contract -----

  /** A contract of the client in status `actif` or `en_cours`. */
  predicate Candidate(c: ContractRow, clientId: int) {
    c.clientId == Some(clientId) && (c.status == Active || c.status == Pending)
  }

  /** `SELECT id FROM contracts WHERE client_id = $1 AND status IN ('actif', 'en_cours')
      ORDER BY id DESC LIMIT 1`. */
  function FindActiveContract(contracts: seq<ContractRow>, clientId: int): (r: Option<int>)
    ensures r.None? <==> forall i :: 0 <= i < |contracts| ==> !Candidate(contracts[i], clientId)
    ensures r.Some? ==> exists i :: 0 <= i < |contracts| && Candidate(contracts[i], clientId) && contracts[i].id == r.value
    ensures r.Some? ==> forall i :: 0 <= i < |contracts| && Candidate(contracts[i], clientId) ==> contracts[i].id <= r.value
  {
    if contracts == [] then None
    else
      var init, last := contracts[..|contracts| - 1], contracts[|contracts| - 1];
      var rest := FindActiveContract(init, clientId);
      assert forall i :: 0 <= i < |init| ==> init[i] == contracts[i];
      if Candidate(last, clientId) && (rest.None? || rest.value < last.id) then Some(last.id) else rest
  }

  /** Where the request's contract comes from. */
  datatype Target = NoTarget | Existing(id: int) | Created(id: int)

  /** A `client_id` wins over a `contract_id`: the client's newest running contract is
      reused, or a new one is made with the next serial id. */
  function Resolve(contracts: seq<ContractRow>, nextId: int, req: AssignRequest): Target {
    if Given(req.clientId) then
      match FindActiveContract(contracts, req.clientId.value)
      case Some(id) => Existing(id)
      case None => Created(nextId)
    else if Given(req.contractId) then Existing(req.contractId.value)
    else NoTarget
  }

  /** The contract `POST /assign` inserts for a client without a running one. */
  function NewContract(req: AssignRequest, id: int, now: int): ContractRow
    requires req.clientId.Some?
  {
    ContractRow(id, req.clientId, ServicesContractTitle, req.prixConvenu.GetOr(0), req.dateDebut.GetOr(now), Pending)
  }

  /** `SELECT id FROM services WHERE id = $1`: any row with that id, active or not. */
  predicate ServiceExists(services: seq<ServiceRow>, serviceId: Option<int>) {
    serviceId.Some? && exists i :: 0 <= i < |services| && services[i].id == serviceId.value
  }

  // ----- removing pairs and services -----

  /** `DELETE FROM contract_services WHERE contract_id = $1 AND service_id = $2`. */
  function Without(links: seq<Link>, pair: Link): (r: seq<Link>)
    ensures multiset(r) == multiset(links)[pair := 0]
    ensures forall l :: l in r <==> l in links && l != pair
  {
    if links == [] then []
    else
      assert links == [links[0]] + links[1..];
      (if links[0] == pair then [] else [links[0]]) + Without(links[1..], pair)
  }

  /** `UPDATE services SET is_active = false WHERE id = $1`. */
  function SetInactive(services: seq<ServiceRow>, id: int): (r: seq<ServiceRow>)
    ensures |r| == |services|
    ensures forall i :: 0 <= i < |r| ==> r[i].id == services[i].id && r[i].name == services[i].name
    ensures forall i :: 0 <= i < |r| ==> r[i].isActive == (services[i].isActive && services[i].id != id)
  {
    seq(|services|, i requires 0 <= i < |services| =>
      if services[i].id == id then services[i].(isActive := false) else services[i])
  }

  // ----- the store -----

  class Store {
    var contracts: seq<ContractRow>
    var services: seq<ServiceRow>
    var links: seq<Link>
    /** The id the `contracts` serial column hands out next. */
    var nextContractId: int

    ghost predicate Valid()
      reads this
    {
      && NoDuplicateLinks(links)
      && forall i :: 0 <= i < |contracts| ==> contracts[i].id < nextContractId
    }

    constructor (contracts: seq<ContractRow>, services: seq<ServiceRow>, links: seq<Link>, nextContractId: int)
      requires NoDuplicateLinks(links)
      requires forall i :: 0 <= i < |contracts| ==> contracts[i].id < nextContractId
      ensures Valid()
      ensures this.contracts == contracts && this.services == services && this.links == links
      ensures this.nextContractId == nextContractId
    {
      this.contracts := contracts;
      this.services := services;
      this.links := links;
      this.nextContractId := nextContractId;
    }

    /** `POST /assign`: resolve the contract, check the service, refuse a pair that
        already exists, then insert it. A contract created on the way stays when a
        later check fails. */
    method Assign(req: AssignRequest, now: int) returns (reply: Reply)
      requires Valid()
      modifies this
      ensures Valid()
      ensures services == old(services)
      ensures var t := Resolve(old(contracts), old(nextContractId), req);
        && (t.NoTarget? ==> reply == Reply(400, Error(TargetRequired)))
        && (!t.Created? ==> contracts == old(contracts) && nextContractId == old(nextContractId))
        && (t.Created? ==> contracts == old(contracts) + [NewContract(req, t.id, now)]
                           && nextContractId == old(nextContractId) + 1)
        && (t.NoTarget? || !ServiceExists(services, req.serviceId) ==> links == old(links))
        && (!t.NoTarget? && !ServiceExists(services, req.serviceId) ==> reply == Reply(404, Error(ServiceNotFound)))
        && (!t.NoTarget? && ServiceExists(services, req.serviceId) ==>
             var pair := Link(t.id, req.serviceId.value);
             if pair in old(links) then links == old(links) && reply == Reply(400, Error(AlreadyAssigned))
             else links == old(links) + [pair] && reply == Reply(201, Assigned(t.id, req.serviceId.value)))
    {
      var contractId: int;
      if Given(req.clientId) {
        var existing := FindActiveContract(contracts, req.clientId.value);
        if existing.Some? {
          contractId := existing.value;
        } else {
          contractId := nextContractId;
          contracts := contracts + [NewContract(req, contractId, now)];
          nextContractId := nextContractId + 1;
        }
      } else if Given(req.contractId) {
        contractId := req.contractId.value;
      } else {
        return Reply(400, Error(TargetRequired));
      }
      if !ServiceExists(services, req.serviceId) {
        return Reply(404, Error(ServiceNotFound));
      }
      var pair := Link(contractId, req.serviceId.value);
      if pair in links {
        return Reply(400, Error(AlreadyAssigned));
      }
      links := links + [pair];
      reply := Reply(201, Assigned(contractId, req.serviceId.value));
    }

    /** `DELETE /assign/:contractId/:serviceId`. */
    method RemoveLink(contractId: int, serviceId: int) returns (reply: Reply)
      requires Valid()
      modifies this
      ensures Valid()
      ensures links == Without(old(links), Link(contractId, serviceId))
      ensures contracts == old(contracts) && services == old(services) && nextContractId == old(nextContractId)
      ensures reply == Reply(200, Message(LinkRemoved))
    {
      WithoutKeepsNoDuplicates(links, Link(contractId, serviceId));
      links := Without(links, Link(contractId, serviceId));
      reply := Reply(200, Message(LinkRemoved));
    }

    /** `DELETE /:id`: a soft delete. */
    method Deactivate(id: int) returns (reply: Reply)
      requires Valid()
      modifies this
      ensures Valid()
      ensures services == SetInactive(old(services), id)
      ensures contracts == old(contracts) && links == old(links) && nextContractId == old(nextContractId)
      ensures reply == Reply(200, Message(ServiceDeactivated))
    {
      services := SetInactive(services, id);
      reply := Reply(200, Message(ServiceDeactivated));
    }
  }

  // ----- properties of the steps -----

  /** With a `client_id`, the `contract_id` of the body plays no part. */
  lemma ClientIdTakesPrecedence(contracts: seq<ContractRow>, nextId: int, req: AssignRequest, other: Option<int>)
    requires Given(req.clientId)
    ensures Resolve(contracts, nextId, req) == Resolve(contracts, nextId, req.(contractId := other))
    ensures !Resolve(contracts, nextId, req).NoTarget?
  {
  }

  /** A client with running contracts gets the one with the highest id; a client
      without gets a new contract whose id no existing contract carries. */
  lemma ResolveClient(contracts: seq<ContractRow>, nextId: int, req: AssignRequest)
    requires Given(req.clientId)
    requires forall i :: 0 <= i < |contracts| ==> contracts[i].id < nextId
    ensures var t := Resolve(contracts, nextId, req);
      && (t.Existing? <==> exists i :: 0 <= i < |contracts| && Candidate(contracts[i], req.clientId.value))
      && (t.Existing? ==> exists i :: 0 <= i < |contracts| && Candidate(contracts[i], req.clientId.value) && contracts[i].id == t.id)
      && (t.Existing? ==> forall i :: 0 <= i < |contracts| && Candidate(contracts[i], req.clientId.value) ==> contracts[i].id <= t.id)
      && (t.Created? ==> forall i :: 0 <= i < |contracts| ==> contracts[i].id != t.id)
  {
  }

  /** The contract created for a client: titled `Contrat Services`, the agreed price
      or 0, the requested start date or now, status `en_cours`. */
  lemma NewContractShape(req: AssignRequest, id: int, now: int)
    requires Given(req.clientId)
    ensures var c := NewContract(req, id, now);
      && c.id == id && Candidate(c, req.clientId.value) && c.status == Pending
      && c.title == ServicesContractTitle
      && c.amount == (if req.prixConvenu.Some? then req.prixConvenu.value else 0)
      && c.startDate == (if req.dateDebut.Some? then req.dateDebut.value else now)
  {
  }

  /** Removing a pair keeps the table free of duplicates. */
  lemma WithoutKeepsNoDuplicates(links: seq<Link>, pair: Link)
    requires NoDuplicateLinks(links)
    ensures NoDuplicateLinks(Without(links, pair))
  {
    var r := Without(links, pair);
    forall i, j | 0 <= i < j < |r| ensures r[i] != r[j] {
      if r[i] == r[j] {
        HeldTwice(r, i, j);
        assert multiset(links)[r[i]] >= 2;
        OnceEach(links, r[i]);
      }
    }
  }

  /** Removing the same pair twice is removing it once. */
  lemma WithoutIdempotent(links: seq<Link>, pair: Link)
    ensures Without(Without(links, pair), pair) == Without(links, pair)
  {
    var r := Without(links, pair);
    assert pair !in r;
    WithoutAbsent(r, pair);
  }

  /** Removing a pair that is not there changes nothing. */
  lemma {:induction false} WithoutAbsent(links: seq<Link>, pair: Link)
    requires pair !in links
    ensures Without(links, pair) == links
    decreases |links|
  {
    if links != [] {
      WithoutAbsent(links[1..], pair);
    }
  }

  /** A soft delete twice is a soft delete once. */
  lemma SetInactiveIdempotent(services: seq<ServiceRow>, id: int)
    ensures SetInactive(SetInactive(services, id), id) == SetInactive(services, id)
  {
  }

  /** In a table without duplicates every row is held once. */
  lemma {:induction false} OnceEach(links: seq<Link>, l: Link)
    requires NoDuplicateLinks(links)
    ensures multiset(links)[l] <= 1
    decreases |links|
  {
    if links != [] {
      var init, last := links[..|links| - 1], links[|links| - 1];
      assert links == init + [last];
      assert NoDuplicateLinks(init) by {
        forall i, j | 0 <= i < j < |init| ensures init[i] != init[j] {
          assert init[i] == links[i] && init[j] == links[j];
        }
      }
      OnceEach(init, l);
      if l == last {
        assert last !in init by {
          forall i | 0 <= i < |init| ensures init[i] != last {
            assert init[i] == links[i];
          }
        }
      }
    }
  }

  // ----- clients_count -----

  /** `COUNT(cs.service_id)` of `GET /` for one service: the number of pairs. */
  function LinkCount(links: seq<Link>, serviceId: int): (n: nat)
    ensures n <= |links|
  {
    if links == [] then 0
    else LinkCount(links[..|links| - 1], serviceId) + (if links[|links| - 1].serviceId == serviceId then 1 else 0)
  }

  /** The contracts a service is linked to. */
  ghost function LinkedContracts(links: seq<Link>, serviceId: int): set<int> {
    set l | l in links && l.serviceId == serviceId :: l.contractId
  }

  /** Without duplicate pairs, `clients_count` is the number of distinct contracts
      the service is linked to (not the number of distinct clients: one client
      with two contracts counts twice). */
  lemma {:induction false} LinkCountIsDistinctContracts(links: seq<Link>, serviceId: int)
    requires NoDuplicateLinks(links)
    ensures LinkCount(links, serviceId) == |LinkedContracts(links, serviceId)|
    decreases |links|
  {
    if links != [] {
      var init, last := links[..|links| - 1], links[|links| - 1];
      assert links == init + [last];
      assert NoDuplicateLinks(init) by {
        forall i, j | 0 <= i < j < |init| ensures init[i] != init[j] {
          assert init[i] == links[i] && init[j] == links[j];
        }
      }
      LinkCountIsDistinctContracts(init, serviceId);
      var before := LinkedContracts(init, serviceId);
      if last.serviceId == serviceId {
        assert LinkedContracts(links, serviceId) == before + {last.contractId};
        assert last.contractId !in before by {
          forall l | l in init && l.serviceId == serviceId ensures l.contractId != last.contractId {
            var i :| 0 <= i < |init| && init[i] == l;
            assert links[i] == l && links[|links| - 1] == last;
          }
        }
      } else {
        assert LinkedContracts(links, serviceId) == before;
      }
    }
  }

  /** A successful assign raises the service's count by one and leaves every other
      service's count as it was. */
  lemma AssignCountsOnce(links: seq<Link>, pair: Link, serviceId: int)
    ensures LinkCount(links + [pair], serviceId)
      == LinkCount(links, serviceId) + (if pair.serviceId == serviceId then 1 else 0)
  {
    assert (links + [pair])[..|links|] == links;
  }

  /** Removing a pair lowers its service's count by the number of times it was held. */
  lemma RemoveCounts(links: seq<Link>, pair: Link)
    requires NoDuplicateLinks(links)
    ensures LinkCount(Without(links, pair), pair.serviceId)
      == LinkCount(links, pair.serviceId) - (if pair in links then 1 else 0)
  {
    LinkCountByMultiset(links, pair.serviceId, pair);
    LinkCountByMultiset(Without(links, pair), pair.serviceId, pair);
    OnceEach(links, pair);
  }

  /** Counting the pairs of a service splits into one pair and the rest. */
  lemma {:induction false} LinkCountByMultiset(links: seq<Link>, serviceId: int, pair: Link)
    requires pair.serviceId == serviceId
    ensures LinkCount(links, serviceId) == multiset(links)[pair] + LinkCount(Without(links, pair), serviceId)
    decreases |links|
  {
    if links != [] {
      var init, last := links[..|links| - 1], links[|links| - 1];
      assert links == init + [last];
      LinkCountByMultiset(init, serviceId, pair);
      WithoutConcat(init, [last], pair);
      AssignCountsOnce(Without(init, pair), last, serviceId);
      assert Without([last], pair) == if last == pair then [] else [last];
      if last == pair {
        assert Without(init, pair) + [] == Without(init, pair);
      }
    }
  }

  lemma {:induction false} WithoutConcat(a: seq<Link>, b: seq<Link>, pair: Link)
    ensures Without(a + b, pair) == Without(a, pair) + Without(b, pair)
    decreases |a|
  {
    if a == [] {
      assert a + b == b;
    } else {
      var head := if a[0] == pair then [] else [a[0]];
      var ab := a + b;
      assert ab[0] == a[0] && ab[1..] == a[1..] + b;
      WithoutConcat(a[1..], b, pair);
      Regroup(head, Without(a[1..], pair), Without(b, pair), Without(ab, pair), Without(a, pair));
    }
  }

  /** Regrouping a three-part concatenation. */
  lemma Regroup(h: seq<Link>, r: seq<Link>, t: seq<Link>, whole: seq<Link>, front: seq<Link>)
    requires whole == h + (r + t) && front == h + r
    ensures whole == front + t
  {
  }

  // ----- GET / -----

  /** One row of the service list. */
  datatype Listed = Listed(id: int, name: string, isActive: bool, clientsCount: nat)

  predicate IdDesc(a: Listed, b: Listed) {
    a.id >= b.id
  }

  lemma IdDescIsTotalPreorder()
    ensures TotalPreorder(IdDesc)
  {
  }

  /** `LEFT JOIN contract_services ... GROUP BY s.id ... ORDER BY s.id DESC`. */
  function ListServices(services: seq<ServiceRow>, links: seq<Link>): seq<Listed> {
    SortBy(seq(|services|, i requires 0 <= i < |services| =>
      Listed(services[i].id, services[i].name, services[i].isActive, LinkCount(links, services[i].id))), IdDesc)
  }

  /** The list holds every service once with its pair count, highest id first. */
  lemma ListServicesSpec(services: seq<ServiceRow>, links: seq<Link>)
    ensures var r := ListServices(services, links);
      && |r| == |services|
      && (forall i, j :: 0 <= i < j < |r| ==> r[i].id >= r[j].id)
      && (forall x :: x in r ==> x.clientsCount == LinkCount(links, x.id))
      && (forall i :: 0 <= i < |services| ==> Listed(services[i].id, services[i].name, services[i].isActive, LinkCount(links, services[i].id)) in r)
  {
    var rows := seq(|services|, i requires 0 <= i < |services| =>
      Listed(services[i].id, services[i].name, services[i].isActive, LinkCount(links, services[i].id)));
    var r := SortBy(rows, IdDesc);
    assert |r| == |rows| by { assert |multiset(r)| == |multiset(rows)|; }
    IdDescIsTotalPreorder();
    SortBySorted(rows, IdDesc);
    forall x | x in r ensures x.clientsCount == LinkCount(links, x.id) {
      assert x in multiset(rows);
    }
    forall i | 0 <= i < |services|
      ensures Listed(services[i].id, services[i].name, services[i].isActive, LinkCount(links, services[i].id)) in r
    {
      assert rows[i] in multiset(r);
    }
  }
}
