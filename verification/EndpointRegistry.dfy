/** The registry of agent endpoints. After registration only status and last-seen time ever change. */
module EndpointRegistry {
  import opened Wrappers
  import opened Texts
  import opened OrderedMaps
  import opened Bindings

  datatype Capabilities = Capabilities(
    canAcceptPrompt: bool,
    canReturnOutput: bool,
    canReview: bool,
    canExecute: bool,
    canSummarize: bool,
    canReceiveInbound: Option<bool>)

  datatype EndpointStatus = Online | Offline | Busy

  datatype Endpoint = Endpoint(
    id: Text,
    displayLabel: Text,
    transport: Transport,
    capabilities: Capabilities,
    projectRef: Option<Text>,
    status: EndpointStatus,
    lastSeenAt: int)

  datatype RegistryResult = Accepted | DuplicateEndpointId | EndpointNotFound | EndpointOffline | EndpointAlreadyOffline

  type Endpoints = OrderedMap<Text, Endpoint>

  function RefOf(e: Endpoint): EndpointRef {
    EndpointRef(e.id, e.displayLabel, e.transport, e.capabilities.canExecute)
  }

  predicate ValidEndpoint(e: Endpoint) {
    Trim(e.id) != [] && Trim(e.displayLabel) != []
  }

  // ---- Registry calls on the map of endpoints ----

  datatype RegistryOp = Register(e: Endpoint, now: int) | Heartbeat(id: Text, now: int) | GoOffline(id: Text, now: int)

  function RegistryOutcome(m: Endpoints, op: RegistryOp): Result<RegistryResult> {
    match op
    case Register(e, now) =>
      if !ValidEndpoint(e) then Threw("Invalid AgentEndpoint")
      else if e.id in m.entries then Ok(DuplicateEndpointId)
      else Ok(Accepted)
    case Heartbeat(id, now) =>
      if id !in m.entries then Ok(EndpointNotFound)
      else if m.entries[id].status == Offline then Ok(EndpointOffline)
      else Ok(Accepted)
    case GoOffline(id, now) =>
      if id !in m.entries then Ok(EndpointNotFound)
      else if m.entries[id].status == Offline then Ok(EndpointAlreadyOffline)
      else Ok(Accepted)
  }

  function RegistryStep(m: Endpoints, op: RegistryOp): Endpoints {
    if RegistryOutcome(m, op) != Ok(Accepted) then m
    else
      match op
      case Register(e, now) => m.Put(e.id, e.(status := Online, lastSeenAt := now))
      case Heartbeat(id, now) => if id in m.entries then m.Put(id, m.entries[id].(status := Online, lastSeenAt := now)) else m
      case GoOffline(id, now) => if id in m.entries then m.Put(id, m.entries[id].(status := Offline, lastSeenAt := now)) else m
  }

  ghost predicate RegistryValid(m: Endpoints) {
    m.Valid() && forall k :: k in m.entries ==> m.entries[k].id == k
  }

  /** Whatever else happens, no registered endpoint is dropped, and its identity, label, transport,
      capabilities and project never change; an offline endpoint stays offline. */
  ghost predicate OnlyLivenessChanged(m: Endpoints, n: Endpoints) {
    forall k :: k in m.entries ==>
      && k in n.entries
      && n.entries[k] == m.entries[k].(status := n.entries[k].status, lastSeenAt := n.entries[k].lastSeenAt)
      && (m.entries[k].status == Offline ==> n.entries[k].status == Offline)
  }

  lemma RegistryStepKeeps(m: Endpoints, op: RegistryOp)
    requires RegistryValid(m)
    ensures RegistryValid(RegistryStep(m, op))
    ensures OnlyLivenessChanged(m, RegistryStep(m, op))
  {
  }

  function RegistryRun(m: Endpoints, ops: seq<RegistryOp>): Endpoints
    decreases |ops|
  {
    if ops == [] then m else RegistryRun(RegistryStep(m, ops[0]), ops[1..])
  }

  /** Over any run of the registry: no endpoint is dropped, no capability drifts, offline is final. */
  lemma {:induction false} RegistryRunKeeps(m: Endpoints, ops: seq<RegistryOp>)
    requires RegistryValid(m)
    ensures RegistryValid(RegistryRun(m, ops))
    ensures OnlyLivenessChanged(m, RegistryRun(m, ops))
    decreases |ops|
  {
    if ops != [] {
      RegistryStepKeeps(m, ops[0]);
      RegistryRunKeeps(RegistryStep(m, ops[0]), ops[1..]);
    }
  }

  /** This endpoint is now stored under this id, after all others if it is new; nothing else changes. */
  predicate Changed(m: Endpoints, n: Endpoints, id: Text, e: Endpoint) {
    n.entries == m.entries[id := e] && n.order == if id in m.entries then m.order else m.order + [id]
  }

  class InMemoryEndpointRegistry {
    var endpoints: Endpoints

    ghost predicate Valid()
      reads this
    {
      RegistryValid(endpoints)
    }

    constructor ()
      ensures Valid() && endpoints == Empty()
    {
      endpoints := Empty();
    }

    method Register(endpoint: Endpoint, now: int) returns (r: Result<RegistryResult>)
      requires Valid()
      modifies this
      ensures Valid() && r == RegistryOutcome(old(endpoints), RegistryOp.Register(endpoint, now))
      ensures endpoints == RegistryStep(old(endpoints), RegistryOp.Register(endpoint, now))
      ensures r.Threw? <==> Trim(endpoint.id) == [] || Trim(endpoint.displayLabel) == []
      ensures r == Ok(Accepted) <==> !r.Threw? && endpoint.id !in old(endpoints).entries
      ensures r == Ok(Accepted) ==> Changed(old(endpoints), endpoints, endpoint.id, endpoint.(status := Online, lastSeenAt := now))
      ensures r == Ok(Accepted) || (endpoints == old(endpoints) && (r.Threw? || r == Ok(DuplicateEndpointId)))
      ensures OnlyLivenessChanged(old(endpoints), endpoints)
    {
      RegistryStepKeeps(endpoints, RegistryOp.Register(endpoint, now));
      if !ValidEndpoint(endpoint) {
        return Threw("Invalid AgentEndpoint");
      }
      if endpoint.id in endpoints.entries {
        return Ok(DuplicateEndpointId);
      }
      var created := endpoint.(status := Online);
      created := created.(lastSeenAt := now);
      endpoints := endpoints.Put(endpoint.id, created);
      return Ok(Accepted);
    }

    method Get(endpointId: Text) returns (r: Option<Endpoint>)
      ensures r == if endpointId in endpoints.entries then Some(endpoints.entries[endpointId]) else None
    {
      if endpointId in endpoints.entries {
        return Some(endpoints.entries[endpointId]);
      }
      return None;
    }

    method Heartbeat(endpointId: Text, now: int) returns (r: Result<RegistryResult>)
      requires Valid()
      modifies this
      ensures Valid() && r == RegistryOutcome(old(endpoints), RegistryOp.Heartbeat(endpointId, now))
      ensures endpoints == RegistryStep(old(endpoints), RegistryOp.Heartbeat(endpointId, now))
      ensures r == Ok(EndpointNotFound) <==> endpointId !in old(endpoints).entries
      ensures r == Ok(EndpointOffline) <==> endpointId in old(endpoints).entries && old(endpoints).entries[endpointId].status == Offline
      ensures r == Ok(Accepted) ==>
                && endpointId in old(endpoints).entries
                && Changed(old(endpoints), endpoints, endpointId,
                           old(endpoints).entries[endpointId].(status := Online, lastSeenAt := now))
      ensures r == Ok(Accepted) || (endpoints == old(endpoints) && r in {Ok(EndpointNotFound), Ok(EndpointOffline)})
      ensures OnlyLivenessChanged(old(endpoints), endpoints)
    {
      RegistryStepKeeps(endpoints, RegistryOp.Heartbeat(endpointId, now));
      if endpointId !in endpoints.entries {
        return Ok(EndpointNotFound);
      }
      var endpoint := endpoints.entries[endpointId];
      if endpoint.status == Offline {
        return Ok(EndpointOffline);
      }
      endpoints := endpoints.Put(endpointId, endpoint.(status := Online, lastSeenAt := now));
      return Ok(Accepted);
    }

    method MarkOffline(endpointId: Text, now: int) returns (r: Result<RegistryResult>)
      requires Valid()
      modifies this
      ensures Valid() && r == RegistryOutcome(old(endpoints), GoOffline(endpointId, now))
      ensures endpoints == RegistryStep(old(endpoints), GoOffline(endpointId, now))
      ensures r == Ok(EndpointNotFound) <==> endpointId !in old(endpoints).entries
      ensures r == Ok(EndpointAlreadyOffline) <==>
                endpointId in old(endpoints).entries && old(endpoints).entries[endpointId].status == Offline
      ensures r == Ok(Accepted) ==>
                && endpointId in old(endpoints).entries
                && Changed(old(endpoints), endpoints, endpointId,
                           old(endpoints).entries[endpointId].(status := Offline, lastSeenAt := now))
      ensures r == Ok(Accepted) || (endpoints == old(endpoints) && r in {Ok(EndpointNotFound), Ok(EndpointAlreadyOffline)})
      ensures OnlyLivenessChanged(old(endpoints), endpoints)
    {
      RegistryStepKeeps(endpoints, GoOffline(endpointId, now));
      if endpointId !in endpoints.entries {
        return Ok(EndpointNotFound);
      }
      var endpoint := endpoints.entries[endpointId];
      if endpoint.status == Offline {
        return Ok(EndpointAlreadyOffline);
      }
      endpoints := endpoints.Put(endpointId, endpoint.(status := Offline, lastSeenAt := now));
      return Ok(Accepted);
    }
  }
}
