/** The description gate as an object: four maps fed by samples, and two sets of callbacks
    (ecal/core/src/ecal_descgate.cpp:46-190). */
module DescGate {
  import opened Strings
  import opened Registry

  datatype DataType = DataType(name: Str, encoding: Str, descriptor: Str)

  // ---------- Methods of a service ----------

  /** A method as a sample lists it, with the fields of older versions. */
  datatype RawMethod = RawMethod(name: Str, request: DataType, oldRequest: Str, oldRequestDescriptor: Str,
                                 response: DataType, oldResponse: Str, oldResponseDescriptor: Str)

  datatype Method = Method(name: Str, request: DataType, response: DataType)

  /** `std::set<SServiceMethodInformation>`: its order compares the name and the response
      type only. */
  type MethodSet = m: map<(Str, DataType), Method> | forall k | k in m :: k == (m[k].name, m[k].response)

  function GetDataType(current: DataType, oldName: Str, oldDescriptor: Str): DataType {
    if current.name != [] then current else DataType(oldName, [], oldDescriptor)
  }

  function Converted(raw: RawMethod): Method {
    Method(raw.name, GetDataType(raw.request, raw.oldRequest, raw.oldRequestDescriptor),
           GetDataType(raw.response, raw.oldResponse, raw.oldResponseDescriptor))
  }

  /** A method keeps its name and both types, with encoding and descriptor, and takes a type of
      the older fields only where the current one has no name. */
  lemma ConvertedKeeps(raw: RawMethod)
    ensures Converted(raw).name == raw.name
    ensures raw.request.name != [] ==> Converted(raw).request == raw.request
    ensures raw.response.name != [] ==> Converted(raw).response == raw.response
    ensures raw.request.name == [] ==>
              (var t := Converted(raw).request; t.name == raw.oldRequest && t.descriptor == raw.oldRequestDescriptor && t.encoding == [])
    ensures raw.response.name == [] ==>
              (var t := Converted(raw).response; t.name == raw.oldResponse && t.descriptor == raw.oldResponseDescriptor && t.encoding == [])
  {
  }

  function InsertMethod(s: MethodSet, m: Method): MethodSet {
    if (m.name, m.response) in s then s else s[(m.name, m.response) := m]
  }

  function Methods(raws: seq<RawMethod>): MethodSet {
    if raws == [] then map[] else InsertMethod(Methods(raws[..|raws| - 1]), Converted(raws[|raws| - 1]))
  }

  method ConvertMethods(raws: seq<RawMethod>) returns (methods: MethodSet)
    ensures methods == Methods(raws)
  {
    methods := map[];
    for i := 0 to |raws|
      invariant methods == Methods(raws[..i])
    {
      assert raws[..i + 1][..i] == raws[..i];
      methods := InsertMethod(methods, Converted(raws[i]));
    }
    assert raws[..|raws|] == raws;
  }

  ghost predicate From(m: Method, raws: seq<RawMethod>) { exists i :: 0 <= i < |raws| && m == Converted(raws[i]) }

  lemma FromMore(m: Method, raws: seq<RawMethod>, raw: RawMethod)
    ensures From(m, raws + [raw]) <==> From(m, raws) || m == Converted(raw)
  {
    hide Converted;
    var more := raws + [raw];
    assert more[|raws|] == raw;
    assert forall i | 0 <= i < |raws| :: more[i] == raws[i];
    if i :| 0 <= i < |raws| && m == Converted(raws[i]) {
      assert m == Converted(more[i]);
    }
  }

  lemma {:induction false} MethodsHold(raws: seq<RawMethod>)
    ensures forall k | k in Methods(raws) :: From(Methods(raws)[k], raws)
    ensures forall i | 0 <= i < |raws| :: (Converted(raws[i]).name, Converted(raws[i]).response) in Methods(raws)
  {
    if raws != [] {
      var n := |raws| - 1;
      MethodsHold(raws[..n]);
      assert raws == raws[..n] + [raws[n]];
      hide Converted, From;
      forall k | k in Methods(raws) ensures From(Methods(raws)[k], raws) {
        FromMore(Methods(raws)[k], raws[..n], raws[n]);
      }
      forall i | 0 <= i < |raws| ensures (Converted(raws[i]).name, Converted(raws[i]).response) in Methods(raws) {
        assert i < n ==> raws[..n][i] == raws[i];
      }
    }
  }

  ghost predicate Has(methods: MethodSet, m: Method) { exists k :: k in methods && methods[k] == m }

  /** No two methods differ in their request type alone. */
  ghost predicate TellApart(raws: seq<RawMethod>) {
    forall i, j | 0 <= i < |raws| && 0 <= j < |raws| ::
      Converted(raws[i]).name == Converted(raws[j]).name && Converted(raws[i]).response == Converted(raws[j]).response
      ==> Converted(raws[i]) == Converted(raws[j])
  }

  /** A service's method set has all its methods exactly if none differ in their request
      type alone. */
  lemma MethodsCompleteIff(raws: seq<RawMethod>)
    ensures (forall i | 0 <= i < |raws| :: Has(Methods(raws), Converted(raws[i]))) <==> TellApart(raws)
  {
    MethodsHold(raws);
    hide Methods, Converted;
    var methods := Methods(raws);
    if forall i | 0 <= i < |raws| :: Has(methods, Converted(raws[i])) {
      forall i, j | 0 <= i < |raws| && 0 <= j < |raws| &&
                    Converted(raws[i]).name == Converted(raws[j]).name && Converted(raws[i]).response == Converted(raws[j]).response
        ensures Converted(raws[i]) == Converted(raws[j])
      {
        assert Has(methods, Converted(raws[i])) && Has(methods, Converted(raws[j]));
      }
    }
    if TellApart(raws) {
      forall j | 0 <= j < |raws| ensures Has(methods, Converted(raws[j])) {
        var k := (Converted(raws[j]).name, Converted(raws[j]).response);
        assert From(methods[k], raws);
        var i :| 0 <= i < |raws| && methods[k] == Converted(raws[i]);
        assert Converted(raws[i]) == Converted(raws[j]);
      }
    }
  }

  /** Two methods of one name and response type with different requests. */
  const OVERLOADED: seq<RawMethod> := [
    RawMethod("Set", DataType("Speed", "proto", ""), "", "", DataType("Ack", "proto", ""), "", ""),
    RawMethod("Set", DataType("Angle", "proto", ""), "", "", DataType("Ack", "proto", ""), "", "")
  ]

  /** The second of them is not in the service's method set. */
  lemma RequestTypeIsLost()
    ensures !TellApart(OVERLOADED) && !Has(Methods(OVERLOADED), Converted(OVERLOADED[1]))
  {
    var first, second := Converted(OVERLOADED[0]), Converted(OVERLOADED[1]);
    assert first.name == second.name && first.response == second.response;
    assert first.request.name[0] == 'S' && second.request.name[0] == 'A';
    assert OVERLOADED[..1] == [OVERLOADED[0]] && [OVERLOADED[0]][..0] == [];
    assert Methods(OVERLOADED[..1]) == map[(first.name, first.response) := first];
    hide Converted;
    assert Methods(OVERLOADED) == map[(first.name, first.response) := first];
  }

  // ---------- One map ----------

  lemma IdentityIsListed<I>(log: seq<Command<I>>, id: Identity)
    ensures (exists e :: e in After(log) && After(log)[e].id == id) <==> exists i :: Opens(log, id.entity, i) && log[i].id == id
  {
    MapReadsLog(log, id.entity);
    if e :| e in After(log) && After(log)[e].id == id {
      KeysAreEntities(log, e);
    }
    OpeningIsRead(log, id.entity);
    hide Opens, Latest, After;
  }

  /** `CollectedTopicInfo` and `CollectedServiceInfo`. Topics are notified about what the
      calls return; services are not. */
  class CollectedInfo<I> {
    var entries: Registry.Entries<I>
    ghost var log: seq<Command<I>>

    ghost predicate Valid()
      reads this
    {
      entries == After(log)
    }

    /** The entity is registered with this information; it keeps the identity it had, if any. */
    twostate predicate NowRegistered(id: Identity, info: I)
      reads this
    {
      entries == old(entries)[id.entity := Entry(if id.entity in old(entries) then old(entries)[id.entity].id else id, info)]
    }

    twostate predicate NowAbsent(entity: EntityId)
      reads this
    {
      entries == old(entries) - {entity}
    }

    constructor ()
      ensures Valid() && log == []
    {
      entries, log := map[], [];
    }

    method RegisterSample(id: Identity, info: I) returns (created: seq<Event>)
      requires Valid()
      modifies this
      ensures Valid() && log == old(log) + [Register(id, info)]
      ensures created == Notice(After(old(log)), Register(id, info)) && Notices(log) == Notices(old(log)) + created
      ensures NowRegistered(id, info)
      ensures created == if id.entity in old(entries) then [] else [New(id)]
    {
      if id.entity in entries {
        entries := entries[id.entity := entries[id.entity].(info := info)];
        created := [];
      } else {
        entries := entries[id.entity := Entry(id, info)];
        created := [New(id)];
      }
      log := log + [Register(id, info)];
      assert log[..|log| - 1] == old(log);
    }

    method UnregisterSample(entity: EntityId) returns (erased: seq<Event>)
      requires Valid()
      modifies this
      ensures Valid() && log == old(log) + [Unregister(entity)]
      ensures erased == Notice(After(old(log)), Unregister(entity)) && Notices(log) == Notices(old(log)) + erased
      ensures NowAbsent(entity)
      ensures erased == if entity in old(entries) then [Deleted(old(entries)[entity].id)] else []
    {
      if entity in entries {
        erased := [Deleted(entries[entity].id)];
        entries := entries - {entity};
      } else {
        erased := [];
        assert entries - {entity} == entries;
      }
      log := log + [Unregister(entity)];
      assert log[..|log| - 1] == old(log);
    }

    /** Found exactly if the latest command about the entity registers it, with what that
        command said. */
    method GetInfo(id: Identity) returns (info: Option<I>)
      requires Valid()
      ensures info.Some? <==> exists j :: Latest(log, id.entity, j)
      ensures forall j | Latest(log, id.entity, j) :: info == Some(log[j].info)
    {
      MapReadsLog(log, id.entity);
      hide Latest, Opens, After;
      if id.entity in entries {
        info := Some(entries[id.entity].info);
        assert exists i :: Opens(log, id.entity, i);
      } else {
        info := None;
      }
    }

    /** The identities of the registered entities, one each. */
    method GetIDs() returns (ids: set<Identity>)
      requires Valid()
      ensures forall id :: id in ids <==> exists i :: Opens(log, id.entity, i) && log[i].id == id
    {
      ids := set e | e in entries :: entries[e].id;
      forall id ensures id in ids <==> exists i :: Opens(log, id.entity, i) && log[i].id == id {
        IdentityIsListed(log, id);
      }
      hide Opens, After;
    }
  }

  // ---------- Callbacks ----------

  type Token = nat

  /** `STopicEventCallbackMap`. An empty `std::function` is kept but never called; `calls`
      are the notifications each callback has been called with. */
  class CallbackMap {
    var callable: map<Token, bool>
    var calls: map<Token, seq<Event>>

    constructor ()
      ensures callable == map[] && calls == map[]
    {
      callable, calls := map[], map[];
    }

    ghost predicate Valid()
      reads this
    {
      callable.Keys == calls.Keys
    }

    method Notify(event: Event)
      requires Valid()
      modifies this`calls
      ensures Valid()
      ensures forall t | t in callable :: calls[t] == if callable[t] then old(calls[t]) + [event] else old(calls[t])
    {
      var todo := callable.Keys;
      while todo != {}
        invariant todo <= callable.Keys && Valid()
        invariant forall t | t in callable ::
                    calls[t] == if callable[t] && t !in todo then old(calls[t]) + [event] else old(calls[t])
        decreases |todo|
      {
        var t :| t in todo;
        if callable[t] {
          calls := calls[t := calls[t] + [event]];
        }
        todo := todo - {t};
      }
    }

    method NotifyAll(events: seq<Event>)
      requires Valid() && |events| <= 1
      modifies this`calls
      ensures Valid()
      ensures forall t | t in callable :: calls[t] == if callable[t] then old(calls[t]) + events else old(calls[t])
    {
      if events != [] {
        assert events == [events[0]];
        Notify(events[0]);
      }
    }
  }

  // ---------- The gate ----------

  datatype Sample =
    | RegPublisher(id: Identity, dataType: DataType) | UnregPublisher(entity: EntityId)
    | RegSubscriber(id: Identity, dataType: DataType) | UnregSubscriber(entity: EntityId)
    | RegService(id: Identity, methods: seq<RawMethod>) | UnregService(entity: EntityId)
    | RegClient(id: Identity, methods: seq<RawMethod>) | UnregClient(entity: EntityId)
    | OtherCommand(code: int)

  function PublisherCommand(s: Sample): seq<Command<DataType>> {
    match s
    case RegPublisher(id, t) => [Register(id, t)]
    case UnregPublisher(e) => [Unregister(e)]
    case _ => []
  }

  function SubscriberCommand(s: Sample): seq<Command<DataType>> {
    match s
    case RegSubscriber(id, t) => [Register(id, t)]
    case UnregSubscriber(e) => [Unregister(e)]
    case _ => []
  }

  function ServerCommand(s: Sample): seq<Command<MethodSet>> {
    match s
    case RegService(id, raws) => [Register(id, Methods(raws))]
    case UnregService(e) => [Unregister(e)]
    case _ => []
  }

  function ClientCommand(s: Sample): seq<Command<MethodSet>> {
    match s
    case RegClient(id, raws) => [Register(id, Methods(raws))]
    case UnregClient(e) => [Unregister(e)]
    case _ => []
  }

  /** Each registered callback has been called with exactly the notifications since it was
      registered, in order. */
  ghost predicate CalledWith(callbacks: CallbackMap, joined: map<Token, nat>, notices: seq<Event>)
    reads callbacks
  {
    && callbacks.Valid()
    && forall t | t in callbacks.callable && callbacks.callable[t] ::
         t in joined && joined[t] <= |notices| && callbacks.calls[t] == notices[joined[t]..]
  }

  /** The callbacks that are not empty have also been called with these events. */
  twostate predicate Heard(callbacks: CallbackMap, events: seq<Event>)
    reads callbacks
  {
    && callbacks.callable == old(callbacks.callable) && callbacks.calls.Keys == old(callbacks.calls.Keys)
    && forall t | t in callbacks.callable && t in callbacks.calls ::
         callbacks.calls[t] == if callbacks.callable[t] then old(callbacks.calls[t]) + events else old(callbacks.calls[t])
  }

  /** Callbacks hear that an entity is new only if it was absent. */
  twostate predicate HeardNew(infos: CollectedInfo<DataType>, callbacks: CallbackMap, id: Identity)
    reads infos, callbacks
  {
    Heard(callbacks, if id.entity in old(infos.entries) then [] else [New(id)])
  }

  /** They hear that it is gone only if it was there, with the identity it had. */
  twostate predicate HeardDeleted(infos: CollectedInfo<DataType>, callbacks: CallbackMap, entity: EntityId)
    reads infos, callbacks
  {
    Heard(callbacks, if entity in old(infos.entries) then [Deleted(old(infos.entries)[entity].id)] else [])
  }

  /** `RegisterSample` of a topic with its notification, which comes after the unlock. */
  method RegisterTopic(infos: CollectedInfo<DataType>, callbacks: CallbackMap, ghost joined: map<Token, nat>,
                       id: Identity, dataType: DataType)
    requires infos.Valid() && CalledWith(callbacks, joined, Notices(infos.log))
    modifies infos, callbacks`calls
    ensures infos.Valid() && CalledWith(callbacks, joined, Notices(infos.log))
    ensures infos.log == old(infos.log) + [Register(id, dataType)]
    ensures infos.NowRegistered(id, dataType) && HeardNew(infos, callbacks, id)
  {
    hide Notices, After;
    var events := infos.RegisterSample(id, dataType);
    callbacks.NotifyAll(events);
  }

  method UnregisterTopic(infos: CollectedInfo<DataType>, callbacks: CallbackMap, ghost joined: map<Token, nat>, entity: EntityId)
    requires infos.Valid() && CalledWith(callbacks, joined, Notices(infos.log))
    modifies infos, callbacks`calls
    ensures infos.Valid() && CalledWith(callbacks, joined, Notices(infos.log))
    ensures infos.log == old(infos.log) + [Unregister(entity)]
    ensures infos.NowAbsent(entity) && HeardDeleted(infos, callbacks, entity)
  {
    hide Notices, After;
    var events := infos.UnregisterSample(entity);
    callbacks.NotifyAll(events);
  }

  /** `RegisterSample` of a service with its converted methods. */
  method RegisterService(infos: CollectedInfo<MethodSet>, id: Identity, raws: seq<RawMethod>)
    requires infos.Valid()
    modifies infos
    ensures infos.Valid() && infos.log == old(infos.log) + [Register(id, Methods(raws))]
    ensures infos.NowRegistered(id, Methods(raws))
  {
    hide Notices, After, Methods;
    var methods := ConvertMethods(raws);
    var _ := infos.RegisterSample(id, methods);
  }

  lemma NextToken(n: nat)
    ensures (n % TWO64 + 1) % TWO64 == (n + 1) % TWO64
  {
    assert n == n / TWO64 * TWO64 + n % TWO64;
    assert n + 1 == n / TWO64 * TWO64 + (n % TWO64 + 1);
  }

  class Gate {
    const publishers: CollectedInfo<DataType>
    const subscribers: CollectedInfo<DataType>
    const servers: CollectedInfo<MethodSet>
    const clients: CollectedInfo<MethodSet>
    const publisherCallbacks: CallbackMap
    const subscriberCallbacks: CallbackMap
    var callbackToken: nat
    ghost var tokensIssued: nat
    ghost var publisherJoined: map<Token, nat>
    ghost var subscriberJoined: map<Token, nat>

    ghost predicate Valid()
      reads this, publishers, subscribers, servers, clients, publisherCallbacks, subscriberCallbacks
    {
      && publishers != subscribers && servers != clients && publisherCallbacks != subscriberCallbacks
      && publishers.Valid() && subscribers.Valid() && servers.Valid() && clients.Valid()
      && CalledWith(publisherCallbacks, publisherJoined, Notices(publishers.log))
      && CalledWith(subscriberCallbacks, subscriberJoined, Notices(subscribers.log))
      && callbackToken == tokensIssued % TWO64
    }

    /** A publisher's sample changes the map of publishers, and its callbacks hear of it; other
        samples do neither. */
    twostate predicate PublishersFollow(sample: Sample)
      reads publishers, publisherCallbacks
    {
      match sample
      case RegPublisher(id, t) => publishers.NowRegistered(id, t) && HeardNew(publishers, publisherCallbacks, id)
      case UnregPublisher(e) => publishers.NowAbsent(e) && HeardDeleted(publishers, publisherCallbacks, e)
      case _ => publishers.entries == old(publishers.entries) && publisherCallbacks.calls == old(publisherCallbacks.calls)
    }

    twostate predicate SubscribersFollow(sample: Sample)
      reads subscribers, subscriberCallbacks
    {
      match sample
      case RegSubscriber(id, t) => subscribers.NowRegistered(id, t) && HeardNew(subscribers, subscriberCallbacks, id)
      case UnregSubscriber(e) => subscribers.NowAbsent(e) && HeardDeleted(subscribers, subscriberCallbacks, e)
      case _ => subscribers.entries == old(subscribers.entries) && subscriberCallbacks.calls == old(subscriberCallbacks.calls)
    }

    /** The maps of servers and clients change with their own samples only. */
    twostate predicate ServicesFollow(sample: Sample)
      reads servers, clients
    {
      && (match sample
          case RegService(id, raws) => servers.NowRegistered(id, Methods(raws))
          case UnregService(e) => servers.NowAbsent(e)
          case _ => servers.entries == old(servers.entries))
      && (match sample
          case RegClient(id, raws) => clients.NowRegistered(id, Methods(raws))
          case UnregClient(e) => clients.NowAbsent(e)
          case _ => clients.entries == old(clients.entries))
    }

    constructor ()
      ensures Valid() && tokensIssued == 0
      ensures publishers.log == [] && subscribers.log == [] && servers.log == [] && clients.log == []
      ensures fresh(publishers) && fresh(subscribers) && fresh(servers) && fresh(clients)
      ensures fresh(publisherCallbacks) && fresh(subscriberCallbacks)
    {
      publishers := new CollectedInfo<DataType>();
      subscribers := new CollectedInfo<DataType>();
      servers := new CollectedInfo<MethodSet>();
      clients := new CollectedInfo<MethodSet>();
      publisherCallbacks := new CallbackMap();
      subscriberCallbacks := new CallbackMap();
      callbackToken, tokensIssued := 0, 0;
      publisherJoined, subscriberJoined := map[], map[];
    }

    method ApplySample(sample: Sample)
      requires Valid()
      modifies publishers, subscribers, servers, clients, publisherCallbacks`calls, subscriberCallbacks`calls
      ensures Valid()
      ensures publishers.log == old(publishers.log) + PublisherCommand(sample)
      ensures subscribers.log == old(subscribers.log) + SubscriberCommand(sample)
      ensures servers.log == old(servers.log) + ServerCommand(sample)
      ensures clients.log == old(clients.log) + ClientCommand(sample)
      ensures PublishersFollow(sample) && SubscribersFollow(sample) && ServicesFollow(sample)
    {
      hide Notices, After, Methods, CalledWith, Heard, HeardNew, HeardDeleted, CollectedInfo<DataType>.NowRegistered, CollectedInfo<DataType>.NowAbsent;
      match sample
      case RegPublisher(id, t) => RegisterTopic(publishers, publisherCallbacks, publisherJoined, id, t);
      case UnregPublisher(e) => UnregisterTopic(publishers, publisherCallbacks, publisherJoined, e);
      case RegSubscriber(id, t) => RegisterTopic(subscribers, subscriberCallbacks, subscriberJoined, id, t);
      case UnregSubscriber(e) => UnregisterTopic(subscribers, subscriberCallbacks, subscriberJoined, e);
      case RegService(id, raws) =>
        RegisterService(servers, id, raws);
      case UnregService(e) =>
        var _ := servers.UnregisterSample(e);
      case RegClient(id, raws) =>
        RegisterService(clients, id, raws);
      case UnregClient(e) =>
        var _ := clients.UnregisterSample(e);
      case OtherCommand(_) =>
    }

    method CreateToken() returns (token: Token)
      requires callbackToken == tokensIssued % TWO64
      modifies this`callbackToken, this`tokensIssued
      ensures token == TokenAt(old(tokensIssued)) && tokensIssued == old(tokensIssued) + 1
      ensures callbackToken == tokensIssued % TWO64
    {
      NextToken(tokensIssued);
      callbackToken := (callbackToken + 1) % TWO64;
      tokensIssued := tokensIssued + 1;
      token := callbackToken;
    }

    method AddPublisherEventCallback(callable: bool) returns (token: Token)
      requires Valid()
      modifies this, publisherCallbacks
      ensures Valid()
      ensures token == TokenAt(old(tokensIssued)) && tokensIssued == old(tokensIssued) + 1
      ensures publisherCallbacks.callable == old(publisherCallbacks.callable)[token := callable]
      ensures publisherCallbacks.calls == old(publisherCallbacks.calls)[token := []]
    {
      token := CreateToken();
      publisherCallbacks.callable := publisherCallbacks.callable[token := callable];
      publisherCallbacks.calls := publisherCallbacks.calls[token := []];
      publisherJoined := publisherJoined[token := |Notices(publishers.log)|];
    }

    method AddSubscriberEventCallback(callable: bool) returns (token: Token)
      requires Valid()
      modifies this, subscriberCallbacks
      ensures Valid()
      ensures token == TokenAt(old(tokensIssued)) && tokensIssued == old(tokensIssued) + 1
      ensures subscriberCallbacks.callable == old(subscriberCallbacks.callable)[token := callable]
      ensures subscriberCallbacks.calls == old(subscriberCallbacks.calls)[token := []]
    {
      token := CreateToken();
      subscriberCallbacks.callable := subscriberCallbacks.callable[token := callable];
      subscriberCallbacks.calls := subscriberCallbacks.calls[token := []];
      subscriberJoined := subscriberJoined[token := |Notices(subscribers.log)|];
    }

    method RemPublisherEventCallback(token: Token)
      requires Valid()
      modifies publisherCallbacks
      ensures Valid()
      ensures publisherCallbacks.callable == old(publisherCallbacks.callable) - {token}
      ensures publisherCallbacks.calls == old(publisherCallbacks.calls) - {token}
    {
      publisherCallbacks.callable := publisherCallbacks.callable - {token};
      publisherCallbacks.calls := publisherCallbacks.calls - {token};
    }

    method RemSubscriberEventCallback(token: Token)
      requires Valid()
      modifies subscriberCallbacks
      ensures Valid()
      ensures subscriberCallbacks.callable == old(subscriberCallbacks.callable) - {token}
      ensures subscriberCallbacks.calls == old(subscriberCallbacks.calls) - {token}
    {
      subscriberCallbacks.callable := subscriberCallbacks.callable - {token};
      subscriberCallbacks.calls := subscriberCallbacks.calls - {token};
    }
  }
}
