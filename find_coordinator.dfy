/** The FindCoordinator request handler: after the connection guard it looks
    up the coordinator broker of the request's app once and answers every
    requested topic with the same (node, code) entry. */
module FindCoordinator {
  import opened Protocol

  /** A broker as the cluster metadata describes it. */
  datatype Broker = Broker(id: int, ip: string, port: int)

  /** A broker as a client sees it, after conversion for the client's region. */
  datatype BrokerNode = BrokerNode(id: int, host: string, port: int, dataCenter: string)

  /** One entry of the response; a null node is None. */
  datatype AckData = AckData(node: Option<BrokerNode>, code: Code)

  datatype Request = Request(topics: seq<string>, app: string)

  datatype Response =
    | Ack(code: Code)
    | Coordinators(coordinators: map<string, AckData>)

  /** The entry every topic receives, given the single lookup result. */
  function Entry(found: Option<Broker>, region: string, toNode: (Broker, string) -> BrokerNode): (e: AckData)
    ensures e.code == Success <==> found.Some?
    ensures e.node.Some? <==> found.Some?
    ensures found.Some? ==> e.node.value == toNode(found.value, region)
    ensures found.None? ==> e.code == FwCoordinatorNotAvailable
  {
    match found
    case Some(broker) => AckData(Some(toNode(broker, region)), Success)
    case None => AckData(None, FwCoordinatorNotAvailable)
  }

  /** Specification of the whole handler: `findGroup` is the coordinator
      lookup keyed by app, `toNode` the conversion of a broker to the node
      sent to a client in the given region. */
  function Reply(conn: Option<Connection>, req: Request,
                 findGroup: string -> Option<Broker>,
                 toNode: (Broker, string) -> BrokerNode): (r: Response)
    ensures r.Ack? <==> !Admits(conn, req.app)
    ensures r.Ack? ==> r.code == FwConnectionNotExists
    ensures r.Coordinators? ==> r.coordinators.Keys == set t | t in req.topics
  {
    if !Admits(conn, req.app) then Ack(FwConnectionNotExists)
    else
      var e := Entry(findGroup(req.app), conn.value.region, toNode);
      Coordinators(map t | t in req.topics :: e)
  }

  /** Looks up the coordinator of `app` once and fills the result map topic by topic. */
  method FindCoordinators(conn: Connection, topics: seq<string>, app: string,
                          findGroup: string -> Option<Broker>,
                          toNode: (Broker, string) -> BrokerNode)
    returns (result: map<string, AckData>)
    ensures result.Keys == set t | t in topics
    ensures findGroup(app).None? ==>
      forall t | t in result :: result[t] == AckData(None, FwCoordinatorNotAvailable)
    ensures findGroup(app).Some? ==>
      forall t | t in result :: result[t] == AckData(Some(toNode(findGroup(app).value, conn.region)), Success)
  {
    var coordinatorBroker := findGroup(app);
    var code := Success;
    var coordinatorNode: Option<BrokerNode> := None;
    if coordinatorBroker.Some? {
      coordinatorNode := Some(toNode(coordinatorBroker.value, conn.region));
    } else {
      code := FwCoordinatorNotAvailable;
    }
    result := map[];
    for i := 0 to |topics|
      invariant result.Keys == set t | t in topics[..i]
      invariant forall t | t in result :: result[t] == AckData(coordinatorNode, code)
    {
      assert topics[..i + 1] == topics[..i] + [topics[i]];
      result := result[topics[i] := AckData(coordinatorNode, code)];
    }
    assert topics[..|topics|] == topics;
  }

  /** The handler: the connection guard, then the per-topic coordinator map. */
  method Handle(conn: Option<Connection>, req: Request,
                findGroup: string -> Option<Broker>,
                toNode: (Broker, string) -> BrokerNode)
    returns (resp: Response)
    ensures resp == Reply(conn, req, findGroup, toNode)
  {
    if conn.None? || !conn.value.IsAuthorized(req.app) {
      return Ack(FwConnectionNotExists);
    }
    var coordinators := FindCoordinators(conn.value, req.topics, req.app, findGroup, toNode);
    resp := Coordinators(coordinators);
  }

  /** A refused connection short-circuits: the answer is the same whatever
      the coordinator lookup and the node conversion would have returned. */
  lemma GuardShortCircuits(conn: Option<Connection>, req: Request,
                           findGroup1: string -> Option<Broker>, findGroup2: string -> Option<Broker>,
                           toNode1: (Broker, string) -> BrokerNode, toNode2: (Broker, string) -> BrokerNode)
    requires !Admits(conn, req.app)
    ensures Reply(conn, req, findGroup1, toNode1) == Ack(FwConnectionNotExists)
    ensures Reply(conn, req, findGroup1, toNode1) == Reply(conn, req, findGroup2, toNode2)
  {
  }

  /** Only the lookup for the request's app matters: two lookups that agree
      on that one key give the same answer, whatever the topics are. */
  lemma LookupKeyedByAppOnly(conn: Option<Connection>, req: Request,
                             findGroup1: string -> Option<Broker>, findGroup2: string -> Option<Broker>,
                             toNode: (Broker, string) -> BrokerNode)
    requires findGroup1(req.app) == findGroup2(req.app)
    ensures Reply(conn, req, findGroup1, toNode) == Reply(conn, req, findGroup2, toNode)
  {
  }

  /** An admitted request gets exactly its topics as keys, every entry is the
      same (no partial success), and that entry is SUCCESS with the converted
      node when a coordinator exists, COORDINATOR_NOT_AVAILABLE with no node otherwise. */
  lemma AdmittedReply(conn: Option<Connection>, req: Request,
                      findGroup: string -> Option<Broker>,
                      toNode: (Broker, string) -> BrokerNode)
    requires Admits(conn, req.app)
    ensures Reply(conn, req, findGroup, toNode).Coordinators?
    ensures var m := Reply(conn, req, findGroup, toNode).coordinators;
      && m.Keys == set t | t in req.topics
      && (forall t1, t2 | t1 in m && t2 in m :: m[t1] == m[t2])
      && (findGroup(req.app).None? ==>
            forall t | t in m :: m[t].code == FwCoordinatorNotAvailable && m[t].node == None)
      && (findGroup(req.app).Some? ==>
            forall t | t in m :: m[t].code == Success
                              && m[t].node == Some(toNode(findGroup(req.app).value, conn.value.region)))
  {
  }

  /** An empty topic list gives an empty map, even with no coordinator. */
  lemma EmptyTopicsEmptyMap(conn: Option<Connection>, req: Request,
                            findGroup: string -> Option<Broker>,
                            toNode: (Broker, string) -> BrokerNode)
    requires Admits(conn, req.app) && req.topics == []
    ensures Reply(conn, req, findGroup, toNode) == Coordinators(map[])
  {
  }
}
