/** The AddConsumer request handler: after the connection guard it walks the
    requested topics in order, registers one consumer per topic with the
    session manager, and stops at the first topic the app may not consume,
    leaving the consumers already registered in place. */
module AddConsumer {
  import opened Protocol
  import opened ConsumerId

  datatype ConsumeType = JMQ

  /** A consumer session as the session manager keeps it. */
  datatype Consumer = Consumer(id: string, connectionId: string, app: string, topic: string, kind: ConsumeType)

  datatype Request = Request(topics: seq<string>, app: string, sequence: Long)

  datatype Response =
    | Ack(code: Code)
    | ConsumerIds(consumerIds: map<string, string>)

  /** The broker's registry of consumer sessions, in registration order. */
  class SessionManager {
    var consumers: seq<Consumer>

    constructor ()
      ensures consumers == []
    {
      consumers := [];
    }

    method AddConsumer(consumer: Consumer)
      modifies this
      ensures consumers == old(consumers) + [consumer]
    {
      consumers := consumers + [consumer];
    }
  }

  /** The consumer a connection registers for one topic of a request. */
  function BuildConsumer(conn: Connection, topic: string, app: string, sequence: Long): (c: Consumer)
    ensures c.id == GenerateConsumerId(conn.id, topic, app, sequence)
    ensures c.connectionId == conn.id && c.app == app && c.topic == topic && c.kind == JMQ
  {
    Consumer(GenerateConsumerId(conn.id, topic, app, sequence), conn.id, app, topic, JMQ)
  }

  /** The consumers registered for `topics`, one per topic, in order. */
  function Built(conn: Connection, topics: seq<string>, app: string, sequence: Long): (cs: seq<Consumer>)
    ensures |cs| == |topics|
    ensures forall j | 0 <= j < |cs| ::
      && cs[j].topic == topics[j]
      && cs[j].id == GenerateConsumerId(conn.id, topics[j], app, sequence)
      && cs[j].connectionId == conn.id
      && cs[j].app == app
      && cs[j].kind == JMQ
  {
    seq(|topics|, j requires 0 <= j < |topics| => BuildConsumer(conn, topics[j], app, sequence))
  }

  /** The response map: each topic to the id of its consumer. */
  function IdMap(conn: Connection, topics: seq<string>, app: string, sequence: Long): (m: map<string, string>)
    ensures m.Keys == set t | t in topics
    ensures forall t | t in m :: m[t] == BuildConsumer(conn, t, app, sequence).id
  {
    map t | t in topics :: GenerateConsumerId(conn.id, t, app, sequence)
  }

  /** The position of the first topic for which `permitted` (the cluster's
      consumer-permission lookup) fails, or |topics| when every topic passes. */
  function FirstDenied(topics: seq<string>, app: string, permitted: (string, string) -> bool): (k: nat)
    ensures k <= |topics|
    ensures forall j | 0 <= j < k :: permitted(topics[j], app)
    ensures k < |topics| ==> !permitted(topics[k], app)
  {
    if topics == [] then 0
    else if !permitted(topics[0], app) then 0
    else 1 + FirstDenied(topics[1..], app, permitted)
  }

  /** The handler. `permitted(topic, app)` stands for the cluster manager
      finding a consumer configuration for the parsed topic and the app. */
  method Handle(sessions: SessionManager, conn: Option<Connection>, req: Request,
                permitted: (string, string) -> bool)
    returns (resp: Response)
    modifies sessions
    ensures !Admits(conn, req.app) ==>
      resp == Ack(FwConnectionNotExists) && sessions.consumers == old(sessions.consumers)
    ensures Admits(conn, req.app) ==>
      var k := FirstDenied(req.topics, req.app, permitted);
      && sessions.consumers == old(sessions.consumers) + Built(conn.value, req.topics[..k], req.app, req.sequence)
      && resp == if k < |req.topics| then Ack(CnNoPermission)
                 else ConsumerIds(IdMap(conn.value, req.topics, req.app, req.sequence))
  {
    if conn.None? || !conn.value.IsAuthorized(req.app) {
      return Ack(FwConnectionNotExists);
    }
    var connection := conn.value;
    var result: map<string, string> := map[];
    for i := 0 to |req.topics|
      invariant forall j | 0 <= j < i :: permitted(req.topics[j], req.app)
      invariant sessions.consumers == old(sessions.consumers) + Built(connection, req.topics[..i], req.app, req.sequence)
      invariant result == IdMap(connection, req.topics[..i], req.app, req.sequence)
    {
      var topic := req.topics[i];
      if !permitted(topic, req.app) {
        FirstDeniedIsFirstFailure(req.topics, req.app, permitted, i);
        return Ack(CnNoPermission);
      }
      var consumer := BuildConsumer(connection, topic, req.app, req.sequence);
      sessions.AddConsumer(consumer);
      result := result[topic := consumer.id];
      GrowByOneTopic(connection, req.topics, req.app, req.sequence, i);
    }
    assert req.topics[..|req.topics|] == req.topics;
    FirstDeniedIsFirstFailure(req.topics, req.app, permitted, |req.topics|);
    resp := ConsumerIds(result);
  }

  /** Handling one more topic appends its consumer and adds its id. */
  lemma GrowByOneTopic(conn: Connection, topics: seq<string>, app: string, sequence: Long, i: nat)
    requires i < |topics|
    ensures Built(conn, topics[..i + 1], app, sequence)
         == Built(conn, topics[..i], app, sequence) + [BuildConsumer(conn, topics[i], app, sequence)]
    ensures IdMap(conn, topics[..i + 1], app, sequence)
         == IdMap(conn, topics[..i], app, sequence)[topics[i] := BuildConsumer(conn, topics[i], app, sequence).id]
  {
    assert topics[..i + 1] == topics[..i] + [topics[i]];
  }

  /** FirstDenied is exactly the first failing position: a position whose
      predecessors all pass and that fails itself (or is the end) is it. */
  lemma FirstDeniedIsFirstFailure(topics: seq<string>, app: string, permitted: (string, string) -> bool, i: nat)
    requires i <= |topics|
    requires forall j | 0 <= j < i :: permitted(topics[j], app)
    requires i < |topics| ==> !permitted(topics[i], app)
    ensures FirstDenied(topics, app, permitted) == i
  {
  }

  /** When every topic passes, the response has exactly the requested topics
      as keys and maps each to the id of a consumer registered for it. */
  lemma ResponseNamesRegisteredConsumers(conn: Connection, topics: seq<string>, app: string, sequence: Long)
    ensures var m := IdMap(conn, topics, app, sequence);
            var cs := Built(conn, topics, app, sequence);
      && m.Keys == set t | t in topics
      && forall t | t in m :: exists j | 0 <= j < |cs| :: cs[j].topic == t && cs[j].id == m[t]
  {
    var m := IdMap(conn, topics, app, sequence);
    var cs := Built(conn, topics, app, sequence);
    forall t | t in m
      ensures exists j | 0 <= j < |cs| :: cs[j].topic == t && cs[j].id == m[t]
    {
      var j :| 0 <= j < |topics| && topics[j] == t;
      assert cs[j].topic == t && cs[j].id == m[t];
    }
  }

  /** Consumers registered by one request for distinct topics have distinct ids. */
  lemma RegisteredIdsDistinct(conn: Connection, topics: seq<string>, app: string, sequence: Long, i: nat, j: nat)
    requires i < |topics| && j < |topics| && topics[i] != topics[j]
    ensures Built(conn, topics, app, sequence)[i].id != Built(conn, topics, app, sequence)[j].id
  {
    var cs := Built(conn, topics, app, sequence);
    if cs[i].id == cs[j].id {
      ConsumerIdDeterminesSequenceAndTopic(conn.id, app, topics[i], topics[j], sequence, sequence);
    }
  }
}
