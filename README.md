# Protocol request handlers of the JoyQueue / JournalQ broker

This project models three request handlers of the broker's client protocol. Each one checks
the connection, runs a fixed decision policy over a batch request, and answers with a status
code or a per-key map.

- **FindCoordinator** (`find_coordinator.dfy`). The handler refuses a missing or unauthorised
  connection with `FW_CONNECTION_NOT_EXISTS`. Otherwise it looks up the coordinator broker of the
  request's app once. It then answers every requested topic with the same entry: `SUCCESS` with
  the converted broker node, or `FW_COORDINATOR_NOT_AVAILABLE` with no node.
- **AddConsumer** (`add_consumer.dfy`, `consumer_id.dfy`). After the same guard, the handler walks
  the topics in order. It registers one consumer per topic with the session manager and maps each
  topic to that consumer's id. At the first topic the app may not consume, it answers
  `CN_NO_PERMISSION`. Consumers registered before that topic stay registered.
  The id is `connectionId_sequence_consumer_app_topic`. The sequence is a Java `long` printed in
  decimal.
- **TransactionCommit** (`transaction_commit.dfy`). The handler puts one commit record per
  transaction id. No `Exception` stops it early; a Java `Error` does (see "## Left out"). It
  folds the outcomes into one code. A coded exception other than `SUCCESS` sets the code to its
  own code. Any other `Exception` sets it to `CN_UNKNOWN_ERROR`. A normal return leaves the code alone. So the last failure wins.

`protocol.dfy` holds the shared types: the status codes, `Option`, the connection and the
connection guard.

Each collaborator is an input:

- the connection lookup is an `Option<Connection>`;
- the coordinator lookup is a function from app to `Option<Broker>`;
- the broker-to-node conversion is a function of the broker and the client's region;
- the consumer-permission lookup is a predicate on (topic, app);
- the session manager is a class whose consumer sequence `AddConsumer` appends to;
- the produce service is a class that logs every record it is given and answers each record
  with a fixed outcome function.

Each handler that loops in the source is a method with a loop. The method is proved equal to a
specification function, and lemmas state what the handler promises about that function.

The transaction handler reports the last failure, whatever its kind. It does not rank codes by
severity (`TransactionCommit.LastFailureWins`). AddConsumer stops at the first denied topic and
does not roll back (`AddConsumer.Handle`).

## Model

| member | source | states |
|---|---|---|
| `Protocol.Admits` | joyqueue-server/joyqueue-broker-protocol/src/main/java/com/jd/joyqueue/broker/protocol/handler/FindCoordinatorRequestHandler.java:67 | the guard holds only for a present connection authorised for the app; a missing connection never passes (the same guard is AddConsumerRequestHandler.java:50) |
| `FindCoordinator.Entry` | joyqueue-server/joyqueue-broker-protocol/src/main/java/com/jd/joyqueue/broker/protocol/handler/FindCoordinatorRequestHandler.java:80-90 | the entry's code is SUCCESS exactly when a coordinator broker was found, and only then does it carry a node, the one converted from that broker for the region; otherwise the code is FW_COORDINATOR_NOT_AVAILABLE |
| `FindCoordinator.Reply` | joyqueue-server/joyqueue-broker-protocol/src/main/java/com/jd/joyqueue/broker/protocol/handler/FindCoordinatorRequestHandler.java:62-98 | the reply is an ack exactly when the guard fails, and that ack is FW_CONNECTION_NOT_EXISTS; a coordinator map has exactly the requested topics as keys |
| `FindCoordinator.FindCoordinators` | joyqueue-server/joyqueue-broker-protocol/src/main/java/com/jd/joyqueue/broker/protocol/handler/FindCoordinatorRequestHandler.java:79-98 | the keys of the result are exactly the requested topics; with no coordinator every entry is (no node, FW_COORDINATOR_NOT_AVAILABLE); with a coordinator every entry is (node converted from that broker for the connection's region, SUCCESS) |
| `FindCoordinator.Handle` | joyqueue-server/joyqueue-broker-protocol/src/main/java/com/jd/joyqueue/broker/protocol/handler/FindCoordinatorRequestHandler.java:62-77 | the handler's answer is the specified reply: the connection-not-exists ack when the guard fails, else the uniform per-topic coordinator map |
| `FindCoordinator.GuardShortCircuits` | joyqueue-server/joyqueue-broker-protocol/src/main/java/com/jd/joyqueue/broker/protocol/handler/FindCoordinatorRequestHandler.java:67-70 | a missing or unauthorised connection gets FW_CONNECTION_NOT_EXISTS, and the answer does not depend on the coordinator lookup or the node conversion, so neither is consulted |
| `FindCoordinator.LookupKeyedByAppOnly` | joyqueue-server/joyqueue-broker-protocol/src/main/java/com/jd/joyqueue/broker/protocol/handler/FindCoordinatorRequestHandler.java:80 | the lookup is a single query keyed by the app: two lookups that agree on the app give the same answer whatever the topics |
| `FindCoordinator.AdmittedReply` | joyqueue-server/joyqueue-broker-protocol/src/main/java/com/jd/joyqueue/broker/protocol/handler/FindCoordinatorRequestHandler.java:80-95 | an admitted request gets a map keyed by exactly its topics, all entries equal (no partial success), with SUCCESS and the converted node or COORDINATOR_NOT_AVAILABLE and no node |
| `FindCoordinator.EmptyTopicsEmptyMap` | joyqueue-server/joyqueue-broker-protocol/src/main/java/com/jd/joyqueue/broker/protocol/handler/FindCoordinatorRequestHandler.java:92-97 | an empty topic list yields an empty map, even when no coordinator exists |
| `ConsumerId.LongToString` | journalq-server/journalq-broker-journalq/src/main/java/com/jd/journalq/broker/protocol/handler/AddConsumerRequestHandler.java:86 | the printed sequence number is non-empty, starts with '-' exactly when negative, and never contains an underscore |
| `ConsumerId.LongRoundTrip` | journalq-server/journalq-broker-journalq/src/main/java/com/jd/journalq/broker/protocol/handler/AddConsumerRequestHandler.java:86 | reading back the printed sequence number gives the number: the decimal form loses nothing |
| `ConsumerId.GenerateConsumerId` | journalq-server/journalq-broker-journalq/src/main/java/com/jd/journalq/broker/protocol/handler/AddConsumerRequestHandler.java:85-87 | the id begins with the connection id followed by an underscore and ends with the raw topic |
| `ConsumerId.ConsumerIdDeterminesSequenceAndTopic` | journalq-server/journalq-broker-journalq/src/main/java/com/jd/journalq/broker/protocol/handler/AddConsumerRequestHandler.java:85-87 | for one connection and app, equal ids imply equal sequence numbers and equal topics |
| `AddConsumer.SessionManager.AddConsumer` | journalq-server/journalq-broker-journalq/src/main/java/com/jd/journalq/broker/protocol/handler/AddConsumerRequestHandler.java:66 | registering a consumer appends it to the session manager's consumers and changes nothing else |
| `AddConsumer.BuildConsumer` | journalq-server/journalq-broker-journalq/src/main/java/com/jd/journalq/broker/protocol/handler/AddConsumerRequestHandler.java:75-83 | the consumer carries the generated id, the connection's id, the request app, the raw topic and type JMQ |
| `AddConsumer.IdMap` | journalq-server/journalq-broker-journalq/src/main/java/com/jd/journalq/broker/protocol/handler/AddConsumerRequestHandler.java:55-67 | the response map has exactly the requested topics as keys, each mapped to the id of the consumer built for it |
| `AddConsumer.Built` | journalq-server/journalq-broker-journalq/src/main/java/com/jd/journalq/broker/protocol/handler/AddConsumerRequestHandler.java:75-83 | one consumer per topic, in order, each carrying the generated id, the connection's id, the request app, the raw topic and type JMQ |
| `AddConsumer.FirstDenied` | journalq-server/journalq-broker-journalq/src/main/java/com/jd/journalq/broker/protocol/handler/AddConsumerRequestHandler.java:57-63 | the position where the walk stops: every earlier topic is permitted and the topic there (if any) is not |
| `AddConsumer.FirstDeniedIsFirstFailure` | journalq-server/journalq-broker-journalq/src/main/java/com/jd/journalq/broker/protocol/handler/AddConsumerRequestHandler.java:57-63 | a position whose predecessors all pass and which fails (or is the end) is the stopping position |
| `AddConsumer.GrowByOneTopic` | journalq-server/journalq-broker-journalq/src/main/java/com/jd/journalq/broker/protocol/handler/AddConsumerRequestHandler.java:65-67 | one more permitted topic appends exactly its consumer and adds its topic-to-id entry |
| `AddConsumer.Handle` | journalq-server/journalq-broker-journalq/src/main/java/com/jd/journalq/broker/protocol/handler/AddConsumerRequestHandler.java:46-73 | a refused connection gets FW_CONNECTION_NOT_EXISTS and registers nothing; otherwise exactly the consumers of the topics before the first denied one are appended, with no rollback, and the answer is CN_NO_PERMISSION if a topic was denied, else the map of every topic to its consumer id |
| `AddConsumer.ResponseNamesRegisteredConsumers` | journalq-server/journalq-broker-journalq/src/main/java/com/jd/journalq/broker/protocol/handler/AddConsumerRequestHandler.java:65-72 | the response's keys are exactly the requested topics, and each maps to the id of a consumer registered for that topic |
| `AddConsumer.RegisteredIdsDistinct` | journalq-server/journalq-broker-journalq/src/main/java/com/jd/journalq/broker/protocol/handler/AddConsumerRequestHandler.java:65-67 | consumers one request registers for distinct topics have distinct ids |
| `TransactionCommit.Produce.PutTransactionMessage` | journalq-server/journalq-broker-core/src/main/java/com/jd/journalq/broker/producer/transaction/handler/TransactionCommitRequestHandler.java:48 | putting a record logs it after those already sent, logs the outcome it returns, and returns the service's outcome for it |
| `TransactionCommit.ProducerOf` | journalq-server/journalq-broker-core/src/main/java/com/jd/journalq/broker/producer/transaction/handler/TransactionCommitRequestHandler.java:38 | the producer carries the request's topic and app and type JMQ |
| `TransactionCommit.Step` | journalq-server/journalq-broker-core/src/main/java/com/jd/journalq/broker/producer/transaction/handler/TransactionCommitRequestHandler.java:47-61 | a failure (a coded exception other than SUCCESS, or any other exception) overwrites the code with its own code or CN_UNKNOWN_ERROR; a normal return or a coded SUCCESS leaves the code unchanged |
| `TransactionCommit.Aggregate` | journalq-server/journalq-broker-core/src/main/java/com/jd/journalq/broker/producer/transaction/handler/TransactionCommitRequestHandler.java:39-62 | the fold starts at SUCCESS, and when the last outcome is a failure the result is that failure's code |
| `TransactionCommit.Commits` | journalq-server/journalq-broker-core/src/main/java/com/jd/journalq/broker/producer/transaction/handler/TransactionCommitRequestHandler.java:38-45 | one record per transaction id, in request order, each with the request's topic and app and that id, sent as the producer built from the request's topic and app |
| `TransactionCommit.Outcomes` | journalq-server/journalq-broker-core/src/main/java/com/jd/journalq/broker/producer/transaction/handler/TransactionCommitRequestHandler.java:41-48 | the k-th outcome is the service's answer to the k-th record |
| `TransactionCommit.Handle` | journalq-server/journalq-broker-core/src/main/java/com/jd/journalq/broker/producer/transaction/handler/TransactionCommitRequestHandler.java:36-65 | every transaction id is attempted in order with no early exit (all records are sent, one outcome per id), the outcome log keeps its old part and gains exactly this request's outcomes, and the acknowledged code is the fold of those outcomes |
| `TransactionCommit.SuccessIffNoFailure` | journalq-server/journalq-broker-core/src/main/java/com/jd/journalq/broker/producer/transaction/handler/TransactionCommitRequestHandler.java:39-64 | the code is SUCCESS exactly when no outcome is a failure; an empty request is acknowledged with SUCCESS |
| `TransactionCommit.LastFailureWins` | journalq-server/journalq-broker-core/src/main/java/com/jd/journalq/broker/producer/transaction/handler/TransactionCommitRequestHandler.java:39-64 | the code is that of the last failing outcome: its own code for a coded exception, CN_UNKNOWN_ERROR for any other exception |
| `TransactionCommit.NonFailureIsInvisible` | journalq-server/journalq-broker-core/src/main/java/com/jd/journalq/broker/producer/transaction/handler/TransactionCommitRequestHandler.java:47-57 | a normal return, or a coded exception carrying SUCCESS, anywhere in the batch leaves the code unchanged |

## Left out

- Connection lookup and authorisation. `SessionHelper.getConnection` is an `Option<Connection>` input. `isAuthorized` is membership in the connection's set of authorised apps.
- Coordinator lookup. `Coordinator.findGroup` is a function from app to an optional broker.
- Node conversion. `NameService.getDataCenter` and `BrokerNodeConverter.convertBrokerNode` together are one function of the broker and the client's region. `BrokerNode` carries illustrative fields only.
- Consumer permission. `TopicName.parse` followed by `ClusterManager.tryGetConsumer(...) != null` is one predicate on (raw topic, app).
- Session manager. `SessionManager.addConsumer` is modelled as appending to a sequence. The SessionManager class is not part of this model, so any de-duplication by consumer id that it does is not captured. A request that names a topic twice registers two consumers with the same id, and the response map keeps one entry for it.
- Produce service. `Produce.putTransactionMessage` answers with a fixed function of (producer, record), so a request that repeats a txId gets the same outcome both times. Transaction state inside the broker, which decides that outcome, is not part of this model. `TransactionCommit.Handle` also ensures that the outcome log gains exactly this request's outcomes, in order, after the outcomes already logged, and that the code is the fold of that new part of the log.
- Producer fields. The `Producer` constructor is not part of this model. Its first argument (the topic again) is modelled as the producer id.
- Status codes are symbolic. The numeric values of the code enumerations are not part of this model. The handlers compare integer codes; the model compares constructors.
- `OtherCode(n)` never denotes a code the handlers name: a coded exception carrying SUCCESS is `Coded(Success)`, never `Coded(OtherCode(n))` for SUCCESS's number.
- The two code enumerations, JoyQueueCode (FindCoordinator) and JournalqCode (AddConsumer, TransactionCommit), are merged into one `Code` datatype.
- CN_NO_PERMISSION ack. `BooleanAck.build(JournalqCode.CN_NO_PERMISSION)` passes the enumeration constant rather than its integer code. It is modelled as the same acknowledgement.
- Transaction-not-exists branch. The `CN_TRANSACTION_NOT_EXISTS` comparison in the transaction handler only chooses a log message, so it is not modelled separately.
- Logging. All logging is left out. This includes the warning at AddConsumerRequestHandler.java:61, which refers to a variable `addConsumer` that does not exist.
- Errors. A `Throwable` that is not an `Exception` (a `java.lang.Error`) thrown by `putTransactionMessage` escapes both catch clauses of the transaction handler and ends the request, so the remaining txIds are not sent. The model does not include this path: `Unexpected` stands for `Exception`s only, and `TransactionCommit.Handle` always sends every record.
- Other exceptions. Exceptions thrown by the collaborators of FindCoordinator and AddConsumer (lookups, conversion, session registration) are not modelled. The source does not catch them.
- Wire formats and wiring. The wire encoding of commands and responses, the `type()` methods and the context wiring (`setJoyQueueContext`, `setBrokerContext`) are left out.
- KafkaProtocol.java and IgniteBrokerService.java are lifecycle and DAO plumbing without decision logic, and are not modelled. The group-membership and transaction coordinators behind these handlers are not part of this model.
- Concurrency. Handlers run one request at a time in the model. Concurrent requests against the shared session manager are not modelled.
