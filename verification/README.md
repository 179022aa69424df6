# Verified model of the publish/subscribe library

The library speaks MQTT and Sparkplug B (Sparkplug Specification 3.0.0). This
project models its three stateful parts and proves what they keep over whole
runs.

**Metric replication** (`Text`, `OrderedMap`, `Wire`, `Property`, `Metrics`,
`Payloads`, `PayloadHelpers`, `RoundTrip`, `TypedValues`, `Delta`, `Replica`, `PlainBirth`,
`LostUpdate`, `DeltaRace`, `PublishTopics`). A metric keeps its value as text beside a `valid` and an
`updated` flag. A payload is a case-insensitive map of metrics. `PayloadHelper`
writes a payload into a protobuf message, in full or as a delta of the flagged
metrics, casting values into unsigned wire fields; the receiver finds its metric
by name or alias and reads the field by the type it knows. Text is modelled
character by character (decimal printing, stream extraction with saturation, the
two's-complement casts), and messages as datatypes with optional fields.

**Session machines** (`Timing`, `Nodes`, `NodeTrace`, `NodeTiming`, `NodeProgress`, `Hosts`,
`MqttClients`). A node with its devices, a host and a plain MQTT client each run
a timer-driven worker loop. One iteration is one step; what it reads (clock,
service switch, connection, delivery, results of create and connect) is an input
that may be anything, and a connection that is looked at twice may change in
between. A ghost log records connect attempts, wills, publication attempts and
device commands. A publication attempt is a call of a publish function; only one
made while connected is handed over and takes a sequence number.

**Receivers and topics** (`Topics`, `Registry`, `Staleness`, `Aliases`). Topic
names are split and joined, remote hosts and nodes are found or created, metrics
of remote nodes go stale, and aliases are given out before a birth.

Classes hold the state that the library changes in place, and every method says
what it makes of the old state with a function on values (`State()` gives the
value). The theorems are about those functions: one call, a message, or a run of
any length.

## What does not hold of the code

Each of these is a lemma, with the exact condition where the wanted property
depends on one.

- A message made by `Payload::GenerateProtobuf` is a delta, births included. Read by
  an empty receiver it brings exactly the flagged metrics that have no alias, and
  never a type. It is complete if and only if every metric is flagged and has no
  alias, and a copy if and only if no metric has a type either
  (`PlainBirth.PlainBirthKeys`, `PlainBirth.PlainBirthComplete`). A node whose
  aliases are assigned announces nothing (`PlainBirth.PlainBirthAnnouncesNothing`).
  The comment at `src/payloadhelper.cpp:185` expects births to hold everything.
  Replica agreement is therefore stated from a full message.
- `PublishTopics` takes the flags down before a protobuf body is generated, so such a
  body has no metrics (`PublishTopics.PublishProtobufTopic`), but for those whose flag
  a setter raises between the reset and the look at it (`DeltaRace.OutIffRaised`).
- `WriteProtobuf` reads a metric before it takes its flag down. It loses an update
  exactly when it takes the flag down while the value differs from the text read and
  no setter has yet to raise the flag (`DeltaRace.StepLoses`,
  `DeltaRace.LostExactlyWhen`).
- A value text with a space does not survive `GetMqttString`
  (`Metrics.ValueWithUnitRoundTrip`).
- The 8-bit accessor reads a copied metric differently when the number is beyond
  the 32-bit range (`Wire.NarrowReadRoundTrip`).
- The poll before an NDEATH does not take down devices when only the host has
  gone, whatever the comment at `src/sparkplugnode.cpp:1004` says. The first iteration
  of a session attempts a DBIRTH for exactly the devices that were offline, so not
  for such a device (`NodeTiming.DevicesAfterLeaving`,
  `NodeTiming.BirthsAtSessionStart`).
- A device that is found out of service, or whose node is, at every second poll while
  the node is online is born and dies poll after poll
  (`NodeTiming.OutOfServiceDeviceFlaps`).
- A device that is stopped while it and its node are online publishes a DDEATH but goes
  on as an online device: in service, its next poll publishes nothing
  (`NodeProgress.StoppedStaysOnline`).
- Of property sets nested in properties, a receiver that creates a property in such a
  set drops all that lie deeper (`Property.DeeperSetsDropped`).
- Nodes, hosts and clients that are online never look at their connection: as long as
  they are wanted they make no further connect attempt (`NodeTiming.NoReconnect`,
  `Hosts.NoReconnect`, `MqttClients.NoReconnect`).
- A host started a second time keeps the payload's online metric of the first run
  until its first connect attempt (`Hosts.AnnouncementAgrees`).
- A client found idle and out of service may connect again at once
  (`MqttClients.ClearedTimerAllowsEarlyAttempt`).
- Some topic names do not survive splitting and joining
  (`Topics.TextRoundTrip`, `Topics.FieldsRoundTrip`).

## Model

| member | source | states |
|---|---|---|
| Replica.ReplicaAgreement | src/payloadhelper.cpp:165-541 | after a full birth of any payload whose non-zero aliases are distinct and any sequence of writes, delta publications and in-order deliveries, what is in flight brings the receiver to the sender's typed value for every metric of integer, boolean or string type whose flag is down, resolved by alias or, without one, by name; at rest with all flags down both sides are equal |
| Replica.BirthAgrees | src/payloadhelper.cpp:386-414 | an empty receiver that creates metrics gets the same metrics in the same order from a full message, with name, alias, type and, but for floats, typed value |
| Replica.DeltaAgrees | src/payloadhelper.cpp:181-197 | a delta brings exactly the flagged metrics to the sender's value and leaves every other receiver metric as it was |
| Replica.RunConsistent | include/pubsub/metric.h:166-185 | the replica invariant is kept by every write, publication and delivery |
| PlainBirth.PlainBirthAnnounces | src/payload.cpp:91-95 | from a message without the full flag an empty receiver gets exactly the flagged metrics without alias, in order, under their names, without a type |
| PlainBirth.PlainBirthKeys | src/payloadhelper.cpp:188-195 | such a receiver knows a name, up to case, if and only if a flagged metric without alias has it |
| PlainBirth.PlainBirthComplete | src/payloadhelper.cpp:185-187 | it has all metrics if and only if each is flagged and has no alias, and a copy of name, alias, type and typed value if and only if none has a type either |
| PlainBirth.PlainBirthAnnouncesNothing | src/payload.cpp:91-95 | nothing is created if and only if every flagged metric has an alias, as after the assignment of aliases |
| RoundTrip.MetricRoundTrip | src/payloadhelper.cpp:217-354 | a metric of any type written in full and read into a blank one keeps name, alias, timestamp, type, the three flags, the typed value (left open for floats) and, under every key but the empty one, its properties |
| RoundTrip.ValueCarried | src/payloadhelper.cpp:509-541 | any value text, in full or delta form, is read back as the same typed value by a metric of the same type, which is then valid |
| RoundTrip.IdentityKept | src/payloadhelper.cpp:495-503 | name, alias and type of a metric each stay if and only if there is one already, or creation is off, or the entry has none to give |
| RoundTrip.HeadCarried | src/payloadhelper.cpp:379-385 | timestamp, sequence number and uuid of the sender, each in its field of the message, become the receiver's; an empty uuid is not sent and leaves that of the receiver |
| RoundTrip.StampRoundTrip | src/payload.cpp:17-40 | a payload that has been stamped tells that time, by its metric called timestamp if it has one, and no other metric changes |
| TypedValues.IntegerCarried | src/payloadhelper.cpp:233-271 | every number in the range of its type, the bounds written as numbers, goes out in the 32-bit field for the 8- to 32-bit types and in the 64-bit field for the 64-bit ones, in two's complement, and is stored by a receiver of that type as the same decimal text |
| TypedValues.BooleanCarried | src/payloadhelper.cpp:260-263 | a Boolean goes out in the Boolean field and is stored as 1 or 0 |
| TypedValues.TextCarried | src/payloadhelper.cpp:265-270 | any text of a type that is neither numeric nor Boolean goes out in the string field and arrives character by character |
| TypedValues.FloatCarried | src/payloadhelper.cpp:252-258 | each floating-point type has its own field, and what the text says is carried |
| TypedValues.WireIntegerStored | src/payloadhelper.cpp:509-530 | the decimal text that any wire integer becomes: read in two's complement for the four signed types, as it is for all others |
| TypedValues.FlagsStored | src/payloadhelper.cpp:504-507 | what an entry does not say is false, or the payload's time; a transient flag without a historical flag does not count |
| TypedValues.EntryTime | src/payloadhelper.cpp:504 | an entry without timestamp takes the time in the head of its message |
| TypedValues.TypeTaken | src/payloadhelper.cpp:501-503 | a metric without type takes that of the entry where creation is on; a code that is no type leaves it unknown |
| TypedValues.BytesAreText | src/payloadhelper.cpp:537-541 | a value of bytes is taken exactly as the same text would be |
| TypedValues.BeyondRange | include/pubsub/metric.h:205-217 | a number beyond the range of a type is read as its bound, and by an unsigned type as its largest value; a negative one wraps around |
| TypedValues.PropertyCarried | src/payloadhelper.cpp:307-346 | properties carry the numbers of the integer types alike, and DateTime as an unsigned 64-bit number |
| TypedValues.NumericTextSplits | src/metric.cpp:47-61 | a text set into a metric of numeric type is the value up to its first space, and the rest becomes the unit unless there is one |
| TypedValues.PlainTextTaken | src/metric.cpp:75-106 | views and character pointers are stored unsplit for all types, and a null pointer as the empty text |
| Wire.ValueRoundTrip | src/payloadhelper.cpp:233-271 | for every integer, boolean and string kind and every text, the stored copy reads like the original: printing, extraction and casts cancel over the whole range |
| Wire.NarrowReadRoundTrip | src/metric.cpp:167-177 | the 8-bit reading of the copy equals that of the original if and only if the number is below 2^31 |
| Text.ScanPrint | include/pubsub/metric.h:166-217 | extracting what was printed gives the number back, for every integer |
| Property.WritePropertySet | src/payloadhelper.cpp:287-354 | the loop writes the keys and values of the non-empty keys in order and reports whether there was one |
| Property.ParsePropertyValue | src/payloadhelper.cpp:613-669 | the recursive parser is the specified reading, by the type the receiver knows |
| Property.ParsePropertySet | src/payloadhelper.cpp:671-695 | the key loop, with missing values, empty and repeated keys, nested sets and the copy that drops them |
| Property.PropertyRoundTrip | src/metricproperty.cpp:54-118 | a property written in full and read into a typed blank one has the same type, null flag and typed value (left open for floats) |
| Property.SetRoundTrip | src/payloadhelper.cpp:551-576 | any number of properties of any types come back as the same case-insensitive map; of floats only the value is left open |
| Property.SetUpdate | src/payloadhelper.cpp:551-576 | a message, in full or delta form, brings the properties that the receiver has, under the same keys and types, to the sender's type, null flag and typed value (left open for floats) |
| Property.PropertyMade | src/payloadhelper.cpp:562-570 | a property that the metric lacks is made only with creation, of the type the message gives it, and a string without one |
| Property.SetRead | src/payloadhelper.cpp:671-695 | each of the distinct keys of a nested set is read into the property found under it, or, with creation, into a new one |
| Property.NestedLookup | src/payloadhelper.cpp:654-665 | so it is at every depth: a nested set is read into the first set of its property, or a new one |
| Property.NestedRead | src/payloadhelper.cpp:654-665 | the other sets stay; a first set is made, and the text cleared, only with creation |
| Property.DeeperSetsDropped | src/metricproperty.cpp:11-17 | a set of distinct keys that is read into a new property stays one level deep |
| Property.AddedLookup | src/metric.cpp:235-243 | every lookup after a property is added: a copy without nested sets, or the old one with all but its nested sets overwritten |
| Property.ValueKeepsShape | src/payloadhelper.cpp:654-665 | without creation no key and no type changes at any depth below a property |
| Property.MergedKeepsShape | src/payloadhelper.cpp:556-575 | nor does any in the property list of a metric |
| Metrics.Metric.SetInt | include/pubsub/metric.h:166-185 | stores the printed number, makes the metric valid, raises the flag if the text changed |
| Metrics.Metric.SetBool | src/metric.cpp:108-121 | the same for booleans |
| Metrics.Metric.SetString | src/metric.cpp:47-73 | splits a numeric text at the first space and keeps the rest as unit if there is none yet |
| Metrics.Metric.SetView | src/metric.cpp:75-87 | stores a text as it is |
| Metrics.Metric.SetChars | src/metric.cpp:89-106 | stores a text, or clears it for null |
| Metrics.Metric.AddProperty | src/metric.cpp:235-243 | inserts a copy or overwrites in place, by key up to case |
| Metrics.Metric.SetUnit | src/metric.cpp:281-285 | the unit is the property of that name |
| Metrics.Metric.GetMqttString | src/metric.cpp:301-311 | value text, with the unit behind a space if there is one |
| Metrics.ValueWithUnitRoundTrip | src/metric.cpp:301-311 | the MQTT text set into a blank metric of the same numeric type restores value and unit if and only if the value text has no space |
| OrderedMap.EquivalentIffSame | include/pubsub/payload.h:29-30 | keys are equivalent for the map exactly when they are equal up to case |
| OrderedMap.SameIsCaseless | include/pubsub/payload.h:29-30 | keys are equal up to case exactly when they differ at most in the case of ASCII letters |
| OrderedMap.InsertSorted | include/pubsub/metricproperty.h:23-24 | inserting a new key keeps the order, hence no duplicates |
| OrderedMap.LookupInsert | src/payload.cpp:98-109 | what every lookup sees after an insertion |
| Payloads.AliasIndex | src/payload.cpp:52-59 | the first metric in map order with the alias, or none |
| Payloads.Payload.GetMetric | src/payload.cpp:62-66 | lookup by name up to case |
| Payloads.Payload.GetMetricByAlias | src/payload.cpp:52-59 | the search loop finds the first metric with the alias |
| Payloads.Payload.CreateMetric | src/payload.cpp:98-109 | finds or inserts; the list stays sorted and its objects distinct |
| Payloads.Payload.GetTimestamp | src/payload.cpp:37-40 | a metric called timestamp answers for the payload |
| Payloads.Payload.SetTimestamp | src/payload.cpp:17-35 | such a metric is written along |
| PayloadHelpers.PayloadHelper.WriteMetric | src/payloadhelper.cpp:217-285 | the entry for a metric, with name and type as the full flag and the alias decide |
| PayloadHelpers.PayloadHelper.WriteProtobuf | src/payloadhelper.cpp:165-215 | the body holds the message, exactly the metrics written have their flag taken down, nothing else changes |
| PayloadHelpers.PayloadHelper.ParseMetric | src/payloadhelper.cpp:490-580 | identity, flags, value and properties of one entry, in this order |
| PayloadHelpers.PayloadHelper.ParseEntry | src/payloadhelper.cpp:387-414 | resolve by name, else by alias, else create, else ignore |
| PayloadHelpers.PayloadHelper.ParseProtobuf | src/payloadhelper.cpp:356-419 | the whole message, entry after entry, on the payload's objects |
| PayloadHelpers.GenerateProtobuf | src/payload.cpp:91-95 | the body is a delta |
| PayloadHelpers.ParseSparkplugProtobuf | src/payloadhelper.cpp:356-419 | parsing with the given creation flag |
| Delta.DeltaKeepsStructure | src/payloadhelper.cpp:356-419 | without creation any message leaves the metrics, their names, aliases and types and all property keys at every depth unchanged, but for a unit property that may appear |
| Delta.UnmatchedChangesNothing | src/payloadhelper.cpp:387-413 | a metric to which no entry of a message resolves is left exactly as it was, value and all (one called timestamp: as the message's stamp leaves it) |
| Delta.ParsedKeepsStructure | src/payloadhelper.cpp:490-580 | the same for one entry |
| LostUpdate.NoLostUpdate | src/ipubsubclient.cpp:201-212 | from any start at which unflagged metrics are shown, in every interleaving of any number of writers with the publisher, each metric that the body has a place for shows its current text, or its flag is up, or a writer is about to raise it, or the publisher has yet to read it; at rest the body is current |
| LostUpdate.StepSafe | src/itopic.cpp:66-85 | every single shared access keeps that |
| LostUpdate.PublishesAlone | src/ipubsubclient.cpp:201-212 | left alone with a flag up, number u the first of n, the publisher is done after 2u + 2n + 5 accesses, with every flag down and the body current |
| LostUpdate.NothingToPublish | src/ipubsubclient.cpp:201-212 | left alone with no flag up it looks at each once and leaves everything as it was |
| DeltaRace.StepLoses | src/payloadhelper.cpp:188-196 | of all accesses by setters, `WriteProtobuf` and the resets before it only taking the flag down loses an update, and does so if and only if the value differs from the text read and no setter has yet to raise the flag |
| DeltaRace.LostExactlyWhen | src/payloadhelper.cpp:181-197 | in every interleaving of any number of setters with any number of passes, an update is lost if and only if such an access lost it and neither a new text nor a reading followed |
| DeltaRace.LostAtRest | src/metric.cpp:63-72 | with all setters done, an update is lost if and only if the value differs from the text last read and no raise fell after the last clear |
| DeltaRace.WritesAlone | src/payloadhelper.cpp:181-197 | left alone, the write is done after at most 3n + 1 accesses; it has read exactly the metrics that were flagged, or all, and taken down exactly their flags |
| DeltaRace.LostBetween | src/payloadhelper.cpp:188-196 | a text stored and flagged between reading and clearing is lost; flagged behind the clearing it is not |
| PublishTopics.IsUpdated | src/itopic.cpp:66-74 | the search loop finds a flag if there is one |
| PublishTopics.ResetUpdated | src/itopic.cpp:76-85 | every flag is down and nothing else changed |
| PublishTopics.PublishProtobufTopic | src/ipubsubclient.cpp:201-212 | without other threads a protobuf body published this way has no metric |
| DeltaRace.OutIffRaised | src/ipubsubclient.cpp:207-210 | in every interleaving a metric goes out in such a body if and only if a setter raised its flag between its reset and the look at its flag |
| Nodes.SparkplugDevice.Poll | src/sparkplugdevice.cpp:199-224 | the fields of device and node move as the step that the trace theorems range over: the log gains at most one entry, which carries the number taken |
| Nodes.SparkplugDevice.Start | src/sparkplugdevice.cpp:65-69 | a new stretch of the device begins in the log |
| Nodes.SparkplugDevice.Stop | src/sparkplugdevice.cpp:71-77 | a death if device and node are online; the device keeps its state |
| Nodes.SparkplugNode.NextSequenceNumber | src/sparkplugnode.h:43 | the 8-bit counter, read and stepped around |
| Nodes.SparkplugNode.DoPublish | src/sparkplugtopic.cpp:25-34 | a message takes one number, and none without a connection |
| Nodes.SparkplugNode.PollDevices | src/sparkplugnode.cpp:1083-1089 | the loop over shared fields equals polling one device after the other on values, so their numbers follow the order of the map |
| Nodes.SparkplugNode.PublishNodeBirth | src/sparkplugnode.cpp:1023-1035 | the attempt is logged with the number it took, or none without a connection |
| Nodes.SparkplugNode.PublishNodeDeath | src/sparkplugnode.cpp:1037-1049 | the attempt is logged with the number it took, or none without a connection |
| Nodes.SparkplugNode.DoIdle | src/sparkplugnode.cpp:935-975 | an attempt is made only past the timer, in service and with a host; the timer is ten seconds ahead after either failure and five after success |
| Nodes.SparkplugNode.DoWaitOnConnect | src/sparkplugnode.cpp:977-999 | back to idle only past the timer and unconnected at the first look; NBIRTH and the devices' births only if connected at the second |
| Nodes.SparkplugNode.DoOnline | src/sparkplugnode.cpp:1001-1012 | devices are polled first, then NDEATH ends the session on stop, out of service or a missing host |
| Nodes.SparkplugNode.DoWaitOnDisconnect | src/sparkplugnode.cpp:1014-1021 | idle again on delivery or timeout, with the timer ten seconds ahead |
| Nodes.SparkplugNode.NodeTask | src/sparkplugnode.cpp:869-903 | the fields after the loop are those of the run the trace and timing theorems quantify over |
| NodeTrace.LogGrammar | src/sparkplugnode.cpp:869-1049 | in every run NBIRTH and NDEATH attempts may only alternate, the node is online exactly when the last is NBIRTH, every DBIRTH and DDEATH lies inside a session, and between its own start and stop a device alternates, beginning with a DBIRTH after a start, and is online exactly after a DBIRTH |
| NodeTrace.NodeEventsAlternate | src/sparkplugnode.cpp:1001-1012 | so node events alternate strictly, births first |
| NodeTrace.SequenceNumbers | src/sparkplugtopic.cpp:25-34 | the k-th message handed over by the node or any device carries k modulo 256 behind the counter's start; wills and unconnected attempts take no number |
| NodeTrace.NumbersApart | src/sparkplugnode.h:116 | consecutive numbers differ by one modulo 256, and two are equal exactly when they are a multiple of 256 messages apart |
| NodeTiming.AttemptsSpaced | src/sparkplugnode.cpp:935-1021 | connect attempts are ten seconds apart through every failure, timeout and disconnect |
| NodeTiming.SteppedAttempts | src/sparkplugnode.cpp:945-970 | exactly an idle node past its timer, in service and with its host, makes an attempt |
| Timing.AttemptsSpan | src/sparkplugnode.cpp:961-970 | n attempts span at least n - 1 times ten seconds |
| NodeTiming.BoundedShutdown | src/sparkplugnode.cpp:935-1021 | out of service for good and polled at most g ms apart, a node is idle after 10 000 ms and 3 g and stays idle, wherever the connection is lost, between the two looks of an iteration too; automatic reconnects are off (line 634) |
| NodeTiming.IteratedDeadline | src/sparkplugnode.cpp:977-1021 | the measure behind it: no iteration moves the deadline, including one that sees the connection go |
| NodeTiming.TimerBoundReached | src/sparkplugnode.cpp:972-1008 | every reachable state satisfies the bound on the timer |
| NodeTiming.AtMostOneMoreBirth | src/sparkplugnode.cpp:995-998 | on the way down at most one more NBIRTH is attempted, and none unless the node was waiting for its connection |
| NodeTiming.NoReconnect | src/sparkplugnode.cpp:1001-1012 | while it is wanted, a node that is online stays so and makes no connect attempt, whatever happens to its connection |
| NodeTiming.OnlineThroughout | src/sparkplugnode.cpp:1003-1008 | a node is online after every prefix of a run if and only if every iteration finds it wanted |
| NodeTiming.DevicesAfterLeaving | src/sparkplugnode.cpp:1003-1008 | after the iteration that ends the session a device is online if and only if it was offline, or was online with itself and the node still in service |
| NodeTiming.BirthsAtSessionStart | src/sparkplugdevice.cpp:199-224 | the iteration that begins a session attempts a DBIRTH for a device if and only if the device was offline |
| NodeTiming.OutOfServiceDeviceFlaps | src/sparkplugdevice.cpp:199-224 | in an online node a device that starts online publishes at every poll if and only if every second poll, from the first, finds itself or the node out of service; it then alternates |
| NodeProgress.IdleIteration | src/sparkplugnode.cpp:935-975 | an idle node waits for its connection, 5 000 ms from now, exactly after an iteration past its timer, in service, with its host, in which create and connect succeed; a failure costs 10 000 ms |
| NodeProgress.WaitingIteration | src/sparkplugnode.cpp:977-999 | a waiting node is online, with an NBIRTH first in the log, exactly when it has not given up at the first look and sees the connection at the second; it gives up past its timer and unconnected, and otherwise stays as it is |
| NodeProgress.LeavingIteration | src/sparkplugnode.cpp:1001-1012 | an online node leaves exactly when stopped, out of service or without host, with NDEATH last in the log and 5 000 ms to wait |
| NodeProgress.PolledInOrder | src/sparkplugnode.cpp:1083-1089 | what the devices publish in one round comes in the order of their map, at most one message each |
| NodeProgress.ReachesOnline | src/sparkplugnode.cpp:869-999 | from the start of the loop, once the first wanted iteration starts a connect, the first later iteration that decides brings the node online if and only if it sees the connection before the node gives up |
| NodeProgress.OnlineNeedsConnection | src/sparkplugnode.cpp:869-999 | no run is ever online unless an iteration started a connect and a later one saw the connection |
| NodeProgress.BornAtSecondPoll | src/sparkplugdevice.cpp:199-224 | a started device publishes its DBIRTH, and is online, at its second poll in an online node |
| NodeProgress.StoppedStaysOnline | src/sparkplugdevice.cpp:71-77 | a device stopped while online publishes a DDEATH and nothing at its next poll in service |
| Hosts.SparkplugHost.SendConnect | src/sparkplughost.cpp:275-285 | the will is made after the payload went offline |
| Hosts.SparkplugHost.PublishState | src/sparkplughost.cpp:344-354 | payload and message carry the same value |
| Hosts.SparkplugHost.DoIdle | src/sparkplughost.cpp:364-378 | past the timer the timer moves before the attempt, whether or not that fails |
| Hosts.SparkplugHost.DoWaitOnConnect | src/sparkplughost.cpp:380-415 | back to idle past the timer, connected or not; else the state announced is the one entered |
| Hosts.SparkplugHost.DoOnline | src/sparkplughost.cpp:417-428 | leaving Online announces offline, on stop and out of service |
| Hosts.SparkplugHost.DoOffline | src/sparkplughost.cpp:430-440 | entering Online announces online; a stop announces nothing |
| Hosts.SparkplugHost.DoWaitOnDisconnect | src/sparkplughost.cpp:442-450 | idle again on delivery or timeout, with the timer ten seconds ahead |
| Hosts.SparkplugHost.HostTask | src/sparkplughost.cpp:210-244 | the fields after the loop are those of the run the theorems quantify over, begun with whatever the payload held |
| Hosts.AnnouncementAgrees | src/sparkplughost.cpp:344-450 | in every run the last published STATE value is online exactly in Online, every will says offline, and the payload's online metric equals Online if and only if the run began with it clear or an attempt has been made |
| Hosts.AttemptsSpaced | src/sparkplughost.cpp:364-450 | connect attempts are ten seconds apart |
| Hosts.NoReconnect | src/sparkplughost.cpp:417-440 | once connected a host follows its service switch and never attempts to connect again, until it is stopped |
| Hosts.ReachesOnline | src/sparkplughost.cpp:364-415 | after a first successful connect, the first iteration that decides brings the host online if and only if it comes within 10 000 ms, is connected and delivered, and in service |
| Hosts.ConnectedIteration | src/sparkplughost.cpp:417-440 | what a connected host announces, becomes and waits for: offline when it leaves Online, online when it enters it, nothing on a stop in Offline |
| MqttClients.MqttClient.DoIdle | src/mqttclient.cpp:738-775 | out of service the timer is zero; otherwise an attempt past the timer, with the timer ten seconds ahead on failure and five on success |
| MqttClients.MqttClient.DoWaitOnConnect | src/mqttclient.cpp:777-797 | back to idle past the timer, connected or not; online only if connected and delivered |
| MqttClients.MqttClient.DoOnline | src/mqttclient.cpp:799-808 | topics are published while in service, else a disconnect with five seconds to wait |
| MqttClients.MqttClient.DoWaitOnDisconnect | src/mqttclient.cpp:810-817 | idle again on delivery or timeout, with the timer ten seconds ahead |
| MqttClients.MqttClient.ClientTask | src/mqttclient.cpp:644-678 | the fields after the loop are those of the run the theorems quantify over |
| MqttClients.BoundedShutdown | src/mqttclient.cpp:738-817 | out of service for good a client is idle after 10 000 ms and two poll intervals, and stays idle |
| MqttClients.AttemptsSpaced | src/mqttclient.cpp:738-817 | in every run on a forward clock any two attempts are ten seconds apart, unless the timer was cleared between them |
| MqttClients.ClearedTimerAllowsEarlyAttempt | src/mqttclient.cpp:748-751 | after any iterations idle and out of service the next one in service makes an attempt, however recent the last |
| MqttClients.NoReconnect | src/mqttclient.cpp:799-808 | while it is wanted, a client that is online publishes in every iteration and makes no connect attempt, whatever happens to its connection |
| MqttClients.ReachesOnline | src/mqttclient.cpp:738-797 | once the first iteration in service starts a connect, the first iteration that decides brings the client online if and only if it comes within 5 000 ms and is connected and delivered |
| Topics.Topic.SetTopic | src/itopic.cpp:14-39 | the character loop fills blank fields level by level and moves a host's name |
| Topics.Topic.AssignLevelName | src/itopic.cpp:91-126 | a level's field takes a name only while blank |
| Topics.Topic.GetTopic | src/itopic.cpp:41-64 | the kept text, or the join of the fields that are not blank |
| Topics.TextRoundTrip | src/itopic.cpp:14-64 | splitting and joining a text restores it if and only if its two to five parts are not blank, the namespace fits, and a host's text has no more than three parts (or it is the namespace alone) |
| Topics.FieldsRoundTrip | src/itopic.cpp:41-64 | joining and splitting slash-free fields restores all five if and only if they are two to five leading ones without group STATE, a host's, or none |
| Topics.NamespaceIgnored | src/sparkplugtopic.cpp:19-23 | a Sparkplug topic reads a text alike whatever its namespace says |
| Registry.RegistryIsMap | src/sparkplugnode.cpp:1182-1207 | after any sequence of messages the list has no key twice up to case and is the map in which the first to name a key enters it |
| Registry.KeysAreThoseNamed | src/sparkplugnode.cpp:327-382 | its keys are exactly those named by STATE, NBIRTH, DBIRTH, DCMD and DDATA messages about someone else |
| Registry.NeverItself | src/sparkplugnode.cpp:1118-1120 | the client never enters its own list |
| Registry.NodeBirthHeard | src/sparkplugnode.cpp:1180-1207 | after any messages, an NBIRTH on the text space/g/NBIRTH/n appends exactly the node n of group g, unless the client itself or an entry answers to it up to case |
| Registry.DeviceHeard | src/sparkplugnode.cpp:1343-1371 | the same for DBIRTH, DCMD and DDATA on space/g/kind/n/d |
| Registry.StateHeard | src/sparkplugnode.cpp:1135-1158 | a message on space/STATE/h appends exactly the host h, unless the client is that host or an entry answers to it |
| Registry.OthersHeard | src/sparkplugnode.cpp:364-382 | NDEATH, NDATA, NCMD and DDEATH leave the list as it is, on four parts or five |
| Registry.NoneTwice | src/sparkplugnode.cpp:1182-1207 | no two entries of one kind have the same group and name up to case |
| Registry.RemoteClients.GetHost | src/sparkplugnode.cpp:1091-1112 | the search agrees with the map |
| Registry.RemoteClients.GetNode | src/sparkplugnode.cpp:1114-1132 | the search agrees with the map; empty names find nothing |
| Registry.RemoteClients.HandleStateMessage | src/sparkplugnode.cpp:1135-1158 | appends a host unless the client itself or the list answers for it, ignoring case |
| Registry.RemoteClients.HandleNodeBirthMessage | src/sparkplugnode.cpp:1180-1207 | appends a node unless the client itself or the list answers for it, ignoring case |
| Registry.RemoteClients.HandleDeviceMessage | src/sparkplugnode.cpp:1343-1371 | appends the node of a device unless the client or the list answers for it; the handlers of DCMD (line 1455) and DDATA (line 1512) share this code |
| Registry.RemoteClients.Receive | src/sparkplugnode.cpp:327-382 | from the text of a topic to the list: deaths, node data, node commands, empty names and negative lengths introduce nobody |
| Staleness.SetAllMetricsInvalid | src/itopic.cpp:136-144 | every metric is stale and nothing else changed |
| Staleness.RemoteNode.HandleBirth | src/sparkplugnode.cpp:1180-1228 | parses with creation |
| Staleness.RemoteNode.HandleData | src/sparkplugnode.cpp:1306-1341 | parses without creation, if the node is known |
| Staleness.RemoteNode.HandleDeath | src/sparkplugnode.cpp:1229-1268 | makes the metrics of a known node stale |
| Staleness.ValidIffValueSinceDeath | src/sparkplugnode.cpp:1180-1341 | after any sequence of messages a metric is valid if and only if a value for it was parsed after the most recent NDEATH |
| Staleness.EntryValidity | src/payloadhelper.cpp:387-414 | one entry makes exactly the metric it carries a value to valid |
| Staleness.DeathOnlyInvalidates | src/sparkplugnode.cpp:1229-1268 | a death makes every metric of a known node stale and changes nothing else of it |
| Staleness.KnownSinceBirth | src/sparkplugnode.cpp:1180-1228 | after any messages a node has a payload if and only if one of them was an NBIRTH |
| Staleness.NeverForgotten | src/sparkplugnode.cpp:1180-1341 | no message makes the client forget a metric of the node |
| Aliases.AssignAliasNumbers | src/sparkplugnode.cpp:1567-1599 | the loops number the metrics of all births in turn and change nothing but aliases |
| Aliases.AliasesAreOneToTotal | src/sparkplugnode.cpp:1567-1599 | the aliases, list after list, are 1, 2, and so on to the total, each once |
| Aliases.LookupsAgree | src/payload.cpp:52-66 | in its own payload a metric's alias finds what its name finds, and nothing in any other |

## Left out

- Replica.ReplicaAgreement: local writes do not overlap with `WriteProtobuf`, because the overlap loses updates; a payload with a metric called timestamp is not covered, since stamping writes that metric on both sides, nor one with a metric of empty name, which is never written.
- NodeTiming.BoundedShutdown: takes it that a connection an iteration has seen go is not back at the next one, since automatic reconnects are off and only `DoIdle` connects; `NodeTiming.WaitsWhileConnectionDrops` says what would happen in surroundings that reconnect by themselves.
- Staleness.ValidIffValueSinceDeath: says nothing about a metric called timestamp, which every message writes.
- RoundTrip.MetricRoundTrip: property sets nested in properties are never written.
- Aliases.AssignAliasNumbers: aliases are unbounded numbers; a 64-bit counter would have to wrap to differ.
- Float and double values: their text comes from a library outside the repository; they are carried as text. A payload may hold them, and their names, aliases, types and validity are covered like any other; only their typed values are not.
- The unsigned 8-bit accessor, which reads with `stoul`.
- Meta data, data sets, templates, and a protobuf message wrapped in another's body field.
- Protobuf bytes, JSON text, MQTT calls, TLS, listen and log output, XML configuration: foreign code or input and output; a JSON or text body stands for the texts of its metrics.
- `util::string::IgnoreCase` and `IEquals` are not part of this repository; they are taken as ASCII case folding.
- What follows the stop flag at the end of the worker loops; several runs are modelled by the state a run starts in.
- Device commands during an iteration: `Start` and `Stop` of a device happen between iterations, and the list of devices does not change during a run.
- Topics that the handlers and publish functions look up by message type are there; the branches for missing ones only log.
- The effect of device births and of node commands on metrics: topics of remote devices are created as published ones, so their payloads are ignored.
- A topic that already has its fields: they are only filled while blank, so re-parsing is stated for the method and not for the round trips.
- Null metrics in text bodies, which show a star, and metrics added or removed while a topic is published.
