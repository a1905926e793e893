# Verification of the SIL adapter

A model in Dafny of the parts of the C++ SIL adapter that carry its data, time and life cycle,
with proofs of what they promise. `dafny verify dfyconfig.toml` checks all of it.

Six components are modelled.

- **Wire format** (`Bits`, `WireFormat`, `WireRoundTrip`, `WireReEncoding`, `SabSerializer`,
  `SabDeserializer`, `TypeLib`, `Packets`). The serializer and the deserializer are classes with
  the 64-bit accumulator, its flush and its spill. They are proved against an encoding on plain
  bit strings, for schemas nested in any way, and the encoding is proved to round-trip and to be
  canonical. The packets the other components exchange are built with them.
- **Distributed objects** (`DOModel`, `DORuns`, `DOInvariants`, `DORemotes`, `DOTargets`,
  `DOCalls`, `LeftObjects`, `EmptyPayloads`, `DOServices`, `LateJoin`, `LateJoinRuns`, `DOLink`,
  `DOLinkSteps`, `DOSessions`, `DOSessionMoves`, `DOSessionRuns`, `Values`). `DOModel` says what
  each operation of the service does to its state; the class in `DOServices` does so in place,
  with source objects shared by a list and a map. `DORuns` to `DOCalls` prove invariants over all
  runs of one federate: of its registrations, buffers, last data and remote objects, and of the
  names, objects and subscriptions it has asked the RTI for. `LateJoin` joins one provider and one
  consumer by a channel each way and `LateJoinRuns` proves that the consumer converges;
  `DOLinkSteps` proves, operation by operation, that two services make the steps of that link, and
  the session modules that every run of two whole services, joined by the channels of the RTI, is
  one of its runs, so that the consumer's service converges too. `Values` has the value entities
  and data members at the two ends.
- **Simulation time** (`Timers`, `TimingServices`, `TimingModel`, `TimingRuns`, `TimingSteps`).
  The timer queue, the clock and the requests to advance, under the time management of IEEE
  1516.1-2010, sections 8.8, 8.10 and 8.13.
- **Remote method calls** (`Calls`, `CallRuns`, `Methods`, `MethodSteps`). Consumer threads in
  single atomic steps, a network that reorders, drops and duplicates, and a provider.
- **Ambassador** (`Federations`, `Ambassador`, `AmbassadorJoins`, `FederationRuns`,
  `RemoteAmbassadors`). Federation names, the states of Connect, which federations are joined
  under which callbacks, and the order of joining, resetting and going online. Each waiting loop
  receives an arbitrary sequence of callbacks.
- **Watchdog** (`AbsTimeout`, `AbsTimeoutRuns`). Caller, watchdog thread and destructor as program
  positions over two mutexes, two condition variables and a flag, and the delay that calls return.

Where a promise fails, the code is modelled as it is, a lemma shows an input that breaks it, and
another says exactly when it holds: values that do not fit their width, the element count of fixed
arrays and bool octets other than 0 and 1, values set unchanged, registrations between entering
InitFederate and joining, sources unregistered before going online, empty payloads after a reset,
requested times beyond a timer, federation names not given by the program itself, one-way calls
that time out, and waiting federates that miss the measurement start.

Assumptions: a little-endian host; handles, ids, times, indices and object handles do not overflow
(a method's request ids are required to fit 64 bits); no exception is raised by the RTI; the RTI
keeps the order of what is sent about an object, delivers it to subscribers, completes a
reservation once and gives every object a handle of its own; cyclic periods are positive, and
timer callbacks register only timers that are due later and neither cancel timers nor change
periods; one consumer per method path; one caller of `getDelay` at a time.

## Model

| member | source | states |
|---|---|---|
| WireRoundTrip.RoundTrip | SUT_Cpp/SilAdapter/Dependencies/SabSerDes/include/SabSerDes/Deserializer.hpp:39-129 | wherever the encoding of a fitting value of any schema (integers of any width, bools, floats, strings, byte vectors, structs, lists, fixed arrays, optionals, nested in any mix) stands in a buffer, reading at that bit position yields the value and stops right behind it |
| WireRoundTrip.FieldsRoundTrip | SUT_Cpp/SilAdapter/Dependencies/SabSerDes/include/SabSerDes/Serializer.hpp:99-103 | the same for the members of a struct, in order |
| WireRoundTrip.ListRoundTrip | SUT_Cpp/SilAdapter/TypeLib/include/TypeLib/Serializer.hpp:94-116 | the same for the elements of a list or array, in order |
| WireReEncoding.ReEncode | SUT_Cpp/SilAdapter/Dependencies/SabSerDes/include/SabSerDes/Deserializer.hpp:115-128 | whatever reading accepts is a value of the schema that fits its widths, and encoding it again gives back the bits read if and only if these were canonical: zero padding, flag octets 0 or 1, the right count in front of a fixed array |
| WireFormat.IntRoundTrip | SUT_Cpp/SilAdapter/Dependencies/SabSerDes/include/SabSerDes/Serializer.hpp:42-51 | an integer that fits its width, signed or not, is the value of its representation in that width |
| WireFormat.ReadIntFits | SUT_Cpp/SilAdapter/Dependencies/SabSerDes/include/SabSerDes/Deserializer.hpp:241-276 | the value read from b bits fits b bits, and its representation is these bits |
| Bits.SignExtension | SUT_Cpp/SilAdapter/Dependencies/SabSerDes/include/SabSerDes/Deserializer.hpp:241-276 | replicating the sign bit does not change a two's-complement value |
| SabDeserializer.ShiftedUpAndDown | SUT_Cpp/SilAdapter/Dependencies/SabSerDes/include/SabSerDes/Deserializer.hpp:254-260 | shifting a field up to the sign position, casting, and shifting down arithmetically replicates its top bit |
| SabDeserializer.ShiftedDown | SUT_Cpp/SilAdapter/Dependencies/SabSerDes/include/SabSerDes/Deserializer.hpp:270-273 | copying octets to the top of an uninitialised variable and shifting down extends them by sign or zero, whatever the variable held |
| SabDeserializer.ExtensionKeepsValue | SUT_Cpp/SilAdapter/Dependencies/SabSerDes/include/SabSerDes/Deserializer.hpp:241-276 | both routes of reading an integer return the value its bits have at their own width |
| SabSerializer.AppendedBits | SUT_Cpp/SilAdapter/Dependencies/SabSerDes/include/SabSerDes/Serializer.hpp:188-210 | flushed octets and the remaining accumulator are together the pending bits followed by the field, also when the field straddles 64 bits and its tail is fetched from the data again |
| SabSerializer.AppendedStray | SUT_Cpp/SilAdapter/Dependencies/SabSerDes/include/SabSerDes/Serializer.hpp:188-210 | bits are left above the pending ones exactly when the value had bits above the width that reach the accumulator |
| SabSerializer.Serializer.SerializeUnaligned | SUT_Cpp/SilAdapter/Dependencies/SabSerDes/include/SabSerDes/Serializer.hpp:182-211 | an unsigned field of any odd width is appended to the bits written, least significant bit first; the accumulator stays clean if and only if no stray bits were passed; a width beyond the type changes nothing |
| SabSerializer.Serializer.SerializeUnalignedSigned | SUT_Cpp/SilAdapter/Dependencies/SabSerDes/include/SabSerDes/Serializer.hpp:213-223 | the masked negative values as well; the accumulator stays clean |
| SabSerializer.Serializer.SerializeAligned | SUT_Cpp/SilAdapter/Dependencies/SabSerDes/include/SabSerDes/Serializer.hpp:225-233 | zero bits up to the octet boundary, then whole octets |
| SabSerializer.Serializer.Align | SUT_Cpp/SilAdapter/Dependencies/SabSerDes/include/SabSerDes/Serializer.hpp:235-243 | completes the last octet with zero bits |
| SabSerializer.Serializer.SerializeInt | SUT_Cpp/SilAdapter/Dependencies/SabSerDes/include/SabSerDes/Serializer.hpp:42-51 | the dispatch on the width appends the integer as its encoding says |
| SabSerializer.Serializer.SerializeBool | SUT_Cpp/SilAdapter/Dependencies/SabSerDes/include/SabSerDes/Serializer.hpp:56-59 | an aligned octet 0 or 1 |
| SabSerializer.Serializer.SerializeFloat | SUT_Cpp/SilAdapter/Dependencies/SabSerDes/include/SabSerDes/Serializer.hpp:69-79 | the aligned octets of the value |
| SabSerializer.Serializer.SerializeBlob | SUT_Cpp/SilAdapter/Dependencies/SabSerDes/include/SabSerDes/Serializer.hpp:82-97 | the size in 32 bits, then the octets |
| SabSerializer.Serializer.SerializeCount | SUT_Cpp/SilAdapter/Dependencies/SabSerDes/include/SabSerDes/Serializer.hpp:108-115 | the aligned element count in 32 bits |
| SabSerializer.Serializer.AppendBuffer | SUT_Cpp/SilAdapter/Dependencies/SabSerDes/include/SabSerDes/Serializer.hpp:155-160 | octets in serialized form follow what was written |
| SabSerializer.Serializer.ReleaseBuffer | SUT_Cpp/SilAdapter/Dependencies/SabSerDes/include/SabSerDes/Serializer.hpp:169-177 | everything written, completed with zero bits to whole octets; the serializer starts afresh |
| SabSerializer.Serializer.Reset | SUT_Cpp/SilAdapter/Dependencies/SabSerDes/include/SabSerDes/Serializer.hpp:162-167 | forgets everything written |
| SabDeserializer.FieldTaken | SUT_Cpp/SilAdapter/Dependencies/SabSerDes/include/SabSerDes/Deserializer.hpp:193-239 | the field returned is the next slice of the buffer and the accumulator holds exactly the rest of the last octet, also when a field spills past 64 bits |
| SabDeserializer.Deserializer.DeserializeUnaligned | SUT_Cpp/SilAdapter/Dependencies/SabSerDes/include/SabSerDes/Deserializer.hpp:186-240 | returns the next bits of the buffer, zero-extended, and advances by them; fails, changing nothing, exactly when the width exceeds the type or the buffer ends; fewer than 8 pending bits and no stray ones are kept |
| SabDeserializer.Deserializer.DeserializeUnalignedSigned | SUT_Cpp/SilAdapter/Dependencies/SabSerDes/include/SabSerDes/Deserializer.hpp:241-261 | the same, sign-extended |
| SabDeserializer.Deserializer.DeserializeAligned | SUT_Cpp/SilAdapter/Dependencies/SabSerDes/include/SabSerDes/Deserializer.hpp:263-276 | skips to the octet boundary and returns the next octets, extended; fails exactly when they are not there |
| SabDeserializer.Deserializer.Align | SUT_Cpp/SilAdapter/Dependencies/SabSerDes/include/SabSerDes/Deserializer.hpp:278-282 | drops the pending bits: the position moves to the octet boundary |
| SabDeserializer.Deserializer.DeserializeInt | SUT_Cpp/SilAdapter/Dependencies/SabSerDes/include/SabSerDes/Deserializer.hpp:39-50 | returns what decoding an integer of the width at the position yields |
| SabDeserializer.Deserializer.DeserializeBool | SUT_Cpp/SilAdapter/Dependencies/SabSerDes/include/SabSerDes/Deserializer.hpp:53-60 | an aligned octet, true unless zero |
| SabDeserializer.Deserializer.DeserializeFloat | SUT_Cpp/SilAdapter/Dependencies/SabSerDes/include/SabSerDes/Deserializer.hpp:65-80 | the next aligned octets as they are |
| SabDeserializer.Deserializer.DeserializeBlob | SUT_Cpp/SilAdapter/Dependencies/SabSerDes/include/SabSerDes/Deserializer.hpp:82-104 | a size, then that many octets; fails when they are not there |
| SabDeserializer.Deserializer.DeserializeCount | SUT_Cpp/SilAdapter/Dependencies/SabSerDes/include/SabSerDes/Deserializer.hpp:115-118 | the aligned element count |
| SabDeserializer.Deserializer.GetRemainingBuffer | SUT_Cpp/SilAdapter/Dependencies/SabSerDes/include/SabSerDes/Deserializer.hpp:169-172 | the octets behind the read position |
| SabDeserializer.Deserializer.constructor | SUT_Cpp/SilAdapter/Dependencies/SabSerDes/include/SabSerDes/Deserializer.hpp:174-181 | a reader at the start of the buffer |
| TypeLib.Write | SUT_Cpp/SilAdapter/TypeLib/include/TypeLib/Serializer.hpp:94-135 | pushing a fitting value of any schema appends exactly its encoding |
| TypeLib.WriteArray | SUT_Cpp/SilAdapter/TypeLib/include/TypeLib/Serializer.hpp:94-116 | count and elements of a list or fixed array, by a loop over the elements |
| TypeLib.WriteOptional | SUT_Cpp/SilAdapter/TypeLib/include/TypeLib/Serializer.hpp:118-129 | the flag, then the content if there is one |
| TypeLib.Read | SUT_Cpp/SilAdapter/TypeLib/include/TypeLib/Deserializer.hpp:106-155 | pulling a value of any schema returns what decoding yields at the position, and fails when it does |
| TypeLib.ReadArray | SUT_Cpp/SilAdapter/TypeLib/include/TypeLib/Deserializer.hpp:106-128 | a list is resized to the count read, a fixed array ignores it |
| TypeLib.ReadOptional | SUT_Cpp/SilAdapter/TypeLib/include/TypeLib/Deserializer.hpp:130-146 | the content if the flag is not zero |
| TypeLib.RoundTripped | SUT_Cpp/SilAdapter/TypeLib/include/TypeLib/Serializer.hpp:86-92 | a value of a schema comes back from its own buffer if and only if its integers fit their widths and its lengths fit 32 bits, and then every octet is consumed |
| TypeLib.ReSerialized | SUT_Cpp/SilAdapter/TypeLib/include/TypeLib/Deserializer.hpp:88-96 | decoding arbitrary octets and serializing the result reproduces exactly the octets consumed if and only if they were canonical; the read position never leaves the buffer |
| TypeLib.UnfitExample | SUT_Cpp/SilAdapter/Dependencies/SabSerDes/include/SabSerDes/Serializer.hpp:188-190 | an unsigned value that does not fit its width: 4 in 2 bits |
| TypeLib.ForeignCount | SUT_Cpp/SilAdapter/TypeLib/include/TypeLib/Deserializer.hpp:118-128 | a fixed array is read although another element count was announced; not canonical |
| TypeLib.ForeignFlag | SUT_Cpp/SilAdapter/Dependencies/SabSerDes/include/SabSerDes/Deserializer.hpp:53-60 | an octet 2 is read as true; not canonical |
| Packets.DataRoundTrip | SUT_Cpp/SilAdapter/Dependencies/SabSerDes/include/SabSerDes/Serializer.hpp:135-138 | the payload behind a data header is found again |
| Packets.CallRoundTrip | SUT_Cpp/SilAdapter/Dependencies/SabSerDes/include/SabSerDes/Serializer.hpp:145-151 | header and payload of a call packet are found again, for every 64-bit id |
| Packets.PackData | SUT_Cpp/SilAdapter/Dependencies/Cla/Cla/src/DoProvidedData.cpp:30-34 | header then payload |
| Packets.UnpackData | SUT_Cpp/SilAdapter/Dependencies/Cla/Cla/src/DoConsumedData.cpp:27-29 | the payload behind a header of the known version, or an error |
| Packets.PackCall | SUT_Cpp/SilAdapter/Dependencies/SabSerDes/include/SabSerDes/Serializer.hpp:145-151 | the four header fields octet by octet, then the payload |
| Packets.UnpackCall | SUT_Cpp/SilAdapter/Dependencies/SabSerDes/include/SabSerDes/Deserializer.hpp:156-167 | the header and what follows it; an error for another version or a cut-off header |
| DOInvariants.InvariantReached | SUT_Cpp/SilAdapter/Dependencies/DistSimAdapter/src/DOService.cpp:37-79 | in every reachable state: each handle issued and not unregistered is persistent exactly once and, while joined, in exactly one of the buffered or local collections; handles are never reused; the handle map is the view of the local sources that have an object; per source what was handed over followed by what is buffered is what was submitted since the last reset; last data is held |
| DOInvariants.PartitionStep | SUT_Cpp/SilAdapter/Dependencies/DistSimAdapter/src/DOService.cpp:951-1050 | every operation keeps the partition of the registrations |
| DOInvariants.ConservedStep | SUT_Cpp/SilAdapter/Dependencies/DistSimAdapter/src/DOService.cpp:337-346 | every operation keeps the conservation of transmissions |
| DORuns.ProcessSummary | SUT_Cpp/SilAdapter/Dependencies/DistSimAdapter/src/DOService.cpp:306-348 | processing the buffers in closed form: targets and sources registered in order, the transmissions of usable sources taken out and remembered, the others kept |
| DOInvariants.ProcessHandsOver | SUT_Cpp/SilAdapter/Dependencies/DistSimAdapter/src/DOService.cpp:1069-1089 | the RTI is handed exactly the buffered payloads of the usable sources, in order, each for the object of its source |
| DOInvariants.ResetSaves | SUT_Cpp/SilAdapter/Dependencies/DistSimAdapter/src/DOService.cpp:41-54 | what a reset leaves at each registration |
| DOInvariants.LastDataSurvivesReset | SUT_Cpp/SilAdapter/Dependencies/DistSimAdapter/src/DOService.cpp:41-54 | the last payload handed over survives a reset if and only if it is not an empty one following a non-empty one of an earlier session |
| DOInvariants.LastKeptReached | SUT_Cpp/SilAdapter/Dependencies/DistSimAdapter/src/DOService.cpp:37-54 | without empty payloads, in every run each registration holds the last payload handed over before the last reset |
| DOInvariants.LastDataSurvives | SUT_Cpp/SilAdapter/Dependencies/DistSimAdapter/src/DOService.cpp:965-985 | without empty payloads, over any number of resets and rejoins, every local source, reserved or still pending, holds the last payload ever handed over for its handle |
| DOInvariants.ReservationAnnouncesLastData | SUT_Cpp/SilAdapter/Dependencies/DistSimAdapter/src/DOService.cpp:379-407 | a completed reservation announces the name and connection type the handle was issued for, with that last payload |
| EmptyPayloads.NotKept | SUT_Cpp/SilAdapter/Dependencies/DistSimAdapter/src/DOService.cpp:48-52 | a run of two sessions in which an empty payload handed over in the second does not replace the last data of the first |
| DOInvariants.JoinBuffersOnce | SUT_Cpp/SilAdapter/Dependencies/DistSimAdapter/src/DOService.cpp:295-304 | joining buffers each registration once if and only if none was buffered since entering InitFederate |
| DOInvariants.RegisteredBeforeJoining | SUT_Cpp/SilAdapter/Dependencies/DistSimAdapter/src/DOService.cpp:951-963 | a source registered in that window is buffered twice under one handle |
| DORemotes.RemotesReached | SUT_Cpp/SilAdapter/Dependencies/DistSimAdapter/src/DOService.cpp:132-183 | in every reachable state the list of remote sources and the index by object describe the same set without duplicates, targets likewise, and between resets discovered and lost callbacks of each object strictly alternate |
| DORemotes.SourceUpdateMoves | SUT_Cpp/SilAdapter/Dependencies/DistSimAdapter/src/DOService.cpp:461-572 | an update of a source adds it at most once and announces it exactly then |
| DORemotes.SourceRemovedMoves | SUT_Cpp/SilAdapter/Dependencies/DistSimAdapter/src/DOService.cpp:132-157 | a removed source disappears from list and index and is announced lost exactly if it was announced |
| DORemotes.KnownAsNamed | SUT_Cpp/SilAdapter/Dependencies/DistSimAdapter/src/DOService.cpp:641-687 | in every run a remote source or target is known exactly if an update named it since the last reset or its removal, and then it is listed, once, under the name and connection type of the first such update |
| DORemotes.DiscoverersStay | SUT_Cpp/SilAdapter/Dependencies/DistSimAdapter/src/DOService.cpp:689-713 | no step changes who is told about discoveries, a reset included |
| DOCalls.NamesReserved | SUT_Cpp/SilAdapter/Dependencies/DistSimAdapter/src/DOService.cpp:854-868 | in every run the names reserved since the last reset are those counted since then, each once and in order, and every local source and target has one of these, and its own |
| DOCalls.UnregisteringDeletes | SUT_Cpp/SilAdapter/Dependencies/DistSimAdapter/src/DOService.cpp:987-1050 | unregistering a local source deletes its object if and only if the federate is online; nothing is deleted for a source still buffered, and exactly the source of the handle leaves |
| DOCalls.ObjectsAccounted | SUT_Cpp/SilAdapter/Dependencies/DistSimAdapter/src/DOService.cpp:1022-1035 | in every run the objects registered and not deleted since the last reset are those of the local sources and those of sources unregistered before going online, which stay behind; so they are the local ones exactly when none stayed behind |
| LeftObjects.StaysBehind | SUT_Cpp/SilAdapter/Dependencies/DistSimAdapter/src/DOService.cpp:1022-1035 | a run from the start in which a source is unregistered between joining and going online and its object stays registered |
| DOCalls.UnsubscribedUntilWanted | SUT_Cpp/SilAdapter/Dependencies/DistSimAdapter/src/DOService.cpp:503-540 | in every run the federate is unsubscribed from a source it knows as long as it has no local target of its name, and subscribed once it has one of its name and connection type |
| DOCalls.TrailOf | SUT_Cpp/SilAdapter/Dependencies/DistSimAdapter/src/DOService.cpp:306-348 | these hold of every run: each has a trail of its steps |
| DOServices.DOService.constructor | SUT_Cpp/SilAdapter/Dependencies/DistSimAdapter/src/DOService.cpp:21-25 | the initial state |
| DOServices.DOService.RegisterDOMemberSource | SUT_Cpp/SilAdapter/Dependencies/DistSimAdapter/src/DOService.cpp:941-950 | refuses the default connection type; otherwise issues the next handle |
| DOServices.DOService.RegisterDOMemberSourceCommon | SUT_Cpp/SilAdapter/Dependencies/DistSimAdapter/src/DOService.cpp:951-963 | kept persistently, and buffered as well while online or joining |
| DOServices.DOService.RegisterDOMemberTargetCommon | SUT_Cpp/SilAdapter/Dependencies/DistSimAdapter/src/DOService.cpp:763-777 | kept persistently, and buffered as well while online or joining; what becomes of it then is in DOTargets.TargetPartition |
| DOServices.DOService.ProcessPersistentRegistrations | SUT_Cpp/SilAdapter/Dependencies/DistSimAdapter/src/DOService.cpp:295-304 | all persistent registrations are buffered |
| DOServices.DOService.TransmitDOMember | SUT_Cpp/SilAdapter/Dependencies/DistSimAdapter/src/DOService.cpp:1054-1067 | queued at the end of the transmit buffer |
| DOServices.DOService.RegisterBufferedDOTarget | SUT_Cpp/SilAdapter/Dependencies/DistSimAdapter/src/DOService.cpp:780-799 | stores the callback, reserves a name and asks every remote source of the same name for its value |
| DOServices.DOService.RegisterBufferedDOSource | SUT_Cpp/SilAdapter/Dependencies/DistSimAdapter/src/DOService.cpp:965-985 | a local source with the last data of an earlier session, and a reservation |
| DOServices.DOService.BufferedTransmitDOMember | SUT_Cpp/SilAdapter/Dependencies/DistSimAdapter/src/DOService.cpp:1069-1089 | handed over, and remembered in the shared source object, exactly if the map knows the handle |
| DOServices.DOService.BufferedTransmits | SUT_Cpp/SilAdapter/Dependencies/DistSimAdapter/src/DOService.cpp:337-346 | what is handed over leaves the buffer, the rest stays in order |
| DOServices.DOService.ProcessBuffers | SUT_Cpp/SilAdapter/Dependencies/DistSimAdapter/src/DOService.cpp:306-348 | the loops over shared source objects make exactly the transition of the state model, with the same calls |
| DOServices.DOService.OnDOSourceObjectReservationCompleted | SUT_Cpp/SilAdapter/Dependencies/DistSimAdapter/src/DOService.cpp:379-407 | the object is stored, announced, and the source becomes usable |
| DOServices.DOService.ProvideAttributeValueUpdate | SUT_Cpp/SilAdapter/Dependencies/DistSimAdapter/src/DOService.cpp:199-231 | answers with the name and last data, or the last data if there is any |
| DOServices.DOService.HandleDOSourceObjectUpdate | SUT_Cpp/SilAdapter/Dependencies/DistSimAdapter/src/DOService.cpp:461-572 | unknown sources become known by a name update only; value updates of known sources reach the callback stored; a source without local target is unsubscribed |
| DOServices.DOService.HandleDOTargetObjectUpdate | SUT_Cpp/SilAdapter/Dependencies/DistSimAdapter/src/DOService.cpp:641-687 | unknown targets become known by their name |
| DOServices.DOService.RemoveSourceInstance | SUT_Cpp/SilAdapter/Dependencies/DistSimAdapter/src/DOService.cpp:138-157 | erased from map and list |
| DOServices.DOService.RemoveTargetInstance | SUT_Cpp/SilAdapter/Dependencies/DistSimAdapter/src/DOService.cpp:158-181 | erased from map and list |
| DOServices.DOService.UnregisterDOMemberSource | SUT_Cpp/SilAdapter/Dependencies/DistSimAdapter/src/DOService.cpp:987-1050 | erased from the persistent and from the buffered registrations, or else from map and list, deleting its object while online |
| DOServices.DOService.Reset | SUT_Cpp/SilAdapter/Dependencies/DistSimAdapter/src/DOService.cpp:37-79 | last data moves to the registrations, everything of the session is forgotten |
| DOServices.ReachedDistinguished | SUT_Cpp/SilAdapter/Dependencies/DistSimAdapter/src/DOService.cpp:306-348 | every reachable state meets what processing the buffers assumes of handles |
| LateJoinRuns.ProviderOrder | SUT_Cpp/SilAdapter/Dependencies/DistSimAdapter/src/DOService.cpp:461-572 | in every run of provider, channels and consumer the consumer takes packets only in the order they were handed over, and its value is always that of the packet it took last; what was handed over is a prefix of what was submitted |
| LateJoinRuns.Convergence | SUT_Cpp/SilAdapter/Dependencies/DistSimAdapter/src/DOService.cpp:199-225 | once buffer, channels and requests are drained, whatever the order of discovery, registration and transmission, the consumer knows the object, and its value equals the provider's if and only if a value was set since connecting (one that differs from the first when transmitting on change) or the values agreed to begin with |
| LateJoinRuns.Drains | SUT_Cpp/SilAdapter/Dependencies/DistSimAdapter/src/DOService.cpp:780-799 | from every reachable state with an empty buffer, taking messages and answering requests leads to a drained state |
| LateJoinRuns.DrainsInAnyOrder | SUT_Cpp/SilAdapter/Dependencies/DistSimAdapter/src/DOService.cpp:780-799 | done in any order, no more such steps than the weight of the state are possible, and when none is left the link is drained |
| LateJoinRuns.UnchangedValueIsNotSent | SUT_Cpp/SilAdapter/Dependencies/Cla/Cla/src/ValueEntity.cpp:30-43 | a provider transmitting on change and set to the value it has leaves the consumer with another value |
| LateJoinRuns.ReachedInvariants | SUT_Cpp/SilAdapter/Dependencies/DistSimAdapter/src/DOService.cpp:461-572 | a known source with a target is subscribed and will see the last packet, or a request for it is on its way |
| LateJoinRuns.LastSubmission | SUT_Cpp/SilAdapter/Dependencies/Cla/Cla/src/DoProvidedData.cpp:27-48 | the last packet submitted carries the provider's value; none is submitted exactly when nothing new was set |
| DOLinkSteps.TakeIsReaction | SUT_Cpp/SilAdapter/Dependencies/DistSimAdapter/src/DOService.cpp:461-572 | taking a message in the link is what the consumer's service does: what it knows, asks and gives to its callback |
| DOLinkSteps.CreateTargetIsStep | SUT_Cpp/SilAdapter/Dependencies/DistSimAdapter/src/DOService.cpp:780-799 | registering a target is the step of the link that asks for the value |
| DOLinkSteps.ReservationIsStep | SUT_Cpp/SilAdapter/Dependencies/DistSimAdapter/src/DOService.cpp:379-407 | completing the reservation is the step of the link that announces object and name |
| DOLinkSteps.ProvideIsAnswer | SUT_Cpp/SilAdapter/Dependencies/DistSimAdapter/src/DOService.cpp:199-225 | what the provider's service says on a request is what the link answers |
| DOLinkSteps.ProcessIsHandOver | SUT_Cpp/SilAdapter/Dependencies/DistSimAdapter/src/DOService.cpp:337-346 | processing the buffers is handing over what the link buffers |
| DOLinkSteps.ProcessSays | SUT_Cpp/SilAdapter/Dependencies/DistSimAdapter/src/DOService.cpp:1069-1082 | it says about the object exactly these payloads, in order |
| DOLinkSteps.SetIsSubmit | SUT_Cpp/SilAdapter/Dependencies/Cla/Cla/src/DoProvidedData.cpp:28-48 | setting a value is submitting its packet, or nothing |
| DOLinkSteps.OtherStepsKeep | SUT_Cpp/SilAdapter/Dependencies/DistSimAdapter/src/DOService.cpp:951-1050 | every other step of the service leaves the link alone |
| DOSessionRuns.ServicesConverge | SUT_Cpp/SilAdapter/Dependencies/DistSimAdapter/src/DOService.cpp:461-572 | for every run of two whole services, each doing anything else meanwhile, and every order of reservation, joining, discovery and registration: once nothing is under way the consumer knows the source, and its value is the provider's if and only if something new was set since connecting or the values agreed to begin with |
| DOSessionRuns.ServicesInOrder | SUT_Cpp/SilAdapter/Dependencies/DistSimAdapter/src/DOService.cpp:1069-1082 | at every moment before that, the values the consumer took are those of packets the provider's service handed over, in that order, and these are a prefix of the packets submitted by setting the value |
| DOSessionRuns.RegisteredIsWanted | SUT_Cpp/SilAdapter/Dependencies/DistSimAdapter/src/DOService.cpp:763-777 | a target the consumer's federate registered, before or at any time during the session, is registered ever after |
| DOSessionRuns.ServicesSettle | SUT_Cpp/SilAdapter/Dependencies/DistSimAdapter/src/DOService.cpp:763-799 | from every state in which both are up and the consumer's federate has registered a target, late or not, processing both buffers, delivering updates and answering requests comes to an end, and the provider's value has then arrived if something new was set |
| DOSessionRuns.HandedOverSettles | SUT_Cpp/SilAdapter/Dependencies/DistSimAdapter/src/DOService.cpp:461-572 | with the target local and everything handed over, delivering and answering alone does so |
| DOSessionRuns.SessionIsLink | SUT_Cpp/SilAdapter/Dependencies/DistSimAdapter/src/DOService.cpp:306-348 | every run of two services joined by the channels of the RTI is a run of the link of one provider and one consumer |
| DOSessionRuns.SomeSession | SUT_Cpp/SilAdapter/Dependencies/DistSimAdapter/src/DOService.cpp:951-963 | a provider registered after joining and a consumer that is offline are such a beginning |
| DOSessionMoves.MoveSeen | SUT_Cpp/SilAdapter/Dependencies/DistSimAdapter/src/DOService.cpp:306-348 | every move of either service, delivery and request is one step of the link, several, or none |
| DOSessionMoves.TargetsSeen | SUT_Cpp/SilAdapter/Dependencies/DistSimAdapter/src/DOService.cpp:780-799 | creating all buffered targets makes the steps of the link that ask for the value, in order |
| DOSessionMoves.TargetsReached | SUT_Cpp/SilAdapter/Dependencies/DistSimAdapter/src/DOService.cpp:854-868 | in every reachable state a callback is stored exactly for the name and connection type of each local target |
| DOSessionMoves.HandOverSeen | SUT_Cpp/SilAdapter/Dependencies/DistSimAdapter/src/DOService.cpp:337-346 | processing the provider's buffers says to the consumer what handing over in the link does |
| DOSessionMoves.RequestSeen | SUT_Cpp/SilAdapter/Dependencies/DistSimAdapter/src/DOService.cpp:199-231 | what the provider's service sends on a request is what the link answers |
| DOSessionMoves.DeliverSeen | SUT_Cpp/SilAdapter/Dependencies/DistSimAdapter/src/DOService.cpp:461-572 | an update delivered to the consumer's service stores and asks what the link does |
| DOSessionMoves.OtherSeen | SUT_Cpp/SilAdapter/Dependencies/DistSimAdapter/src/DOService.cpp:461-572 | no other operation of the consumer's service asks about the object, touches what the link shows of it, or runs the member's callback |
| DOSessionMoves.NothingStored | SUT_Cpp/SilAdapter/Dependencies/DistSimAdapter/src/DOService.cpp:461-572 | what updates of sources of other names and connection types store is not stored in the member |
| DOTargets.CallbacksApart | SUT_Cpp/SilAdapter/Dependencies/DistSimAdapter/src/DOService.cpp:854-868 | in every reachable state no two names or connection types share a callback |
| DOTargets.TargetPartition | SUT_Cpp/SilAdapter/Dependencies/DistSimAdapter/src/DOService.cpp:763-799 | in every run the target registered k-th has the k-th handle and is persistent under the name and connection type it was registered for; while joined it is either local or buffered, once and in order; before joining there are neither |
| DOTargets.LinedReached | SUT_Cpp/SilAdapter/Dependencies/DistSimAdapter/src/DOService.cpp:295-304 | in every run the local targets followed by those buffered are the registrations while joined, and the registrations are exactly those asked for |
| DOTargets.ProcessedIsLocal | SUT_Cpp/SilAdapter/Dependencies/DistSimAdapter/src/DOService.cpp:306-322 | once the buffers are processed every registered target is local |
| Values.ValueEntity.SetData | SUT_Cpp/SilAdapter/Dependencies/Cla/Cla/src/ValueEntity.cpp:25-43 | the value is stored; callbacks on change run if it differs, then those on update, each registered one exactly once |
| Values.ValueEntity.RegisterCallback | SUT_Cpp/SilAdapter/Dependencies/Cla/Cla/src/ValueEntity.cpp:66-86 | an empty callback gets 0, any other the next handle |
| Values.ValueEntity.UnregisterCallback | SUT_Cpp/SilAdapter/Dependencies/Cla/Cla/src/ValueEntity.cpp:88-96 | the handle is in neither list any more, the others stay in order |
| Values.WithoutKeepsOrder | SUT_Cpp/SilAdapter/Dependencies/Cla/Cla/src/ValueEntity.cpp:88-96 | the callbacks that stay registered keep their order |
| Values.DoProvidedData.Connect | SUT_Cpp/SilAdapter/Dependencies/Cla/Cla/src/DoProvidedData.cpp:22-51 | a callback of the trigger's kind is registered |
| Values.DoProvidedData.SetData | SUT_Cpp/SilAdapter/Dependencies/Cla/Cla/src/DoProvidedData.cpp:28-48 | what was transmitted stays the packets of the values set since connecting: all of them, or the changed ones |
| Values.DoConsumedData.OnReceive | SUT_Cpp/SilAdapter/Dependencies/Cla/Cla/src/DoConsumedData.cpp:26-32 | the payload behind the header becomes the value; anything else is refused |
| Timers.GridTimes | SUT_Cpp/SilAdapter/Dependencies/DistSimAdapter/src/TimingService.cpp:350-382 | a live cyclic timer due at d fires (u - d) / p + 1 times, at d, d + p, ..., and is then due after u |
| Timers.UserTimer.constructor | SUT_Cpp/SilAdapter/Dependencies/DistSimAdapter/src/UserTimer.cpp:10-14 | first due a period after its offset |
| Timers.UserTimer.Set | SUT_Cpp/SilAdapter/Dependencies/DistSimAdapter/src/UserTimer.cpp:26-30 | due a period after the given time, and live again |
| Timers.UserTimer.Restart | SUT_Cpp/SilAdapter/Dependencies/DistSimAdapter/src/UserTimer.cpp:21-24 | as it was created |
| Timers.UserTimer.Shift | SUT_Cpp/SilAdapter/Dependencies/DistSimAdapter/src/UserTimer.cpp:32-35 | due later by the offset |
| Timers.UserTimer.Cancel | SUT_Cpp/SilAdapter/Dependencies/DistSimAdapter/src/UserTimer.cpp:43-46 | canceled |
| Timers.UserTimer.SetPeriod | SUT_Cpp/SilAdapter/Dependencies/DistSimAdapter/src/UserTimer.cpp:48-52 | due later by the difference of the periods |
| TimingServices.TimingService.ProcessUserTimers | SUT_Cpp/SilAdapter/Dependencies/DistSimAdapter/src/TimingService.cpp:350-382 | terminates; callbacks run in nondecreasing due order and none later than u; each live one-shot due runs once, each live cyclic timer exactly on its grid up to u; every live timer left is queued, at its next time, due after u; the timers that the callbacks run register are kept for the next join in order, and while online they are exactly the new timers in the queue, as created |
| TimingServices.TimingService.FireTop | SUT_Cpp/SilAdapter/Dependencies/DistSimAdapter/src/TimingService.cpp:365-375 | the top timer leaves the queue; the timers its callback registers are kept and, while online, enter it; a cyclic one returns a period later |
| TimingServices.NothingDue | SUT_Cpp/SilAdapter/Dependencies/DistSimAdapter/src/TimingService.cpp:352-381 | when nothing queued is due, each timer ran exactly at the times it owed |
| TimingServices.TimingService.OnJoined | SUT_Cpp/SilAdapter/Dependencies/DistSimAdapter/src/TimingService.cpp:138-218 | exactly the persistent timers are queued, each restarted and shifted by the time the federate joined at |
| TimingServices.TimingService.PopAll | SUT_Cpp/SilAdapter/Dependencies/DistSimAdapter/src/TimingService.cpp:203-209 | the timers in the order they come from the top of the queue |
| TimingServices.TimingService.TimeRequest | SUT_Cpp/SilAdapter/Dependencies/DistSimAdapter/src/TimingService.cpp:408-459 | of a constrained federate the next message up to, of one only regulating an advance to exactly: the earliest due time, or the user's later time, or without either the end of time; never while a request is pending |
| TimingServices.TimingService.SetNewTime | SUT_Cpp/SilAdapter/Dependencies/DistSimAdapter/src/TimingService.cpp:297-334 | the logical time never goes back; timers are to be processed exactly when it advanced |
| TimingServices.TimingService.TimeAdvanceGrant | SUT_Cpp/SilAdapter/Dependencies/DistSimAdapter/src/TimingService.cpp:400-406 | the request is no longer pending |
| TimingServices.TimingService.RegisterTimer | SUT_Cpp/SilAdapter/Dependencies/DistSimAdapter/src/TimingService.cpp:48-57 | kept for the next join, and queued while online |
| TimingServices.TimingService.RequestSimulationTime | SUT_Cpp/SilAdapter/Dependencies/DistSimAdapter/src/TimingService.cpp:111-134 | noted only by a regulating federate and for a later time |
| TimingServices.TimingService.ProcessBuffers | SUT_Cpp/SilAdapter/Dependencies/DistSimAdapter/src/TimingService.cpp:238-246 | the timers due run once after the clock advanced, and what their callbacks register is kept and queued |
| TimingServices.TimingService.Reset | SUT_Cpp/SilAdapter/Dependencies/DistSimAdapter/src/TimingService.cpp:220-236 | clock, flags and queue are cleared; the persistent timers stay |
| TimingRuns.OneRequestReached | SUT_Cpp/SilAdapter/Dependencies/DistSimAdapter/src/TimingService.cpp:408-459 | in every run at most one request is outstanding, it asks for a time later than the logical time, it is a next-message request exactly of a constrained federate and a time-advance request of one only regulating, and the logical time never goes back |
| TimingRuns.TimersServed | SUT_Cpp/SilAdapter/Dependencies/DistSimAdapter/src/TimingService.cpp:350-382 | in every run, patient or not, a timer registered at the start or by a callback ran exactly at the times it was to fire at until now, in order and each once; a live timer stays queued at its next time unless it is a one-shot that ran |
| TimingRuns.TimersOnTime | SUT_Cpp/SilAdapter/Dependencies/DistSimAdapter/src/RemoteAmbassador.cpp:915-975 | in every run in which the user asks for no time beyond a queued timer, each timer ran at every time it was to fire at until now, when the logical time equalled it, once and at no other time; a live cyclic timer and one not due yet are queued at their next time |
| TimingRuns.LiveTimerRuns | SUT_Cpp/SilAdapter/Dependencies/DistSimAdapter/src/TimingService.cpp:424-443 | from every state of such a run, requests, grants and processing without the user lead to each live timer queued: it runs at its due time |
| TimingRuns.OwesLater | SUT_Cpp/SilAdapter/Dependencies/DistSimAdapter/src/TimingService.cpp:350-382 | what a timer still owes at a time together with what it ran is what it is to fire at any later time |
| TimingRuns.DueTimerRuns | SUT_Cpp/SilAdapter/Dependencies/DistSimAdapter/src/TimingService.cpp:350-382 | a live timer due runs in that processing |
| TimingRuns.RequestsNextTimer | SUT_Cpp/SilAdapter/Dependencies/DistSimAdapter/src/TimingService.cpp:424-450 | without a user request, a federate with a timer asks for the earliest due time: a constrained one for the next message up to it, one only regulating for exactly it |
| TimingRuns.RequestsNextMessage | SUT_Cpp/SilAdapter/Dependencies/DistSimAdapter/src/TimingService.cpp:424-450 | without timers and a user request, a constrained federate asks for the next message up to the end of time, one only regulating for nothing |
| TimingRuns.RequestsUserTime | SUT_Cpp/SilAdapter/Dependencies/DistSimAdapter/src/TimingService.cpp:428-450 | a later time the user asked for is requested before any timer's |
| TimingRuns.RequestKeepsOnTime | SUT_Cpp/SilAdapter/Dependencies/DistSimAdapter/src/TimingService.cpp:430-434 | a request keeps the timers on time if and only if the user did not ask for a time beyond a queued one |
| TimingRuns.ImpatientRunsLate | SUT_Cpp/SilAdapter/Dependencies/DistSimAdapter/src/TimingService.cpp:430-434 | otherwise a live timer runs late once that time is granted |
| TimingRuns.ImpatientRun | SUT_Cpp/SilAdapter/Dependencies/DistSimAdapter/src/TimingService.cpp:430-434 | a run from joining in which a user requests a time beyond a timer and the timer runs late |
| TimingSteps.ServiceProcesses | SUT_Cpp/SilAdapter/Dependencies/DistSimAdapter/src/TimingService.cpp:350-382 | under any naming of the timers, what ProcessUserTimers ensures is a processing step of the runs: which timer ran, how often, in which order, what is queued next, and the timers spawned in the step are those the callbacks registered, as created |
| TimingSteps.ServiceJoins | SUT_Cpp/SilAdapter/Dependencies/DistSimAdapter/src/TimingService.cpp:138-218 | what OnJoined ensures is where a run starts, if every timer is first due after its offset and period |
| TimingSteps.ServiceAdvances | SUT_Cpp/SilAdapter/Dependencies/DistSimAdapter/src/TimingService.cpp:424-427 | the earliest due time that TimeRequest finds is the one of the runs |
| CallRuns.InvariantReached | SUT_Cpp/SilAdapter/Dependencies/Cla/Cla/src/ConsumerCallContext.cpp:27-47 | in every interleaving of the atomic steps, with packets reordered, dropped and duplicated: state, threads and callbacks of each context agree; every response in flight answers the request of a two-way call |
| CallRuns.AtMostOnce | SUT_Cpp/SilAdapter/Dependencies/Cla/Cla/src/ConsumerCallContext.cpp:27-47 | a completion runs at most once per context, and leaves it either Returned or Discarded |
| CallRuns.FinalStays | SUT_Cpp/SilAdapter/Dependencies/Cla/Cla/src/ConsumerCallContext.cpp:27-47 | Returned and Discarded are final, and the output does not change |
| CallRuns.RightAnswer | SUT_Cpp/SilAdapter/Dependencies/Cla/Cla/src/DoConsumedMethod.cpp:81-91 | the output of a returned call was made for a request with its own id and input bytes |
| CallRuns.ResponsesAnswerTwoWayCalls | SUT_Cpp/SilAdapter/Dependencies/Cla/Cla/src/DoProvidedMethod.cpp:51-87 | every response in flight carries the id of a two-way call whose request was sent |
| CallRuns.NullOnlyOnTimeout | SUT_Cpp/SilAdapter/Dependencies/Cla/Cla/src/DoConsumedMethod.cpp:51-56 | a one-way call once sent is not pending, has no response in flight, and its null completion was run only by a timeout |
| CallRuns.NullStep | SUT_Cpp/SilAdapter/Dependencies/Cla/Cla/src/ConsumerCallContext.cpp:38-47 | a step runs a null completion if and only if it is the timeout of a call without callback |
| CallRuns.NeverWithoutTimeout | SUT_Cpp/SilAdapter/Dependencies/Cla/Cla/src/DoConsumedMethod.cpp:37-59 | in every run in which a call is never timed out, no null completion of it is run and it is never discarded |
| CallRuns.OneWayTimeoutRunsNull | SUT_Cpp/SilAdapter/Dependencies/Cla/Cla/src/ConsumerCallContext.cpp:38-47 | a run from the start that times out a one-way call runs the null completion |
| CallRuns.DeliveryCompletes | SUT_Cpp/SilAdapter/Dependencies/Cla/Cla/src/DoConsumedMethod.cpp:112-130 | a response delivered to a pending call completes it with its payload |
| CallRuns.RequestIsSent | SUT_Cpp/SilAdapter/Dependencies/Cla/Cla/src/DoConsumedMethod.cpp:37-59 | the request of every two-way call sent is in flight, with its own id and input |
| CallRuns.StaysPendingReached | SUT_Cpp/SilAdapter/Dependencies/Cla/Cla/src/DoConsumedMethod.cpp:29-59 | in every run a living context is pending until its response is taken, unless it is a one-way call about to be sent |
| CallRuns.CallIsAnswered | SUT_Cpp/SilAdapter/Dependencies/Cla/Cla/src/DoProvidedMethod.cpp:51-79 | from every reachable state a two-way call sent that still waits can be answered: the provider handles its request, with a callback or without, and delivering the response then completes it once, with what the callback serialized or with nothing |
| MethodSteps.CallLeads | SUT_Cpp/SilAdapter/Dependencies/Cla/Cla/src/ConsumerCallContext.cpp:66-78 | a call made with a fresh context ends with its callback stored and its request in flight, pending if and only if it has a callback |
| Methods.ConsumerCallContext.CallAsync | SUT_Cpp/SilAdapter/Dependencies/Cla/Cla/src/ConsumerCallContext.cpp:66-78 | only the first call is accepted |
| Methods.ConsumerCallContext.OnReturn | SUT_Cpp/SilAdapter/Dependencies/Cla/Cla/src/ConsumerCallContext.cpp:27-37 | accepted only while called; the output is set and the callback run |
| Methods.ConsumerCallContext.OnTimeout | SUT_Cpp/SilAdapter/Dependencies/Cla/Cla/src/ConsumerCallContext.cpp:38-47 | accepted only while called; the callback is run |
| Methods.DoConsumedMethod.CreateCallContext | SUT_Cpp/SilAdapter/Dependencies/Cla/Cla/src/DoConsumedMethod.cpp:29-76 | a fresh context pending under an id never issued before |
| Methods.DoConsumedMethod.OnCall | SUT_Cpp/SilAdapter/Dependencies/Cla/Cla/src/DoConsumedMethod.cpp:37-59 | the request packet; a one-way call leaves the pending ones first |
| Methods.DoConsumedMethod.PopCallContext | SUT_Cpp/SilAdapter/Dependencies/Cla/Cla/src/DoConsumedMethod.cpp:98-110 | the entry is taken out, if there is one |
| Methods.DoConsumedMethod.OnReceiveData | SUT_Cpp/SilAdapter/Dependencies/Cla/Cla/src/DoConsumedMethod.cpp:112-130 | a response goes to the pending context of its id, once; anything else is ignored |
| Methods.DoProvidedMethod.SetCallback | SUT_Cpp/SilAdapter/Dependencies/Cla/Cla/src/DoProvidedMethod.cpp:32-36 | replaces the callback |
| Methods.DoProvidedMethod.OnReceiveData | SUT_Cpp/SilAdapter/Dependencies/Cla/Cla/src/DoProvidedMethod.cpp:41-93 | the callback runs on requests of either kind; a request that asks for it is answered by a packet read as a response to its id, with what the callback serialized and no error, or without a callback with that error and nothing; nothing else is answered |
| MethodSteps.CallAsync | SUT_Cpp/SilAdapter/Dependencies/Cla/Cla/src/ConsumerCallContext.cpp:66-78 | an accepted call, run as a whole, makes the steps of the interleaved model: swap, store, drop, send; a refused one a swap that changes nothing |
| MethodSteps.OnReceiveData | SUT_Cpp/SilAdapter/Dependencies/Cla/Cla/src/DoConsumedMethod.cpp:112-130 | a delivery makes the steps receive, swap, and if the call was waiting, store and run |
| MethodSteps.OnTimeout | SUT_Cpp/SilAdapter/Dependencies/Cla/Cla/src/ConsumerCallContext.cpp:38-47 | a timeout makes the steps swap and run |
| MethodSteps.CreateCallContext | SUT_Cpp/SilAdapter/Dependencies/Cla/Cla/src/DoConsumedMethod.cpp:29-35 | creating a context is a step of the model |
| MethodSteps.Provide | SUT_Cpp/SilAdapter/Dependencies/Cla/Cla/src/DoProvidedMethod.cpp:51-87 | handling a request is a step of the model that adds the response sent |
| Federations.ParseToString | SUT_Cpp/SilAdapter/Dependencies/DistSimAdapter/src/RemoteAmbassador.cpp:564-578 | a decimal number printed is parsed back |
| Federations.LatestIsChosen | SUT_Cpp/SilAdapter/Dependencies/DistSimAdapter/src/RemoteAmbassador.cpp:551-579 | a latest federation other than the one just left is chosen if and only if its name is the prefix or the prefix with an index in canonical decimal of 32 bits |
| Federations.LeftIsChosenAgain | SUT_Cpp/SilAdapter/Dependencies/DistSimAdapter/src/RemoteAmbassador.cpp:519-582 | the federation just left is chosen again if and only if the latest one has another name but the same index |
| Federations.OtherSeparatorIsLeftAgain | SUT_Cpp/SilAdapter/Dependencies/DistSimAdapter/src/RemoteAmbassador.cpp:584-594 | such a name: another separator before the index |
| Federations.CanonicalChoice | SUT_Cpp/SilAdapter/Dependencies/DistSimAdapter/src/RemoteAmbassador.cpp:519-582 | with canonical names the federation just left is never chosen, and a different latest one is chosen exactly |
| Federations.AfterDeadIncreases | SUT_Cpp/SilAdapter/Dependencies/DistSimAdapter/src/RemoteAmbassador.cpp:984-1001 | repeated handling of dead federations strictly increases the index |
| Federations.DeadFederationsRunOut | SUT_Cpp/SilAdapter/Dependencies/DistSimAdapter/src/RemoteAmbassador.cpp:984-1001 | with finitely many federations a free name is reached after at most as many attempts and one more |
| Federations.DeadChoice | SUT_Cpp/SilAdapter/Dependencies/DistSimAdapter/src/RemoteAmbassador.cpp:519-582 | a federation joined in place of a dead one is not chosen again either |
| FederationRuns.NameReached | SUT_Cpp/SilAdapter/Dependencies/DistSimAdapter/src/RemoteAmbassador.cpp:519-582 | in every run the name kept is one the index gives, as long as all federations of the prefix have canonical names |
| FederationRuns.FreeNameReached | SUT_Cpp/SilAdapter/Dependencies/DistSimAdapter/src/RemoteAmbassador.cpp:984-1001 | in runs of attempts to connect where every existing federation is dead, the index strictly increases, and after at most as many attempts as there are federations and one more a free name is created and the federate goes on |
| FederationRuns.ChosenAfterStop | SUT_Cpp/SilAdapter/Dependencies/DistSimAdapter/src/RemoteAmbassador.cpp:314-331 | in every run the federation chosen after a measurement stop is not the one left, and is the latest one listed if that is another |
| FederationRuns.RejoinsElsewhere | SUT_Cpp/SilAdapter/Dependencies/DistSimAdapter/src/RemoteAmbassador.cpp:314-331 | in every run a measurement stop delivered to a federate that rejoins makes its next choice another federation than the one it left |
| AmbassadorJoins.GoesOnIfAnnounced | SUT_Cpp/SilAdapter/Dependencies/DistSimAdapter/src/RemoteAmbassador.cpp:358-385 | a federation that exists is gone on with, under its index and name, if and only if one of the three points was announced before or a callback now announces one; otherwise the next index is tried |
| AmbassadorJoins.JoinsExisting | SUT_Cpp/SilAdapter/Dependencies/DistSimAdapter/src/RemoteAmbassador.cpp:333-441 | connecting to an existing federation with such an announcement joins the services and goes online under that name; a federate that waits does so if and only if the start comes |
| AmbassadorJoins.WaitingGoesOnline | SUT_Cpp/SilAdapter/Dependencies/DistSimAdapter/src/RemoteAmbassador.cpp:410-439 | a federate that waits goes online if and only if the interaction arrives before anything else changes its state, the points are achieved, and the start is then synchronized |
| AmbassadorJoins.LatestIsLast | SUT_Cpp/SilAdapter/Dependencies/DistSimAdapter/src/RemoteAmbassador.cpp:499-517 | the federation looked for is the last listed name with the prefix |
| AmbassadorJoins.JoinsListed | SUT_Cpp/SilAdapter/Dependencies/DistSimAdapter/src/RemoteAmbassador.cpp:280-441 | an offline federate that finds federations of its prefix joins the last one listed, by its exact name, and goes online |
| AmbassadorJoins.NotJoined | SUT_Cpp/SilAdapter/Dependencies/DistSimAdapter/src/RemoteAmbassador.cpp:333-347 | without a federation created or joined, the services do not join and the next attempt starts there |
| AmbassadorJoins.StopIsNoted | SUT_Cpp/SilAdapter/Dependencies/DistSimAdapter/src/RemoteAmbassador.cpp:1238-1249 | a measurement stop among any callbacks leads to the state from which a federate that rejoins chooses again, unless the connection is lost or the start synchronized after it, and changes nothing for one that does not |
| AmbassadorJoins.LostStartsOver | SUT_Cpp/SilAdapter/Dependencies/DistSimAdapter/src/RemoteAmbassador.cpp:1061-1077 | after a lost connection the next Connect resets the services, forgets the federation and starts over |
| AmbassadorJoins.DisconnectStartsOver | SUT_Cpp/SilAdapter/Dependencies/DistSimAdapter/src/RemoteAmbassador.cpp:1011-1029 | so does the one after a Disconnect |
| Ambassador.OrderReached | SUT_Cpp/SilAdapter/Dependencies/DistSimAdapter/src/RemoteAmbassador.cpp:280-441 | in every run of Connect, Disconnect and callbacks the events are ordered as the two rows below say |
| Ambassador.ResetBetweenJoins | SUT_Cpp/SilAdapter/Dependencies/DistSimAdapter/src/RemoteAmbassador.cpp:1061-1138 | between two rounds of joining the services are reset |
| Ambassador.OnlineAfterJoining | SUT_Cpp/SilAdapter/Dependencies/DistSimAdapter/src/RemoteAmbassador.cpp:388-439 | the federate goes online only after its services joined and were not reset since; one that waits, only after both the init interaction and the Initialized point |
| Ambassador.InitIsTaken | SUT_Cpp/SilAdapter/Dependencies/DistSimAdapter/src/RemoteAmbassador.cpp:418-421 | the wait for the init interaction ends if and only if it arrives before a stop, a lost connection or the synchronized start |
| Ambassador.DisconnectAloneJoinsTwice | SUT_Cpp/SilAdapter/Dependencies/DistSimAdapter/src/RemoteAmbassador.cpp:1025-1029 | a run after which disconnecting from the node alone lets services join twice without a reset |
| RemoteAmbassadors.RemoteAmbassador.constructor | SUT_Cpp/SilAdapter/Dependencies/DistSimAdapter/src/RemoteAmbassador.cpp:21-46 | offline, with no federation |
| RemoteAmbassadors.RemoteAmbassador.Connect | SUT_Cpp/SilAdapter/Dependencies/DistSimAdapter/src/RemoteAmbassador.cpp:280-441 | the method with its waiting loops makes exactly the transitions of the model |
| RemoteAmbassadors.RemoteAmbassador.Evoke | SUT_Cpp/SilAdapter/Dependencies/DistSimAdapter/src/RemoteAmbassador.cpp:418-421 | a waiting loop evokes callbacks until its goal is reached |
| RemoteAmbassadors.RemoteAmbassador.Disconnect | SUT_Cpp/SilAdapter/Dependencies/DistSimAdapter/src/RemoteAmbassador.cpp:1011-1029 | services, ambassador and federation memory are reset |
| RemoteAmbassadors.RemoteAmbassador.ResetServices | SUT_Cpp/SilAdapter/Dependencies/DistSimAdapter/src/RemoteAmbassador.cpp:1079-1090 | all services are reset |
| RemoteAmbassadors.RemoteAmbassador.ResetRemoteAmbassador | SUT_Cpp/SilAdapter/Dependencies/DistSimAdapter/src/RemoteAmbassador.cpp:1092-1102 | the flags of the session are cleared |
| RemoteAmbassadors.RemoteAmbassador.ResetFederationMemory | SUT_Cpp/SilAdapter/Dependencies/DistSimAdapter/src/RemoteAmbassador.cpp:1104-1108 | index and name are forgotten |
| RemoteAmbassadors.RemoteAmbassador.HandleConnectionLost | SUT_Cpp/SilAdapter/Dependencies/DistSimAdapter/src/RemoteAmbassador.cpp:1061-1077 | everything is reset and the federation forgotten |
| RemoteAmbassadors.RemoteAmbassador.ResetOnMeasurementStop | SUT_Cpp/SilAdapter/Dependencies/DistSimAdapter/src/RemoteAmbassador.cpp:1110-1116 | everything is reset but the federation remembered |
| RemoteAmbassadors.RemoteAmbassador.GetLatestFederation | SUT_Cpp/SilAdapter/Dependencies/DistSimAdapter/src/RemoteAmbassador.cpp:485-517 | the last listed name with the prefix; the list is left reversed |
| RemoteAmbassadors.RemoteAmbassador.UpdateFederationNameAndIndex | SUT_Cpp/SilAdapter/Dependencies/DistSimAdapter/src/RemoteAmbassador.cpp:519-582 | index and name used next |
| RemoteAmbassadors.RemoteAmbassador.GetMeasurementIndexOfFederation | SUT_Cpp/SilAdapter/Dependencies/DistSimAdapter/src/RemoteAmbassador.cpp:584-594 | the text behind prefix and separator |
| RemoteAmbassadors.RemoteAmbassador.HandleDeadFederation | SUT_Cpp/SilAdapter/Dependencies/DistSimAdapter/src/RemoteAmbassador.cpp:984-1001 | the next index and its name |
| RemoteAmbassadors.RemoteAmbassador.RegisterSyncPoints | SUT_Cpp/SilAdapter/Dependencies/DistSimAdapter/src/RemoteAmbassador.cpp:704-727 | waits until a point is announced |
| RemoteAmbassadors.RemoteAmbassador.RetrieveSyncPoints | SUT_Cpp/SilAdapter/Dependencies/DistSimAdapter/src/RemoteAmbassador.cpp:358-385 | goes on if any point was announced, else the federation is dead |
| RemoteAmbassadors.RemoteAmbassador.OnAnnounceSynchronizationPoint | SUT_Cpp/SilAdapter/Dependencies/DistSimAdapter/src/RemoteAmbassador.cpp:1432-1453 | notes the known points |
| RemoteAmbassadors.RemoteAmbassador.OnFederationSynchronized | SUT_Cpp/SilAdapter/Dependencies/DistSimAdapter/src/RemoteAmbassador.cpp:1455-1463 | ends the wait of a waiting federate |
| RemoteAmbassadors.RemoteAmbassador.OnReceiveIAMeasurementInit | SUT_Cpp/SilAdapter/Dependencies/DistSimAdapter/src/RemoteAmbassador.cpp:1216-1236 | taken only by a federate that waits for it |
| RemoteAmbassadors.RemoteAmbassador.OnReceiveIAMeasurementStop | SUT_Cpp/SilAdapter/Dependencies/DistSimAdapter/src/RemoteAmbassador.cpp:1238-1249 | asks for a rejoin if configured |
| RemoteAmbassadors.RemoteAmbassador.OnConnectionLost | SUT_Cpp/SilAdapter/Dependencies/DistSimAdapter/src/RemoteAmbassador.cpp:1399-1402 | noted in the state |
| RemoteAmbassadors.RemoteAmbassador.OnReportFederationExecutions | SUT_Cpp/SilAdapter/Dependencies/DistSimAdapter/src/RemoteAmbassador.cpp:1357-1361 | the list is available |
| AbsTimeoutRuns.Reached | SUT_Cpp/SilAdapter/Dependencies/ThirdParty/OpenRTI/src/OpenRTI/AbsTimeout.cpp:99-143 | in every interleaving of caller, watchdog and destructor the mutexes are held as the program positions say, done before delay; a flag set during a call stands for an update made during it; no wakeup is missed |
| AbsTimeoutRuns.ReturnsFreshDelay | SUT_Cpp/SilAdapter/Dependencies/ThirdParty/OpenRTI/src/OpenRTI/AbsTimeout.cpp:99-119 | when getDelay returns, the delay it read was updated from a clock reading taken after that call began |
| AbsTimeoutRuns.WatchedReached | SUT_Cpp/SilAdapter/Dependencies/ThirdParty/OpenRTI/src/OpenRTI/AbsTimeout.cpp:121-143 | in every interleaving the delay is the sum of what the rounds of the watchdog took beyond its period, each by the clock readings at its start and end, and 0 of those that did not |
| AbsTimeoutRuns.ReturnsExcess | SUT_Cpp/SilAdapter/Dependencies/ThirdParty/OpenRTI/src/OpenRTI/AbsTimeout.cpp:99-143 | getDelay returns that sum, and the last of the rounds in it ended, and read the clock, during this call |
| AbsTimeoutRuns.CallComesCloser | SUT_Cpp/SilAdapter/Dependencies/ThirdParty/OpenRTI/src/OpenRTI/AbsTimeout.cpp:99-143 | while a call is in progress some thread can take a step that brings it closer to its return |
| AbsTimeoutRuns.CallReturns | SUT_Cpp/SilAdapter/Dependencies/ThirdParty/OpenRTI/src/OpenRTI/AbsTimeout.cpp:99-143 | from every reachable state a call in progress returns after finitely many steps of the two threads: none blocks both forever |
| AbsTimeoutRuns.JoinEnds | SUT_Cpp/SilAdapter/Dependencies/ThirdParty/OpenRTI/src/OpenRTI/AbsTimeout.cpp:25-36 | once the destructor waits, every step of the watchdog brings it closer to its end and it can always take one |

## Left out

- The RTI itself, sockets, event handles, logging, environment variables and the wall clock: only what the RTI calls back is kept, as steps in any order its contract allows.
- Integer widths of counters, times, handles and indices: they are unbounded, except request ids, federation indices parsed from text, and everything on the wire.
- SabSerializer.Serializer.AppendBuffer: only without pending bits, as every caller uses it.
- SabSerializer.Serializer.SerializeCount: the check of the length in debug builds is not modelled; longer lengths are truncated as in release builds.
- SabSerializer.Serializer.SerializeInt: a width of whole octets beyond the type, which would read past the value, is excluded.
- TypeLib.ReadArray: the memory a list is resized to before its elements are read, and running out of it.
- Unions, which always throw; event members; the equality of empty optionals.
- Targets unregistered, targets registered by the UUID of a source, and the completed reservation of target objects: their names are reserved, the objects are not created. Counterpart discoverers of single members; only those registered for a connection type are modelled.
- DOServices.DOService.Reset: the phase is changed by the ambassador, not by the reset; a registration racing with that change is not modelled.
- DOServices.DOService.ProcessBuffers: assumes sources told apart by handle and name, which every reachable state provides.
- DOServices.DOService.RegisterBufferedDOTarget: two targets of one name and connection type share one callback, the later one; the nested map from type to name to callback is flattened to pairs.
- LateJoinRuns.Convergence: one provider and one consumer of a member name; further targets of the same name and foreign requests are steps, further providers are not. Updates sent while the consumer is unsubscribed are lost or delivered, all of one round alike.
- DOSessionRuns.ServicesConverge: within a session neither federate is reset and the source stays registered, the RTI gives the object to this source only, and no other source has the member's name and connection type; all of this is in what a session may do.
- Values.DoProvidedData.Connect: registering the source with the service is modelled in the service, not in the data member.
- TimingServices.TimingService.SetNewTime: the estimate of the animation factor and interpolation by the wall clock.
- TimingServices.TimingService.OnJoined: the times the RTI answers are parameters; a canceled timer is live again after it, as in the code.
- TimingServices.TimingService.PopAll: the order of timers due at the same time is left open, as the priority queue leaves it.
- TimingRuns.TimersOnTime: timers canceled or given another period between two processings, and timers registered other than before joining or by a callback.
- TimingServices.TimingService.ProcessUserTimers: callbacks that cancel timers, change periods or register timers already due.
- CallRuns.NullOnlyOnTimeout: nothing in the repository calls OnTimeout; it is modelled since it is public.
- Methods.ConsumerCallContext.CallAsync: the class runs each method as one step; the interleaving between its swap, its store and its send is in Calls.
- Ambassador.OrderReached: exceptions while initializing a federate, and the simulation control and federation control callbacks of users.
- RemoteAmbassadors.RemoteAmbassador.Connect: creating the ambassador, connecting, creating and joining a federation are answers given to the method.
- AbsTimeoutRuns.CallReturns: the arithmetic of isExpired around the delay.
- Bus services and their encodings, the text log service, the room-temperature application and generated members.
