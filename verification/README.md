# Verified model of jq-ble

jq-ble runs a mesh over Bluetooth Low Energy. Several of its parts hold copies of the same facts and have to
keep them in agreement while BLE events, failures and back-pressure arrive in any order. This project models
those parts in Dafny and proves what they keep.

| files | subject |
|---|---|
| `Identity`, `Gatt` | node and device identities, endpoints, advertised and read byte formats |
| `Sessions`, `PeerRecord` | the session record of one node: its operations as functions, and the mutable record |
| `RuntimeSpec`, `RuntimeTask` | the runtime owner as a step machine, and the class whose handlers implement each step |
| `RuntimeEffects` | what each handler brings about: the entries it adds and the whole new state |
| `RuntimeAgreement`, `RuntimeTheorems`, `RuntimeDelivery`, `RuntimeProvenance`, `RuntimeLoop` | what every run of the runtime keeps |
| `Observations`, `ControlIngress` | ingress events, the bounded mailbox and the deferred control queue |
| `Startup` | the startup ladder |
| `Notify`, `Multicast` | multicast dispatch, and the admission view rebuilt from control events |
| `Views`, `Backpressure`, `DerivedViews`, `LossyRounds` | what link events say, what the bounded mailbox and failing rounds do to it, and both derived views held to the runtime |
| `Publication` | the topology the client publishes, against the projector's snapshot |
| `Bridge`, `WakeUp` | the host bridge's rounds, and the client loop against its producers |
| `Mesh`, `Projector` | topology builder and sanitiser, and the projector that feeds them |
| `Framing`, `RelayNetwork`, `RelayPump`, `RelaySystem`, `Invite` | the demo application: frames, the relay network, the relay pump, the two joined, peer invites |

Code that changes things step by step is a class or a method with loops, proved equal to a function over
values; the theorems over whole runs are about those functions. A run starts in the initial state and takes
any steps in any order with any answers from the surroundings.

## Assumptions

- One handler of the runtime task is one atomic step, since the task owns its state exclusively. Draining of
  the mailbox during a handler is covered by `ControlIngress`, which interleaves emissions, flushes and drains
  freely.
- **Stable identity** (`RuntimeSpec.StableIdentity`): a node is proven on at most one device at a time, a
  device keeps its node until it disconnects, and a device proven again is not left on an L2CAP path that the
  new proof does not replace. In a run of the loop whose restored list has no repeats the first clause, at the
  moment of each proof, is all there is to it (`RuntimeLoop.LoopStableExactly`). The agreement theorems need the
  assumption, and `RuntimeAgreement.StepExactly` shows that nothing weaker will do; provenance, channel ids,
  multicast reach, and when a unicast is handed over do not need it.
- Channel ids stay below 2^64 - 1, because the counter saturates.
- The peer directory is a map from device to hint or proven identity, in which a later hint does not replace a
  proven identity. A control emit on a full mailbox fails and enqueues nothing; a payload emit on a full
  mailbox drops the payload. The notifier is a generation counter that a producer raises after its push.
- Delivery shaping keeps the endpoint, its MTU included, and may refuse multicast support; the refusal is an
  input of `MulticastAdmission.SupportFor`.
- The router, the transport, the BLE backends and the generic host projector answer as they please: their
  answers are inputs of the steps. A host view is taken to keep links between known nodes and routes under
  their ids only where `HostOk` is required.
- In one dispatch the writers that refuse are given as a set of channels: a channel that refuses is closed at
  once and never written again, so this is as general as any sequence of answers.
- In the relay network other traffic may use the links, but only pumps and `send` write application frames:
  frames carry no authentication, so a forged frame would be surfaced as its author wishes. A `send` counts as
  made when it is called: one that fails in its bridge round has queued its packet before, and a later flush may
  still carry it. A flush that loses packets is loss in the network.
- The client starts with no active link from the local node, and host views keep the local node. The published
  topology is the projector's snapshot at the start if ingesting the engines' capabilities does not move it.

## Results that differ from what one might expect

Each comes with the exact condition and, where the property fails, a run that shows it.

- Two devices that prove the same node break the agreement of log and records, and lose a unicast although a
  GATT fallback is recorded (`RuntimeTheorems.UnstableIdentityBreaksAgreement`). Agreement is kept exactly by
  stable identity (`RuntimeAgreement.StepExactly`); the unicast is lost exactly when the first record that ends
  the dispatch is on a channel dropped under it (`RuntimeDelivery.HandedOverExactly`,
  `RuntimeDelivery.FallbackLostExactly`).
- Control events can be accepted out of emission order (`ControlIngress.EmissionOvertakes`): exactly when an
  emission finds room while a different event is deferred (`ControlIngress.OrderKeptExactly`). The views then
  end up wrong about a node (`Backpressure.OvertakenSubscription`) exactly when the last emission on it overtook
  a deferred one that says otherwise (`DerivedViews.ViewsBehindTheMailboxExactly`).
- The startup ladder can be parked with no retry armed: exactly when an adapter's own event or the attempt that
  follows reports it as off, even by mistake, and until its next power event (`Startup.AttemptParksExactly`,
  `Startup.ParkedExactly`, `Startup.WaitingExactly`; `Startup.UnpoweredReadParksTheLadder`).
- The registered service can name a PSM nobody listens on, exactly when L2CAP is refused as unsupported, now or
  before, after a listener had been up (`Startup.StalePsmExactly`, `Startup.StalePsmHappens`).
- The wait after a failed round can sleep on an event already announced, exactly when one was in the mailbox
  when the late snapshot was taken, and only its timer bounds that sleep (`WakeUp.ErrorWaitSleepsExactly`,
  `WakeUp.ErrorWaitReliesOnItsTimer`); no other wait can (`WakeUp.OnlyTheErrorWaitOversleeps`).
- The projector can emit a route the topology builder refuses, in exactly one form: reachable with a hop hint
  of one and no live direct edge (`Projector.ProjectedRouteExactly`, `Projector.RefusedRouteHappens`).
- Sanitising a well-formed topology can break it, exactly when it keeps a direct route of another owner
  (`Mesh.SanitizeKeepsTopologyExactly`, `Mesh.SanitizingBreaksTopology`).
- A derived view can stay wrong after a failed or overflowing bridge round, exactly when the last round that
  drained a word on the node loses last a word that says something new (`LossyRounds.ViewsAfterRoundsExactly`,
  `LossyRounds.FailedRoundKeepsADeadPath`).
- The published topology can stay behind the projector's snapshot, exactly after a call cut short by an error
  once it has changed the snapshot (`Publication.AlwaysCurrentExactly`, `Publication.CutShortGoesStale`).
- A relay reported dropped can have been forwarded, and a frame can be forwarded more than once: exactly by tries
  that failed in their bridge round (`RelaySystem.DroppedReachedWireExactly`,
  `RelaySystem.DroppedFrameIsOnItsWay`).

## Model

| member | source | states |
|---|---|---|
| `RuntimeTheorems.EveryStableRunAgrees` | crates/jq-link-profile/src/task.rs:550-598 | In every state reached by any handlers under stable identity, directory, session records, channel map and emitted log agree about every node; the log replayed gives each node's real path and the real subscriber set. |
| `RuntimeTheorems.AgreementReadOff` | crates/jq-link-profile/src/task.rs:952-1018 | The same read per node: the live path of the log is the endpoint of the preferred egress; the log's subscribers are the records with a notify subscriber; an L2CAP-preferred record names a live channel of its own node and device; every live channel belongs to a recorded node and has an id already spent. |
| `RuntimeAgreement.StepExactly` | crates/jq-link-profile/src/task.rs:492-768 | From an agreeing state, a handler leads to an agreeing state if and only if the identity it proves, if any, is stable; the condition reads only the state before the call and what the call was given. |
| `RuntimeAgreement.ResolvedPeerExactly` | crates/jq-link-profile/src/task.rs:550-571 | A proof of identity, with or without an L2CAP upgrade, keeps agreement exactly when the node has no other device and the device no other node, or the pair is proven again over a path the new announcement describes. |
| `RuntimeAgreement.NewProofKeeps` | crates/jq-link-profile/src/task.rs:934-950 | A first proof of a fresh pair installs and announces the GATT path together. |
| `RuntimeAgreement.InstallL2capKeeps` | crates/jq-link-profile/src/task.rs:952-990 | A promotion moves the record, the channel map and the log together, keeping the GATT session as fallback. |
| `RuntimeAgreement.OnlyOwnRecordRefers` | crates/jq-link-profile/src/task.rs:573-583 | Under agreement a device is mentioned by the record of the node it proved to be and by no other. |
| `RuntimeAgreement.DepartureFaultsCover` | crates/jq-link-profile/src/task.rs:1011-1018 | The faults reported for a leaving device include its path in use, and the notify fanout exactly when the node had subscribed. |
| `RuntimeAgreement.DisconnectKeeps` | crates/jq-link-profile/src/task.rs:573-583 | A disconnect removes exactly the node's record and channels, and its faults empty the log's view of that node only. |
| `RuntimeAgreement.SubscribeKeeps` | crates/jq-link-profile/src/task.rs:693-722 | Subscribing and unsubscribing move the record's subscriber list and the log's subscriber set together, repeated or not. |
| `RuntimeAgreement.ChannelClosedKeeps` | crates/jq-link-profile/src/task.rs:992-1004 | Losing any channel, current or stale, leaves the log naming the path that is really left. |
| `RuntimeAgreement.UnicastKeeps` | crates/jq-link-profile/src/task.rs:794-817 | Dispatch with any pattern of refused writes keeps agreement, through every downgrade it makes on the way. |
| `RuntimeTheorems.StepChannels` | crates/jq-link-profile/src/task.rs:972-1024 | In any state, a step leaves every channel as it was or removes it, except the one it enters under the counter's id; the counter never falls. |
| `RuntimeTheorems.ChannelIdsAreNotReused` | crates/jq-link-profile/src/task.rs:972-1024 | An id that was spent and is gone names no channel in any later state of any run from any state. |
| `RuntimeTheorems.UnicastHandsOverAtMostOnce` | crates/jq-link-profile/src/task.rs:794-817 | For any maps and any failures: dispatch ends, within two more sends than there are live channels, and only the last send can hand the payload over. |
| `RuntimeTheorems.EgressIsOwnRecord` | crates/jq-link-profile/src/task.rs:928-932 | Under agreement the walk over all records finds the preferred egress of the device's own node, or nothing for an unproven device. |
| `RuntimeTheorems.UnicastUnderAgreement` | crates/jq-link-profile/src/task.rs:794-817 | Under agreement: nothing for an unproven device; else one send, or a refused channel write followed by a GATT write in the same call, with the channel closed and nothing else changed. |
| `RuntimeTheorems.DispatchFollowsTheLog` | crates/jq-link-profile/src/task.rs:794-890 | Whoever sends on the endpoint the log reports as live has the payload handed over, in at most two sends, the first on the reported path and on a channel of that node and device. |
| `RuntimeTheorems.UnstableIdentityBreaksAgreement` | crates/jq-link-profile/src/task.rs:573-582 | A four-step run in which two devices prove one node: the log names a path the record does not use, and after the second device leaves, a unicast to the first reaches neither its dropped channel nor the recorded GATT fallback. |
| `RuntimeDelivery.EveryRunOwnsItsChannels` | crates/jq-link-profile/src/task.rs:952-1024 | In every reachable state below the id ceiling, with no assumption on identities, a live channel that a record prefers is that record's own. |
| `RuntimeDelivery.HandedOverExactly` | crates/jq-link-profile/src/task.rs:794-817 | For every reachable state, device and pattern of refusals, with no assumption on identities: a unicast is handed over if and only if some record on the device ends the dispatch and the first that does is not on a dropped channel; both are read off the state before the call. |
| `RuntimeDelivery.FallbackLostExactly` | crates/jq-link-profile/src/task.rs:573-583 | A record with a GATT fallback on the device has its unicast lost if and only if its channel was dropped under it. |
| `RuntimeDelivery.ClosingKeepsDeciders` | crates/jq-link-profile/src/task.rs:992-1004 | Closing a refusing channel changes neither which records end the dispatch nor which of them are on a dropped channel. |
| `RuntimeTheorems.RestoredListStableExactly` | crates/jq-link-profile/src/task.rs:420-454 | Restoring a device list without repeats into an empty directory is a stable run if and only if no two of its devices prove the same node. |
| `RuntimeTheorems.FreshRestoreIsStable` | crates/jq-link-profile/src/task.rs:427-454 | Restoring a device the directory does not hold is stable if and only if no other device has proven its node; the clause about proving again plays no part. |
| `RuntimeLoop.LoopStableExactly` | crates/jq-link-profile/src/task.rs:248-312 | Of a run of the loop whose restored list has no repeats, stable identity asks one thing and no more: that no node is proven while some device is already proven to be it. |
| `RuntimeLoop.EveryLoopRunAgrees` | crates/jq-link-profile/src/task.rs:492-768 | The agreement of maps and log over runs of the loop, resting on that one condition. |
| `RuntimeProvenance.EveryRunIsAccountable` | crates/jq-link-profile/src/task.rs:521-571 | Over every run with no assumption on identities, each directory entry, record, channel and log entry rests on an earlier proof of that device for that node. |
| `RuntimeProvenance.EmissionsFollowProofs` | crates/jq-link-profile/src/task.rs:666-768 | Each payload and each unicast link event for a node on a device stands after a proof of that device for that node, each fanout event after some proof of the node, and each proof on the discovery path after an advertisement of its 6-byte prefix. |
| `RuntimeEffects.SubscriptionTakesHold` | crates/jq-link-profile/src/task.rs:693-707 | In any state: a device proven to be a node and subscribing ends up on that node's record, with one Active fanout event emitted, the node among the log's subscribers and up for multicast, its path and every other subscriber untouched; an unproven device changes nothing. |
| `RuntimeEffects.UnsubscriptionTakesHold` | crates/jq-link-profile/src/task.rs:709-722 | In any state: a subscriber that withdraws is off the record with one Faulted fanout event, all else untouched; anyone else's withdrawal changes nothing. |
| `RuntimeEffects.UnsubscriptionEndsSubscription` | crates/jq-link-profile/src/task.rs:709-722 | Under agreement a withdrawal leaves the node without any subscriber, on its record, in the log and for multicast, and its path as it was. |
| `RuntimeEffects.PayloadsPassedOn` | crates/jq-link-profile/src/task.rs:666-691 | A value written or notified by a device proven to be a node becomes one payload of that node on the device's GATT endpoint with those very bytes; from any other device, nothing. |
| `RuntimeEffects.FramesPassedOn` | crates/jq-link-profile/src/task.rs:743-768 | A frame on a live channel becomes one payload of its node on its device's L2CAP endpoint with those very bytes; on a dead one, nothing. |
| `RuntimeEffects.DiscoveryTakesHold` | crates/jq-link-profile/src/task.rs:492-519 | An advertised prefix, found among foreign services, becomes the device's hint unless the device is proven already. |
| `RuntimeEffects.ConnectTakesHold` | crates/jq-link-profile/src/task.rs:521-571 | A hinted device that reads a matching identity gains directory entry, record, path, fallback and announcements, with a channel if and only if the whole upgrade went through; a mismatch only forgets the hint; a bad read or an unhinted device changes nothing. |
| `RuntimeEffects.RestoreTakesHold` | crates/jq-link-profile/src/task.rs:427-454 | A restored device without an advertised hint gains the same by the identity it reads; with one it is only hinted. |
| `RuntimeEffects.InstallTakesHold` | crates/jq-link-profile/src/task.rs:550-571 | The whole new state of an installation, record by record and entry by entry. |
| `RuntimeEffects.AcceptTakesHold` | crates/jq-link-profile/src/task.rs:724-741 | A channel accepted for the node its device is proven to be is entered, preferred over the record's GATT session and announced; any other accept changes nothing. |
| `RuntimeEffects.DepartureTakesHold` | crates/jq-link-profile/src/task.rs:573-583 | A device that leaves takes with it exactly the records that held something on it and the channels of its node, with one fault per endpoint held. |
| `RuntimeEffects.CloseTakesHold` | crates/jq-link-profile/src/task.rs:992-1004 | A channel that closes is gone; its node falls back if it was the path, and whatever path is left is announced, after a stale close too. |
| `RuntimeEffects.CounterStaysInRange` | crates/jq-link-profile/src/task.rs:1020-1024 | Over every run the channel counter stays within 64 bits. |
| `RuntimeTask.BleRuntimeTask.constructor` | crates/jq-link-profile/src/task.rs:106-159 | A task starts with empty maps and the first channel id, which is the initial state of all run theorems. |
| `RuntimeTask.BleRuntimeTask.HandleDeviceDiscovered` | crates/jq-link-profile/src/task.rs:492-519 | Moves the task by the specified discovery step: a hint never replaces a proven identity. |
| `RuntimeTask.BleRuntimeTask.HandleDeviceConnected` | crates/jq-link-profile/src/task.rs:521-548 | Moves the task by the specified connect step, a mismatching identity forgetting the hint; link events go out in log order. |
| `RuntimeTask.BleRuntimeTask.HandleRestoredDevice` | crates/jq-link-profile/src/task.rs:420-454 | Moves the task by the specified restore step: advertised devices are only hinted, the others proven without a hint. |
| `RuntimeTask.BleRuntimeTask.InstallResolvedPeer` | crates/jq-link-profile/src/task.rs:550-571 | Directory, GATT session, announcement, then the upgrade if every part of it succeeds. |
| `RuntimeTask.BleRuntimeTask.InstallGattSession` | crates/jq-link-profile/src/task.rs:934-950 | Creates the node's record or keeps the one that is there, subscribers included. |
| `RuntimeTask.BleRuntimeTask.InstallL2capSession` | crates/jq-link-profile/src/task.rs:952-969 | Registers a channel, promotes the record onto it and announces it. |
| `RuntimeTask.BleRuntimeTask.RegisterL2capChannel` | crates/jq-link-profile/src/task.rs:972-990 | Enters the channel under the returned id and advances the saturating counter. |
| `RuntimeTask.BleRuntimeTask.HandleDeviceDisconnected` | crates/jq-link-profile/src/task.rs:573-583 | Moves the task by the specified disconnect step: forget, fault, drop the node's channels, drop the records that mention the device. |
| `RuntimeTask.BleRuntimeTask.EmitFaultedLinksForDevice` | crates/jq-link-profile/src/task.rs:1011-1018 | One fault per endpoint of the record on the device, in listing order. |
| `RuntimeTask.BleRuntimeTask.HandleP2cSubscription` | crates/jq-link-profile/src/task.rs:693-707 | Moves the task by the specified subscribe step, creating a record that only fans out when there is none. |
| `RuntimeTask.BleRuntimeTask.HandleP2cUnsubscription` | crates/jq-link-profile/src/task.rs:709-722 | Moves the task by the specified unsubscribe step; no event when nothing was removed. |
| `RuntimeTask.BleRuntimeTask.HandleC2pWrite` | crates/jq-link-profile/src/task.rs:666-691 | A write is acknowledged, and passed on as a payload, exactly when the device is proven. |
| `RuntimeTask.BleRuntimeTask.HandleCharacteristicNotification` | crates/jq-link-profile/src/task.rs:892-916 | A notified value becomes a payload exactly for the peripheral-to-central characteristic and a proven device. |
| `RuntimeTask.BleRuntimeTask.HandleL2capFrame` | crates/jq-link-profile/src/task.rs:743-768 | A frame is attributed to the node and device of its channel, and dropped if the channel is gone. |
| `RuntimeTask.BleRuntimeTask.HandleL2capAccept` | crates/jq-link-profile/src/task.rs:724-741 | A channel is accepted only from a device already proven to be the claimed node. |
| `RuntimeTask.BleRuntimeTask.HandleL2capChannelClosed` | crates/jq-link-profile/src/task.rs:992-1004 | Moves the task by the specified close step: downgrade if current, announce what is left. |
| `RuntimeTask.BleRuntimeTask.EgressSessionForDevice` | crates/jq-link-profile/src/task.rs:928-932 | The loop over the ordered map finds the first record whose preferred egress is on the device. |
| `RuntimeTask.BleRuntimeTask.SendViaSession` | crates/jq-link-profile/src/task.rs:862-890 | A GATT write never fails; a channel write fails exactly when the channel is gone or refuses, and then names it. |
| `RuntimeTask.BleRuntimeTask.DispatchOnce` | crates/jq-link-profile/src/task.rs:801-816 | One pass of the dispatch loop: it ends the dispatch, or the rest of the dispatch is what the next pass has to do, with a smaller measure. |
| `RuntimeTask.BleRuntimeTask.DispatchUnicastCommand` | crates/jq-link-profile/src/task.rs:794-817 | The loop terminates and makes exactly the sends and state changes of the specified dispatch. |
| `RuntimeTask.BleRuntimeTask.NotifySubscriberDeviceIds` | crates/jq-link-profile/src/task.rs:845-858 | The loop collects a device for every receiver or gives up, as specified. |
| `RuntimeTask.BleRuntimeTask.DispatchMulticastCommand` | crates/jq-link-profile/src/task.rs:819-843 | The calls made are those whose reach is proved exact below. |
| `RuntimeTask.BleRuntimeTask.HandleEvent` | crates/jq-link-profile/src/task.rs:465-490 | Whatever event comes, the task moves by the one step of the machine that the run theorems are about. |
| `RuntimeTask.BleRuntimeTask.RehydrateRestoredState` | crates/jq-link-profile/src/task.rs:420-425 | The loop over restored devices is the run of their restore steps. |
| `RuntimeTask.BleRuntimeTask.Turn` | crates/jq-link-profile/src/task.rs:252-307 | A turn flushes the deferred queue once, before anything new is emitted, and then handles at most one event; neither the flush nor the bridge's drain touches the runtime state. |
| `RuntimeTask.BleRuntimeTask.RunLoop` | crates/jq-link-profile/src/task.rs:248-312 | The whole loop, timers and drains included, is the run of the restored devices and then the handled events, with one flush a turn. |
| `RuntimeTask.BleRuntimeTask.QueueHistory` | crates/jq-link-profile/src/task.rs:1026-1049 | What the task has put into its queue is, in order, exactly the link events of its log as control and the payloads of its log as payloads, bytes and all. |
| `RuntimeTask.BleRuntimeTask.NothingIsLost` | crates/jq-link-profile/src/task.rs:1026-1049 | Between any two operations of the task, each link event of its history is exactly once drained, in the mailbox or deferred. |
| `Sessions.EveryHistoryIsValid` | crates/jq-link-profile/src/transport.rs:188-313 | After any operations fed sessions of their kind: GATT-only has equal ingress and egress, L2CAP-preferred an L2CAP session and a GATT fallback or none, and subscriber devices are distinct. |
| `Sessions.SubscriptionsFollowHistory` | crates/jq-link-profile/src/transport.rs:245-262 | After any operations, a device is subscribed exactly when its last subscribe or unsubscribe was a subscribe (or it was before). |
| `Sessions.DowngradeUndoesPromotions` | crates/jq-link-profile/src/transport.rs:287-313 | Any promotions followed by losing the current channel give back the saved GATT record; losing another channel changes nothing; subscriptions never move. |
| `Sessions.PromoteAllState` | crates/jq-link-profile/src/transport.rs:287-290 | Any number of promotions amount to the last session over the GATT fallback of the first record. |
| `Sessions.InstallExactly` | crates/jq-link-profile/src/transport.rs:271-285 | A GATT install keeps an L2CAP path and an earlier fallback, gives a missing fallback, and is the path where there is no L2CAP; subscribers stay. |
| `Sessions.SubscribeExactly` | crates/jq-link-profile/src/transport.rs:245-255 | A subscription touches no path, keeps everyone listed in place and lists a new device last. |
| `Sessions.FallbackClosedForm` | crates/jq-link-profile/src/transport.rs:374-379 | The fallback search finds the GATT session of each state, and never an L2CAP one. |
| `Sessions.WithoutFilters` | crates/jq-link-profile/src/transport.rs:257-262 | Removal keeps exactly the other devices and reports a removal exactly when there was one. |
| `Sessions.ReplacedIsIdentity` | crates/jq-link-profile/src/transport.rs:245-255 | Installing a subscriber that is already there leaves the list as it was. |
| `Sessions.EndpointsForDeviceExact` | crates/jq-link-profile/src/transport.rs:322-336 | The listing holds an endpoint if and only if a session on the device has it, or the device subscribed and it is the fanout; no endpoint twice. |
| `PeerRecord.Record.InstallGattSubscription` | crates/jq-link-profile/src/transport.rs:245-255 | The search-and-overwrite on the mutable record is the specified subscription. |
| `PeerRecord.Record.RemoveGattSubscription` | crates/jq-link-profile/src/transport.rs:257-262 | In-place retention is the specified removal, and the flag says whether the device was subscribed. |
| `PeerRecord.Record.InstallGattCentral` | crates/jq-link-profile/src/transport.rs:271-285 | An L2CAP path is kept and only gains a missing fallback. |
| `PeerRecord.Record.PromoteL2cap` | crates/jq-link-profile/src/transport.rs:287-290 | The record moves to the channel, saving its first GATT session. |
| `PeerRecord.Record.DowngradeL2cap` | crates/jq-link-profile/src/transport.rs:292-313 | Only the current channel is given up; the returned session is the one now in effect. |
| `PeerRecord.Record.EndpointsForDevice` | crates/jq-link-profile/src/transport.rs:322-336 | The loops build the specified listing. |
| `Gatt.EndpointsNameTheirDevice` | crates/jq-link-profile/src/session.rs:53-61 | Both unicast endpoints lead back to their device, the fanout endpoint to none, and an endpoint leads to a device exactly when it carries that device's locator. |
| `Gatt.DiscoveryHintRoundTrip` | crates/jq-link-profile/src/gatt.rs:36-56 | What a node advertises is read back as its prefix among any foreign services. |
| `Gatt.PsmRoundTrip` | crates/jq-link-profile/src/gatt.rs:193-200 | Every non-zero 16-bit PSM survives its byte form. |
| `Gatt.PsmReadExactly` | crates/jq-link-profile/src/gatt.rs:193-200 | A PSM is read if and only if the bytes start with its little-endian form; short or zero reads give none. |
| `Gatt.HintReadExactly` | crates/jq-link-profile/src/gatt.rs:47-56 | No hint is read if and only if no service is in the namespace. |
| `Gatt.NodeIdReadExactly` | crates/jq-link-profile/src/session.rs:20-38 | An identity is read if and only if the bytes are its 32. |
| `Gatt.EndpointShapes` | crates/jq-link-profile/src/gatt.rs:141-179 | GATT, fanout and L2CAP endpoints carry their transport and 512 or 1472 bytes. |
| `ControlIngress.ControlEventsAreConserved` | crates/jq-link-profile/src/task.rs:1026-1049 | Over any interleaving of emissions, payloads, flushes and drains, each emitted control event is exactly once with the bridge, in the mailbox or deferred. |
| `ControlIngress.EmittedIsHistory` | crates/jq-link-profile/src/task.rs:1040-1049 | The events accounted for are those the history emitted, in order. |
| `ControlIngress.RoundMovesDeferred` | crates/jq-link-profile/src/task.rs:1026-1038 | After a drain, a flush moves as many deferred events as the mailbox holds, oldest first, and no other. |
| `ControlIngress.DeferredEventsGetThrough` | crates/jq-link-profile/src/task.rs:1026-1038 | Any number of drain-and-flush rounds moves that many mailbox-fulls of deferred events, in deferral order, until none is left. |
| `ControlIngress.OrderKeptExactly` | crates/jq-link-profile/src/task.rs:1040-1049 | An emission keeps acceptance in emission order if and only if the mailbox is full or every deferred event equals the new one: with room, it overtakes. |
| `ControlIngress.EmissionOvertakes` | crates/jq-link-profile/src/task.rs:1040-1049 | A four-action history in which a third event overtakes a deferred second one. |
| `ControlIngress.OnlyEmissionsOvertake` | crates/jq-link-profile/src/task.rs:1026-1038 | Flushes, drains and payloads never disturb the order. |
| `ControlIngress.PayloadTakesAPlaceExactly` | crates/jq-link-profile/src/task.rs:666-691 | A payload enters the mailbox if and only if there is room, and is never deferred. |
| `ControlIngress.IngressQueue.EmitControlEvent` | crates/jq-link-profile/src/task.rs:1040-1049 | Straight to the mailbox if it has room, else to the back of the deferred queue. |
| `ControlIngress.IngressQueue.FlushDeferredControlIngress` | crates/jq-link-profile/src/task.rs:1026-1038 | The pop-try-push-back loop delivers a prefix of the deferred queue, as long as the room allows, and keeps the rest in place. |
| `Startup.EveryRunIsInOrder` | crates/jq-link-profile/src/task.rs:314-418 | Through any power events and outcomes: advertising started implies GATT started, which implies L2CAP started or unsupported; the registered service carries the PSM on record; a step still pending implies a retry is due. |
| `Startup.AttemptSettles` | crates/jq-link-profile/src/task.rs:314-411 | One attempt from any ordered ladder ends ordered, current and with no step pending without a retry below it. |
| `Startup.RetryListed` | crates/jq-link-profile/src/startup.rs:69-77 | A retry is due exactly when one of the four steps asks for it. |
| `Startup.GoodRetryCompletes` | crates/jq-link-profile/src/task.rs:314-411 | Whatever came before, one attempt with good answers starts every step that does not wait for power. |
| `Startup.FailedStartsAreRetried` | crates/jq-link-profile/src/startup.rs:15-21 | In every run, a service, advertising, scan or listener start answered with a failure is not counted as running, and a retry is due unless the side waits for power (or L2CAP is unsupported). |
| `Startup.StartedOnlyOnAGoodAnswer` | crates/jq-link-profile/src/startup.rs:15-21 | In every run, a step turns Started only on a good answer to its own start, or for a restored service; a listener then has its PSM on record. |
| `Startup.EventOutcomes` | crates/jq-link-profile/src/task.rs:314-418 | What every event of every run makes of every step: an adapter that comes back asks for its whole side again; each step asked for is decided by its answer, each other left alone. |
| `Startup.AttemptParksExactly` | crates/jq-link-profile/src/task.rs:314-332 | After any run, an attempt leaves the peripheral side waiting if and only if it reads that adapter as off or the side waited before; scanning likewise with the central adapter. |
| `Startup.ParkedExactly` | crates/jq-link-profile/src/startup.rs:69-77 | In every reachable ladder with no retry due, some step is still to come if and only if a side waits for power. |
| `Startup.WaitingExactly` | crates/jq-link-profile/src/startup.rs:49-66 | Over any run and any next event, which side then waits: its own adapter event decides alone, any other event only by an attempt that reads the adapter as off. |
| `Startup.WaitingEndsOnlyWithAPowerEvent` | crates/jq-link-profile/src/startup.rs:49-66 | A side that waits stops waiting if and only if its own adapter reports power and the attempt that follows reads it as on; both sides. |
| `Startup.UnpoweredReadParksTheLadder` | crates/jq-link-profile/src/task.rs:314-332 | An attempt that reads both adapters as off, after any run, leaves every step waiting with no retry armed, and a timer changes nothing. |
| `Startup.StalePsmExactly` | crates/jq-link-profile/src/task.rs:334-418 | A service running after an event is stale if and only if, before it, a PSM was on record and L2CAP was unsupported already or is asked for again and refused as unsupported; the first attempt never makes it stale. |
| `Startup.StalePsmHappens` | crates/jq-link-profile/src/task.rs:334-380 | A run that gets there: listen, power cycle, refused second listen. |
| `Startup.BleStartup.CentralAdapterChanged` | crates/jq-link-profile/src/startup.rs:49-56 | Assigns the scan step as specified. |
| `Startup.BleStartup.PeripheralAdapterChanged` | crates/jq-link-profile/src/startup.rs:57-66 | Resets the three peripheral steps, an unsupported listener excepted. |
| `Startup.BleStartup.TryStartL2capListener` | crates/jq-link-profile/src/task.rs:334-355 | The specified listener rung. |
| `Startup.BleStartup.TryStartGattService` | crates/jq-link-profile/src/task.rs:357-380 | The specified service rung, with the PSM known at that moment. |
| `Startup.BleStartup.TryStartAdvertising` | crates/jq-link-profile/src/task.rs:382-398 | The specified advertising rung. |
| `Startup.BleStartup.TryStartScan` | crates/jq-link-profile/src/task.rs:400-411 | The specified scan step. |
| `Startup.BleStartup.AttemptStartup` | crates/jq-link-profile/src/task.rs:314-332 | The attempt in the source's order, as specified. |
| `Startup.BleStartup.Handle` | crates/jq-link-profile/src/task.rs:248-312 | Power events attempt startup only when they switch on, the timer only while a retry is due, as in the machine of the run theorems. |
| `Notify.NotifyIsAllOrNothing` | crates/jq-link-profile/src/task.rs:819-858 | Calls are made if and only if the endpoint is the fanout, there are receivers, and all of them are known subscribers (on Linux, all the known subscribers); one call per receiver, on its own device, or one broadcast. |
| `RuntimeLoop.MulticastReachesExactlyTheReceivers` | crates/jq-link-profile/src/task.rs:819-858 | In every state of every run of the loop, with no assumption on identities and on both platforms: the nodes reached, counting every subscriber of every record, are none or exactly the requested receivers, and calls are made exactly when all of them are known subscribers (on Linux, all the known ones). |
| `RuntimeLoop.EverySubscriberIsProven` | crates/jq-link-profile/src/task.rs:573-583 | In every state of every run of the loop, whoever is subscribed on a node's record is at that moment proven to be that node; restored lists may repeat devices and nodes. |
| `Notify.SubscriberDevicesExact` | crates/jq-link-profile/src/task.rs:845-858 | A device list exists if and only if every receiver is a subscriber, and gives each receiver its device. |
| `Multicast.AdmissionKeysAreSubscribers` | crates/jq-client/src/multicast.rs:14-31 | Replaying any emitted log through admission, stamped in any way, yields the subscriber set of that log. |
| `Multicast.AdmissionKeysFollowEvents` | crates/jq-client/src/multicast.rs:14-31 | Of any events, payloads among them, admission holds a node if and only if the last fanout event on it is not a fault. |
| `Multicast.AdmittedUnderLastTick` | crates/jq-client/src/multicast.rs:14-31 | A node is admitted under the tick of the last fanout observation on it, which is not a fault. |
| `Multicast.AdmissionMirrorsTheRuntime` | crates/jq-client/src/multicast.rs:14-31 | Under stable identity, admission fed the emitted events holds exactly the nodes whose runtime record has a subscriber. |
| `Multicast.AdmittedMulticastIsDelivered` | crates/jq-client/src/multicast.rs:33-56 | On both platforms: a targeted dispatch serves exactly the receiver lists whose members admission knows, a broadcast exactly those that name all it knows; either reaches just the receivers. |
| `Multicast.LatestObservedTickIsMaximum` | crates/jq-client/src/multicast.rs:66-73 | The evidence tick is an upper bound of the known receivers' ticks and one of them, or zero. |
| `Multicast.MulticastAdmission.IngestTransportObservation` | crates/jq-client/src/multicast.rs:14-31 | The in-place update is one step of the replay. |
| `Multicast.MulticastAdmission.SupportFor` | crates/jq-client/src/multicast.rs:33-56 | Support is granted if and only if there are receivers, all are known and shaping grants the latest tick. |
| `Backpressure.ViewRightExactly` | crates/jq-link-profile/src/task.rs:1026-1049 | Over any history of emissions, payloads, flushes and drains, what finally gets through ends with the emitted word on a node if and only if the last emission on it did not overtake a deferred one that says otherwise, a guard read off the queue before that emission. |
| `Backpressure.DrainedViewExactly` | crates/jq-link-profile/src/task.rs:1026-1049 | The same of the events drained once nothing is left behind, for subscriptions and for paths. |
| `Backpressure.OvertakenSubscription` | crates/jq-link-profile/src/task.rs:1040-1049 | A history in which the end of a subscription overtakes its start: everything is delivered and the drained events keep the subscriber. |
| `DerivedViews.ApplyBridgeReport` | crates/jq-client/src/client.rs:367-389 | Both views are fed the observations in order, the projector not the fanout ones, then the projector the round outcome; the flag says whether any of these ingests reported a change. |
| `DerivedViews.LinksFollowEvents` | crates/jq-client/src/projector.rs:101-143 | Whatever the ticks, profiles, host views and round outcomes between, the projector's active link from the local node to each node is the path the events leave. |
| `DerivedViews.ViewsMirrorTheRuntime` | crates/jq-client/src/client.rs:367-389 | Fed the emitted events of a stable run, the projector shows for every node the endpoint of the runtime's preferred egress, which is the live path of the log, and admission exactly the runtime's subscribers. |
| `DerivedViews.ViewsBehindTheMailboxExactly` | crates/jq-client/src/client.rs:367-389 | Fed what came through the bounded mailbox, once all has: each view is right about a node if and only if the last emission on it did not overtake a deferred one saying otherwise. |
| `DerivedViews.TaskViewsExactly` | crates/jq-link-profile/src/task.rs:1026-1049 | The same of a task and its own queue, at any point of its loop where the bridge has drained everything. |
| `LossyRounds.KeptEventsSayExactly` | crates/jq-client/src/bridge.rs:322-368 | Over any rounds, failed and overflowing ones among them, the events that rounds report say of a node what all drained events say if and only if the last round that drained a word on it loses none, or loses last a word that says what the kept events say by then. |
| `LossyRounds.ViewsAfterRoundsExactly` | crates/jq-client/src/client.rs:334-389 | So after any rounds each view of each node is what the drained events say exactly on that condition. |
| `LossyRounds.FailedRoundKeepsADeadPath` | crates/jq-client/src/bridge.rs:322-368 | It is not met by two rounds of which the second drains the end of a path and fails. |
| `Publication.CallCurrentExactly` | crates/jq-client/src/client.rs:275-301 | After any call: one that completes leaves the published topology current if and only if it was current or the call moved the snapshot; one cut short publishes nothing. |
| `Publication.AlwaysCurrentExactly` | crates/jq-client/src/client.rs:334-358 | Over any calls from a current client the published topology is current after every call if and only if no call is cut short after it changed the snapshot. |
| `Publication.CallFeedsItsReports` | crates/jq-client/src/client.rs:334-389 | Every report a call receives before an error reaches the views whole and in order, the follow-up's included. |
| `Publication.SlowSendFeedsItsRoute` | crates/jq-client/src/client.rs:275-301 | The slow send feeds its route first and the rounds only when they are reached. |
| `Publication.CutShortGoesStale` | crates/jq-client/src/client.rs:334-358 | A report that adds a node and asks for a round at once, which fails: the published topology stays behind. |
| `Publication.ClientTopology.DriveBridgeRound` | crates/jq-client/src/client.rs:334-358 | The method with its early returns is the specified call, and says whether its rounds completed. |
| `Publication.ClientTopology.ActivateAndForward` | crates/jq-client/src/client.rs:275-301 | The slow send, with its refusals before any round, is the specified call. |
| `DerivedViews.SnapshotShowsLinks` | crates/jq-client/src/projector.rs:191-236 | The cached snapshot shows each link as the projector holds it wherever the host view lists it. |
| `Bridge.RoundExact` | crates/jq-client/src/bridge.rs:322-368 | From an idle bridge: which rounds fail, with which error, which wait, on what, and which advance, exactly; a success ingests the first capacity-many drained events in order under this round's tick; drops are reported on success and carried on failure; the staging queue is empty again. |
| `Bridge.ReportedUnderOwnTick` | crates/jq-client/src/bridge.rs:409-435 | Every observation of a round's report is a drained event in its place, with the event's own parties, endpoint and bytes or state, under that round's own tick. |
| `Bridge.StageClosedForm` | crates/jq-client/src/bridge.rs:390-407 | Staging takes the events that fit, in order, stamps links consecutively and counts the rest. |
| `Bridge.DropsAreAccounted` | crates/jq-client/src/bridge.rs:322-407 | Over any successes and failures, reported drops plus the carried counter are the whole excess, while counts fit 32 bits. |
| `Bridge.FailedRoundsLoseTheirEvents` | crates/jq-client/src/bridge.rs:322-368 | Over any run the reported observations are, in order, what the rounds that do not fail took from the mailbox, each under its round's tick; what a failing round took is in no report. |
| `Bridge.TicksNeverDecrease` | crates/jq-client/src/effects.rs:56-64 | Later rounds of a run carry ticks at least as high, strictly higher below the ceiling. |
| `Bridge.StampsIncrease` | crates/jq-client/src/effects.rs:74-81 | All order stamps drawn for link events over a run strictly increase until the counter saturates. |
| `Bridge.ParkingMeansIdleRound` | crates/jq-client/src/bridge.rs:371-388 | A bridge that tells its caller to block on the notifier has drained nothing, flushed nothing, and hands over the snapshot taken before that drain. |
| `Bridge.BleHostBridge.StageTransportIngress` | crates/jq-client/src/bridge.rs:390-435 | The loop with its early continue is the specified staging. |
| `Bridge.BleHostBridge.AdvanceRound` | crates/jq-client/src/bridge.rs:322-368 | The round with its early returns is the specified one, bridge fields, stamps and progress included. |
| `WakeUp.NoLostWakeUp` | crates/jq-client/src/client.rs:432-459 | Under every interleaving, a client asleep on the notifier after a completed round faces an empty mailbox unless a push is not yet announced; each such announcement is still to come and any announcement wakes the client. |
| `WakeUp.WakingDrainsTheMailbox` | crates/jq-client/src/client.rs:446-459 | A wake or a timer, from any state that takes it, leads through a fresh snapshot to a drain of the whole mailbox, every step on the way enabled. |
| `WakeUp.SleptOnEventIsDrained` | crates/jq-client/src/client.rs:446-459 | An event pushed and announced while the client sleeps wakes it and is in the drain that follows. |
| `WakeUp.AfterRoundExactly` | crates/jq-client/src/client.rs:334-358 | Where the loop goes after a round, told by what the round drained and was answered: error wait, timed or untimed wait under its own snapshot, one follow-up round, or the top. |
| `WakeUp.CommandsDrainTheMailbox` | crates/jq-client/src/client.rs:475-481 | A command served from the top or a wait has its own round, which drains the whole mailbox. |
| `WakeUp.ParksExactly` | crates/jq-client/src/client.rs:432-473 | A decided wait parks if and only if nothing was announced since its snapshot; the error wait parks under a fresh one. |
| `WakeUp.EveryRunIsGuarded` | crates/jq-client/src/client.rs:334-358 | Every reachable state, follow-up rounds, commands with and without a round and lowered shutdown flags included, has only unannounced events in the mailbox while the generation stands at a snapshot under which it was drained. |
| `WakeUp.ParkFollowsAnEmptyDrain` | crates/jq-client/src/client.rs:334-358 | A wait is decided only after a main-loop round that drained nothing, with that round's snapshot. |
| `WakeUp.ErrorWaitSleepsExactly` | crates/jq-client/src/client.rs:461-473 | From every reachable failed round, a client still asleep in the error wait after any pushes and notifies sleeps on an announced event if and only if one was in the mailbox when the late snapshot was taken; its timer is armed. |
| `WakeUp.OnlyTheErrorWaitOversleeps` | crates/jq-client/src/client.rs:432-473 | In every reachable state, a client asleep on an announced event is in the error wait. |
| `WakeUp.ErrorWaitReliesOnItsTimer` | crates/jq-client/src/client.rs:461-473 | A run that gets there: an event announced between the drain and the end of a failing round. |
| `Mesh.Build` | crates/jq-node-profile/src/authoring.rs:207-218 | Succeeds if and only if the declarative well-formedness of nodes, edges and routes holds, and then holds exactly the inputs and is well formed; an error is that of the first part that fails. |
| `Mesh.CollectNodes` | crates/jq-node-profile/src/authoring.rs:221-244 | Accepts exactly distinct nodes with a local one, mapping each by id; an error names the first repeat or the missing local node. |
| `Mesh.CollectEdges` | crates/jq-node-profile/src/authoring.rs:246-271 | Accepts exactly distinct edges between known nodes; an error names the first offending edge. |
| `Mesh.CollectRoutes` | crates/jq-node-profile/src/authoring.rs:273-288 | Accepts exactly distinct routes that each pass the rules; an error is the first route's. |
| `Mesh.ValidateRouteExactly` | crates/jq-node-profile/src/authoring.rs:290-350 | The branching check accepts a route if and only if a declarative rule holds. |
| `Mesh.ReportedErrorHolds` | crates/jq-node-profile/src/authoring.rs:290-390 | The error reported for a route is true of it, parties named included, and the checks before it passed. |
| `Mesh.ValidatePathInSteps` | crates/jq-node-profile/src/authoring.rs:352-390 | The two loops report the specified first error. |
| `Mesh.SanitizeIdempotent` | crates/demo/src/lib.rs:554-588 | Sanitising twice is sanitising once, and does not change who is visible. |
| `Mesh.SanitizeExactly` | crates/demo/src/lib.rs:554-588 | The sanitised view keeps, unchanged, exactly the local node and its neighbours, its own edges, and the routes among those. |
| `Mesh.SanitizeKeepsTopologyExactly` | crates/demo/src/lib.rs:554-588 | Sanitising keeps a well-formed topology well formed if and only if every direct route it keeps is owned by the local node. |
| `Mesh.SanitizingBreaksTopology` | crates/demo/src/lib.rs:554-588 | A well-formed topology of two nodes with the neighbour's direct route to the local node, whose sanitised view the rules refuse. |
| `Projector.ProjectedRouteExactly` | crates/jq-client/src/projector.rs:281-379 | A route is projected exactly when its ends are known; the projection is the observed route, direct over a live edge hinted at one hop and reachable over the hinted hops otherwise, and passes the builder's rules on the same snapshot, except a single-hop hint without a live direct edge, which draws that one error. |
| `Projector.SnapshotWellFormedExactly` | crates/jq-client/src/projector.rs:191-236 | A snapshot of a sound host view is a well-formed topology if and only if no projected route has that refused form. |
| `Projector.SnapshotHoldsTheHostView` | crates/jq-client/src/projector.rs:191-279 | The snapshot holds the host view's nodes and links and nothing else, each link under its own observation if there is one, and the local node alone as local. |
| `Projector.RefusedRouteHappens` | crates/jq-client/src/projector.rs:281-352 | A sound host view of two nodes whose snapshot holds such a route and is not a well-formed topology. |
| `Projector.IngestKeepsCache` | crates/jq-client/src/projector.rs:101-143 | One ingest keeps the cached snapshot equal to a full recompute and links equal to their observations, moves the tick to the maximum, makes the remote known under the new profile if it was not, and returns true exactly when the snapshot changed. |
| `Projector.HostUpdateKeepsCache` | crates/jq-client/src/projector.rs:74-99 | Ingests that only move the host view recompute the snapshot and report exactly whether it changed. |
| `Projector.CacheStaysCoherent` | crates/jq-client/src/projector.rs:74-188 | The same after any ingests from any seed, with the tick at the maximum seen and a known remote for every link observed, and for every link at all when the seed knows the remotes of its own. |
| `Projector.PathTransportMixInSteps` | crates/jq-client/src/projector.rs:355-379 | The loop over hops gives the distinct transports in path order, or nothing for a missing edge. |
| `Projector.TopologyProjector.constructor` | crates/jq-client/src/projector.rs:34-61 | The seed is coherent state: observations at the initial tick and the snapshot computed from them. |
| `Projector.TopologyProjector.RefreshSnapshot` | crates/jq-client/src/projector.rs:145-154 | Replaces the snapshot only when it differs, and says so. |
| `Projector.TopologyProjector.BumpTopologyTick` | crates/jq-client/src/projector.rs:156-163 | Only a later tick moves the topology tick. |
| `Projector.TopologyProjector.EnsureRemote` | crates/jq-client/src/projector.rs:165-188 | Adds an unknown remote once. |
| `Projector.TopologyProjector.IngestTransportObservation` | crates/jq-client/src/projector.rs:101-143 | The method with its flags and early returns is the specified ingest. |
| `Framing.ClientFramingExact` | crates/jq-client/src/framing.rs:6-19 | Decoding yields a payload if and only if the bytes are that payload framed. |
| `Framing.ApplicationFramingExact` | crates/demo/src/lib.rs:438-458 | Decoding yields a frame if and only if the bytes are that frame encoded. |
| `Framing.AppendApplicationFrame` | crates/demo/src/lib.rs:420-436 | The appended buffer decodes to the frame it was given and is 72 bytes longer than the payload. |
| `RelayNetwork.SurfacedMessagesWereSent` | crates/demo/src/lib.rs:460-514 | In any network under any next hops, loss, reordering and duplication: a message surfaced at a node is addressed to it and stands after a send by its claimed source of exactly that payload to that node. |
| `RelayNetwork.EveryRunIsHonest` | crates/demo/src/lib.rs:460-514 | Every application frame on the wire or in transit was sent as it is, and no transit frame waits at its own destination. |
| `RelayNetwork.LineDelivers` | crates/demo/src/lib.rs:460-534 | Along any line of hops that meets the destination only at its end, there is a run that surfaces the message there, unchanged and under its source's name. |
| `RelayPump.RelayFramedPayload` | crates/demo/src/lib.rs:516-534 | At most the allowed tries, each but the last a retryable failure with tries left, success exactly when the last one succeeded; no tries only with a limit of zero. |
| `RelayPump.RetryableErrors` | crates/demo/src/lib.rs:536-551 | Exactly nine errors are worth another try, listed. |
| `RelayPump.TryOutcome` | crates/demo/src/lib.rs:516-534 | A success ends a relay as delivered, a retryable failure with tries left keeps it running, any other ends it with a report; endings give the permit back. |
| `RelayPump.TakenFrameStarts` | crates/demo/src/lib.rs:460-514 | A frame taken waits for a permit and with one becomes the next relay. |
| `RelayPump.UntriedIsReported` | crates/demo/src/lib.rs:516-534 | With no tries allowed a relay is reported dropped untried. |
| `RelayPump.RelaysAreAccounted` | crates/demo/src/lib.rs:460-534 | Over any run at most 64 relays are in flight, and permits and relays always add up to 64. |
| `RelayPump.EveryTakenFrameEndsOnce` | crates/demo/src/lib.rs:460-534 | Each relay makes at most the allowed tries and ends in exactly one successful send or exactly one drop report. |
| `RelayPump.BlockedOnlyByRunningRelays` | crates/demo/src/lib.rs:460-514 | The pump can be stuck on a permit only while 64 relays are running. |
| `RelaySystem.EveryTransitFrameEndsOnce` | crates/demo/src/lib.rs:460-534 | In the network with a pump at every node: each frame taken in transit is one relay of its pump, which ends in exactly one successful send or one drop report; its packets are its successes and the tries that failed in their bridge round once flushed, so successes <= packets <= tries <= the limit; the relayed packets of the network are exactly these, each carrying its own frame. |
| `RelaySystem.DroppedReachedWireExactly` | crates/jq-client/src/client.rs:247-301 | A relay reported dropped has put its frame on the wire if and only if more of its tries failed in their round than are still queued; with nothing queued, if and only if some try did. |
| `RelaySystem.DroppedFrameIsOnItsWay` | crates/demo/src/lib.rs:516-551 | A run in which the only try fails in its round, the drop is reported and the frame is on the wire all the same. |
| `RelaySystem.RelayedFrameArrives` | crates/demo/src/lib.rs:460-534 | What one node sends to another through a third surfaces there under the sender's name, and the relay has ended in one success. |
| `RelaySystem.SendAndSurface` | crates/demo/src/lib.rs:460-534 | From any reachable state with a frame in hand, a successful try and an arrival surface it at its destination. |
| `RelaySystem.TransitIsConserved` | crates/demo/src/lib.rs:460-534 | At every node, frames taken in transit equal relays that succeeded, were reported dropped, are in flight, and the one held for a permit. |
| `RelaySystem.PumpedMessagesWereSent` | crates/demo/src/lib.rs:460-534 | The pumps, late flushes of failed sends included, do only what the network allows: whatever surfaces while they run was sent as it is. |
| `RelaySystem.EveryRunIsBooked` | crates/demo/src/lib.rs:460-534 | The invariant behind these, over every run and every node. |
| `Invite.DecodesExactly` | crates/demo/src/lib.rs:353-393 | A text is accepted, as an id, if and only if trimmed it is that id in 64 hex digits, or the deep link, with or without the slash after the scheme, around such digits and padding. |
| `Invite.InviteRoundTrip` | crates/demo/src/lib.rs:346-393 | Every id, printed as a link or as bare hex and padded with any white space, is read back. |
| `Invite.AcceptedInvitesAreCanonical` | crates/demo/src/lib.rs:346-393 | Outer white space never matters, and whatever is accepted, printed canonically, is read as the same id. |
| `Invite.RejectionsSayWhy` | crates/demo/src/lib.rs:353-393 | Every rejection says why: nothing but white space, a foreign scheme by name, a foreign path, a wrong length by count, or digits that are not hex. |
| `Invite.SplitOnceFindsScheme` | crates/demo/src/lib.rs:359-364 | The first separator ends the scheme, whatever follows. |
| `Invite.HexRoundTrip` | crates/demo/src/lib.rs:346-351 | Hex text of any bytes decodes to those bytes. |

## Left out

- The `blew` central and peripheral, L2CAP byte streams and codec tasks: operating-system I/O. A write may be
  refused and a close may arrive, at any time.
- Peripheral read requests and GATT characteristic contents other than the identity and PSM formats: they
  change no state. Writes and subscriptions on characteristics other than the service's own are refused or ignored
  before any state is touched, so the steps start behind that filter.
- Platform glue: Android GATT cache refresh, fetching restored devices, scan filter and configuration mapping.
- Claims pending on an accepted L2CAP channel: the identity read off the channel is an input of the accept step.
- The client's route cache and reply channels: which route a send uses follows the answers of the router, which
  is not part of this model. When a send queues its packet and when a call publishes the topology are modelled.
- Mercator, the multi-engine router, routing policy constants and preset node profiles.
- Evidence values produced by delivery shaping (`crates/jq-link-profile/src/cast.rs`): only the endpoint, the
  state and the tick they are shaped at are kept.
- How the generic host projector derives its view: each ingest is given the resulting view.
- Route metadata that no rule reads: engine, mode and multicast details of an active route.
- The kind and position reported for a malformed hex digit: one error stands for all of them.
- Event streams, host sinks, the host-state facade, error formatting, serde, storage and event-log effects,
  and the fluent setters of the topology builder.
- Real time: timers may fire at any time, and sleep lengths are not modelled.
- RuntimeTask.BleRuntimeTask.DispatchOnce: the source has this pass inline in its loop; here it is a method of
  its own so that one pass has a contract.
- Bridge.DropsAreAccounted: beyond 32-bit counts the report is clamped and the equation does not hold.
