# Verification of Sigmo's routing, media and call logic

A Dafny model of the parts of Sigmo that are hardest to get right by reading, with proofs of what they promise.

**Default routes.** When a modem becomes the default route, every competing route is moved to a higher metric. The moves
are journalled first, made one by one with rollback, and undone later, in whatever order connections end. The model has
the kernel table (one route per family and metric, adding to an occupied slot refused, deleting an absent route does
nothing), the stored journal, and a machine on which any call may fail and the process may stop after any call.
`routes.dfy`, `undo.dfy`, `demotion.dfy`, `machine.dfy`, `takeover.dfy` and `recovery.dfy` are the transaction;
`connections.dfy`, `sync.dfy`, `bearer.dfy` and `connector.dfy` the connector that runs it; `tracking.dfy`,
`connecting.dfy` and `runs.dfy` the invariant that links table, journal and tracked connections, and what follows for
whole runs; `progress.dfy` that runs never get stuck; `inheritance.dfy`, `pairs.dfy` and `mixed.dfy` exactly when two
lists of families will do instead of one, and `newest_first.dfy` that the last in, first out order needs no condition;
`adoption.dfy` and `restart.dfy` what a new process makes of a stopped takeover; `leaning.dfy` stops while the only
default connection is let go. `netlink.dfy` is the rtnetlink encoding beneath it.

**Voice media.** AMR payloads and files (RFC 4867) bit by bit in `bits.dfy`, `amr.dfy`, `octet_aligned.dfy` and
`amr_storage.dfy`, the RTP rewriter that fills gaps with silence (RFC 3550) in `rtp.dfy`, and the resampler in
`resample.dfy`.

**Lifecycles.** The Wi-Fi Calling session coordinator (`coordinator.dfy`), all its interleavings (`fencing.dfy`) and
what they get to (`reconnecting.dfy`), its voice calls (`voice.dfy`), the modem presence runner (`presence.dfy`) and the
stored call records (`calls.dfy`).

**Small parsers.** The smart-card ATR scan (`atr.dfy`) and LIKE patterns (`like.dfy`, `text.dfy`).

Code that updates things in place is modelled by classes and methods with loops. Each such method is proved equal to a
function of its input or of the old state; the lemmas are about those functions.

Network and store calls are steps of class `Machine`. The D-Bus bearer, the clock, the answers of a dial or a websheet
and the database's errors are parameters. Numbers are unbounded except where the code's width shows: 16- and 32-bit RTP
counters, 16-bit samples, and the 8-, 16- and 32-bit fields of messages, which are taken to be little-endian.

Where the code falls short of what one would expect of it, a lemma says exactly when: `Takeover.SafeExactlyIfHarmless`
(a stop during a takeover whose own route is already in the table loses that route),
`Adoption.AdoptedComesBackExactlyIf` (a process that finds the bearer still up after a stop can lose the moved routes),
`Bearers.EntryIsLostExactlyIf` (so can a rollback that cannot delete an added route), `Connecting.RefusedExactlyIfHeld`
and `Runs.ConnectTakesEffect` (a default connect is refused), `MixedFamilies.BackExactlyIfNested` (different address
families), `Netlink.RouteRoundTrip` (numbers that do not fit the message), `RtpRewriter.StreamOffset` (overlapping
packets and long gaps move the timestamp offset), `Resampling.DurationKept` (very short signals) and
`CallRecords.NewsHistory` (a voice event that cannot be saved is published all the same).

## Model

| member | source | states |
|---|---|---|
| `Undo.UndoneMoved` | internal/pkg/internet/default_route.go:114-139 | a planned list of moves, applied and then undone last to first, gives the table back, and no undo step is refused |
| `Undo.RecoveryRestores` | internal/pkg/internet/default_route.go:197-205 | from any state a takeover or a recovery can have been interrupted in, deleting the preferred routes and undoing the changes gives the table before the takeover |
| `Undo.StepStaysRecoverable` | internal/pkg/internet/default_route.go:57-76 | adding or deleting any route of the entry leaves the state recoverable |
| `Undo.AnyRunIsRecoverable` | internal/pkg/internet/default_route.go:197-205 | after any number of such steps in any order, repeats included, recovery still ends with the original table |
| `Demotion.FallbackMetric` | internal/pkg/internet/default_route.go:280-286 | terminates within one step per occupied slot, at the least free metric from 10 + metric + 1 on |
| `Demotion.SecondaryRouteMetricFor` | internal/pkg/internet/bearer_config.go:214-228 | the least metric from 9000 on that is free in every family of the bearer, found within one step per occupied slot |
| `Demotion.LeastFreeIsUnique` | internal/pkg/internet/default_route.go:280-295 | only one metric is least free, so the search's result is determined by the occupied slots |
| `Demotion.PreferredMetric` | internal/pkg/internet/default_route.go:265-278 | the least metric of the preferred routes of a family, or none |
| `Demotion.DefaultRouteChanges` | internal/pkg/internet/default_route.go:243-263 | the loop computes the plan that the lemmas below are about |
| `Demotion.PlanIsSound` | internal/pkg/internet/default_route.go:243-263 | only competing routes move, each to a higher metric in a slot free before and not given twice |
| `Demotion.PlanIsComplete` | internal/pkg/internet/default_route.go:243-263 | every competing route moves |
| `Demotion.DemotedToLeastFree` | internal/pkg/internet/default_route.go:255-286 | each route moves to the first metric above its own plus 10 that neither a listed route nor an earlier replacement of its family has |
| `Demotion.ChangesArePlanned` | internal/pkg/internet/default_route.go:243-263 | for any listing of the table the plan can be carried out, and moves exactly the routes that compete |
| `Demotion.TakeoverSettles` | internal/pkg/internet/default_route.go:243-295 | with preferred metrics of at most 10, afterwards no route competes and none is lost |
| `Demotion.TakeoverIsIdempotent` | internal/pkg/internet/default_route.go:243-295 | recomputing the changes after the takeover, from any listing, gives none |
| `Demotion.OrderIsKept` | internal/pkg/internet/default_route.go:280-295 | if routes are listed in ascending metric per family, demoted metrics keep that order strictly |
| `Machines.Machine.AddDefaultRoute` | internal/pkg/netlink/netlink.go:129-135 | refused as existing exactly when the slot is occupied, else stored with protocol 0 read as static; a failing call changes nothing |
| `Machines.Machine.DeleteDefaultRoute` | internal/pkg/netlink/netlink.go:137-143 | removes the route if it is there, else does nothing |
| `Machines.Machine.SaveRouteState` | internal/pkg/internet/connection_state.go:108-121 | writes a journal entry only where there is none |
| `Machines.Machine.PutRouteState` | internal/pkg/internet/connection_state.go:123-134 | overwrites the interface's entry and no other |
| `Takeover.RestoreOriginalDefaultRoute` | internal/pkg/internet/default_route.go:127-139 | succeeds if the slot is free or holds the same route, which is then left as it is; a foreign route is never overwritten |
| `Takeover.RestoreDefaultRoutes` | internal/pkg/internet/default_route.go:114-125 | if it succeeds, or no call fails, the table is the undone one |
| `Takeover.MoveDefaultRoute` | internal/pkg/internet/default_route.go:58-74 | one delete and one add under faults: the route is moved, untouched, or, if restoring fails too, missing |
| `Takeover.ApplyChanges` | internal/pkg/internet/default_route.go:57-76 | for every schedule of failures, restoring the returned list from the table left behind gives the original table |
| `Takeover.CommitChanges` | internal/pkg/internet/default_route.go:50-77 | with the entry journalled first, every state the process can stop in is covered by the entry, for tables that hold none of the preferred routes |
| `Takeover.TakeoverDefaultRoutes` | internal/pkg/internet/default_route.go:44-77 | fault atomicity of a whole takeover and, wherever a stop is harmless, write-ahead crash safety; on success the planned table and journal |
| `Takeover.CoveredRecovers` | internal/pkg/internet/default_route.go:197-205 | a covered state leads back to the original table through its entry, or is that table |
| `Takeover.SafeExactlyIfHarmless` | internal/pkg/internet/default_route.go:44-56 | when an entry is saved at all, recovering right after it gives the table back: that holds exactly if nothing competes or none of the preferred routes was in the table |
| `Takeover.HeldRouteIsLost` | internal/pkg/internet/default_route.go:197-223 | such a table exists: a preferred route that was already there, next to a competitor, is lost by the recovery |
| `Recovery.RemovedExisting` | internal/pkg/internet/default_route.go:207-223 | deleting only the preferred routes the dump shows has the effect of deleting all of them |
| `Recovery.RestoreStaleState` | internal/pkg/internet/default_route.go:197-205 | deletes the listed preferred routes and undoes the changes before dropping the entry, and stays recoverable wherever it is stopped |
| `Recovery.RestoreStaleStates` | internal/pkg/internet/default_route.go:141-195 | takes up every selected entry, one after the other, and drops it; with one selected, scoped or not, a covered state stays covered on the way and success gives back the original table and journal; with none selected nothing is touched |
| `Recovery.TakenUpForModem` | internal/pkg/internet/default_route.go:156-183 | a recovery for a modem takes up exactly its own entries and, on the interfaces given, those without an owner |
| `Recovery.TakenUpForNobody` | internal/pkg/internet/default_route.go:156-165 | one without a scope takes up exactly the entries none of whose preferred routes is in the table, and so only undoes |
| `Connections.RouteState` | internal/pkg/internet/bearer_config.go:553-569 | the least metric among the interface's routes, and none exactly if it has no route |
| `Connections.ConnectedServesBearer` | internal/pkg/internet/bearer_config.go:172-212 | a connect that takes effect gives the modem one route per link in the links' order, with the link's gateway, the bearer's own address as source, protocol and scope unset, at metric 10 if it is the default and from 9000 on if not; and the table has each of them in the slot of its family and that metric, as static |
| `OwnerSync.DemoteOwners` | internal/pkg/internet/connection.go:524-572 | after a takeover every tracked connection has its moved routes, metric and flag |
| `OwnerSync.RestoreOwners` | internal/pkg/internet/connection.go:574-614 | after an undo, last change first, every tracked connection has its restored routes, metric and flag |
| `OwnerSync.DemoteTrackedRoute` | internal/pkg/internet/connection.go:708-724 | replaces the owned route and recomputes metric and flag from all routes, or reports that nothing is owned |
| `OwnerSync.DefaultRouteChangesAfterRemoval` | internal/pkg/internet/connection.go:662-684 | the removed connection's changes take the place of the first change that demoted it; later ones go |
| `OwnerSync.Heirs` | internal/pkg/internet/connection.go:623-647 | exactly the connections whose changes name routes of the removed one inherit |
| `Bearers.CleanupApplied` | internal/pkg/internet/bearer_config.go:153-166 | success means routes deleted and changes undone; the entry is gone only if every change was undone; from a state that the entry covers, every stop on the way is covered exactly if in the end the entry is there or the table is the original one, which is so unless deleting a route failed |
| `Bearers.AddRoutes` | internal/pkg/internet/bearer_config.go:103-108 | the routes added so far are exactly those in the table, also after a failure |
| `Bearers.RolledBack` | internal/pkg/internet/bearer_config.go:80-86 | deleting what was added and undoing the takeover gives back the table before the connect |
| `Bearers.EntryIsLostExactlyIf` | internal/pkg/internet/bearer_config.go:80-86 | a rollback left with added routes that could not be deleted undoes everything and drops the entry, so that nothing leads back, exactly if there are such routes and none sits in the slot of a moved one |
| `Bearers.EntryCanBeLost` | internal/pkg/internet/bearer_config.go:153-166 | such a rollback exists |
| `Bearers.ConfigureDefault` | internal/pkg/internet/bearer_config.go:35-112 | a default-route connect: first the recovery of what a stopped takeover of the modem has left, then the takeover and the bearer's routes, one per link with the link's gateway and source at metric 10, all in the table; or, when refused with no call failing, the recovered table and journal; where something competes, every stop on the way is covered, in a connect that fails as well, unless an added route could not be deleted again |
| `Bearers.ConfigureSecondary` | internal/pkg/internet/bearer_config.go:64-108 | a secondary connect at the least free metric from 9000 on in all its families, with one route per link with the link's gateway and source, all in the table; or, when refused with no call failing, the table as before |
| `Connectors.Connector.CleanupTracked` | internal/pkg/internet/connection.go:510-522 | deletes the connection's routes and, only if it is the default, undoes its own changes |
| `Connectors.Connector.SyncDefaultRouteRemoval` | internal/pkg/internet/connection.go:623-660 | heirs and their journal entries are rewritten, nobody else's |
| `Connectors.Connector.Disconnect` | internal/pkg/internet/connection.go:443-508 | of a tracked connection: success does what `Disconnects` says to table, journal and connections, and is certain if no call fails and the undo has its slots; if the connection's entry covers the state, every stop on the way is covered, unless a route could not be deleted. Of a modem that is not tracked: with the bearer gone or down, success puts a stopped takeover back as if it had never begun, staying covered on the way; with the bearer up, its routes are deleted, the entry's changes undone and the entry dropped |
| `Connectors.Connector.Recover` | internal/pkg/internet/connection.go:310-347 | a new process adopts a bearer that is up, with the routes, flag and changes it finds, and recovers the entries of a modem whose bearer is gone or down |
| `Connectors.Connector.Track` | internal/pkg/internet/connection.go:524-572 | the owners of moved routes are demoted and the new connection tracked; if writing the entry again fails, the owners have their new routes but the old metric and flag |
| `Connectors.Connector.ConnectAsDefault` | internal/pkg/internet/connection.go:356-425 | when it succeeds, or no call fails, it does what `Connects` says for a default-route connection; where something competes, every stop on the way is covered, whether it succeeds or not, unless an added route could not be deleted again |
| `Connectors.Connector.ConnectAsSecondary` | internal/pkg/internet/connection.go:356-425 | when it succeeds, or no call fails, it does what `Connects` says for a secondary connection |
| `Connectors.Connector.Connect` | internal/pkg/internet/connection.go:356-425 | first lets the modem's previous connection go as `Disconnect` does, whatever has become of its bearer, then connects; after success the modem has one route per link of the bearer, with its addresses, and the table has them |
| `Restarts.ConnectAfterStop` | internal/pkg/internet/connection.go:310-508 | a process stopped during a takeover, started again and finding the bearer gone or down, connects the modem to whatever bearer as if that takeover had never begun |
| `Adoption.RecoverTrackedConnection` | internal/pkg/internet/bearer_config.go:465-528 | the adopted connection has one route per link at the least metric found on the interface, or none; the flag follows the metric, or the preferences if no route is found; the changes are the entry's, and a default connection without an entry takes over again |
| `Adoption.AdoptedDefaultLeads` | internal/pkg/internet/bearer_config.go:509-519 | a bearer adopted as the default without an entry of its own has taken over: nothing competes with its routes, and no route is lost |
| `Adoption.AdoptedComesBackExactlyIf` | internal/pkg/internet/connection.go:510-522 | letting an adopted connection go after a stopped takeover gives back the table before it, exactly if the preferences ask for a default route, nothing had been moved yet, or one of the bearer's own routes was already there |
| `Restarts.ConnectAfterAdoption` | internal/pkg/internet/connection.go:310-425 | so the same condition decides from which table a new process, finding the bearer up, connects the modem again; the entry is gone in any case |
| `Restarts.MovedRouteIsLost` | internal/pkg/internet/connection.go:510-522 | a stop after the host's route was moved and before the bearer's own was added: the route stays moved for good |
| `Adoption.CleanupBearer` | internal/pkg/internet/bearer_config.go:114-151 | deletes the routes found and undoes the entry's changes whatever the flag; without addresses it does nothing |
| `Restarts.ConnectWithoutAdoption` | internal/pkg/internet/connection.go:486-508 | a bearer that is up but not tracked is cleaned up so that the table before the stopped takeover is always back |
| `Tracking.OnlyHeirInherits` | internal/pkg/internet/connection.go:662-684 | when a middle connection goes, exactly the connection above it in the stack of takeovers inherits, and it inherits all |
| `Tracking.RemovedBehind` | internal/pkg/internet/connection.go:443-522 | removing a connection that is not the default keeps the invariant of table, journal and connections |
| `Tracking.PopKeeps` | internal/pkg/internet/connection.go:443-522 | removing the default connection uncovers the one below it and keeps the invariant |
| `Tracking.DisconnectKeeps` | internal/pkg/internet/connection.go:443-684 | every disconnect, in any order, keeps the invariant |
| `Tracking.AlwaysUndoable` | internal/pkg/internet/connection.go:510-522 | in every state of a run the undo of the default connection finds its slots free |
| `Connecting.RefusedExactlyIfHeld` | internal/pkg/internet/default_route.go:243-263 | after the takeover the slots of the new default routes are free, so that none is refused, exactly if the table did not already hold one of these very routes |
| `Connecting.TakeoverClears` | internal/pkg/internet/default_route.go:44-77 | with none of the new default routes in the table, the takeover moves every route of the families at metric 10 or below and frees the slots |
| `Connecting.DefaultConnectKeeps` | internal/pkg/internet/connection.go:356-425 | a default-route connect keeps the invariant, with the new connection on top of the stack |
| `Connecting.ConnectKeeps` | internal/pkg/internet/connection.go:356-425 | so does every connect, secondary ones of other families included; it either gives the modem its connection or changes nothing, and which of the two is decided by the connections and the host's table |
| `Runs.RunKeeps` | internal/pkg/internet/connection.go:443-684 | the invariant holds after every action of every run |
| `Runs.ConnectTakesEffect` | internal/pkg/internet/connection.go:356-425 | in every run a default connect is refused exactly if no other connection is the default and the host itself had one of the new routes; a secondary connect exactly if its bearer has a family twice |
| `Progress.RunGoesOn` | internal/pkg/internet/connection.go:356-461 | every run goes on with any admissible action: the listings, metrics and journals that the steps ask for exist |
| `Runs.HostGetsItsTableBack` | internal/pkg/internet/connection.go:443-684 | whenever no connection is left, after connects and disconnects in any order, the table is the host's and the journal empty |
| `Runs.ConnectionsMatchTable` | internal/pkg/internet/connection.go:524-742 | after every action: the flag says metric at most 10, at most one connection has it, it leads the table, and recorded routes are exactly the interface's |
| `Leaning.OnlyDefaultLeans` | internal/pkg/internet/connection.go:510-522 | in a run with one default connection whose entry names its routes, the entry leads back from the table as it is to the table without the connection |
| `Leaning.LetGo` | internal/pkg/internet/connection.go:443-461 | so every stop while that connection is let go is covered, unless one of its routes could not be deleted |
| `Leaning.FirstDefaultOwns` | internal/pkg/internet/connection.go:356-425 | the first default connection of a run that moves anything has such an entry |
| `MixedFamilies.BackExactlyIfNested` | internal/pkg/internet/connection.go:510-724 | two default connections one over the other, let go oldest first, for any host table and any two lists of families: the host gets its table back exactly if the upper one has all the families of the lower one or none of them |
| `Inheritance.InheritedAre` | internal/pkg/internet/connection.go:662-684 | if their slots differ, the inheriting connection ends with its other changes and the removed one's, each once and in distinct slots |
| `MixedFamilies.MixedFamiliesLeaveARoute` | internal/pkg/internet/connection.go:708-724 | so a concrete run of four steps leaves a route behind |
| `NewestFirst.NewestFirstGivesBack` | internal/pkg/internet/connection.go:443-614 | any number of default connections with any families, let go newest first: after each disconnect the table and the journal are those of before its connect, and no undo finds its slots taken |
| `Netlink.NumberRoundTrip` | internal/pkg/netlink/netlink.go:428-433 | a number written in so many bytes is read back exactly if it fits |
| `Netlink.LeastSignificantFirst` | internal/pkg/netlink/netlink.go:428-433 | numbers of two and four bytes stand with the least significant byte first |
| `Netlink.AppendAttr` | internal/pkg/netlink/netlink.go:464-473 | grows the message by one attribute, length, type, value and zero padding, and leaves the rest |
| `Netlink.AttrLayout` | internal/pkg/netlink/netlink.go:464-473 | length, type, value and zeros up to a multiple of four, each where it belongs |
| `Netlink.ParseAttrs` | internal/pkg/netlink/netlink.go:410-426 | terminates on arbitrary bytes with the attributes that stand whole at the front, later ones replacing earlier ones |
| `Netlink.AttrsReadTo` | internal/pkg/netlink/netlink.go:410-473 | any list of attributes written one after the other is read back, the last of each type, whatever follows that is no whole attribute |
| `Netlink.ChangeDefaultRoute` | internal/pkg/netlink/netlink.go:177-222 | builds the request exactly when family, interface, gateway and source allow it |
| `Netlink.RequestHeader` | internal/pkg/netlink/netlink.go:186-191 | the header of every request: family, main table, protocol with 0 as static, scope, unicast, all else zero |
| `Netlink.ParseMultipath` | internal/pkg/netlink/netlink.go:370-401 | terminates on arbitrary bytes with one route per whole next hop of a known interface |
| `Netlink.HopsReadTo` | internal/pkg/netlink/netlink.go:370-401 | next hops with any attributes give their routes in order, those of unknown interfaces left out, with the route's gateway where they have none, whatever follows that is no whole hop |
| `Netlink.ParseDefaultRoutes` | internal/pkg/netlink/netlink.go:320-368 | the routes of a message about a unicast default route of the main table, and none of any other: a result that is not empty means destination length 0, unicast, family 2 or 10 and main table |
| `Netlink.OtherMessagesGiveNothing` | internal/pkg/netlink/netlink.go:320-341 | a message gives no route as soon as one thing differs: too short, a destination length, another type, another family, or another table, by its attribute or, without one, by the header |
| `Netlink.DefaultMessageRead` | internal/pkg/netlink/netlink.go:343-367 | every other message gives what its fields say: one route with the interface, metric, addresses, protocol and scope, or the routes of its next hops, or none if the interface is unknown or missing; the gateway is that of the via attribute if the gateway attribute holds none of the family |
| `Netlink.RouteRoundTrip` | internal/pkg/netlink/netlink.go:177-368 | a route's request reads back as the route, protocol 0 as static, exactly if metric, protocol and scope fit their fields |
| `Netlink.DefaultRoutes` | internal/pkg/netlink/netlink.go:32-51 | the loops over all dumps collect each reported route once |
| `Netlink.ReportedInAllExactly` | internal/pkg/netlink/netlink.go:34-49 | what is collected is exactly what the messages about new routes give, from all dumps |
| `Netlink.DumpIsListing` | internal/pkg/netlink/netlink.go:32-51 | if the messages report the table's routes, one per slot, the result lists the table, every route exactly once: what takeovers assume of a listing |
| `BitStrings.BitWriter.WriteBits` | pro/voicecodec/amr.go:592-618 | appends the low bits of a number, most significant first |
| `BitStrings.BitWriter.WriteBytes` | pro/voicecodec/amr.go:598-602 | appends the first bits of the bytes |
| `BitStrings.BitReader.ReadBits` | pro/voicecodec/amr.go:559-571 | returns the number the next bits stand for and goes past them, or reports too few bits |
| `BitStrings.BitReader.ReadBytes` | pro/voicecodec/amr.go:573-590 | returns the next bits in as few bytes as possible, unused bits zero |
| `BitStrings.MostSignificantFirst` | pro/voicecodec/amr.go:559-571 | numbers stand with the most significant bit first |
| `BitStrings.HoldsOnce` | pro/voicecodec/amr.go:592-619 | a bit string is held by one byte string only |
| `AMR.TablesAgree` | pro/voicecodec/amr.go:90-93 | the byte table of each codec is its bit table rounded up, type by type |
| `AMR.FrameHasItsRate` | pro/voicecodec/amr.go:90-91 | the bits of a speech frame are those of 20 ms at the bit rate of its mode |
| `AMR.MarshalBandwidthEfficient` | pro/voicecodec/amr.go:171-201 | the first faulty frame's error, or header, table of contents and speech bits in as few bytes as possible |
| `AMR.FirstFault` | pro/voicecodec/amr.go:177-184 | the error is about the first frame with a type the codec has not or with a size that does not fit, and which of the two it is; none exactly if there is no such frame |
| `AMR.UnmarshalBandwidthEfficient` | pro/voicecodec/amr.go:203-244 | on every byte string, what its bits say, as `PayloadRead` puts it |
| `AMR.PayloadRead` | pro/voicecodec/amr.go:203-244 | on every bit string: frames come out exactly if after any four bits a table of contents stands whole and all the speech it announces follows, each with its entry's type and quality and its own part of the speech; an entry of a type that the codec has not is the one error, too few bits the other |
| `AMR.OneReading` | pro/voicecodec/amr.go:203-244 | this determines the result |
| `AMR.AnyModeRequest` | pro/voicecodec/amr.go:203-207 | for any four leading bits, any non-empty valid frame list and any trailing bits, the frames come out, cleaned |
| `AMR.BandwidthEfficientRoundTrip` | pro/voicecodec/amr.go:171-244 | every non-empty valid frame list comes back, cleaned; the payload has ceil((4 + 6n + speech bits) / 8) bytes and its first four bits are ones |
| `AMR.CleanedFrame` | pro/voicecodec/amr.go:573-602 | cleaning keeps type, quality, length and speech bits and clears only the unused bits of the last byte |
| `OctetAligned.MarshalOctetAligned` | pro/voicecodec/amr.go:97-131 | the first faulty frame's error, or the octets of header, table of contents and speech |
| `OctetAligned.UnmarshalOctetAligned` | pro/voicecodec/amr.go:133-169 | on every byte string, what it says, as `PayloadRead` puts it |
| `OctetAligned.PayloadRead` | pro/voicecodec/amr.go:133-169 | on every byte string: frames come out exactly if after any octet a table of contents stands whole and all the speech it announces follows, each with its entry's type and quality and its own octets; else the error says whether the payload, the table or the speech is too short or a type unknown |
| `OctetAligned.OneReading` | pro/voicecodec/amr.go:133-169 | this determines the result |
| `OctetAligned.OctetAlignedRoundTrip` | pro/voicecodec/amr.go:97-169 | every non-empty valid frame list comes back to the last bit; the first octet is 0xF0 |
| `AMRStorage.Marshal` | pro/voicecodec/amr.go:319-356 | the file's octets, or the first faulty frame's error; without a codec only the empty file |
| `AMRStorage.Unmarshal` | pro/voicecodec/amr.go:358-387 | on every byte string, what the file says, as `FileRead` puts it |
| `AMRStorage.ReadFrom` | pro/voicecodec/amr.go:389-425 | reading from a stream gives the same as unmarshalling, on every byte string |
| `AMRStorage.FileRead` | pro/voicecodec/amr.go:358-531 | the result is the one that the octets allow: the codec that a magic string names, else the expected one; frames to the end, or the error that the first octets give which are no frame |
| `AMRStorage.HeaderFields` | pro/voicecodec/amr.go:296-317 | the type stands in bits 1 to 4 of a frame header, the quality in bit 5 |
| `AMRStorage.HeaderRoundTrip` | pro/voicecodec/amr.go:277-317 | a frame header gives back type and quality, has its other bits zero and never starts a magic string |
| `AMRStorage.OneMagic` | pro/voicecodec/amr.go:508-531 | no byte string starts with both magic strings |
| `AMRStorage.StorageRoundTrip` | pro/voicecodec/amr.go:319-387 | marshal then unmarshal is the identity, with or without the file header |
| `RtpRewriter.PcmuDownlinkRewriter.Rewrite` | pro/call/webrtc.go:761-793 | the rewriter's next state and the packets written for an incoming one; after a failed write, the packets before it, with the source's last packet the new one only if the failed packet was its own |
| `RtpRewriter.PcmuDownlinkRewriter.WriteSilence` | pro/call/webrtc.go:800-813 | terminates, having written the gap's samples in packets of the given size |
| `RtpRewriter.HeardIsWritten` | pro/call/webrtc.go:761-798 | a packet that is not empty and comes, modulo 2^16, less than 2^15 after the last one heard, or is the first, is written last and remembered; of any other nothing is written and nothing changes |
| `RtpRewriter.StreamPlays` | pro/call/webrtc.go:761-829 | over any stream the output is the payloads of the packets heard, in order, with nothing but silence between them |
| `RtpRewriter.InOrderIsHeard` | pro/call/webrtc.go:767-770 | a source that sends in order, losses included, is heard to the last packet |
| `RtpRewriter.StampFollowsSource` | pro/call/webrtc.go:771-791 | a heard packet is stamped right behind its predecessor, except that a gap of at most 8000 samples in the source is kept |
| `RtpRewriter.SilenceAddsUp` | pro/call/webrtc.go:800-813 | the silent packets add up to the gap, all full but the last |
| `RtpRewriter.StreamNumbering` | pro/call/webrtc.go:761-829 | over a whole stream, sequence numbers step by one modulo 2^16 and each timestamp is the base plus all samples before it modulo 2^32 |
| `RtpRewriter.OffsetKept` | pro/call/webrtc.go:761-793 | an accepted packet keeps the distance of output to source timestamps exactly if it neither overlaps its predecessor nor leaves too long a gap |
| `RtpRewriter.StreamOffset` | pro/call/webrtc.go:761-829 | from the first accepted packet of a stream on, that distance never changes exactly if no later accepted packet overlaps or leaves too long a gap |
| `RtpRewriter.OffsetMoves` | pro/call/webrtc.go:773-786 | a packet that overlaps its predecessor and one after a gap of 8001 samples do move it |
| `Resampling.Blended` | pro/voicecodec/resample.go:32-35 | every output is the weighted mean of its two source samples, truncated toward zero, so it lies between them and fits sixteen bits |
| `Resampling.SampleBlends` | pro/voicecodec/resample.go:25-36 | an output at k and a fraction of the input's positions blends samples k and k + 1 by that fraction; from the last sample on it is that sample |
| `Resampling.ResampleLinear` | pro/voicecodec/resample.go:10-38 | fills the output for all positive rates, every index in range, and refuses others |
| `Resampling.OnTheSpot` | pro/voicecodec/resample.go:25-36 | an output that falls on an input sample is that sample |
| `Resampling.UpAndDown` | pro/voicecodec/resample.go:10-38 | resampling by a whole factor up and then down returns the input |
| `Resampling.DurationKept` | pro/voicecodec/resample.go:23-24 | the output has the input's duration to within half a sample exactly if that is half a sample at least; otherwise it has one sample |
| `Coordinators.Coordinator.Start` | pro/wificalling/connect.go:61-90 | registers a session under an id never used before, and only where none is registered |
| `Coordinators.Coordinator.MarkDisconnected` | pro/wificalling/connect.go:302-319 | changes only the session with this id and client, and fails its live calls |
| `Coordinators.Coordinator.RequestReconnect` | pro/wificalling/connect.go:331-356 | changes only the session that still has this client |
| `Coordinators.Coordinator.AttachWebsheet` | pro/wificalling/websheet.go:92-110 | a websheet reaches only the session it was made for; otherwise it is deleted |
| `Coordinators.Coordinator.ClearWebsheet` | pro/wificalling/websheet.go:139-149 | clears only this websheet and always deletes it |
| `Coordinators.StatusIsHonest` | pro/wificalling/wifi_calling.go:165-199 | the status of a coherent session says connected exactly if it is, and for how long, and shows a websheet exactly if it asks for one; without a session of the profile it says only whether the feature is on |
| `Fencing.StepKeeps` | pro/wificalling/connect.go:92-257 | every critical section of users and goroutines keeps the invariant of sessions, goroutines and clients |
| `Fencing.AlwaysCoherent` | pro/wificalling/connect.go:279-356 | after any interleaving, connected, a client and phase connected coincide, and the client was dialed for that session |
| `Fencing.DetachedForGood` | pro/wificalling/connect.go:439-459 | a detached session's id is never registered again |
| `Fencing.StaleActionsAreFenced` | pro/wificalling/connect.go:61-111 | once a session is detached, nothing its goroutine or holders of its clients do changes any registered session |
| `Reconnecting.DialedConnects` | pro/wificalling/connect.go:92-111 | the session of a goroutine whose dial has succeeded is connected with that client after its next step |
| `Reconnecting.StartConnects` | pro/wificalling/connect.go:92-151 | a registered session left alone is connected, with the client dialed for it, once a dial succeeds, however often it is repeated |
| `Reconnecting.LostConnects` | pro/wificalling/connect.go:92-111 | so is a session whose goroutine was watching a client, when that connection ends, and its client is a new one |
| `Reconnecting.LossIsNoticed` | pro/wificalling/connect.go:302-356 | a loss seen by the goroutine, or reported by a holder of the client, takes the session down and fails its live calls |
| `Reconnecting.SheetComesAndGoes` | pro/wificalling/websheet.go:92-149 | a dial that needs a websheet shows a new one, which the goroutine then holds; retrying clears it and dials again, dismissing it removes the session |
| `Reconnecting.StartsAndStops` | pro/wificalling/connect.go:61-90 | starting gives a new session under a new id at the beginning of its loop, and nothing without a modem id or with a session there; stopping removes only this session |
| `VoiceCalls.CallHistory` | pro/wificalling/voice.go:78-106 | through any transitions, a terminal call never changes and an answered time stays as first set |
| `VoiceCalls.TimesRecorded` | pro/wificalling/voice.go:78-106 | every transition sets the time of change; becoming answered sets the answered time unless it is set, becoming terminal the end; a reason is replaced only by a given one |
| `VoiceCalls.LastTransitionTells` | pro/wificalling/voice.go:78-106 | through any transitions, a call that goes on has the last state and the last hold that were given, and the time of the last transition |
| `VoiceCalls.NoneLive` | pro/wificalling/connect.go:358-373 | after a lost connection every live call has failed with this reason and time, keeping its hold and answered time, and all others are as they were |
| `VoiceCalls.DisconnectedCallEvents` | pro/wificalling/connect.go:358-373 | fails exactly the live calls and returns exactly those, each once, as events |
| `Presence.Runner.AddLocked` | internal/pkg/modem/presence_runner.go:43-90 | registers the task, and hands out for cancelling exactly the contexts registered for its path and its equipment id |
| `Presence.Runner.RemoveLocked` | internal/pkg/modem/presence_runner.go:92-105 | unregisters the path in all three maps and hands out its context |
| `Presence.Runner.StopLocked` | internal/pkg/modem/presence_runner.go:107-122 | empties the maps and hands out every context |
| `Presence.StepKeeps` | internal/pkg/modem/presence_runner.go:43-122 | every step keeps the maps inverse and every context registered, cancelled or about to be |
| `Presence.AlwaysOneLive` | internal/pkg/modem/presence_runner.go:43-122 | after any interleaving the contexts not cancelled are exactly those registered or about to be cancelled, unless the context above them is cancelled and so all of them; and at most one per equipment id is not about to be |
| `Presence.ReplacedFirst` | internal/pkg/modem/presence_runner.go:80-89 | as an adding call cancels what it was handed before it launches, a task that takes the place of others is launched only after these were cancelled, whatever comes in between |
| `Presence.AdderLaunches` | internal/pkg/modem/presence_runner.go:83-89 | an adding call left alone cancels what it was handed, one context a step, and launches its task with the step after the last |
| `Presence.AddedIsLaunched` | internal/pkg/modem/presence_runner.go:43-90 | so a modem that comes while the runner runs has its task registered, launched and live |
| `Presence.OnlyHandedOut` | internal/pkg/modem/presence_runner.go:57-73 | adding hands out for cancelling what was registered for the path and the equipment id, and nothing else |
| `Presence.OthersStay` | internal/pkg/modem/presence_runner.go:57-78 | the tasks of all other modems stay registered as they are |
| `Presence.StopIsFinal` | internal/pkg/modem/presence_runner.go:83-122 | after a stop no context is created; a task registered before may still be launched, with a context that is cancelled or about to be |
| `CallRecords.Records.SaveCall` | internal/pkg/storage/calls.go:28-61 | an upsert of the normalized call that keeps an answered time where the new one is unset |
| `CallRecords.Records.SaveCallPreservingTerminal` | internal/pkg/storage/calls.go:63-107 | the same, except that a call that is over is not revived; then the row is read back, after whatever other writers did in between, and may be gone |
| `CallRecords.Records.DeleteCall` | internal/pkg/storage/calls.go:130-152 | deletes exactly the row with this id, profile and modem |
| `CallRecords.Records.SaveAndPublish` | pro/call/call_records.go:44-53 | when the call is written, its row is the one row that changes and the one event, published as it now stands; when it is refused or fails, this call publishes nothing and changes nothing |
| `CallRecords.RowIsWritten` | internal/pkg/storage/calls.go:28-61 | the row that is written, field by field: trimmed, with the times of now where unset and the stored answered time where unset; no other row changes |
| `CallRecords.SavedIsNews` | pro/call/call_records.go:44-53 | in any state of a run, right after a call was saved the last event about it is its row |
| `CallRecords.LastNewsTells` | pro/call/call_records.go:44-53 | over any order of writers, the last event about a call tells its record, as long as no voice event about it was published unsaved |
| `CallRecords.Records.VoiceEvent` | pro/call/call_voice_events.go:17-33 | is published as saved, or as it came if it could not be saved or the refused row not be read back |
| `CallRecords.VoiceIsTold` | pro/call/call_voice_events.go:17-33 | without an id nothing happens; saved, the row is the event; if saving fails, the event is the call as it came; refused, there is one only if the row cannot be read back |
| `CallRecords.Records.DeleteRecord` | pro/call/call_records.go:55-66 | deletes only what was over when it was looked up |
| `CallRecords.DeletedRow` | internal/pkg/storage/calls.go:130-152 | a row goes exactly if the call was over, no call failed and id, profile and modem are its own, none of them blank |
| `CallRecords.Records.EndUnavailable` | pro/call/call_media.go:44-63 | ends the call as it was looked up, past the preserving upsert |
| `CallRecords.EndIsTold` | pro/call/call_media.go:44-63 | unless it was over, the call is written as ended now for lack of media, and published in these words |
| `CallRecords.RecordHistory` | internal/pkg/storage/calls.go:28-107 | over any order of writers, until deleted, a call that is over stays over and an answered time stays set |
| `CallRecords.RowsAreSettled` | internal/pkg/storage/calls.go:202-244 | whatever the writers are given, every row is stored under its own id, complete, trimmed, and unchanged by normalizing it again |
| `CallRecords.NewsHistory` | pro/call/call_voice_events.go:17-33 | what is published about a call that is over never says otherwise, exactly if no voice event did that could not be saved or, once refused, not be read back |
| `CallRecords.SomeEventMisreports` | pro/call/call_voice_events.go:22-31 | such an event exists |
| `AnswerToReset.EncodingIsUnique` | internal/pkg/modem/atr.go:160-233 | no two well-formed answers to reset have the same bytes |
| `AnswerToReset.T15GlobalTB` | internal/pkg/modem/atr.go:160-233 | found exactly if the bytes are a well-formed answer to reset with a TB in a T=15 group after the second; it is the last such TB |
| `LikePatterns.LikePattern` | internal/pkg/storage/search.go:10-12 | for every query, the pattern matches exactly the texts that contain the trimmed query literally, up to the case of ASCII letters |
| `LikePatterns.EscapeLike` | internal/pkg/storage/search.go:14-24 | puts a backslash before every backslash, percent sign and underscore |
| `LikePatterns.PatternFinds` | internal/pkg/storage/search.go:10-24 | the escaped text between percent signs matches exactly the texts that contain it |
| `Text.TrimmedIsBare` | internal/pkg/storage/search.go:10-12 | a trimmed text neither starts nor ends with white space, and trimming it again changes nothing |
| `Text.TrimmedIsInner` | internal/pkg/storage/search.go:10-12 | trimming takes away only white space around the text: the result is a slice with white space alone on both sides and none at its ends |
| `Text.OneInner` | internal/pkg/storage/search.go:10-12 | there is only one such text |

## Left out

- Machines.Machine.AddDefaultRoute: a call that reports a failure but took effect all the same is not modelled; neither is a metric of 0, which the kernel replaces for IPv6.
- Machines.Machine.DefaultRoutes: the order of a dump is arbitrary; how messages become a listing is in module Netlink.
- Connectors.Connector.Disconnect: crash safety is claimed where the connection's entry covers the state, as for the only default connection. With others above or below it is not: the entry of a removed middle connection is deleted before its heir's is rewritten, and an entry can name routes at metrics that the connection has left, so a stop in between loses it.
- Runs.HostGetsItsTableBack: holds for default-route connections with the same list of families; secondary ones may have any. For two lists let go oldest first the exact condition is `MixedFamilies.BackExactlyIfNested`, newest first `NewestFirst.NewestFirstGivesBack` has no condition; other orders of more than two lists are not covered.
- Connectors.Connector.Connect: proxies, addresses, always-on, APN choice and retries of the bearer are not modelled; modems have different interfaces. After a failed call it promises nothing about the connections beyond what `Track` says.
- Adoption.AdoptedComesBackExactlyIf: about a bearer with the addresses it had before the stop, on an interface that the host has no routes on, and dumps that succeed; `RecoverTrackedConnection` also says what a failing dump does. The other places that adopt a bearer, reading the current connection and the always-on loop, are not modelled.
- Recovery.RestoreStaleStates: entries are taken in an arbitrary order, of which the sorted one is a case; when several are selected the result is stated step by step, and that it is an original table is claimed for one only.
- Netlink.RouteRoundTrip: an address with a zone, which is dropped on the way, is not modelled; interface names and indices are inverse to each other.
- Netlink.DumpIsListing: a multipath default route is reported as several routes of one family and metric, while the table has one route per slot; hosts with one are outside of the model, though `ParseMultipath` reads their messages.
- Netlink.ChangeDefaultRoute: the family checks of gateway and source come before the appends instead of between them.
- AMRStorage.ReadFrom: byte counts, errors of the stream itself and WriteTo are not modelled.
- RtpRewriter.PcmuDownlinkRewriter.Rewrite: padding, extensions and header fields that the rewriter neither reads nor writes are not modelled.
- Resampling.ResampleLinear: products of length and rate are taken not to overflow.
- Fencing.StepKeeps: SMS, USSD, the voice calls of a session and the deletion of a detached session's websheet are not part of the interleavings; which callbacks retry or dismiss is an arbitrary answer.
- VoiceCalls.CallHistory: about one call's transitions, not about concurrent actions that write back an older copy; for those the stored record is what is proved.
- CallRecords.Records.SaveCallPreservingTerminal: times are numbers with 0 as unset.
- AnswerToReset.T15GlobalTB: the list of known ATRs and the bit test on TB are not modelled.
- LikePatterns.LikePattern: texts are sequences of characters without NUL; digits-only search terms and the rest of the query are not modelled.
- D-Bus, sockets, SQLite itself, HTTP, WebSocket, WebRTC, smart cards and WASM: replaced by the abstract table, journal, rows, bytes or arbitrary answers.
- SMS status handoff, the SMS relay's modem maps, G.711 conversion, websheet HTML, eSIM transfer, settings and the web client: not modelled.
