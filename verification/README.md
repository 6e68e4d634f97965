# KillLime verification model

This project models the stateful core of KillLime, an anti-cheat proxy between Minecraft Bedrock clients and
servers, and proves what that core promises. Each part has a specification on values (functions, runs as lists of
events, interleavings as lists of steps), classes whose methods are proved to do exactly what the specification
says, and theorems about every run. The `Effects` files say in terms of single
positions, cells, chunks and coordinates what operations do, and what steps add up to when nothing comes in between.

| part | files |
|---|---|
| lag compensation: batches of effects that wait for the client's echo | `AckModel`, `AckTheorems`, `AckEffects`, `AckProtocol` |
| collision of a moving box with a list of boxes, and the movement of a tick | `Collision`, `MoveSimulation`, `MoveEffects` |
| the walk of a ray through the block grid | `VoxelWalk` |
| the graph of client placements that the server has not answered | `Placement` |
| a client's session over several backends | `ProxyPackets`, `StateTracker`, `ProxySession`, `ProxyRuns`, `ProxyEffects`, `ProxyDimensions` |
| the chunk caches shared by all players | `ChunkCache`, `ChunkRuns`, `ChunkEffects` |
| the optimistic inventory | `InventoryModel`, `InventoryRequests`, `InventoryReplay`, `InventoryEffects`, `InventoryComponent` |
| the ring buffer, position history and click counters on it | `CircularQueue`, `Rewind`, `Clicks` |
| the input limiter and the queue of injected packets | `InputLimiter`, `InjectedQueue` |
| what several parts share | `Common` |

Conventions. Coordinates, velocities and times are exact reals where the program uses 32-bit floats. Regions under
a mutex are atomic steps; what lies between two of them is a place where other threads may move. Walks over a map
take an arbitrary order, and the contracts hold for all of them. Hashes are injective keys. The client, the network,
the block registry, random draws and clocks are parameters: any value of them is covered. `Run`, `After` and the
like apply a list of events one after the other, so a theorem about them is a theorem about every reachable state.

What the proofs turned up, each with the exact condition or a concrete run:

- A backend transfer drops the queue of delayed updates but keeps the index of pending updates, so an entry can stay
  behind for good. A run keeps the index right if and only if each of its transfers finds every indexed update
  unflushed: `IndexStaysBacked`; a run in which one does not: `TransferCanStrand`.
- With the movement cutoff reached, or a ghost block refused, a flush overtakes queued updates. It does no harm if and
  only if no queued update disagrees with a newer one: `FlushConverges`; a run that ends in the wrong world:
  `CutOffBreaksConvergence`. The delayed world converges throughout a run if and only if every flush, transfer,
  placement of the client and chunk that goes meets its own exact condition: `Convergence`.
- A backend transfer purges the loaded chunks, but block updates of the old backend that are not flushed yet stay and
  end up in the world of the new one. A transfer does no harm if and only if no such update lies in a purged chunk, and
  outside those chunks nothing is dropped that is neither in the world nor comes again: `TransferConverges`; a run with
  harm: `StaleUpdateSurvives`.
- A dimension change that a backend sends is forwarded but not recorded. The reset of a later transfer moves the client
  if and only if the packets forwarded since have not taken it where the reset leads first: `ResetMovesIff`; a run in
  which they have: `StaleDimensionDoesNotMove`.
- The ID 2^63-1 stands for an entity whose ID collides with the client's own; container IDs are not turned back:
  `TargetRoundTrip`, `ContainerRoundTrip`.
- An item transfer from a cell to itself creates items, one onto another kind turns items into that kind:
  `TransferKeepsTotal`, `TransferKeepsKinds`.
- A craft that lacks an ingredient still destroys the others it found. It is all or nothing if and only if all
  ingredients find a slot or none does: `CraftIsAllOrNothing`; a craft that destroys without creating:
  `FailedCraftStillDestroys`.
- A refused request makes the next one run a second time, although only the cells of the refused one were restored:
  `RefusalRunsNextTwice`, `RefusalRunsContainedOnce`. That is harmless if and only if each action of the next request
  either stays within those cells, or stays away from them and has nothing left to do, or has one cell on each side and
  crosses well: a transfer out of them was turned down the first time, one into them has nothing to move, a swap put
  there what it took away: `RefusalIsHarmless`. Two runs with harm: the next request destroys twice
  (`RefusalRepeatsNextRequest`), and a stack that was moved on in a chain is there twice (`ChainedMoveDoubles`).
- The lower limit of one input after a tick, the error branches of the click counters, the panic of an accepted
  request with a predecessor, the panics of inventory slots, and the stale-backend branch of the
  backend loop are never what decides: `TickLeavesCredit`, `HandClicks.Tick`, `HandClicks.Click`, `Grant`,
  `ExecuteRequest`, `FetchedIsCurrent`.

## Model

| member | source | states |
|---|---|---|
| AckProtocol.World.SetBlock | world/world.go:117-126 | a write inside the height range shows up in the overlay and nowhere else; outside it changes nothing |
| AckProtocol.World.Block | world/world.go:87-114 | air outside the height range, else the overlay's block, else the chunk's; reading changes no visible block |
| AckProtocol.UpdateBlockBatch.Run | player/component/acknowledgement/block.go:42-57 | a valid batch writes each of its blocks, removes exactly the index entries it still holds, and becomes invalid and empty; in every map order |
| AckProtocol.UpdateBlockBatch.Tick | player/component/acknowledgement/block.go:59-67 | counts down and runs the batch when the time is up, once |
| AckProtocol.KnockbackAcknowledgment.Run | player/component/acknowledgement/movement.go:188-193 | applies the knockback at most once |
| AckProtocol.KnockbackAcknowledgment.Tick | player/component/acknowledgement/movement.go:195-204 | counts down and runs when the time is up, unless it ran already |
| AckProtocol.MovementComponent.Teleport | player/component/movement.go:402-413 | the teleport target, its smoothing ticks and the reset of the tick counter |
| AckProtocol.MovementComponent.ResetTransferState | player/component/movement.go:1053-1130 | the protocol's fields after a transfer: nothing pending, at the new position |
| AckProtocol.WorldUpdater.RemovePendingUpdate | player/component/world.go:387-391 | an index entry goes only if it holds the same block |
| AckProtocol.AckComponent.Add | player/component/acks.go:43-49 | an acknowledgement joins the end of the batch being filled |
| AckProtocol.AckComponent.Refresh | player/component/acks.go:233-257 | the search over the draws ends at the first one that no queued batch has, and starts an empty batch with it |
| AckProtocol.Player.AddPendingUpdate | player/component/world.go:377-380 | a block update waits in the unflushed batch and in the index |
| AckProtocol.Player.ServerTeleport | player/component/movement.go:906-922 | a server teleport raises the counter, records its target and is queued |
| AckProtocol.Player.ServerKnockback | player/component/movement.go:925-936 | knockback is queued with its expiry, or applied at once beyond the cutoff |
| AckProtocol.Player.Sync | player/component/movement.go:995-1050 | a correction raises the counter, starts the cooldown, and takes the flag if nobody holds it |
| AckProtocol.Player.RefuseGhostBlocks | player/component/world.go:407-437 | with no ghost blocks allowed, exactly the updates that confirm a refused placement run at once, in every map order |
| AckProtocol.Player.FlushWorld | player/component/world.go:393-443 | the unflushed batch is queued with its expiry, or run at once beyond the cutoff, or absent |
| AckProtocol.Player.Flush | player/component/acks.go:191-210 | the filled batch joins the queue behind the block updates, and a fresh one starts |
| AckProtocol.Player.Execute | player/component/acks.go:61-103 | an echo runs every batch up to the one it names, oldest first, and removes them; otherwise nothing changes |
| AckProtocol.Player.ClientTick | player/component/acks.go:136-150 | every queued acknowledgement ages by one tick, oldest first, and the expired ones run |
| AckProtocol.Player.ServerTick | player/component/acks.go:152-187 | latency probes every ten ticks and the count of silent ticks |
| AckProtocol.Player.ResetTransferState | player/network.go:65-67 | installing a backend drops queue, counters, flag and movement state together |
| AckProtocol.Player.TransferServerConn | player/network.go:96-97 | a transfer does that and purges every loaded chunk; unflushed updates, the index and block updates outside loaded chunks stay |
| AckProtocol.Player.PlaceBlock | player/world.go:189-189 | a placement of the client is in the world at once |
| AckProtocol.World.PurgeChunks | world/world.go:163-181 | no chunk is left, and exactly the block updates of the loaded ones go, in every map order |
| AckProtocol.World.AddChunk | world/world.go:60-66 | a replaced chunk loses its block updates, any other position keeps them |
| AckTheorems.FlushConverges | player/component/world.go:393-443 | for every configuration, a flush leaves the delayed world plus everything outstanding as it was if and only if no queued update disagrees with a newer one that is written ahead of it |
| AckTheorems.TransferConverges | player/network.go:84-108 | after a transfer the delayed world plus everything outstanding is what it was without the purged chunks if and only if no unflushed update lies in one of them and, outside them, nothing is dropped that is neither in the world nor unflushed |
| AckTheorems.StaleUpdateSurvives | player/network.go:96-97 | a run in which an unflushed update of the old backend is written into a purged chunk of the new one |
| AckTheorems.DropConverges | world/world.go:129-160 | chunks that go take nothing along that is still to come, if and only if no outstanding update lies in them |
| AckTheorems.PlaceConverges | player/world.go:189-189 | a placement of the client stays the newest block if and only if no different update of its position is outstanding |
| AckTheorems.Convergence | player/component/world.go:377-443 | from any state with an ordered queue, after every event of a run the delayed world plus everything outstanding is the world that applied each change at once, if and only if every event meets its condition above; the queue stays ordered, so expiry consumes a prefix |
| AckTheorems.QuietRunsAreHarmless | player/component/world.go:404-432 | without cutoff and immediate refusals every run in which the world changes by delayed updates only meets them |
| AckTheorems.SessionStartsInOrder | player/network.go:65-67 | a session starts with an ordered queue, and installing its first backend is a harmless transfer that purges nothing |
| AckTheorems.ConvergedWhenIdle | player/component/acks.go:61-103 | once everything is echoed and flushed in a harmless run the delayed world is that world |
| AckTheorems.CutOffBreaksConvergence | player/component/world.go:404-442 | a run in which a flush at the cutoff writes a newer update ahead of a queued one, and the older one ends up in the world |
| AckTheorems.DelayIsBounded | player/component/acknowledgement/block.go:59-67 | in a harmless run the configured delay bounds how long an update can be held back, echoed or not |
| AckTheorems.IndexStaysBacked | player/component/world.go:377-391 | throughout a run every pending-update entry is the newest outstanding update of its position if and only if every transfer of the run finds each indexed update unflushed; so it always is between transfers |
| AckTheorems.TransferBacksIndex | player/component/acks.go:225-230 | one transfer from any state keeps that if and only if every indexed update is still unflushed |
| AckTheorems.TransferCanStrand | player/component/acks.go:225-230 | a run in which a transfer strands an entry |
| AckTheorems.CountersAlwaysAgree | player/component/acknowledgement/movement.go:65-68 | over every run, transfers included, pending teleports and corrections are those still queued, and the flag is up only while a queued correction will take it down |
| AckTheorems.TimestampsStayDistinct | player/component/acks.go:233-257 | queued batches and the one being filled have different timestamps in every run whose searches end |
| AckTheorems.SearchEndsSoon | player/component/acks.go:233-257 | a search ends within one draw more than there are batches, repeated draws not counted |
| AckTheorems.EchoOnce | player/component/acks.go:61-103 | an echo takes the batches up to the named one off the queue, and echoing again changes nothing |
| AckTheorems.ResponseDecodes | player/component/acks.go:61-80 | the answer to a timestamp, sent and scaled as the version and the device do, decodes to the timestamp of the batch, whatever digits were cut off |
| AckEffects.StaysQueued | player/component/acknowledgement/block.go:59-67 | in every run without a transfer in which no echo names its batch or a later one, a queued acknowledgement keeps its place, and its updates or its knockback wait for exactly the client ticks left to them |
| AckEffects.TicksWriteNothing | player/component/acks.go:136-150 | client ticks change nothing in the world before the time of the first batch is up |
| AckEffects.UpdateWaits | player/component/world.go:434-443 | an update of an idle session that is flushed below the cutoff is held back for the configured delay: the world is as it was and the batch has the rest of its time |
| AckEffects.UpdateArrives | player/component/acknowledgement/block.go:42-67 | when the delay is over the update is in the world, air for an unknown block, nothing outside the height range, and no other block changed |
| AckEffects.EchoedUpdateArrives | player/component/acks.go:61-103 | with the echo it is there at once and no longer indexed |
| AckEffects.TeleportArrives | player/component/acknowledgement/movement.go:65-68 | a teleport waits for the echo, and then sets the target, its smoothing and the ground |
| AckEffects.KnockbackArrives | player/component/acknowledgement/movement.go:188-193 | knockback waits for the echo, and then is the knockback of the player |
| AckEffects.KnockbackAtOnce | player/component/movement.go:925-936 | beyond the cutoff knockback is applied at once and nothing is queued |
| AckEffects.CorrectionArrives | player/component/movement.go:995-1050 | a correction is pending until the echo, with the cooldown on and the flag up; then the flag is down again |
| AckEffects.FlushWritesAtOnce | player/component/world.go:393-443 | position by position: a flush writes an update at once beyond the cutoff, or if no ghost blocks are allowed and it puts back what was there before a placement; all others wait |
| AckEffects.TransferLeaves | player/network.go:84-108 | after a transfer nothing is pending, the player is where the new backend says, and block updates are gone from the loaded chunks only |
| AckEffects.FirstFreeDraw | player/component/acks.go:233-257 | the batch being filled gets the first of the drawn timestamps that no queued batch has |
| AckEffects.SilenceIsCounted | player/component/acks.go:176-186 | while something is pending every server tick of a ticking client without an echo counts as silent |
| AckEffects.ServerTickCounts | player/component/acks.go:152-187 | without anything pending, or without a connection, the count starts over; a client that does not tick leaves it alone |
| Collision.DoClipCollide | game/aabb.go:30-115 | the axis loop computes the clip of a velocity by one box: stop at contact on the only separating axis, push out of an overlap through the nearest side |
| Collision.ClipOnAxis | game/aabb.go:30-115 | for separated boxes a move along one axis stays on that axis, keeps its sign and never grows |
| Collision.LeftIsSafe | game/aabb.go:105-114 | no part of a move that is left overlaps the box |
| Collision.CutMoveTouches | game/aabb.go:105-114 | a move that is cut ends in contact, within the tolerance |
| Collision.DepenetrationSeparates | game/aabb.go:84-103 | overlapping boxes come apart on the chosen axis and no other component changes |
| Collision.NoShorterPush | game/aabb.go:84-103 | no push along any axis that separates the boxes there is shorter, up to the tolerance |
| MoveEffects.StopsAtContact | game/aabb.go:105-114 | a box in the way along the only axis that separates it stops a move exactly where they touch, in either direction, and no shorter one |
| MoveEffects.NotInTheWay | game/aabb.go:30-83 | a box that is apart on another axis, and one that is a single point, stops nothing |
| MoveEffects.ReportedDepth | game/aabb.go:84-103 | an overlap reports the depth on its shallowest axis, whatever the velocity, and a box at rest is pushed by just as much |
| MoveEffects.PassKeepsDeepest | game/aabb.go:18-28 | a pass keeps the deepest penetration per axis that any box reports |
| MoveEffects.OverlapIsReported | player/simulation/movement.go:413-444 | a player deep inside a box is found to penetrate it, however it moves |
| MoveSimulation.BBClipCollide | game/aabb.go:18-28 | the clip for one-way or pushing boxes and the deepest penetration per axis |
| MoveSimulation.PassSettles | player/simulation/movement.go:413-416 | a pass over the boxes leaves a move along its axis, cut only as far as some box requires, independent of the order |
| MoveSimulation.FractionIsSafe | player/simulation/movement.go:413-432 | a safe move along an axis is clear of every box at each fraction of it |
| MoveSimulation.SlideIsSafe | player/simulation/movement.go:406-432 | a player clear of every box stays clear during each of the three moves, at every fraction; each keeps its direction and never exceeds the request |
| MoveSimulation.StepIsSafe | player/simulation/movement.go:451-486 | the same on the step path, whose net height is between zero and the step height |
| MoveSimulation.SlideIgnoresOrder | player/simulation/movement.go:406-432 | the order of the box list does not matter for the slide |
| MoveSimulation.StepIgnoresOrder | player/simulation/movement.go:451-486 | nor for the step path |
| MoveSimulation.DecisionIsSafe | player/simulation/movement.go:392-571 | the chosen move ends clear of every box and is the box moved by exactly its velocity; it keeps every bound above |
| MoveSimulation.DecisionIgnoresOrder | player/simulation/movement.go:392-571 | nor for the choice between them |
| MoveSimulation.MovesByItsVelocity | player/simulation/movement.go:515-571 | a player clear of every box is moved by its final velocity and is not held to be stuck |
| MoveEffects.StepsWhenFarther | player/simulation/movement.go:446-527 | a player on the ground that was stopped sideways, with the end of the step free and the client no farther from it than from the end of the slide, steps if and only if the horizontal distance of the step is the larger one |
| MoveEffects.NeverShorterThanSliding | player/simulation/movement.go:499-527 | no decision goes less far sideways than sliding; one that steps goes farther, any other slides |
| MoveEffects.StaysWhere | player/simulation/movement.go:446-527 | nobody steps in the air without falling, with nothing in the way, into a block, or away from a client within the threshold of the slide |
| MoveEffects.LandingPlayersStep | player/simulation/movement.go:446-527 | a player that lands in this tick steps as well if that gets it farther, and a client farther away than the threshold has no say |
| MoveEffects.SlabIsClimbed | player/simulation/movement.go:406-527 | a player that walks into a slab ends up on it, whatever the order of the boxes; sliding would leave it standing in front |
| MoveEffects.NextBoxIsFinalBox | player/simulation/movement.go:513-551 | the next tick starts from the very box in which this one ended, slide offset or not |
| MoveEffects.FlagsTellChanges | player/simulation/movement.go:553-558 | the collision flags tell which components of the velocity changed by a hundred-thousandth or more |
| MoveEffects.OnGroundWhen | player/simulation/movement.go:560-562 | a stopped fall puts the player on the ground, and it stays there as long as nothing moves it up or down |
| MoveEffects.LandsOnABox | player/simulation/movement.go:406-562 | a player that starts clear, falls, slides and comes to the ground has a box under its feet, level with them within the tolerance |
| MoveEffects.StuckTakesTwoTicks | player/simulation/movement.go:442-444 | a player is stuck after two ticks in a row in which it penetrated something |
| MoveSimulation.MovementComponent.ChooseMove | player/simulation/movement.go:406-527 | the loops over the boxes compute the slide, the step path and the choice |
| MoveSimulation.MovementComponent.Commit | player/simulation/movement.go:513-564 | position, velocity, collision flags, ground and slide offset after the move |
| MoveSimulation.MovementComponent.TryCollisions | player/simulation/movement.go:392-571 | the whole tick on the component's state |
| MoveSimulation.IsJumpBlocked | player/simulation/movement.go:338-390 | the two orders of passes decide as the specification says |
| MoveSimulation.BlockedJumpIsUnderOverhang | player/simulation/movement.go:338-390 | a blocked jump means a free way up and a free way across, but a box that cuts the rise from there |
| MoveEffects.JumpBlockedWhen | player/simulation/movement.go:338-390 | for a player that starts clear, a jump is blocked if and only if the way straight up is free, from there the way across is not, the way across from below is, and the rise after it is not |
| VoxelWalk.BoundaryAhead | game/raytrace.go:79-94 | the boundary distance is where the coordinate leaves its block |
| VoxelWalk.BlocksBetween | game/raytrace.go:12-76 | the walk lists face-adjacent blocks that contain the ray between consecutive entry distances; unless it is cut off the last block covers the rest and contains the end point, and every point of the segment is in some block |
| VoxelWalk.RayCrosses | game/raytrace.go:43-73 | crossing the nearest boundary enters a face-adjacent block, one step further from every block behind |
| VoxelWalk.VisitsAreDistinct | game/raytrace.go:36-75 | no block is visited twice |
| VoxelWalk.EntriesAreCovered | game/raytrace.go:36-75 | every point of the ray up to an entry lies in a block visited by then, also when the walk is cut off |
| VoxelWalk.SegmentIsCovered | game/raytrace.go:36-75 | with the last block covering the rest, every point of the whole segment lies in a visited block |
| Placement.ChainedPlacement.constructor | player/component/world.go:478-495 | a new placement is unanswered and linked both ways with its parent |
| Placement.SetPlacementAllowed | player/component/world.go:521-567 | on any graph the search ends; it changes only placements reachable within a hundred hops through ones not confirmed as allowed, all of them if there are at most a hundred, and nothing else; one confirmed as allowed never changes |
| Placement.ChainIsBounded | player/component/world.go:497-519 | the ghost chain consists of refused placements, each the child of the next, at most the limit |
| Placement.ChainIsMaximal | player/component/world.go:497-519 | it ends at the limit, a missing parent or an allowed one |
| Placement.WalkCountsChain | player/component/world.go:497-519 | the walk counts that chain and tells whether any of it is confirmed |
| Placement.GhostBlockChain | player/component/world.go:497-519 | the loop returns both, on cyclic parents too |
| ProxyPackets.TargetRoundTrip | deps/proxy/proxy.go:574-587 | an entity the client targets by the ID it was shown is the backend's entity, if and only if the sentinel is not in play |
| ProxyPackets.TargetsAreKept | deps/proxy/proxy.go:595-610 | without the sentinel the translation is undone by the way back and no two entities share an ID |
| ProxyPackets.ContainerRoundTrip | deps/proxy/proxy.go:588-591 | the same for container IDs, if and only if the ID is not the client's own |
| ProxyPackets.PacketRoundTrip | deps/proxy/proxy.go:574-610 | a packet of the backend that the client sends back arrives as it was, if and only if it is not about the entity whose ID is the client's own; the player's own always do |
| ProxyPackets.ServerPacketIsTranslated | deps/proxy/proxy.go:595-663 | every packet of the backend is shown except a player or mob with the own runtime ID; what is shown has the same kind and fields, with each ID the client's own exactly for the player, and translated back to the backend's outside the sentinel |
| ProxyPackets.ClientPacketIsTranslated | deps/proxy/proxy.go:551-593 | a client packet that carries its own ID reaches the backend with the ID of the player there, targets may be the sentinel, and nothing else changes |
| StateTracker.TrackerMirrorsClient | deps/proxy/state_tracker.go:30-70 | after any run of forwarded packets the five sets hold exactly what a client fed the same packets sees |
| StateTracker.ClearingEmptiesClient | deps/proxy/state_tracker.go:72-99 | the clear packets, in any order, leave such a client with nothing |
| StateTracker.BackendStateTracker.Handle | deps/proxy/state_tracker.go:30-70 | the sets after one packet, player lists entry by entry |
| StateTracker.BackendStateTracker.ClearPackets | deps/proxy/state_tracker.go:72-99 | the packets take away everything tracked and speak of nothing else, and the record is empty |
| ProxySession.TransferResetPackets | deps/proxy/proxy.go:481-512 | the loop over candidate dimensions finds the detour and the list is the specified one |
| ProxySession.ResetMovesClient | deps/proxy/proxy.go:456-512 | the reset ends in the new dimension; every dimension change moves the client if and only if the client is not where the first one leads |
| ProxySession.ResetMovesTrackedClient | deps/proxy/proxy.go:481-512 | a recorded dimension that is the real one is enough |
| ProxyDimensions.RecordedDimension | deps/proxy/proxy.go:374-380 | in every run the working client is where the recorded dimension and the packets forwarded since the last transfer take it |
| ProxyDimensions.ResetMovesIff | deps/proxy/proxy.go:456-479 | in every run a reset moves the client at each dimension change if and only if those packets have not taken it where the first change leads |
| ProxyDimensions.ResetMovesWithoutChanges | deps/proxy/proxy.go:456-479 | with backends that send no dimension change between transfers the record is right and every reset moves the client |
| ProxyDimensions.StaleDimensionDoesNotMove | deps/proxy/proxy.go:374-380 | a run, a forwarded dimension change and then a committed transfer, whose reset does not move the client |
| ProxySession.ResetIsShown | deps/proxy/proxy.go:462-468 | all reset packets arrive, addressed to the player as the client knows it |
| ProxySession.ResetInOrder | deps/proxy/proxy.go:481-512 | sounds and weather end first, each dimension change is followed by spawn and acknowledgement of the player, a detour is there only if the dimension stays the same, and what the backend set for the player comes last |
| ProxySession.DetourIsElsewhere | deps/proxy/proxy.go:482-488 | the detour is the first of the three dimensions that is neither the current nor the new one |
| ProxySession.ClampedIsNearest | deps/proxy/proxy.go:474-474 | the radius asked for lies in the range, and between the wanted one and everything else in the range |
| ProxySession.Player.TransferServerConn | player/network.go:84-108 | the player changes over, or on a different block encoding nothing changes |
| ProxySession.Session.constructor | deps/proxy/proxy.go:274-285 | a session starts with the IDs, dimension and radius of its first backend on both sides |
| ProxySession.Session.SwapBackend | deps/proxy/proxy.go:526-536 | backend, IDs and generation change together |
| ProxySession.Session.ForwardClientPacket | deps/proxy/proxy.go:321-329 | a client packet is rewritten, handled, and written to the backend whose IDs were used; chunk radius requests are remembered |
| ProxySession.Session.ForwardServerPacket | deps/proxy/proxy.go:374-381 | a server packet is handled, rewritten, tracked and written, or dropped by either |
| ProxySession.Session.ResetTransferState | deps/proxy/proxy.go:456-479 | the clear packets and the rewritten reset arrive in order unless the client's connection fails; the backend gets the clamped radius |
| ProxySession.Session.TransferLocked | deps/proxy/proxy.go:428-454 | commits if and only if dialling, encoding, spawn and handler agree; otherwise backend, generation, IDs, dimension, tracker, client and player are unchanged and the new connection is closed |
| ProxyRuns.ClientPacketsReachTheirBackend | deps/proxy/proxy.go:315-334 | in every interleaving a client packet is written to the backend whose IDs rewrote it |
| ProxyRuns.ServerPacketsAreCurrent | deps/proxy/proxy.go:336-386 | in every interleaving a forwarded server packet comes from the generation it is written in, rewritten with that backend's IDs, in order of generations |
| ProxyRuns.NoConnectionLeaks | deps/proxy/proxy.go:428-454 | every dialled connection is current, closed, or one the running transfer still has to dispose of |
| ProxyRuns.FetchedIsCurrent | deps/proxy/proxy.go:514-524 | the connection the backend loop reads from never goes stale |
| ProxyRuns.TransferHoldsClientBack | deps/proxy/proxy.go:407-413 | while a transfer runs the client loop changes nothing shared |
| ProxyRuns.AbortedTransferChangesNothing | deps/proxy/proxy.go:428-449 | an uncommitted transfer leaves everything shared as when it took the lock, but for closed connections |
| ProxyRuns.CommittedTransferReplacesBackend | deps/proxy/proxy.go:450-453 | a committed one is served by the new connection with the old one closed and the record empty |
| ProxyRuns.TrackerMirrorsSession | deps/proxy/proxy.go:375-380 | over whole sessions with any number of transfers the tracker holds exactly what the client sees; after a transfer the client sees nothing of the old backend |
| ProxyEffects.ClientPacketArrives | deps/proxy/proxy.go:315-334 | a client packet that nothing interrupts arrives at the current backend as the handler leaves it, about that backend's entities, or nowhere; nothing else changes but the remembered radius |
| ProxyEffects.ServerPacketIsShown | deps/proxy/proxy.go:336-386 | a packet of the backend is shown as the handler leaves it and recorded, or neither |
| ProxyEffects.EventsAreChecked | deps/proxy/proxy.go:336-386 | a rejected login ends the backend loop, and an event of a backend that was replaced meanwhile is dropped |
| ProxyEffects.TransferTakesOver | deps/proxy/proxy.go:428-479 | the whole state after a transfer in which everything works: IDs, routes, what the client was told, the request for chunks, the closed connection |
| ProxyEffects.TransferIsAborted | deps/proxy/proxy.go:428-449 | the whole state after one that failed to dial, has another block encoding, did not spawn or was refused |
| ProxyEffects.TransferBreaksOff | deps/proxy/proxy.go:450-479 | the whole state after one during which the client or the new backend failed: the session ends |
| ChunkCache.Caches.CacheChunk | world/cache.go:79-113 | a known or decodable chunk gains one reference, otherwise nothing changes |
| ChunkCache.Caches.CacheSubChunk | world/cache.go:51-77 | the same for sub-chunks |
| ChunkCache.Caches.UnsubC | world/cache.go:25-35 | one reference less, and the entry goes with the last |
| ChunkCache.Caches.UnsubSC | world/cache.go:37-49 | the same for sub-chunks |
| ChunkCache.World.RemoveChunk | world/world.go:169-181 | the chunk, its list and its overlay go, and each of its references is given back exactly once |
| ChunkCache.World.AddChunk | world/world.go:60-66 | a replaced chunk's references are given back and the new one's becomes the world's; its lists and block updates go only then |
| ChunkCache.World.AddSubChunk | world/world.go:69-74 | a taken reference is listed |
| ChunkCache.World.PurgeChunks | world/world.go:163-167 | nothing is left but block updates outside loaded chunks, and the caches count exactly the references of others |
| ChunkCache.World.CleanChunks | world/world.go:129-160 | a chunk that is not exempted stays if and only if its whole distance is at most the radius, an exempted one loses the exemption on the same condition, and lists and block updates go with the chunk; in every map order, and only when the position changed |
| ChunkCache.CleanedUpAround | world/world.go:146-157 | the chunk the player stands in stays, and one that is not exempted and more than the radius away on one axis goes |
| ChunkCache.InRangeIsDistance | world/world.go:184-189 | a chunk is in range if and only if its distance in whole chunks is at most the radius |
| ChunkCache.World.RunChunkUpdate | player/component/acknowledgement/chunks.go:27-39 | taking and installing keeps the count, what was at the place of the chunk goes, and a failed decode changes nothing |
| ChunkCache.World.RunSubChunkUpdate | player/component/acknowledgement/chunks.go:51-117 | the lists after all entries, missing chunks installed and exempted in every map order, the count kept, and nothing else changed |
| ChunkCache.EntriesAreListed | player/component/acknowledgement/chunks.go:51-117 | each position gets the keys of its own entries in their order, without those neither cached nor decoded by then, and exactly the known keys are cached |
| ChunkRuns.CountsAreReferences | world/cache.go:17-113 | in every interleaving of any number of worlds each count is the number of world entries and references in flight, and no other key is cached |
| ChunkRuns.ReferencedStaysCached | world/cache.go:25-49 | nothing a world refers to or has in flight is evicted, also in the middle of an update or a removal, and its count is at least what that world needs |
| ChunkRuns.PurgedWorldsEmptyCaches | world/world.go:163-181 | with every world purged both caches are empty |
| ChunkEffects.ChunkIsLoaded | player/component/acknowledgement/chunks.go:27-39 | a chunk that is cached or decodes is referenced and installed where there was none, otherwise nothing happens |
| ChunkEffects.ChunkIsReplaced | world/world.go:60-66 | one that takes the place of another is referenced before anything there is given back, so a chunk that replaces itself is never dropped |
| ChunkEffects.ChunkIsSwept | world/world.go:169-181 | one chunk of a purge or clean-up goes with all its references |
| ChunkEffects.SubChunksArrive | player/component/acknowledgement/chunks.go:51-117 | the steps of a sub-chunk packet that nothing interrupts add up to the sequential operation, in every order of the new chunks |
| ChunkEffects.ReleasedCounts | world/cache.go:25-49 | references given back one by one leave exactly the others counted |
| InventoryModel.ActionUndone | player/component/inventory_transaction.go:153-173 | one action undone from its snapshot leaves no trace, even with both cells the same or a guard that failed |
| InventoryModel.ExecuteThenRevert | player/component/inventory_transaction.go:29-61 | the same for any list of actions undone backwards |
| InventoryModel.TransferKeepsTotal | player/component/inventory_transaction.go:129-150 | a transfer keeps the number of items if and only if its cells differ or it moves nothing; otherwise it adds its count |
| InventoryModel.SelfTransferCreatesItems | player/component/inventory.go:80-96 | two container IDs of one cell make an item |
| InventoryModel.TransferKeepsKinds | player/component/inventory_transaction.go:145-150 | a transfer keeps the number of every kind if and only if it moves nothing or the destination is empty or of the same kind |
| InventoryModel.DestroyTakesCount | player/component/inventory_transaction.go:295-320 | a destroy lowers the total by exactly its count or not at all |
| InventoryEffects.ActionEffect | player/component/inventory_transaction.go:111-379 | cell by cell, what a transfer, a swap, a destroy and a create leave: each in its own cells, and every other cell as it was |
| InventoryEffects.CreateAdds | player/component/inventory_transaction.go:365-379 | an open create leaves exactly its stack in its cell, so the total changes by its count less the old one |
| InventoryEffects.SharedCells | player/component/inventory.go:80-96 | which container IDs and slots show the same cell |
| InventoryEffects.SlotsOf | player/component/inventory.go:80-96 | how many slots each container ID has, and the one slot with two names |
| InventoryEffects.ClosedDoesNothing | player/component/inventory_transaction.go:107-115 | an action that was given up does nothing any more, done or undone |
| InventoryEffects.WindowEvents | player/component/inventory.go:131-157 | containers come and go empty, and leave every other slot alone |
| InventoryModel.RequestConserves | player/component/inventory_transaction.go:29-33 | a request of transfers between different cells and of swaps keeps the total, however cells overlap |
| InventoryRequests.CraftTakesApart | player/component/inventory.go:388-430 | a craft destroys from different slots, each of which holds enough |
| InventoryRequests.CraftServes | player/component/inventory.go:394-420 | each destroy takes an ingredient's kind and its count for all crafts, in the order of the recipe |
| InventoryRequests.CraftFinds | player/component/inventory.go:389-432 | a craft is allowed if and only if every ingredient finds a slot when its turn comes, and destroys nothing if and only if none does |
| InventoryRequests.CraftIsAllOrNothing | player/component/inventory.go:389-443 | a craft destroys all it needs and creates its results, or does nothing, if and only if all ingredients find a slot or none does |
| InventoryRequests.FailedCraftStillDestroys | player/component/inventory.go:425-432 | a craft that finds one ingredient and lacks the other destroys and creates nothing |
| InventoryEffects.CraftMakes | player/component/inventory.go:373-444 | in every reachable state an asked craft takes each ingredient it finds out of its own slot of the grid, and if all are found, and only then, the output slot holds the last result; no other cell changes |
| InventoryEffects.AskedCreativeGives | player/component/inventory.go:293-311 | after a creative request the output slot holds the item asked for, and no other slot changes |
| InventoryEffects.AskedTransfer | player/component/inventory.go:446-474 | an asked transfer moves its count if both slots are there and the source has it, and is forgotten otherwise |
| InventoryEffects.AskedSwap | player/component/inventory.go:476-503 | an asked swap exchanges two slots if both are there |
| InventoryEffects.AskedDestroyTakes | player/component/inventory.go:505-523 | an asked destroy or drop takes its count from a slot that is there and has it |
| InventoryRequests.RefusedRequestLeavesNoTrace | player/component/inventory.go:259-291 | with nothing else outstanding a refused request leaves every cell as it was |
| InventoryRequests.GrantThenRefusal | player/component/inventory.go:273-285 | of two requests, even on shared cells, the first granted and the second refused: the first stays exactly as predicted, the second leaves no trace |
| InventoryEffects.BothRefused | player/component/inventory_transaction.go:51-61 | of two requests that are both refused, on whatever cells, undoing the second leaves exactly what undoing the first had left |
| InventoryEffects.OnlyUnknownSyncs | player/component/inventory_transaction.go:381-393 | an answer makes the server send everything again if and only if it refuses an action of unknown kind |
| InventoryReplay.RefusalUndoes | player/component/inventory_transaction.go:51-56 | undoing the first of two requests brings back its own cells and leaves all others as the second one left them |
| InventoryReplay.RefusalRunsNextTwice | player/component/inventory_transaction.go:51-61 | for requests on different cells, refusing the first leaves what executing the second twice would, which is right if and only if a second execution changes nothing |
| InventoryReplay.RefusalRunsContainedOnce | player/component/inventory_transaction.go:51-61 | a second request within the cells of the first ends up executed once |
| InventoryReplay.SecondRunIsIdle | player/component/inventory_transaction.go:111-151 | a second execution changes nothing if and only if each action is spent: nothing left to destroy or move, equal stacks to swap, or the same to create |
| InventoryReplay.RefusalIsHarmless | player/component/inventory_transaction.go:57-60 | a refusal does no harm to a request behind it, whose actions work on different cells, if and only if each action stays within the refused request's cells, or away from them and is spent, or crosses their border well |
| InventoryReplay.CrossingEndsRight | player/component/inventory_transaction.go:111-151 | a transfer out of the restored cells is right if and only if it was turned down the first time (or moves none), one into them if and only if it has nothing to move, a swap if and only if it put there what it took away |
| InventoryReplay.ChainedMoveDoubles | player/component/inventory_transaction.go:51-61 | two moves in a chain; refusing the first leaves the whole stack in its source and in the destination of the second |
| InventoryRequests.RefusalRepeatsNextRequest | player/component/inventory_transaction.go:57-60 | two requests for which a refusal of the first destroys for the second twice |
| InventoryRequests.OutstandingIsTail | player/component/inventory.go:240-291 | over every run what is outstanding is the tail of what was asked: first in, first out |
| InventoryComponent.PlayerInventory.SetSlot | player/inventory.go:70-78 | one slot changes, special slots through their target |
| InventoryComponent.InvReq.Accept | player/component/inventory_transaction.go:35-49 | the actions are given up; the panic is its precondition |
| InventoryComponent.Component.constructor | player/component/inventory.go:50-62 | empty windows of the fixed sizes, no request |
| InventoryComponent.Component.WindowFromContainerID | player/component/inventory.go:80-96 | container IDs that share a window |
| InventoryComponent.Component.ExecuteTransfer | player/component/inventory_transaction.go:111-151 | the windows and the snapshot after a transfer; no slot is out of bounds |
| InventoryComponent.Component.ExecuteSwap | player/component/inventory_transaction.go:213-237 | the same for a swap |
| InventoryComponent.Component.ExecuteDestroy | player/component/inventory_transaction.go:295-320 | the same for a destroy |
| InventoryComponent.Component.ExecuteCreate | player/component/inventory_transaction.go:365-379 | the same for a create |
| InventoryComponent.Component.RevertAction | player/component/inventory_transaction.go:381-393 | the windows after undoing any action, and the sync an unknown one asks for |
| InventoryComponent.Component.ExecuteRequest | player/component/inventory_transaction.go:29-33 | all actions in order, each with its snapshot |
| InventoryComponent.Component.Reject | player/component/inventory_transaction.go:51-61 | all actions undone backwards, then the next request executed |
| InventoryComponent.Component.HandleTransferRequest | player/component/inventory.go:446-474 | only slots within both windows become an action |
| InventoryComponent.Component.HandleSwapRequest | player/component/inventory.go:476-503 | the same for a swap |
| InventoryComponent.Component.HandleDestroyRequest | player/component/inventory.go:505-523 | the same for a destroy or a drop |
| InventoryComponent.Component.HandleCraftStackRequest | player/component/inventory.go:373-444 | the search of the grid yields the specified destroys and creates |
| InventoryComponent.Component.HandleSingleRequest | player/component/inventory.go:211-251 | a request is built, executed and linked at the end; the list stays well formed |
| InventoryComponent.Component.Grant | player/component/inventory.go:273-290 | the first request has no predecessor when it is accepted, and leaves the list |
| InventoryComponent.Component.Refuse | player/component/inventory.go:276-290 | the first request is undone, the second runs again, and the first leaves the list |
| InventoryComponent.Component.HandleItemStackResponse | player/component/inventory.go:259-291 | the responses of a packet answer the requests in order and stop at an unexpected ID |
| InventoryComponent.Component.CreateWindow | player/component/inventory.go:131-149 | an empty container window replaces the open one, unless it has no container or is one of the player's own |
| InventoryComponent.Component.RemoveWindow | player/component/inventory.go:151-157 | only the open container is closed |
| CircularQueue.CircularQueue.constructor | utils/circular_queue.go:17-28 | a new queue is full of initial elements |
| CircularQueue.CircularQueue.Get | utils/circular_queue.go:31-37 | the element at a position from the oldest, or an error out of range |
| CircularQueue.CircularQueue.Set | utils/circular_queue.go:40-46 | one position changes, or an error and nothing |
| CircularQueue.CircularQueue.Pop | utils/circular_queue.go:71-79 | the oldest element leaves |
| CircularQueue.CircularQueue.Append | utils/circular_queue.go:82-100 | the contents are the last elements up to the capacity |
| Rewind.NearestIsNearest | entity/rewind.go:18-67 | the exhaustive search finds a recorded position if there is one, none is nearer, and none as near is later |
| Rewind.RewindFindsLatestNearest | entity/entity.go:105-115 | the buffer finds what the last recorded positions hold |
| Rewind.InterpolationArrives | entity/entity.go:143-170 | the interpolation arrives exactly at the received position and stays |
| Rewind.InterpolationIsStraight | entity/entity.go:152-158 | until then it moves on a straight line, the same distance in every tick |
| Rewind.Entity.ReceivePosition | entity/entity.go:89-102 | the target and the number of interpolation ticks |
| Rewind.Entity.UpdatePosition | entity/entity.go:105-115 | position, velocity and history after one recording |
| Rewind.Entity.Tick | entity/entity.go:143-170 | one tick of interpolation, recorded with its tick |
| Rewind.Entity.Rewind | entity/rewind.go:20-67 | for increasing ticks the search that stops early finds what the exhaustive one finds |
| Clicks.ClicksPerSecond | player/component/clicks.go:79-140 | in every run the cached value is the number of clicks in the last twenty ticks |
| Clicks.CachedSumIsSum | player/component/clicks.go:79-140 | and the sum of the buffer |
| Clicks.DelayBetweenClicks | player/component/clicks.go:100-119 | the delay is the number of inputs between a click and the one before it, whatever ticks lie between or come after |
| Clicks.HandClicks.Tick | player/component/clicks.go:79-98 | the oldest bucket leaves the sum and the buffer; the read never fails |
| Clicks.HandClicks.Click | player/component/clicks.go:100-119 | the newest bucket and the sum grow by one, the delay is measured from the last click; neither access fails |
| InputLimiter.AcceptedWithinCredit | player/component/movement.go:150-191 | accepted inputs are at most the starting credit and the ticks that passed, whatever the client's tick does |
| InputLimiter.TickLeavesCredit | player/component/movement.go:164-191 | in every run, at least one input after every tick; a client not behind gets exactly the ticks that passed, one behind also what it had left, up to its lag |
| InputLimiter.BurstIsCut | player/component/movement.go:150-162 | of inputs that arrive without a tick in between exactly as many are accepted as are allowed |
| InputLimiter.ClocksCount | player/player.go:554-568 | over every run the clock of the server moves by the ticks that passed, that of the client by what was accepted |
| InputLimiter.ClocksRestart | player/component/movement.go:1125-1126 | a synchronised client tick counts on from there; another backend starts with full credit and keeps both clocks |
| InputLimiter.LeadIsBounded | player/movement.go:295-298 | the client's lead never exceeds a bound that the start and every stall respect |
| InputLimiter.CreditBeforeFirstInput | player/component/movement.go:164-168 | full credit after any tick before the first input |
| InputLimiter.Player.InputAcceptable | player/component/movement.go:150-162 | an input is accepted while credit remains, and spends one |
| InputLimiter.Player.HandleAuthInput | player/packet.go:103-112 | a refused input does not move the client's tick |
| InputLimiter.Player.TickMovement | player/component/movement.go:164-191 | the credit after a tick |
| InputLimiter.Player.Tick | player/player.go:554-568 | late ticks count once, stalls of a full tick or more count fully |
| InputLimiter.Player.ResetTransferState | player/component/movement.go:1125-1126 | a transfer starts over with full credit |
| InjectedQueue.SessionConn.Enqueue | integration/dragonfly/conn.go:137-145 | a packet joins the end of the queue |
| InjectedQueue.SessionConn.PopInjected | integration/dragonfly/conn.go:147-164 | the oldest packet leaves; compaction keeps the queue and bounds the wasted slots |
| InjectedQueue.GivenInOrder | integration/dragonfly/conn.go:67-92 | in every interleaving packets come out once each, in order |
| InjectedQueue.WakeUpIsComing | integration/dragonfly/conn.go:67-92 | a reader that waits while packets are queued finds a wake-up or a producer about to leave one |
| InjectedQueue.WaitingReaderIsServed | integration/dragonfly/conn.go:137-145 | so it is at most one wake-up away from the oldest packet |
| InjectedQueue.WokenByPackets | integration/dragonfly/conn.go:137-145 | the reader is woken at most once for each packet |
| InjectedQueue.ReaderTakesTurns | integration/dragonfly/conn.go:67-92 | with nothing queued the reader gets to the client, and after a client packet it looks at the queue first |

## Left out

- Float rounding: all geometry and interpolation is on exact reals; values that need a square root (the length of a ray, distances of the step choice) are parameters or compared by their squares.
- AckTheorems.Convergence: marking queued batches as invalid is not an event of these runs, because nothing in the program calls it; which chunks a clean-up or a chunk packet removes is a parameter of the event, ChunkCache has those operations.
- AckProtocol.Player.FlushWorld: whether a block confirms a client placement is a parameter, and spreading the answer over the placement graph is modelled on its own in Placement.
- AckProtocol.Player.Sync: the block updates that a correction also queues around the player are block events of their own here, and replays, in which it does nothing, are not modelled.
- AckProtocol.Player.ServerTick: the latency probe is queued as an acknowledgement without effect, so re-synchronising the client's tick is not part of this protocol.
- AckProtocol.MovementComponent.ResetTransferState: only the fields that the protocol uses; the rest of the movement state is not modelled.
- AckProtocol: the elements of a batch queue are held with their values in ghost fields; replayed timestamps, disconnects and messages are not modelled.
- MoveSimulation.MovementComponent.TryCollisions: the nearby boxes and whether the end of the step path is occupied are parameters; friction, gravity, ladders, water and the other phases of a movement tick are not modelled.
- MoveSimulation.MovementComponent.Commit: the position of the supporting block is not modelled.
- VoxelWalk.BlocksBetween: a consumer that stops the walk early, and walking the same sequence a second time, are not modelled.
- Placement.SetPlacementAllowed: lifetimes, destruction of placements and the symmetry of links under destruction are not modelled.
- ProxySession.Session.ForwardClientPacket: what a handler does besides changing or dropping the packet is not modelled.
- ProxySession.Player.TransferServerConn: purging the world, entities, effects and combat state of the player is not modelled here; AckProtocol has the purge of the block updates and ChunkCache that of the chunks.
- ProxyRuns.NoConnectionLeaks: closing the session while a transfer is still running, retry delays and disconnect messages are not modelled.
- ProxyRuns, ChunkRuns and the schedules of InjectedQueue: interleavings are over steps on values; the classes of ProxySession, ChunkCache and InjectedQueue use the same functions (rewriting, reset, tracking, counting), but each of their methods is one undisturbed call.
- ChunkCache: contents of chunks, and sub-chunks written into a chunk that is shared, are not modelled; only references are.
- ChunkCache.World.CleanChunks: the distance test is the exact one, without the rounding of the square root or integer overflow of far coordinates.
- InventoryModel.RequestConserves: for inventories of at most 2^31-1 items, the amount by which an empty destination is cleared.
- InventoryReplay.RefusalIsHarmless: for two outstanding requests, the second with actions on different cells, where RefusalUndoes covers any; a transfer that takes from a restored cell is one of stacks of at most 2^31-1 items, the amount by which an empty destination is cleared.
- InventoryComponent.Component.HandleCraftStackRequest: decoding of recipes, item names and tags is outside; an ingredient is the set of kinds that match it, and the results come repeated.
- InventoryComponent: actions are values inside their request rather than objects of their own; nothing else refers to them.
- InventoryComponent.Component.CreateWindow: the IDs of the player's own windows are a parameter; the library that defines them is not part of this model.
- Rewind.Entity.Rewind: for a positive history capacity; with none the program panics.
- Clicks: hooks that run on a click are not modelled, and both hands are objects of one class.
- InputLimiter.LeadIsBounded: not across re-synchronisation of the client's tick, which may set any lead.
- InjectedQueue.SessionConn.PopInjected: the slice is a value, so sharing of its backing array is not modelled; closing the connection is not either.
- Detections, combat, item-specific placement rules, effects, chunk decoding, block models, storage, scripting, configuration, commands and logging: input and output, libraries, or threshold checks without an invariant of their own.
