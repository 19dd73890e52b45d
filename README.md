# SimplePassive client core in Dafny

SimplePassive is a passive mode for FiveM servers. Each player has an
activation flag. On every tick, the client script hands a per-player collision
tracker a flag saying whether either side of the pair is passive.

`Passive.cs` also has a `HandleCollisions` method that would do more:
- fade the other players' entities;
- stop a passive local player from attacking;
- skip the collision step for a passenger in the other player's vehicle.

Its `[Tick]` attribute sits inside a `///` doc comment (`Passive.cs:164`), so
the method is never registered, and nothing in these files calls it. In this
version of the script its effects therefore never happen. It is still modelled,
one iteration at a time, because its decisions are where the findings below
lie. Its collision step (`Passive.cs:251-296`) is commented out, so the
passenger skip has no effect anyone can observe.

This project models the client-side bookkeeping behind that:

- the activation table and its lookup with the configured default;
- the network events that change the table (`activationChanged`, `doCleanup`);
- the drive-by permission given when the local activation changes;
- the registry of per-player collision trackers;
- the tick that creates missing trackers and hands each one its suppression flag;
- the per-player alpha and seated-passenger decisions of the unregistered
  `HandleCollisions` method, both as written and corrected;
- the entity helpers: finding the vehicle hooked to another vehicle, toggling
  pairwise collisions, and setting or resetting an entity's alpha.

Files:

- `entities.dfy` (module `Entities`) models the engine as the script sees it.
  - Entities are integer handles, and `0` is the null reference.
  - `Scene` is a value holding the engine lookups the script reads.
  - `World` is a class holding the engine state the script writes: the
    no-collision pairs and the entity alpha.
  - The helpers of `SimplePassive.Client/Extensions.cs` are stated over these.
- `trackers.dfy` (module `Trackers`) is the `Collision` class of
  `SimplePassive.Client/Collision.cs`.
- `passive.dfy` (module `PassiveMode`) is the `Passive` script class of
  `SimplePassive.Client/Passive.cs` and the pure decisions of `HandleCollisions`.

Some things outside the script are not modelled and are passed in instead:

- the configuration values (`Convars.Default`, `Convars.DisableCombat`, `Convars.Alpha`);
- the local player's server id;
- the list of connected players, as a sequence of server ids that are all different.

## Model

| member | source | states |
|---|---|---|
| Entities.HookedVehicle | SimplePassive.Client/Extensions.cs:20-51 | An absent or destroyed vehicle hooks nothing. A trailer has priority and is returned without an existence check. A live cargobob load beats a tow-truck load. Any other result exists and is attached by one of the three mechanisms. None exactly when no mechanism yields a usable entity. |
| Entities.TrailerShadowsHooks | SimplePassive.Client/Extensions.cs:29-33 | Once the trailer hitch answers, the cargobob and tow-truck attachments cannot change the result. |
| Entities.WithCollisions | SimplePassive.Client/Extensions.cs:122-131 | A null entity on either side changes nothing. Otherwise both ordered pairs become non-colliding exactly when `enabled` is false, every other pair keeps its flag, and a symmetric relation stays symmetric. |
| Entities.World.ChangeCollisions | SimplePassive.Client/Extensions.cs:122-131 | The engine's no-collision relation after the call is `WithCollisions` of the relation before it. |
| Entities.TogglesKeepSymmetry | SimplePassive.Client/Extensions.cs:130-131 | However many ChangeCollisions calls are made, a symmetric no-collision relation stays symmetric. |
| Entities.UntouchedPairs | SimplePassive.Client/Extensions.cs:130-131 | Calls that name neither a nor b leave the pairs (a, b) and (b, a) as they were. |
| Entities.LastToggleWins | SimplePassive.Client/Extensions.cs:130-131 | After ChangeCollisions(a, b, e) and any calls that do not name a or b, both orders of the pair are non-colliding exactly when e is false. |
| Entities.StoredAlpha | SimplePassive.Client/Extensions.cs:148-156 | A value of 255 or more leaves the entity fully opaque. A lower value is kept as given. |
| Entities.AlphaAfter | SimplePassive.Client/Extensions.cs:145-157 | SetAlpha fixes the alpha of the entity it is given. No other entity's alpha appears, disappears or changes. |
| Entities.World.SetAlpha | SimplePassive.Client/Extensions.cs:145-157 | The engine's alpha table after the call is `AlphaAfter` of the table before it. The entity must not be null, as the source dereferences it. |
| Trackers.Collision.constructor | SimplePassive.Client/Collision.cs:47-50 | A new tracker is owned by the given player. Its six entity slots start null and it has been handed no flag. |
| Trackers.Collision.UpdateCollisions | SimplePassive.Client/Passive.cs:155-156 | Each call appends the flag it is handed to the tracker's record. |
| PassiveMode.Passive.constructor | SimplePassive.Client/Passive.cs:21-25 | The script starts with no activations and no trackers. The drive-by permission is the engine default: allowed. |
| PassiveMode.Passive.GetPlayerActivation | SimplePassive.Client/Passive.cs:53 | A player's activation is its stored flag when it has one, and the configured default otherwise. |
| PassiveMode.Passive.Suppressed | SimplePassive.Client/Passive.cs:220-221 | A pair is suppressed when either player is passive, and never when both are active. With an inactive default, players without entries are never suppressed. |
| PassiveMode.DriveByAllowed | SimplePassive.Client/Passive.cs:334-338 | Drive-bys are withdrawn exactly when the player is passive and combat is disabled. |
| PassiveMode.Passive.ActivationChanged | SimplePassive.Client/Passive.cs:324-338 | The handle's activation becomes the given one, and every other player's activation is unchanged. For the local player the drive-by permission follows `DriveByAllowed`. For anyone else it is untouched. |
| PassiveMode.Passive.DoCleanup | SimplePassive.Client/Passive.cs:346-357 | Removes the player's activation and tracker, so it falls back to the default. Every other entry stays. A player with neither entry changes nothing. |
| PassiveMode.Passive.ApplyCollisions | SimplePassive.Client/Passive.cs:132-158 | Every roster player other than the local one ends up with a tracker, and the trackers are exactly the old ones plus those. Existing trackers keep their identity. New trackers are fresh. Each tracker of a roster player has received one more flag, "either side is passive". Every other tracker, the local player's included, received nothing and is not changed in any way. |
| PassiveMode.Passive.FeedRoster | SimplePassive.Client/Passive.cs:138-157 | The loop over the roster. Afterwards the handled players are exactly the remote roster players, and every tracker is as `Progress` describes. New trackers are fresh. Trackers of players that were not handled are unchanged. |
| PassiveMode.Passive.UpdatePlayer | SimplePassive.Client/Passive.cs:150-156 | One loop step: the player's tracker is created when missing and handed its flag. Every other tracker keeps its identity and is unchanged. |
| PassiveMode.OtherAlphaAsWritten | SimplePassive.Client/Passive.cs:235 | The alpha rule as the source writes it. It fades exactly when the pair is suppressed, the other ped runs no exempt task, and the two current vehicles compare unequal; otherwise it is opaque. |
| PassiveMode.OnFootPlayersStayOpaque | SimplePassive.Client/Passive.cs:235 | With two peds on foot and suppression on, the rule as written gives full opacity. The corrected rule fades. |
| PassiveMode.OtherAlpha | SimplePassive.Client/Passive.cs:235 | The corrected rule. It fades exactly when suppressed, the other ped runs no exempt task, and the local ped does not share the other's vehicle. It differs from the as-written rule only for two peds on foot. |
| PassiveMode.SkipsSeatedPassengerAsWritten | SimplePassive.Client/Passive.cs:244-249 | The seat skip with the source's argument order. It can only happen while suppressing, and only when the other ped's vehicle counts as sitting in the local ped. |
| PassiveMode.AsWrittenNeverSkips | SimplePassive.Client/Passive.cs:245 | In any scene where only peds ride in vehicles, the as-written seat skip never happens. |
| PassiveMode.PassengerNotSkippedAsWritten | SimplePassive.Client/Passive.cs:244-249 | Take a local ped riding as a passenger of a passive player. The as-written skip misses it and the corrected skip catches it. |
| PassiveMode.SkipsSeatedPassenger | SimplePassive.Client/Passive.cs:244-249 | The corrected seat skip. Only a suppressed pair sharing a vehicle is skipped. The local player driving that vehicle is never skipped, and as a passenger always is. |
| PassiveMode.OtherEntities | SimplePassive.Client/Passive.cs:224-226 | The entities that take the other player's alpha: its ped (never null), its vehicle and the vehicle hooked to that, never the null reference. |
| PassiveMode.FadeOtherEntities | SimplePassive.Client/Passive.cs:236-238 | The other ped, its vehicle and the vehicle hooked to it get the same stored alpha. Every other entity's alpha is as before. |
| PassiveMode.Passive.HandleOtherPlayer | SimplePassive.Client/Passive.cs:220-249 | One iteration as written. The local player is passed over and nothing changes. For anyone else, its entities get the as-written alpha, no other alpha changes, and the iteration ends early exactly when the as-written seat skip says so. |
| PassiveMode.Passive.HandleOtherPlayerCorrected | SimplePassive.Client/Passive.cs:220-249 | The same iteration with both corrections: the corrected alpha rule and the seat skip about the local ped. |

## Left out

- Trackers.Collision.UpdateCollisions: the method is called at `SimplePassive.Client/Passive.cs:156` but is not defined in `Collision.cs`. It is modelled only as the record of the flags it receives. The entity slots it would refresh are not modelled.
- The collision calls of the tick: `DisableCollisionsThisFrame` (commented out in the source) and the printing of changed entities (`printNextTick`, the `passiveprinttick` command) are not modelled.
- The rest of `HandleCollisions`, which is never registered as a tick, is not modelled:
  - the reset of the local vehicle's alpha (`Passive.cs:174-177`);
  - the per-frame firing and attack-control suppression (`Passive.cs:182-203`);
  - the debug markers.
  These are engine calls with no state the script keeps.
- PassiveMode.PedInVehicle: the engine query `IsPedInVehicle(ped, vehicle, false)` is read as "the ped's current vehicle is that non-null vehicle". The source passes its arguments the other way round (`Passive.cs:245`). `SkipsSeatedPassengerAsWritten` keeps that order, and `SkipsSeatedPassenger` swaps it (see Findings).
- Exports (`getActivation`, `setActivation`), the server events, the initialisation message, the `passiveentities` command, the debug text and marker ticks, and debug logging are not modelled. They are I/O with the server or the console.
- PassiveMode.Passive.ApplyCollisions: the roster `Players` is a parameter that lists each connected player's server id once. The `Player` objects are identified by their server ids. The method is not stated for a roster with repeated ids.
- The configuration values are constants fixed at construction. In the source they are convars read each time.
- The drive-by permission is a field that starts allowed, the engine's default. The engine call that sets it is modelled as the assignment.
- Trackers.Collision: `KnownPed`, `KnownVehicle` and `KnownHooked` have private setters in the source. Dafny has no field visibility, so nothing outside the class is stopped from writing them.
- Entities.HookedVehicle: `Entity.FromHandle(...) as Vehicle` is folded into the attachment lookups. A handle that is not a vehicle is a lookup that yields nothing.

## Findings

| source | as written | input that shows it | evidently intended | confidence | as-written member | corrected member |
|---|---|---|---|---|---|---|
| SimplePassive.Client/Passive.cs:235 | The other player is faded only when `localVehicle != otherVehicle`. | Both players on foot, either one passive: both vehicles are null, they compare equal, and the passive player stays fully opaque. | Exempt only a vehicle the local player actually shares with the other ped. Passive players on foot are faded. | medium, not executed; the code is latent because `HandleCollisions` is never registered (`Passive.cs:164`) | PassiveMode.OtherAlphaAsWritten, PassiveMode.OnFootPlayersStayOpaque, PassiveMode.Passive.HandleOtherPlayer | PassiveMode.OtherAlpha, PassiveMode.Passive.HandleOtherPlayerCorrected |
| SimplePassive.Client/Passive.cs:245 | `IsPedInVehicle(otherVehicle.Handle, localPed.Handle, false)` passes the vehicle as the ped and the local ped as the vehicle. | The local ped rides as a passenger in a vehicle driven by the passive other ped. The query asks whether the vehicle sits in the local ped, which is false, so the passenger is not skipped. | Ask whether the local ped sits in the other ped's vehicle: `IsPedInVehicle(localPed, otherVehicle, false)`. | medium, not executed; latent like the row above, and the skipped step is commented out | PassiveMode.SkipsSeatedPassengerAsWritten, PassiveMode.AsWrittenNeverSkips, PassiveMode.PassengerNotSkippedAsWritten, PassiveMode.Passive.HandleOtherPlayer | PassiveMode.SkipsSeatedPassenger, PassiveMode.Passive.HandleOtherPlayerCorrected |
