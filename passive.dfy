/**
 * The client script that keeps the passive-mode bookkeeping
 * (SimplePassive.Client/Passive.cs): the store of activation flags, the
 * registry of per-player collision trackers, the tick that feeds every tracker
 * its suppression flag, and the per-player alpha and seating decisions of
 * HandleCollisions (a method the script never registers as a tick), both as
 * written and corrected.
 *
 * The configuration values (Convars.Default, Convars.DisableCombat,
 * Convars.Alpha) are parameters, the player roster is handed to the tick, and
 * the engine is represented by `Scene` (what is read) and `World` (what is
 * written).
 */
module PassiveMode {
  import opened Entities
  import opened Trackers

  /** The drive-by permission given to the local player for its activation. */
  function DriveByAllowed(activation: bool, disableCombat: bool): (allowed: bool)
    ensures allowed <==> !(activation && disableCombat)
  {
    (!activation && disableCombat) || !disableCombat
  }

  /** The local ped sits in the same vehicle as the other ped. */
  predicate SharesVehicle(s: Scene, localPed: Entity, otherPed: Entity)
  {
    CurrentVehicle(s, localPed) != NoEntity && CurrentVehicle(s, localPed) == CurrentVehicle(s, otherPed)
  }

  /**
   * The alpha for the other player's entities exactly as the source computes
   * it: faded only while suppressing, when the other ped runs no exempt task and
   * the two current vehicles differ. Two peds on foot both have a null vehicle,
   * which compares equal, so they are never faded.
   */
  function OtherAlphaAsWritten(s: Scene, disable: bool, localPed: Entity, otherPed: Entity, fadedAlpha: int)
    : (a: int)
    ensures a == fadedAlpha || a == Opaque
    ensures !disable || otherPed in s.exemptTask ==> a == Opaque
    ensures CurrentVehicle(s, localPed) == CurrentVehicle(s, otherPed) ==> a == Opaque
    ensures disable && otherPed !in s.exemptTask && CurrentVehicle(s, localPed) != CurrentVehicle(s, otherPed) ==>
              a == fadedAlpha
  {
    if disable && otherPed !in s.exemptTask && CurrentVehicle(s, localPed) != CurrentVehicle(s, otherPed)
    then fadedAlpha
    else Opaque
  }

  /** An empty scene: nothing exists, nobody is seated, nothing is attached. */
  const EmptyScene := Scene({}, map[], map[], map[], map[], map[], {})

  /**
   * The rule as written leaves a passive player on foot fully opaque next to a
   * local player who is also on foot, where the vehicle exception cannot apply.
   */
  lemma OnFootPlayersStayOpaque()
    ensures OtherAlphaAsWritten(EmptyScene, true, 1, 2, 100) == Opaque
    ensures OtherAlpha(EmptyScene, true, 1, 2, 100) == 100
  {
  }

  /**
   * The alpha for the other player's entities: the configured faded value
   * while collisions are suppressed, unless the other ped runs an exempt task
   * or the local ped shares the other ped's vehicle; full opacity otherwise.
   */
  function OtherAlpha(s: Scene, disable: bool, localPed: Entity, otherPed: Entity, fadedAlpha: int)
    : (a: int)
    ensures a == fadedAlpha || a == Opaque
    // no fading without suppression or during an exempt task
    ensures !disable || otherPed in s.exemptTask ==> a == Opaque
    // the vehicle the local player sits in is never faded
    ensures SharesVehicle(s, localPed, otherPed) ==> a == Opaque
    // every other suppressed case is faded, the on-foot case included
    ensures disable && otherPed !in s.exemptTask && !SharesVehicle(s, localPed, otherPed) ==> a == fadedAlpha
    // the as-written rule and this one differ only for two peds on foot
    ensures a != OtherAlphaAsWritten(s, disable, localPed, otherPed, fadedAlpha) ==>
              CurrentVehicle(s, localPed) == NoEntity && CurrentVehicle(s, otherPed) == NoEntity
  {
    if disable && otherPed !in s.exemptTask && !SharesVehicle(s, localPed, otherPed)
    then fadedAlpha
    else Opaque
  }

  /**
   * The engine query IsPedInVehicle(ped, vehicle, false): the ped sits in that
   * (non-null) vehicle now, not merely getting in.
   */
  predicate PedInVehicle(s: Scene, ped: Entity, vehicle: Entity)
  {
    vehicle != NoEntity && CurrentVehicle(s, ped) == vehicle
  }

  /**
   * A scene in which only peds ride: no entity that is some ped's vehicle sits
   * in a vehicle itself.
   */
  ghost predicate OnlyPedsRide(s: Scene)
  {
    forall p :: p in s.vehicleOf ==> s.vehicleOf[p] !in s.vehicleOf
  }

  /**
   * The seat skip exactly as the source calls the query: with the vehicle in
   * the ped position and the local ped in the vehicle position.
   */
  predicate SkipsSeatedPassengerAsWritten(s: Scene, disable: bool, localPed: Entity, otherPed: Entity)
    : (skip: bool)
    ensures skip ==> disable && CurrentVehicle(s, otherPed) != NoEntity
    ensures skip ==> PedInVehicle(s, CurrentVehicle(s, otherPed), localPed)
  {
    var otherVehicle := CurrentVehicle(s, otherPed);
    disable && otherVehicle != NoEntity && PedInVehicle(s, otherVehicle, localPed) &&
    Driver(s, otherVehicle) != localPed
  }

  /**
   * With the arguments in that order the query asks whether the other
   * player's vehicle rides in the local ped, so where only peds ride the
   * seat skip never happens.
   */
  lemma AsWrittenNeverSkips(s: Scene, disable: bool, localPed: Entity, otherPed: Entity)
    requires OnlyPedsRide(s)
    ensures !SkipsSeatedPassengerAsWritten(s, disable, localPed, otherPed)
  {
  }

  /** A scene with the local ped 1 as a passenger in vehicle 3, driven by the other ped 2. */
  const PassengerScene := Scene({1, 2, 3}, map[], map[], map[], map[1 := 3, 2 := 3], map[3 := 2], {})

  /**
   * The local ped riding as a passenger of a passive player: the rule as
   * written does not skip it, the corrected rule does.
   */
  lemma PassengerNotSkippedAsWritten()
    ensures OnlyPedsRide(PassengerScene)
    ensures !SkipsSeatedPassengerAsWritten(PassengerScene, true, 1, 2)
    ensures SkipsSeatedPassenger(PassengerScene, true, 1, 2)
  {
  }

  /**
   * Whether the other player is skipped for collision suppression: while
   * suppressing, the local ped rides in the other ped's vehicle without being
   * its driver, and disabling collisions would drop it through the vehicle.
   */
  predicate SkipsSeatedPassenger(s: Scene, disable: bool, localPed: Entity, otherPed: Entity)
    : (skip: bool)
    ensures skip ==> disable && SharesVehicle(s, localPed, otherPed)
    // the local player driving the other player's vehicle is never skipped
    ensures Driver(s, CurrentVehicle(s, otherPed)) == localPed ==> !skip
    // a suppressed pair in which the local ped is a passenger is always skipped
    ensures (disable && SharesVehicle(s, localPed, otherPed) && Driver(s, CurrentVehicle(s, otherPed)) != localPed) ==>
              skip
  {
    var otherVehicle := CurrentVehicle(s, otherPed);
    disable && otherVehicle != NoEntity && PedInVehicle(s, localPed, otherVehicle) &&
    Driver(s, otherVehicle) != localPed
  }

  /** The activation of `player` in the table `acts`: its entry, or `default` when it has none. */
  function Activation(acts: map<PlayerId, bool>, default: bool, player: PlayerId): bool
  {
    if player in acts then acts[player] else default
  }

  /**
   * The flags the tracker of `id` holds part-way through a tick: those it held
   * at the start (`before`), followed, once its owner has been handled
   * (`id in done`), by "the owner or the local player is passive".
   */
  function Handed(before: map<PlayerId, seq<bool>>, done: set<PlayerId>, acts: map<PlayerId, bool>,
                  default: bool, local: bool, id: PlayerId): seq<bool>
  {
    (if id in before then before[id] else []) + (if id in done then [Activation(acts, default, id) || local] else [])
  }

  class Passive {
    /** Passive-mode activation per player server id. */
    var activations: map<PlayerId, bool>
    /** Collision tracker per remote player server id. */
    var collisions: map<PlayerId, Collision>
    /** Server id of the local player. */
    const localId: PlayerId
    /** Convars.Default: the activation of a player with no entry. */
    const defaultActivation: bool
    /** Convars.DisableCombat: passive players may not attack. */
    const disableCombat: bool
    /** The engine's drive-by permission for the local player (SetPlayerCanDoDriveBy). */
    var driveByAllowed: bool
    /** Every tracker this script has created: the objects its methods may change. */
    ghost var trackers: set<Collision>

    /** Every tracker is filed under the server id of the player that owns it. */
    ghost predicate Valid()
      reads this`collisions, this`trackers
    {
      forall id :: id in collisions ==> collisions[id].Owner == id && collisions[id] in trackers
    }

    constructor (localId: PlayerId, defaultActivation: bool, disableCombat: bool)
      ensures Valid()
      ensures activations == map[] && collisions == map[]
      ensures this.localId == localId && this.defaultActivation == defaultActivation
      ensures this.disableCombat == disableCombat && driveByAllowed
    {
      activations := map[];
      collisions := map[];
      this.localId := localId;
      this.defaultActivation := defaultActivation;
      this.disableCombat := disableCombat;
      driveByAllowed := true;
      trackers := {};
    }

    /** GetPlayerActivation: the stored flag of the player, or the configured default. */
    function GetPlayerActivation(player: PlayerId): (active: bool)
      reads this`activations
      ensures player in activations ==> active == activations[player]
      ensures player !in activations ==> active == defaultActivation
    {
      Activation(activations, defaultActivation, player)
    }

    /** The suppression flag for the pair (local player, other): either side is passive. */
    function Suppressed(other: PlayerId): (disable: bool)
      reads this`activations
      // a passive player on either side suppresses the pair; two active players never do
      ensures GetPlayerActivation(other) ==> disable
      ensures GetPlayerActivation(localId) ==> disable
      ensures !GetPlayerActivation(other) && !GetPlayerActivation(localId) ==> !disable
      ensures !defaultActivation && other !in activations && localId !in activations ==> !disable
    {
      GetPlayerActivation(other) || GetPlayerActivation(localId)
    }

    /**
     * ActivationChanged: stores the activation of a player; for the local
     * player it also sets the drive-by permission, which is withdrawn exactly
     * when the player is passive and combat is disabled.
     */
    method ActivationChanged(handle: PlayerId, activation: bool)
      requires Valid()
      modifies this`activations, this`driveByAllowed
      ensures Valid()
      ensures activations == old(activations)[handle := activation]
      ensures GetPlayerActivation(handle) == activation
      ensures forall id :: id != handle ==> GetPlayerActivation(id) == old(GetPlayerActivation(id))
      ensures handle == localId ==> driveByAllowed == DriveByAllowed(activation, disableCombat)
      ensures handle != localId ==> driveByAllowed == old(driveByAllowed)
    {
      activations := activations[handle := activation];
      if handle == localId {
        driveByAllowed := DriveByAllowed(activation, disableCombat);
      }
    }

    /**
     * DoCleanup: forgets the activation and the tracker of a player; every
     * other entry stays, and a player with neither entry changes nothing.
     */
    method DoCleanup(id: PlayerId)
      requires Valid()
      modifies this`activations, this`collisions
      ensures Valid()
      ensures id !in activations && id !in collisions
      ensures activations == old(activations) - {id} && collisions == old(collisions) - {id}
      ensures GetPlayerActivation(id) == defaultActivation
      ensures forall other :: other != id ==> GetPlayerActivation(other) == old(GetPlayerActivation(other))
      ensures old(id !in activations && id !in collisions) ==>
                activations == old(activations) && collisions == old(collisions)
    {
      if id in activations {
        activations := activations - {id};
      }
      if id in collisions {
        collisions := collisions - {id};
      }
    }

    /**
     * ApplyCollisions: for every player of the roster except the local one,
     * creates a tracker when there is none and hands the tracker the flag
     * "the other or the local player is passive". Existing trackers are kept;
     * trackers of players not in the roster, and the local player's, are left
     * alone. The roster lists each connected player once; the loop over it
     * is FeedRoster.
     */
    method ApplyCollisions(players: seq<PlayerId>)
      requires Valid()
      requires forall i, j :: 0 <= i < j < |players| ==> players[i] != players[j]
      modifies this`collisions, this`trackers, trackers
      ensures Valid()
      ensures forall id :: id in collisions <==> id in old(collisions) || (id in players && id != localId)
      ensures forall id :: id in old(collisions) ==> collisions[id] == old(collisions)[id]
      ensures forall id :: id in collisions && id !in old(collisions) ==>
                fresh(collisions[id]) && collisions[id].updates == [Suppressed(id)]
      ensures forall id :: id in old(collisions) ==>
                collisions[id].updates ==
                old(collisions[id].updates) + (if id in players && id != localId then [Suppressed(id)] else [])
      // trackers of players outside the roster, and the local player's, are not touched at all
      ensures forall id :: id in old(collisions) && (id !in players || id == localId) ==>
                unchanged(old(collisions)[id])
    {
      var local := GetPlayerActivation(localId);
      // the flags each tracker held at the start of the tick
      ghost var before := map id | id in collisions :: collisions[id].updates;
      ghost var done := FeedRoster(players, local, before);
    }

    /**
     * The loop of ApplyCollisions over the roster, with `local` the local
     * player's activation and `before` the flags the trackers held on entry.
     * On exit `done` is the set of remote roster players, and every tracker is
     * as `Progress` describes for them.
     */
    method FeedRoster(players: seq<PlayerId>, local: bool, ghost before: map<PlayerId, seq<bool>>)
      returns (ghost done: set<PlayerId>)
      requires Valid()
      requires forall i, j :: 0 <= i < j < |players| ==> players[i] != players[j]
      requires local == GetPlayerActivation(localId)
      requires before.Keys == collisions.Keys
      requires forall id :: id in collisions ==> before[id] == collisions[id].updates
      modifies this`collisions, this`trackers, trackers
      ensures forall p :: p in done <==> p in players && p != localId
      ensures Progress(old(collisions), before, done, activations, local)
      ensures forall id :: id in collisions && id !in old(collisions) ==> fresh(collisions[id])
      ensures forall id :: id in old(collisions) && id !in done ==> unchanged(old(collisions)[id])
    {
      ghost var init, acts := collisions, activations;
      done := {};
      for i := 0 to |players|
        invariant forall p :: p in done <==> p in players[..i] && p != localId
        invariant Progress(init, before, done, acts, local)
        invariant forall id :: id in collisions && id !in init ==> fresh(collisions[id])
        invariant forall id :: id in init && id !in done ==> unchanged(init[id])
      {
        var player := players[i];
        assert players[..i + 1] == players[..i] + [player];
        if player != localId {
          var other := GetPlayerActivation(player);
          UpdatePlayer(player, other || local, init, before, done, acts, local);
          done := done + {player};
        }
      }
      assert players[..|players|] == players;
    }

    /**
     * The state part-way through ApplyCollisions, when the trackers were
     * `init` holding the flags `before` at the start of the tick and the
     * players in `done` have been handled: every tracker of `init` is still in
     * place, the handled players have trackers, and each tracker holds what it
     * held plus its owner's flag if handled.
     */
    ghost predicate Progress(init: map<PlayerId, Collision>, before: map<PlayerId, seq<bool>>,
                             done: set<PlayerId>, acts: map<PlayerId, bool>, local: bool)
      reads this`collisions, this`trackers, trackers
    {
      && Valid()
      && before.Keys == init.Keys
      && (forall id :: id in collisions <==> id in init || id in done)
      && (forall id :: id in init ==> collisions[id] == init[id])
      && (forall id :: id in collisions ==>
            collisions[id].updates == Handed(before, done, acts, defaultActivation, local, id))
    }

    /**
     * One iteration of ApplyCollisions for a remote player: its tracker is
     * created when missing and handed `disable`; no other tracker changes.
     */
    method UpdatePlayer(player: PlayerId, disable: bool, ghost init: map<PlayerId, Collision>,
                        ghost before: map<PlayerId, seq<bool>>, ghost done: set<PlayerId>,
                        ghost acts: map<PlayerId, bool>, ghost local: bool)
      requires Progress(init, before, done, acts, local) && player !in done
      requires disable == (Activation(acts, defaultActivation, player) || local)
      modifies this`collisions, this`trackers, if player in collisions then {collisions[player]} else {}
      ensures Progress(init, before, done + {player}, acts, local)
      ensures forall id :: id in old(collisions) ==> collisions[id] == old(collisions)[id]
      ensures player !in old(collisions) ==> fresh(collisions[player])
      ensures forall id :: id in old(collisions) && id != player ==> unchanged(old(collisions)[id])
    {
      ghost var held := if player in before then before[player] else [];
      assert held == Handed(before, done, acts, defaultActivation, local, player);
      if player !in collisions {
        var tracker := new Collision(player);
        collisions := collisions[player := tracker];
        trackers := trackers + {tracker};
      }
      assert collisions[player].updates == held;
      collisions[player].UpdateCollisions(disable);
      assert held + [disable] == Handed(before, done + {player}, acts, defaultActivation, local, player);
      // every other tracker is a different object, owned by a different player
      forall id | id in collisions && id != player
        ensures collisions[id].updates == Handed(before, done + {player}, acts, defaultActivation, local, id)
      {
        assert collisions[id].Owner != collisions[player].Owner;
        assert collisions[id].updates == old(collisions[id].updates);
      }
    }

    /**
     * One iteration of HandleCollisions over the players, as the source
     * writes it. The local player is passed over (the result is true: the
     * iteration ends early) and nothing changes. For any other player, its
     * ped, the ped's vehicle and the vehicle hooked to that all get the alpha
     * of the as-written rule, and the result says whether the iteration ends
     * before the collision step because of the as-written seat check.
     */
    method HandleOtherPlayer(world: World, s: Scene, localPed: Entity, other: PlayerId, otherPed: Entity,
                             fadedAlpha: int)
      returns (skip: bool)
      requires otherPed != NoEntity
      modifies world`alpha
      ensures other == localId ==> skip && world.alpha == old(world.alpha)
      ensures other != localId ==>
                skip == SkipsSeatedPassengerAsWritten(s, Suppressed(other), localPed, otherPed)
      ensures other != localId ==>
                AlphaSetOn(old(world.alpha), world.alpha, OtherEntities(s, otherPed),
                           StoredAlpha(OtherAlphaAsWritten(s, Suppressed(other), localPed, otherPed, fadedAlpha)))
    {
      if other == localId {
        return true;
      }
      var disable := Suppressed(other);
      FadeOtherEntities(world, s, otherPed, OtherAlphaAsWritten(s, disable, localPed, otherPed, fadedAlpha));
      skip := SkipsSeatedPassengerAsWritten(s, disable, localPed, otherPed);
    }

    /**
     * The same iteration with the corrected alpha rule (peds on foot are
     * faded) and the seat query asked about the local ped.
     */
    method HandleOtherPlayerCorrected(world: World, s: Scene, localPed: Entity, other: PlayerId, otherPed: Entity,
                                      fadedAlpha: int)
      returns (skip: bool)
      requires otherPed != NoEntity
      modifies world`alpha
      ensures other == localId ==> skip && world.alpha == old(world.alpha)
      ensures other != localId ==>
                skip == SkipsSeatedPassenger(s, Suppressed(other), localPed, otherPed)
      ensures other != localId ==>
                AlphaSetOn(old(world.alpha), world.alpha, OtherEntities(s, otherPed),
                           StoredAlpha(OtherAlpha(s, Suppressed(other), localPed, otherPed, fadedAlpha)))
    {
      if other == localId {
        return true;
      }
      var disable := Suppressed(other);
      FadeOtherEntities(world, s, otherPed, OtherAlpha(s, disable, localPed, otherPed, fadedAlpha));
      skip := SkipsSeatedPassenger(s, disable, localPed, otherPed);
    }
  }

  /** The other player's entities that get its alpha: its ped, its vehicle and what that hooks, when present. */
  function OtherEntities(s: Scene, otherPed: Entity): (faded: set<Entity>)
    ensures NoEntity !in faded
    ensures otherPed != NoEntity ==> otherPed in faded
  {
    {otherPed, CurrentVehicle(s, otherPed), HookedVehicle(s, CurrentVehicle(s, otherPed))} - {NoEntity}
  }

  /**
   * The alpha table `after` gives every entity of `faded` the alpha `stored`
   * and agrees with `before` on every other entity.
   */
  ghost predicate AlphaSetOn(before: map<Entity, int>, after: map<Entity, int>, faded: set<Entity>, stored: int)
  {
    && (forall e :: e in faded ==> e in after && after[e] == stored)
    && (forall e :: e !in faded ==> (e in after <==> e in before))
    && (forall e :: e !in faded && e in before ==> after[e] == before[e])
  }

  /**
   * The three SetAlpha calls for the other player's entities: the ped, then
   * its vehicle and the vehicle hooked to it, each only when present.
   */
  method FadeOtherEntities(world: World, s: Scene, otherPed: Entity, a: int)
    requires otherPed != NoEntity
    modifies world`alpha
    ensures AlphaSetOn(old(world.alpha), world.alpha, OtherEntities(s, otherPed), StoredAlpha(a))
  {
    var vehicle := CurrentVehicle(s, otherPed);
    var hooked := HookedVehicle(s, vehicle);
    world.SetAlpha(otherPed, a);
    if vehicle != NoEntity {
      world.SetAlpha(vehicle, a);
    }
    if hooked != NoEntity {
      world.SetAlpha(hooked, a);
    }
  }
}
