/**
 * The per-remote-player collision tracker (SimplePassive.Client/Collision.cs).
 *
 * A tracker belongs to one remote player for its whole life and remembers the
 * entities last seen for both sides of the pair. The engine-facing update,
 * UpdateCollisions, is not part of this model: it is represented by the record
 * of the suppression flags it has been handed.
 */
module Trackers {
  import opened Entities

  /** A player, identified by its server id. */
  type PlayerId = int

  class Collision {
    // Last entities known for the local player.
    var lastPed: Entity
    var lastVehicle: Entity
    var lastHooked: Entity

    /** The player that owns this collision information; get-only, so fixed at construction. */
    const Owner: PlayerId

    // Last entities known for the owner. Their setters are private to the class.
    var KnownPed: Entity
    var KnownVehicle: Entity
    var KnownHooked: Entity

    /** The flags passed to UpdateCollisions so far, oldest first. */
    var updates: seq<bool>

    /** A new tracker for `player`, with every entity slot empty and nothing applied yet. */
    constructor (player: PlayerId)
      ensures Owner == player
      ensures KnownPed == NoEntity && KnownVehicle == NoEntity && KnownHooked == NoEntity
      ensures lastPed == NoEntity && lastVehicle == NoEntity && lastHooked == NoEntity
      ensures updates == []
    {
      Owner := player;
      lastPed, lastVehicle, lastHooked := NoEntity, NoEntity, NoEntity;
      KnownPed, KnownVehicle, KnownHooked := NoEntity, NoEntity, NoEntity;
      updates := [];
    }

    /**
     * UpdateCollisions(disable): the engine-side synchronisation is not
     * modelled; the call records the flag it was given and may change any of
     * the tracker's entity slots, but never its owner.
     */
    method UpdateCollisions(disable: bool)
      modifies this
      ensures updates == old(updates) + [disable]
    {
      updates := updates + [disable];
    }
  }
}
