/** The persisted fighter record. */
module Fighters {

  /** A fighter as the datastore holds it. `id` is assigned when the record
      is first stored (0 until then); `wins` and `losses` default to 0. The
      six stats are 32-bit `Int`s. The record's `specialMoveType` column is
      not modelled: the stat generator never supplies it. */
  datatype Fighter = Fighter(
    id: int,
    name: string,
    barcode: string,
    health: int,
    attack: int,
    defense: int,
    speed: int,
    luck: int,
    skill: int,
    wins: int,
    losses: int)
}
