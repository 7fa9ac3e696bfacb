/** The game state of src/schemas.py, shared by the rule engine's tools and updated in place. */
module Schemas {

  class GameState {
    /** `used_chengyu`: every idiom recorded so far, by either player. */
    var usedChengyu: set<string>
    /** `last_chengyu`: the idiom recorded last, or "" before the first move. */
    var lastChengyu: string

    constructor (usedChengyu: set<string>, lastChengyu: string)
      ensures this.usedChengyu == usedChengyu && this.lastChengyu == lastChengyu
    {
      this.usedChengyu := usedChengyu;
      this.lastChengyu := lastChengyu;
    }
  }
}
