/** The life-cycle states of a userbot (`app/database/models/userbots.py`). */
module Userbots {
  datatype Status = Created | Authenticating | Authorized | Starting | Running | Stopping | Stopped
                  | Error | Recovering | Suspended

  /** The states in which a userbot should be online (`list_runnable`). Error is not one of them. */
  predicate Runnable(status: Status) {
    status in {Starting, Running, Recovering, Authorized}
  }
}
