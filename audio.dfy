/**
 * The part of libao the player relies on, reduced to the bookkeeping of
 * live output devices, and the outcome of one `playSong` call.
 *
 * Opening a device yields a new handle; closing a handle removes it from
 * the live set. Closing a handle that is not live is what the C program
 * would do with a dangling `ao_device *`; `Close` reports it instead of
 * failing, so that the model can show where it happens.
 */
module Audio {

  /** The value of an `ao_device *` field: NULL or some device handle. */
  datatype DevicePtr = Null | Handle(id: nat)

  /**
   * How one `playSong` call on a file ends, decided by the environment:
   * `sf_open` fails, `ao_open_live` fails, the sample buffer cannot be
   * allocated, or the whole buffer is played.
   */
  datatype PlayOutcome = FileUnreadable | DeviceUnavailable | BufferUnavailable | Played

  /** The live devices of the audio backend (`ao_initialize` .. `ao_shutdown`). */
  class Backend {
    var live: set<nat>
    var issued: nat

    ghost predicate Valid()
      reads this
    {
      forall h :: h in live ==> h < issued
    }

    /** `ao_initialize`: no device is open yet. */
    constructor ()
      ensures Valid() && live == {} && issued == 0
    {
      live := {};
      issued := 0;
    }

    /** A successful `ao_open_live`: a handle that was never live before, now live. */
    method OpenLive() returns (h: nat)
      requires Valid()
      modifies this
      ensures Valid()
      ensures h == old(issued) && h !in old(live)
      ensures live == old(live) + {h} && issued == old(issued) + 1
    {
      h := issued;
      live := live + {h};
      issued := issued + 1;
    }

    /** `ao_close(h)`: `wasLive` is false when `h` had already been closed. */
    method Close(h: nat) returns (wasLive: bool)
      requires Valid()
      modifies this
      ensures Valid()
      ensures wasLive <==> h in old(live)
      ensures live == old(live) - {h} && issued == old(issued)
    {
      wasLive := h in live;
      live := live - {h};
    }
  }
}
