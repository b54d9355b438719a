/**
 * The single-use, time-stamped identifier behind e-mail confirmation and
 * password reset (model/Token.java).
 */
module TokenModel {

  /** A random UUID in its 36-character textual form. */
  type Uuid = s: string | |s| == 36 witness "00000000-0000-0000-0000-000000000000"

  /** A reading of the wall clock in milliseconds since the epoch. */
  type Millis = t: int | t > 0 witness 1

  /** The snapshot of a token's fields. */
  datatype TokenState = TokenState(id: string, creationTime: int, useTime: int) {
    /** `useTime == 0` means pending; any positive stamp means consumed. */
    predicate Used() {
      useTime > 0
    }
  }

  class Token {
    var id: string
    var creationTime: int
    var useTime: int

    /** `new Token()`: a fresh id, stamped with the current clock, not used yet. */
    constructor (freshId: Uuid, now: Millis)
      ensures id == freshId && |id| == 36
      ensures creationTime == now
      ensures useTime == 0
      ensures !IsUsed()
    {
      id := freshId;
      creationTime := now;
      useTime := 0;
    }

    predicate IsUsed()
      reads this
    {
      useTime > 0
    }

    function State(): (t: TokenState)
      reads this
      ensures t.Used() <==> IsUsed()
    {
      TokenState(id, creationTime, useTime)
    }

    /** `use()`: stamps the current clock; a used token stays used. */
    method Use(now: Millis)
      modifies this`useTime
      ensures useTime == now
      ensures IsUsed()
      ensures old(IsUsed()) ==> IsUsed()
      ensures State() == old(State()).(useTime := now)
    {
      useTime := now;
    }

    method SetId(newId: string)
      modifies this`id
      ensures State() == old(State()).(id := newId)
    {
      id := newId;
    }

    method SetCreationTime(t: int)
      modifies this`creationTime
      ensures State() == old(State()).(creationTime := t)
    {
      creationTime := t;
    }

    method SetUseTime(t: int)
      modifies this`useTime
      ensures State() == old(State()).(useTime := t)
      ensures IsUsed() <==> t > 0
    {
      useTime := t;
    }
  }
}
