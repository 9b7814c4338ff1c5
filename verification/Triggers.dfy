/** When a mine runs an associate sweep: internal/pipeline/trigger.go and
    internal/pipeline/spec.go:49-75. A trigger is a function of what the mine can see of its
    own pipeline. */
module Triggers {
  import opened Basics

  /** What the mine can see when it decides: picks in flight, picks ready to be grouped, picks
      in flight that it values, the rate picks complete at, and how long since the last sweep. */
  datatype Observation = Observation(
    picksPending: int,
    picksReady: int,
    highValuePending: int,
    drain: real,
    sinceLast: Time)

  datatype Trigger =
    | FixedInterval(every: Time)
    | WhenDrained(deadline: Time)
    | JustInTime(deadline: Time)
    | Adaptive(least: Time, most: Time)
    | UnderPressure(trigger: Trigger, backlog: int, floor: Time)

  /** Whether to sweep now. */
  predicate Decide(t: Trigger, o: Observation)
  {
    match t
    case FixedInterval(every) =>
      if o.sinceLast < every then false else o.picksReady != 0
    case WhenDrained(deadline) =>
      if o.picksReady == 0 then false
      else if o.picksPending == 0 then true
      else deadline > 0 && o.sinceLast >= deadline
    case JustInTime(deadline) =>
      if o.picksReady == 0 then false
      else if o.highValuePending == 0 then true
      else deadline > 0 && o.sinceLast >= deadline
    case Adaptive(least, most) =>
      if o.picksReady == 0 then false
      else if least > 0 && o.sinceLast < least then false
      else if most > 0 && o.sinceLast >= most then true
      else if o.picksPending == 0 then true
      else if o.drain <= 0.0 then false
      else most > 0 && o.sinceLast + (o.picksPending as real / o.drain).Floor > most
    case UnderPressure(inner, backlog, floor) =>
      if Decide(inner, o) then true
      else if backlog <= 0 || o.picksReady < backlog then false
      else !(floor > 0 && o.sinceLast < floor)
  }

  /** The longest a trigger leaves anything that is ready waiting, if there is such a time. */
  function Bound(t: Trigger): Option<Time>
  {
    match t
    case FixedInterval(every) => Some(every)
    case WhenDrained(deadline) => if deadline > 0 then Some(deadline) else None
    case JustInTime(deadline) => if deadline > 0 then Some(deadline) else None
    case Adaptive(least, most) => if most > 0 then Some(Max(least, most)) else None
    case UnderPressure(inner, backlog, floor) =>
      if backlog != 1 then Bound(inner)
      else if Bound(inner).None? then Some(floor)
      else Some(Min(Bound(inner).value, floor))
  }

  /** The shortest time a trigger leaves between sweeps. */
  function Gap(t: Trigger): Time
  {
    match t
    case FixedInterval(every) => every
    case WhenDrained(_) => 0
    case JustInTime(_) => 0
    case Adaptive(least, _) => Max(0, least)
    case UnderPressure(inner, backlog, floor) => if backlog <= 0 then Gap(inner) else Min(Gap(inner), Max(0, floor))
  }

  /** A layer of pressure has a floor and an interval is an interval: neither is negative. */
  predicate WellFormed(t: Trigger)
  {
    match t
    case FixedInterval(every) => every > 0
    case UnderPressure(inner, _, floor) => floor >= 0 && WellFormed(inner)
    case _ => true
  }

  /** A sweep is never decided on with nothing ready. */
  lemma {:induction false} NothingReady(t: Trigger, o: Observation)
    requires o.picksReady == 0
    ensures !Decide(t, o)
  {
    if t.UnderPressure? {
      NothingReady(t.trigger, o);
    }
  }

  /** A trigger's bound is met whatever else is seen: anything ready is swept by then. */
  lemma {:induction false} BoundIsMet(t: Trigger, o: Observation)
    requires WellFormed(t) && Bound(t).Some?
    requires o.picksReady > 0 && o.sinceLast >= Bound(t).value
    ensures Decide(t, o)
  {
    if t.UnderPressure? {
      if Bound(t.trigger).Some? && o.sinceLast >= Bound(t.trigger).value {
        BoundIsMet(t.trigger, o);
      }
    }
  }

  /** And it is the least such time: there is always something that could be seen, with a
      pick ready, on which a trigger does not sweep before its bound, or ever if it has none. */
  lemma {:induction false} BoundIsLeast(t: Trigger, wait: Time) returns (o: Observation)
    requires WellFormed(t) && wait >= 0
    requires Bound(t).Some? ==> wait < Bound(t).value
    ensures o.picksReady == 1 && o.picksPending > 0 && o.sinceLast == wait && !Decide(t, o)
  {
    o := Observation(1, 1, 1, 0.0, wait);
    if t.UnderPressure? {
      o := BoundIsLeast(t.trigger, wait);
    }
  }

  /** No trigger sweeps again sooner than its gap. */
  lemma {:induction false} GapIsKept(t: Trigger, o: Observation)
    requires Decide(t, o) && o.sinceLast >= 0
    ensures o.sinceLast >= Gap(t)
  {
    if t.UnderPressure? && Decide(t.trigger, o) {
      GapIsKept(t.trigger, o);
    }
  }

  /** And each can sweep again as soon as that. */
  lemma {:induction false} GapIsLeast(t: Trigger) returns (o: Observation)
    requires WellFormed(t)
    ensures o.sinceLast == Gap(t) && o.sinceLast >= 0 && Decide(t, o)
  {
    o := Observation(0, 1, 0, 0.0, Gap(t));
    if t.UnderPressure? {
      if t.backlog <= 0 || Gap(t.trigger) <= t.floor {
        o := GapIsLeast(t.trigger);
      } else {
        o := Observation(0, t.backlog, 0, 0.0, t.floor);
      }
    }
  }

  /** A layer of pressure only ever sweeps earlier: whatever it does not decide for itself is
      left to the trigger it wraps. */
  lemma PressureOnlyHastens(inner: Trigger, backlog: int, floor: Time, o: Observation)
    ensures Decide(inner, o) ==> Decide(UnderPressure(inner, backlog, floor), o)
    ensures Decide(UnderPressure(inner, backlog, floor), o) && !Decide(inner, o) ==>
              0 < backlog <= o.picksReady && (floor > 0 ==> o.sinceLast >= floor)
    ensures WellFormed(inner) && floor >= 0 && Bound(inner).Some? ==>
              Bound(UnderPressure(inner, backlog, floor)).Some? &&
              Bound(UnderPressure(inner, backlog, floor)).value <= Bound(inner).value
  {
  }
}
