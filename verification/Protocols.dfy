/** What the protocols of the controllers have in common. */
module Protocols {
  /** A write is delivered, or its answer is lost after it was or was not applied. */
  datatype Fault = Delivered | Lost(applied: bool)

  /** A run: where it starts and the events so far, the last one outermost. */
  datatype Trace<World, Event> = Start(w: World) | Then(prev: Trace<World, Event>, e: Event)

  /** The run made of the given events. */
  ghost function RunOf<World, Event>(w: World, es: seq<Event>): Trace<World, Event> {
    if es == [] then Start(w) else Then(RunOf(w, es[..|es| - 1]), es[|es| - 1])
  }
}
