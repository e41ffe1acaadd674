/** src/logger.py: the older logger, a plain list of event strings with no visibility. */
module SrcLogger {

  class GameLogger {
    var events: seq<string>

    constructor ()
      ensures events == []
    {
      events := [];
    }

    /** log: appends the event at the end; nothing already logged changes. */
    method Log(event: string)
      modifies this
      ensures events == old(events) + [event]
      ensures old(events) <= events && |events| == |old(events)| + 1 && events[|events| - 1] == event
    {
      events := events + [event];
    }

    /** get_events: every event logged so far, oldest first. */
    function GetEvents(): (r: seq<string>)
      reads this
      ensures |r| == |events| && forall i :: 0 <= i < |r| ==> r[i] == events[i]
    {
      events
    }
  }
}
