/** One pass of the main loop: poll the status, then colour the bulb accordingly. */
module SyncLoop {
  import opened Wrappers
  import opened TeamsStatus
  import opened BulbColor

  /** What one tick decides: the status it read and the colour it sends. */
  datatype TickOutcome = TickOutcome(status: Status, color: Rgb)

  /**
   * One tick, given what extraction returned (None when it raised): the
   * status read and the colour requested of the bulb, in terms of the words
   * in the label.
   */
  function Tick(extracted: Option<string>): (t: TickOutcome)
    ensures t.status == GetTeamsStatus(extracted)
    ensures t.color.Valid()
    ensures t.color == AvailableGreen
        <==> extracted.Some? && SaysAvailable(extracted.value)
    ensures t.color == BusyRed
        <==> extracted.Some? && SaysBusy(extracted.value) && !SaysAvailable(extracted.value)
    ensures t.color == AwayYellow
        <==> extracted.Some? && SaysAway(extracted.value)
             && !SaysBusy(extracted.value) && !SaysAvailable(extracted.value)
    ensures t.color == UnknownGray
        <==> extracted.None?
             || (!SaysAvailable(extracted.value) && !SaysBusy(extracted.value) && !SaysAway(extracted.value))
  {
    var status := GetTeamsStatus(extracted);
    ColorForStatus(status);
    TickOutcome(status, ColorFor(status.Label()))
  }

  /** The colours requested of the bulb over successive polls. */
  function ColorTrace(polls: seq<Option<string>>): (colors: seq<Rgb>)
    ensures |colors| == |polls|
    ensures forall i :: 0 <= i < |polls| ==> colors[i] == Tick(polls[i]).color && colors[i].Valid()
  {
    if polls == [] then [] else [Tick(polls[0]).color] + ColorTrace(polls[1..])
  }
}
