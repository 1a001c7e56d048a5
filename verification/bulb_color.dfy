/** The colour choice inside `update_bulb_color`: a status string picks an RGB triple. */
module BulbColor {
  import opened TeamsStatus

  /** The arguments of one `set_rgb` call. */
  datatype Rgb = Rgb(red: int, green: int, blue: int) {
    /** Every channel is a byte, as the bulb's command expects. */
    predicate Valid() {
      0 <= red <= 255 && 0 <= green <= 255 && 0 <= blue <= 255
    }
  }

  const BusyRed := Rgb(255, 0, 0)
  const AvailableGreen := Rgb(0, 255, 0)
  const AwayYellow := Rgb(255, 255, 0)
  const UnknownGray := Rgb(128, 128, 128)

  /**
   * The colour sent for a status string. The comparison is exact and
   * case-sensitive; every string other than the three known labels gets gray.
   */
  function ColorFor(status: string): (c: Rgb)
    ensures c.Valid()
    ensures c in {BusyRed, AvailableGreen, AwayYellow, UnknownGray}
    ensures c == UnknownGray <==> status !in {"Busy", "Available", "Away"}
    ensures status == "Busy" ==> c == BusyRed
    ensures status == "Available" ==> c == AvailableGreen
    ensures status == "Away" ==> c == AwayYellow
  {
    if status == "Busy" then BusyRed
    else if status == "Available" then AvailableGreen
    else if status == "Away" then AwayYellow
    else UnknownGray
  }

  /** Each status the poll can report gets its own colour, and Unknown gets gray. */
  lemma ColorForStatus(st: Status)
    ensures st == Busy ==> ColorFor(st.Label()) == BusyRed
    ensures st == Available ==> ColorFor(st.Label()) == AvailableGreen
    ensures st == Away ==> ColorFor(st.Label()) == AwayYellow
    ensures st == Unknown ==> ColorFor(st.Label()) == UnknownGray
  {
  }

  /** The colour shown tells the four statuses apart. */
  lemma ColorDistinguishesStatus(a: Status, b: Status)
    ensures ColorFor(a.Label()) == ColorFor(b.Label()) <==> a == b
  {
    ColorForStatus(a);
    ColorForStatus(b);
  }
}
