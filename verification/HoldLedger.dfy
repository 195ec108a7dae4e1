/** The wallet as this service sees it: holds that are active, released or converted to a payment. */
module HoldLedger {
  import opened Wrappers

  datatype HoldState = Live | Released | Converted

  /** `amount` is in whole rupiah. */
  datatype Hold = Hold(user: string, amount: int, state: HoldState)

  /** Cents to whole rupiah, rounding up. */
  function Rupiah(cents: int): (r: int)
    ensures 0 < cents ==> cents <= 100 * r < cents + 100
    ensures cents <= 0 ==> r == 0
  {
    if cents <= 0 then 0 else (cents + 99) / 100
  }

  predicate IsLive(holds: seq<Hold>, h: Option<nat>) {
    h.Some? && h.value < |holds| && holds[h.value].state == Live
  }

  /** Releasing anything but a live hold changes nothing. */
  function Release(holds: seq<Hold>, h: Option<nat>): (r: seq<Hold>)
    ensures |r| == |holds|
    ensures forall i | 0 <= i < |holds| :: r[i].user == holds[i].user && r[i].amount == holds[i].amount
    ensures forall i | 0 <= i < |holds| ::
              r[i].state == if h == Some(i) && holds[i].state == Live then Released else holds[i].state
  {
    if IsLive(holds, h) then holds[h.value := holds[h.value].(state := Released)] else holds
  }

  function Convert(holds: seq<Hold>, h: nat): seq<Hold>
    requires h < |holds|
  {
    holds[h := holds[h].(state := Converted)]
  }
}
