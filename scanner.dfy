/**
 * The device filter the client hands to the radio scanner: a device is the
 * scale when it advertises a name and that name is exactly "Decent Scale".
 * The scanner reports the first advertisement, in arrival order, that the
 * filter accepts; a scan is modelled by the list of advertisements it
 * observes before its timeout.
 */
module Scanner {

  import opened Wrappers
  import Search

  type Address = string

  /** One received advertisement: the device's name, if it sent one, and
      its address. */
  datatype Advertisement = Advertisement(name: Option<string>, address: Address)

  const ScaleName: string := "Decent Scale"

  /** `d.name and d.name == 'Decent Scale'`: the name must be present and
      non-empty (Python truthiness) and equal to the scale's name. The
      filter therefore accepts exactly the advertisements named
      "Decent Scale". */
  predicate IsScale(d: Advertisement)
    ensures IsScale(d) <==> d.name == Some(ScaleName)
  {
    d.name.Some? && d.name.value != "" && d.name.value == ScaleName
  }

  /** The address of the first advertisement the filter accepts, or
      `None` when the scan ends without one. */
  function ScaleAddress(ads: seq<Advertisement>): (r: Option<Address>)
    ensures r.None? <==> forall i :: 0 <= i < |ads| ==> !IsScale(ads[i])
    ensures r.Some? ==> exists i :: 0 <= i < |ads| && IsScale(ads[i]) && r.value == ads[i].address
                                    && forall j :: 0 <= j < i ==> !IsScale(ads[j])
  {
    var accepted := (i: nat) => i < |ads| && IsScale(ads[i]);
    var k := Search.FirstIndex(accepted, |ads|);
    assert forall i :: 0 <= i < k ==> !IsScale(ads[i]) by {
      forall i | 0 <= i < k ensures !IsScale(ads[i]) {
        assert !accepted(i);
      }
    }
    if k < |ads| then
      assert accepted(k);
      assert IsScale(ads[k]);
      Some(ads[k].address)
    else None
  }

  /** Three advertisements, only the middle one from the scale: the scan
      reports the scale's address. */
  lemma ThreeDevices()
    ensures ScaleAddress([Advertisement(Some("Other"), "A1"),
                          Advertisement(Some("Decent Scale"), "A2"),
                          Advertisement(Some("Other2"), "A3")]) == Some("A2")
  {
    var ads := [Advertisement(Some("Other"), "A1"),
                Advertisement(Some("Decent Scale"), "A2"),
                Advertisement(Some("Other2"), "A3")];
    assert !IsScale(ads[0]) && IsScale(ads[1]);
  }
}
