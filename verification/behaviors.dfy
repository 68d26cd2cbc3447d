/** The fixed list of cow behaviours and the label-to-ordinal mapping of the timeline. */
module Behaviors {
  import Lists

  /** The seven behaviour labels, in the order that fixes their ordinals (stand, lie, eat, drink, mount attempt, mount, stand by the fence). */
  const BEHAVIORS: seq<string> := ["ยืน", "นอน", "กิน", "ดื่ม", "เกย", "คร่อม", "ยืนติดรั้ว"]

  /** The value `fillna` writes into a missing label cell. */
  const UNKNOWN: string := "Unknown"

  /** `behaviors.index(x) if x in behaviors else -1`. */
  function BehaviorIndex(observed: string): (r: int)
    ensures -1 <= r < |BEHAVIORS|
    ensures r == -1 <==> observed !in BEHAVIORS
    ensures 0 <= r ==> BEHAVIORS[r] == observed
  {
    Lists.IndexOf(BEHAVIORS, observed)
  }

  /** No label appears twice in the list. */
  lemma BehaviorsDistinct()
    ensures Lists.Distinct(BEHAVIORS)
  {
  }

  /** Each behaviour maps to its own position, so ordinals and labels are in one-to-one correspondence. */
  lemma BehaviorIndexOfEach(i: nat)
    requires i < |BEHAVIORS|
    ensures BehaviorIndex(BEHAVIORS[i]) == i
  {
    BehaviorsDistinct();
    Lists.IndexOfDistinct(BEHAVIORS, i);
  }

  /** A missing label, filled as "Unknown", is mapped to -1. */
  lemma UnknownIsUnmapped()
    ensures BehaviorIndex(UNKNOWN) == -1
  {
  }
}
