/** The skill spheres: clicking one toggles its "active" class and takes
    the class off every other sphere, so at most one sphere is ever open. */
module SkillSpheres {

  ghost predicate AtMostOneActive(flags: seq<bool>)
  {
    forall i, j :: 0 <= i < |flags| && 0 <= j < |flags| && flags[i] && flags[j] ==> i == j
  }

  /** The "active" flags after sphere k is clicked. */
  function AfterClick(flags: seq<bool>, k: nat): (r: seq<bool>)
    requires k < |flags|
    ensures |r| == |flags|
    ensures AtMostOneActive(r)
    ensures (exists i :: 0 <= i < |r| && r[i]) <==> !flags[k]
    ensures !flags[k] ==> r[k]
  {
    var r := seq(|flags|, i => i == k && !flags[k]);
    assert !flags[k] ==> r[k];
    r
  }

  /** The group of .skill-sphere elements and their "active" class flags. */
  class SphereGroup {
    var active: array<bool>

    constructor (initial: seq<bool>)
      ensures fresh(active) && active[..] == initial
    {
      active := new bool[|initial|](i requires 0 <= i < |initial| => initial[i]);
    }

    /** The click handler of sphere k: toggle it, then clear every other. */
    method Click(k: nat)
      requires k < active.Length
      modifies active
      ensures active[..] == AfterClick(old(active[..]), k)
      ensures active[k] == !old(active[k])
      ensures forall i :: 0 <= i < active.Length && i != k ==> !active[i]
    {
      active[k] := !active[k];
      ghost var toggled := active[k];
      for i := 0 to active.Length
        invariant active[k] == toggled
        invariant forall m :: 0 <= m < i && m != k ==> !active[m]
      {
        if i != k {
          active[i] := false;
        }
      }
    }
  }
}
