/**
 * The bill dialog's two pieces of logic that are not drawing: the colour a
 * "have / need" count is shown in, and the tri-state check box of a category
 * in the tree of bill-link settings.
 *
 * A category's children are fixed once the tree is built, so categories are
 * values here; the settings at the leaves are objects, because ticking a box
 * changes the shared setting in place.
 */
module LinkSettings {
  import opened Wrappers
  import Math

  // ---------------------------------------------------------------------------
  // Colour thresholds
  // ---------------------------------------------------------------------------

  /** How well a stock covers a requirement, from worst to best. */
  datatype Band = Missing | Short | Covered | Plenty

  function Rank(b: Band): nat
  {
    match b
    case Missing => 0
    case Short => 1
    case Covered => 2
    case Plenty => 3
  }

  /** The rich-text colour of each band. */
  function Hex(b: Band): (h: string)
    ensures |h| == 6
  {
    match b
    case Missing => "F4003D"
    case Short => "FFA400"
    case Covered => "BCF994"
    case Plenty => "97B7EF"
  }

  /** `2 * needed` in 32-bit `int` arithmetic, which wraps around. */
  function Doubled(needed: int): (d: int)
    requires Math.Int32Min <= needed <= Math.Int32Max
    ensures Math.Int32Min <= d <= Math.Int32Max
    ensures (d - 2 * needed) % 0x1_0000_0000 == 0
  {
    var d := 2 * needed;
    if d > Math.Int32Max then d - 0x1_0000_0000
    else if d < Math.Int32Min then d + 0x1_0000_0000
    else d
  }

  /** The band `got` falls in when `needed` are wanted; the tests run in this order. */
  function BandOf(needed: int, got: int): (b: Band)
    requires Math.Int32Min <= needed <= Math.Int32Max
    ensures b == Missing <==> got < 1
    ensures b == Short <==> 1 <= got < needed
    ensures b == Covered <==> 1 <= got && needed <= got < Doubled(needed)
    ensures b == Plenty <==> 1 <= got && needed <= got && Doubled(needed) <= got
  {
    if got < 1 then Missing
    else if got < needed then Short
    else if got < Doubled(needed) then Covered
    else Plenty
  }

  /** Up to 2^30 - 1 wanted, the doubling does not wrap and the covered band ends at twice the need. */
  lemma CoveredUpToTwiceNeeded(needed: int, got: int)
    requires 1 <= needed <= 0x3FFF_FFFF
    ensures BandOf(needed, got) == Covered <==> needed <= got < 2 * needed
  {
  }

  /** From 2^30 wanted on, the doubling wraps to a negative bound and no count is shown as covered. */
  lemma HugeNeedSkipsCovered(needed: int, got: int)
    requires 0x4000_0000 <= needed <= Math.Int32Max
    ensures BandOf(needed, got) != Covered
    ensures needed <= got ==> BandOf(needed, got) == Plenty
  {
  }

  /** The opening colour tag for a count of `got` against `needed`. */
  function MakeColor(needed: int, got: int): (tag: string)
    requires Math.Int32Min <= needed <= Math.Int32Max
    ensures |tag| == 15
    ensures tag[..8] == "<color=#" && tag[14] == '>'
    ensures tag[8..14] == Hex(BandOf(needed, got))
  {
    "<color=#" + Hex(BandOf(needed, got)) + ">"
  }

  /** Distinct bands are told apart by their colours. */
  lemma HexInjective(a: Band, b: Band)
    requires Hex(a) == Hex(b)
    ensures a == b
  {
  }

  /** Having more never shows a worse colour. */
  lemma BandMonotone(needed: int, got1: int, got2: int)
    requires Math.Int32Min <= needed <= Math.Int32Max
    requires got1 <= got2
    ensures Rank(BandOf(needed, got1)) <= Rank(BandOf(needed, got2))
  {
  }

  /** The colour tags of two counts agree exactly when the counts fall in the same band. */
  lemma MakeColorSameBand(needed: int, got1: int, got2: int)
    requires Math.Int32Min <= needed <= Math.Int32Max
    ensures MakeColor(needed, got1) == MakeColor(needed, got2) <==> BandOf(needed, got1) == BandOf(needed, got2)
  {
    var t1, t2 := MakeColor(needed, got1), MakeColor(needed, got2);
    if t1 == t2 {
      assert t1[8..14] == t2[8..14];
      HexInjective(BandOf(needed, got1), BandOf(needed, got2));
    }
  }

  // ---------------------------------------------------------------------------
  // The tree of link settings
  // ---------------------------------------------------------------------------

  /** One link between a bill and its parent; the check box edits `state`. */
  class LinkSetting {
    var state: bool
    const compatibleWithParent: bool

    constructor (state: bool, compatibleWithParent: bool)
      ensures this.state == state && this.compatibleWithParent == compatibleWithParent
    {
      this.state := state;
      this.compatibleWithParent := compatibleWithParent;
    }

    /** A link takes effect only when ticked and compatible with the parent bill. */
    predicate Enabled()
      reads this
    {
      state && compatibleWithParent
    }
  }

  /**
   * A node of the settings tree: a leaf holding a setting, a category with
   * its children, or some other node, which neither reports nor toggles.
   */
  datatype Node =
    | LinkNode(setting: LinkSetting)
    | LinkCategory(name: string, children: seq<Node>)
    | OtherNode

  /** The multi check box's three states. */
  datatype MultiCheckboxState = On | Off | Partial

  /** Every setting reachable from `n`. */
  function Leaves(n: Node): set<LinkSetting>
    decreases n
  {
    match n
    case LinkNode(s) => {s}
    case LinkCategory(_, cs) => set i, s | 0 <= i < |cs| && s in Leaves(cs[i]) :: s
    case OtherNode => {}
  }

  /** A child's settings are among its category's. */
  lemma ChildLeaves(n: Node, i: nat)
    requires n.LinkCategory? && i < |n.children|
    ensures Leaves(n.children[i]) <= Leaves(n)
  {
    forall s | s in Leaves(n.children[i])
      ensures s in Leaves(n)
    {
    }
  }

  /** The settings of a tree already exist, so a call that allocates leaves them alone. */
  lemma {:induction false} LeavesAllocated(n: Node)
    ensures forall s :: s in Leaves(n) ==> allocated(s)
    decreases n
  {
    if n.LinkCategory? {
      forall i | 0 <= i < |n.children|
        ensures forall s :: s in Leaves(n.children[i]) ==> allocated(s)
      {
        LeavesAllocated(n.children[i]);
      }
    }
  }

  /** What one child contributes to its category's box: nothing for a foreign node. */
  function Vote(n: Node): (v: Option<MultiCheckboxState>)
    reads Leaves(n)
    decreases n, 1
  {
    match n
    case LinkNode(s) => Some(if s.Enabled() then On else Off)
    case LinkCategory(_, _) => Some(State(n))
    case OtherNode => None
  }

  /**
   * A category's box, independent of the order of its children: mixed when a
   * child category is mixed or when some child is on and another off; on
   * when some child is on and none off; off otherwise, an empty category
   * included.
   */
  function State(n: Node): MultiCheckboxState
    requires n.LinkCategory?
    reads Leaves(n)
    decreases n, 0
  {
    var cs := n.children;
    if (exists i :: 0 <= i < |cs| && Vote(cs[i]) == Some(Partial))
       || ((exists i :: 0 <= i < |cs| && Vote(cs[i]) == Some(On))
           && (exists i :: 0 <= i < |cs| && Vote(cs[i]) == Some(Off)))
    then Partial
    else if exists i :: 0 <= i < |cs| && Vote(cs[i]) == Some(On) then On
    else Off
  }

  /**
   * The box of a category, scanning its children in order and stopping as
   * soon as the answer is known to be mixed.
   */
  method CheckState(n: Node) returns (r: MultiCheckboxState)
    requires n.LinkCategory?
    ensures r == State(n)
    ensures (forall i :: 0 <= i < |n.children| ==> n.children[i].OtherNode?) ==> r == Off
    decreases n
  {
    var cs := n.children;
    var anyOn, anyOff := false, false;
    forall j | 0 <= j < |cs| {
      LeavesAllocated(cs[j]);
    }
    for i := 0 to |cs|
      invariant anyOn <==> exists j :: 0 <= j < i && Vote(cs[j]) == Some(On)
      invariant anyOff <==> exists j :: 0 <= j < i && Vote(cs[j]) == Some(Off)
      invariant !(anyOn && anyOff)
      invariant forall j :: 0 <= j < i ==> Vote(cs[j]) != Some(Partial)
    {
      var child := cs[i];
      ghost var vote := Vote(child);
      if child.LinkNode? {
        if child.setting.Enabled() {
          assert vote == Some(On);
          anyOn := true;
        } else {
          assert vote == Some(Off);
          anyOff := true;
        }
      } else if child.LinkCategory? {
        var res := CheckState(child);
        assert vote == Some(res);
        if res == Partial {
          return Partial;
        } else if res == On {
          anyOn := true;
        } else {
          anyOff := true;
        }
      } else {
        assert vote == None;
      }
      if anyOn && anyOff {
        return Partial;
      }
    }
    if anyOn {
      return On;
    }
    return Off;
  }

  /** Every category in the subtree has a child that reports to it. */
  predicate Populated(n: Node)
    decreases n
  {
    n.LinkCategory? ==>
      (exists i :: 0 <= i < |n.children| && !n.children[i].OtherNode?)
      && forall i :: 0 <= i < |n.children| ==> Populated(n.children[i])
  }

  /** A subtree with no enabled setting shows an empty box. */
  lemma {:induction false} AllDisabledIsOff(n: Node)
    requires n.LinkCategory?
    requires forall s :: s in Leaves(n) ==> !s.Enabled()
    ensures State(n) == Off
    decreases n
  {
    var cs := n.children;
    forall i | 0 <= i < |cs|
      ensures Vote(cs[i]) == None || Vote(cs[i]) == Some(Off)
    {
      match cs[i]
      case LinkNode(s) =>
        ChildLeaves(n, i);
      case LinkCategory(_, _) =>
        ChildLeaves(n, i);
        AllDisabledIsOff(cs[i]);
      case OtherNode =>
    }
  }

  /** A populated subtree whose settings are all enabled shows a ticked box. */
  lemma {:induction false} AllEnabledIsOn(n: Node)
    requires n.LinkCategory? && Populated(n)
    requires forall s :: s in Leaves(n) ==> s.Enabled()
    ensures State(n) == On
    decreases n
  {
    var cs := n.children;
    forall i | 0 <= i < |cs|
      ensures Vote(cs[i]) == None || Vote(cs[i]) == Some(On)
    {
      match cs[i]
      case LinkNode(s) =>
        ChildLeaves(n, i);
      case LinkCategory(_, _) =>
        ChildLeaves(n, i);
        AllEnabledIsOn(cs[i]);
      case OtherNode =>
    }
    var k :| 0 <= k < |cs| && !cs[k].OtherNode?;
    assert Vote(cs[k]) == Some(On);
  }

  /**
   * Sets every setting of the subtree to `value`, descending into nested
   * categories; nothing else in the heap changes.
   */
  method ToggleAction(n: Node, value: bool)
    requires n.LinkCategory?
    modifies Leaves(n)
    ensures forall s :: s in Leaves(n) ==> s.state == value
    ensures !value ==> State(n) == Off
    ensures value && Populated(n) && (forall s :: s in Leaves(n) ==> s.compatibleWithParent) ==> State(n) == On
    decreases n
  {
    var cs := n.children;
    forall j | 0 <= j < |cs| {
      LeavesAllocated(cs[j]);
    }
    for i := 0 to |cs|
      invariant forall j, s :: 0 <= j < i && s in Leaves(cs[j]) ==> s.state == value
    {
      ChildLeaves(n, i);
      match cs[i]
      case LinkNode(s) =>
        s.state := value;
      case LinkCategory(_, _) =>
        ToggleAction(cs[i], value);
      case OtherNode =>
    }
    if !value {
      AllDisabledIsOff(n);
    } else if Populated(n) && forall s :: s in Leaves(n) ==> s.compatibleWithParent {
      AllEnabledIsOn(n);
    }
  }
}
