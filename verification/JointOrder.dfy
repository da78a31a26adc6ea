// The two joint orders (include/common/joint_order.hpp).
module JointOrder {
  const JOINTS := 29

  // One number per joint.
  type Joints = s: seq<real> | |s| == JOINTS witness seq(JOINTS, _ => 0.0)

  // IsaacLab joint i is MuJoCo joint MUJOCO_OF[i]; MuJoCo joint i is IsaacLab joint ISAACLAB_OF[i].
  const MUJOCO_OF: seq<int> := [
    0, 6, 12, 1, 7, 13, 2, 8, 14, 3, 9, 15, 22, 4, 10,
    16, 23, 5, 11, 17, 24, 18, 25, 19, 26, 20, 27, 21, 28]
  const ISAACLAB_OF: seq<int> := [
    0, 3, 6, 9, 13, 17, 1, 4, 7, 10, 14, 18, 2, 5, 8,
    11, 15, 19, 21, 23, 25, 27, 12, 16, 20, 22, 24, 26, 28]

  lemma Permutations()
    ensures |MUJOCO_OF| == |ISAACLAB_OF| == JOINTS
    ensures forall i :: 0 <= i < JOINTS ==> 0 <= MUJOCO_OF[i] < JOINTS && ISAACLAB_OF[MUJOCO_OF[i]] == i
    ensures forall i :: 0 <= i < JOINTS ==> 0 <= ISAACLAB_OF[i] < JOINTS && MUJOCO_OF[ISAACLAB_OF[i]] == i
  {
  }

  // The joint before MuJoCo joint i on its chain, none at the pelvis: two legs of
  // six joints, three waist joints, and two arms of seven that start at the last
  // of those.
  function Parent(i: nat): int {
    if i == 0 || i == 6 || i == 12 then -1 else if i == 15 || i == 22 then 14 else i - 1
  }

  function Depth(i: nat): (d: nat)
    decreases i
  {
    if 0 <= Parent(i) < i then Depth(Parent(i)) + 1 else 0
  }

  lemma DepthsKnown()
    ensures Depth(0) == 0 && Depth(1) == 1 && Depth(2) == 2 && Depth(3) == 3 && Depth(4) == 4 && Depth(5) == 5
    ensures Depth(6) == 0 && Depth(7) == 1 && Depth(8) == 2 && Depth(9) == 3 && Depth(10) == 4 && Depth(11) == 5
    ensures Depth(12) == 0 && Depth(13) == 1 && Depth(14) == 2 && Depth(15) == 3 && Depth(16) == 4 && Depth(17) == 5
    ensures Depth(18) == 6 && Depth(19) == 7 && Depth(20) == 8 && Depth(21) == 9 && Depth(22) == 3 && Depth(23) == 4
    ensures Depth(24) == 5 && Depth(25) == 6 && Depth(26) == 7 && Depth(27) == 8 && Depth(28) == 9
  {}

  predicate Follows(i: nat)
    requires i + 1 < |MUJOCO_OF|
  {
    var a, b := MUJOCO_OF[i], MUJOCO_OF[i + 1];
    0 <= a < JOINTS && 0 <= b < JOINTS && (Depth(a) < Depth(b) || (Depth(a) == Depth(b) && a < b))
  }

  lemma FirstFollow()
    ensures Follows(0) && Follows(1) && Follows(2) && Follows(3) && Follows(4)
    ensures Follows(5) && Follows(6) && Follows(7) && Follows(8) && Follows(9)
  {
    DepthsKnown();
    hide Depth;
  }

  lemma MiddleFollow()
    ensures Follows(10) && Follows(11) && Follows(12) && Follows(13) && Follows(14)
    ensures Follows(15) && Follows(16) && Follows(17) && Follows(18) && Follows(19)
  {
    DepthsKnown();
    hide Depth;
  }

  lemma LastFollow()
    ensures Follows(20) && Follows(21) && Follows(22) && Follows(23) && Follows(24)
    ensures Follows(25) && Follows(26) && Follows(27)
  {
    DepthsKnown();
    hide Depth;
  }

  // IsaacLab's order is breadth first where MuJoCo's is depth first: by the
  // number of joints before a joint on its chain, and then in MuJoCo's order.
  // That leaves one table.
  lemma BreadthFirst(i: nat)
    requires i + 1 < JOINTS
    ensures var a, b := MUJOCO_OF[i], MUJOCO_OF[i + 1];
      0 <= a < JOINTS && 0 <= b < JOINTS && (Depth(a) < Depth(b) || (Depth(a) == Depth(b) && a < b))
  {
    assert Follows(i) by {
      hide Follows;
      FirstFollow();
      MiddleFollow();
      LastFollow();
    }
  }
}
