/**
 * The skill tree: skill points accrue with time, and a key press spends one
 * point to raise the trust branch by a level.
 */
module SkillTrees {
  import opened Numerics

  datatype SkillBranch = Trust | Lattice | Mercy

  datatype SkillTree = SkillTree(points: nat, trustLevel: nat, latticeLevel: nat, mercyLevel: nat)

  /** One frame of `skill_point_system`: the frame's seconds, truncated, become points. */
  function Accrue(tree: SkillTree, deltaSeconds: real): (t: SkillTree)
    ensures t.points >= tree.points
    ensures deltaSeconds >= 0.0 ==> (t.points - tree.points) as real <= deltaSeconds < (t.points - tree.points + 1) as real
    ensures deltaSeconds < 1.0 ==> t == tree
    ensures t.trustLevel == tree.trustLevel && t.latticeLevel == tree.latticeLevel && t.mercyLevel == tree.mercyLevel
  {
    tree.(points := tree.points + AsUnsigned(deltaSeconds * 1.0))
  }

  /** The upgrade step of `skill_ui_system`: a point becomes a trust level, if there is one. */
  function Upgrade(tree: SkillTree): (t: SkillTree)
    ensures tree.points == 0 ==> t == tree
    ensures tree.points > 0 ==> t.points == tree.points - 1 && t.trustLevel == tree.trustLevel + 1
    ensures t.points + t.trustLevel == tree.points + tree.trustLevel
    ensures t.latticeLevel == tree.latticeLevel && t.mercyLevel == tree.mercyLevel
  {
    if tree.points > 0 then tree.(points := tree.points - 1, trustLevel := tree.trustLevel + 1) else tree
  }

  /** Repeated upgrades spend points until none are left and never lose any. */
  function UpgradeTimes(tree: SkillTree, n: nat): (t: SkillTree)
    ensures t.points + t.trustLevel == tree.points + tree.trustLevel
    ensures t.points == if n <= tree.points then tree.points - n else 0
    decreases n
  {
    if n == 0 then tree else Upgrade(UpgradeTimes(tree, n - 1))
  }

  /** `skill_point_system`. */
  method SkillPointSystem(query: array<SkillTree>, deltaSeconds: real)
    modifies query
    ensures forall k :: 0 <= k < query.Length ==> query[k] == Accrue(old(query[k]), deltaSeconds)
  {
    for k := 0 to query.Length
      invariant forall j :: 0 <= j < k ==> query[j] == Accrue(old(query[j]), deltaSeconds)
      invariant forall j :: k <= j < query.Length ==> query[j] == old(query[j])
    {
      var tree := query[k];
      tree := tree.(points := tree.points + AsUnsigned(deltaSeconds * 1.0));
      query[k] := tree;
    }
  }

  /** `skill_ui_system`: only with the key pressed and exactly one tree in the query. */
  method SkillUiSystem(pressed: bool, query: array<SkillTree>)
    modifies query
    ensures pressed && query.Length == 1 ==> query[0] == Upgrade(old(query[0]))
    ensures !(pressed && query.Length == 1) ==> query[..] == old(query[..])
  {
    if pressed && query.Length == 1 {
      var tree := query[0];
      if tree.points > 0 {
        tree := tree.(points := tree.points - 1);
        tree := tree.(trustLevel := tree.trustLevel + 1);
        query[0] := tree;
      }
    }
  }
}
