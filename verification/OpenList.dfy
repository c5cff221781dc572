/** The list of open graph nodes as the projector keeps it: a growing array that removal
    compacts in place, and that snapshots copy. */
module OpenList {
  import opened Graph

  /** The kept nodes of the first k. */
  lemma {:induction false} OpenRemoveSnoc(openNodes: seq<string>, node: string, k: nat)
    requires k < |openNodes|
    ensures OpenRemove(openNodes[..k + 1], node) ==
            OpenRemove(openNodes[..k], node) + if openNodes[k] != node then [openNodes[k]] else []
    decreases k
  {
    if k == 0 {
      assert openNodes[..1] == [openNodes[0]] && openNodes[..1][1..] == [] && openNodes[..0] == [];
    } else {
      var rest := openNodes[1..];
      OpenRemoveSnoc(rest, node, k - 1);
      assert openNodes[..k + 1][1..] == rest[..k] && openNodes[..k][1..] == rest[..k - 1];
      var keep := if openNodes[0] != node then [openNodes[0]] else [];
      var last := if openNodes[k] != node then [openNodes[k]] else [];
      assert keep + (OpenRemove(rest[..k - 1], node) + last) == keep + OpenRemove(rest[..k - 1], node) + last;
    }
  }

  class OpenNodes {
    var nodes: array<string>
    var len: nat

    ghost predicate Valid()
      reads this
    {
      len <= nodes.Length
    }

    ghost function Contents(): (s: seq<string>)
      requires Valid()
      reads this, nodes
    {
      nodes[..len]
    }

    constructor ()
      ensures Valid() && fresh(nodes) && Contents() == []
    {
      nodes := new string[0];
      len := 0;
    }

    /** A node is open once; a full array is replaced by a larger one. */
    method Add(node: string)
      requires Valid()
      modifies this, nodes
      ensures Valid() && (nodes == old(nodes) || fresh(nodes))
      ensures Contents() == OpenAdd(old(Contents()), node)
    {
      if node == "" {
        return;
      }
      var i := 0;
      while i < len
        invariant 0 <= i <= len
        invariant node !in nodes[..i]
      {
        if nodes[i] == node {
          assert Contents()[i] == node;
          return;
        }
        i := i + 1;
      }
      if len == nodes.Length {
        Grow();
      }
      nodes[len] := node;
      len := len + 1;
    }

    method Grow()
      requires Valid()
      modifies this`nodes
      ensures Valid() && fresh(nodes) && nodes.Length > len && Contents() == old(Contents())
    {
      var larger := new string[2 * len + 1](i => "");
      var i := 0;
      while i < len
        invariant nodes == old(nodes) && fresh(larger) && Valid()
        invariant 0 <= i <= len && larger[..i] == nodes[..i]
      {
        larger[i] := nodes[i];
        i := i + 1;
      }
      nodes := larger;
    }

    /** The kept nodes move down over the removed one, in the same array. */
    method Remove(node: string)
      requires Valid()
      modifies this`len, nodes
      ensures Valid() && Contents() == OpenRemove(old(Contents()), node)
    {
      ghost var was := nodes[..];
      var kept, i := 0, 0;
      while i < len
        invariant 0 <= kept <= i <= len && len == old(len) && Valid()
        invariant nodes[..kept] == OpenRemove(was[..i], node)
        invariant |was| == nodes.Length && forall k | i <= k < nodes.Length :: nodes[k] == was[k]
      {
        OpenRemoveSnoc(was, node, i);
        var id := nodes[i];
        if id != node {
          nodes[kept] := id;
          kept := kept + 1;
        }
        i := i + 1;
      }
      len := kept;
    }

    /** A copy that later changes of the list do not reach. */
    method Snapshot() returns (copy: array<string>)
      requires Valid()
      ensures fresh(copy) && copy[..] == Contents()
    {
      copy := new string[len](i => "");
      var i := 0;
      while i < len
        invariant 0 <= i <= len && Valid() && copy[..i] == nodes[..i]
      {
        copy[i] := nodes[i];
        i := i + 1;
      }
      assert copy[..] == copy[..len];
    }
  }
}
