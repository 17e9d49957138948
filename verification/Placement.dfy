/** Dividing the ready clusters into those a resource is placed in and the others. */
module Placement {
  import opened Collections
  import opened Strings

  function Filtered(list: seq<string>, names: seq<string>, keep: bool): seq<string> {
    if list == [] then []
    else (if (list[0] in names) == keep then [list[0]] else []) + Filtered(list[1..], names, keep)
  }

  /** A placement directive: absent, or the cluster names it lists, or malformed. */
  datatype Directive = Absent | Listing(names: seq<string>) | Malformed

  /** Without a directive nothing is selected, and the clusters are passed on as they came. */
  function ComputePlacement(directive: Directive, clusterNames: seq<string>): Result<(seq<string>, seq<string>)> {
    match directive
    case Absent => Ok(([], clusterNames))
    case Malformed => Err("malformed placement")
    case Listing(names) =>
      Ok((Filtered(SetList(clusterNames), names, true), Filtered(SetList(clusterNames), names, false)))
  }

  lemma {:induction false} FilteredFacts(list: seq<string>, names: seq<string>, keep: bool)
    requires Ascending(list)
    ensures Ascending(Filtered(list, names, keep))
    ensures forall y :: y in Filtered(list, names, keep) <==> y in list && ((y in names) == keep)
  {
    if list != [] {
      FilteredFacts(list[1..], names, keep);
      var rest := Filtered(list[1..], names, keep);
      forall i | 0 <= i < |rest| ensures StringLess(list[0], rest[i]) {
        assert rest[i] in rest;
      }
      assert forall y :: y in list <==> y == list[0] || y in list[1..];
    }
  }

  /**
   A placement that can be read gives selected and unselected clusters that partition the given ones, and
   no cluster is listed twice.
   */
  lemma PlacementPartitions(directive: Directive, clusterNames: seq<string>)
    requires NoRepeats(clusterNames)
    ensures ComputePlacement(directive, clusterNames).Err? <==> directive.Malformed?
    ensures ComputePlacement(directive, clusterNames).Ok? ==> var (selected, unselected) := ComputePlacement(directive, clusterNames).value;
      && NoRepeats(selected + unselected)
      && (forall c :: c in selected + unselected <==> c in clusterNames)
      && (forall c :: c in selected <==> c in clusterNames && directive.Listing? && c in directive.names)
  {
    if directive.Listing? {
      var (selected, unselected) := ComputePlacement(directive, clusterNames).value;
      var all := SetList(clusterNames);
      SetListFacts(clusterNames);
      FilteredFacts(all, directive.names, true);
      FilteredFacts(all, directive.names, false);
      AscendingIsDistinct(selected);
      AscendingIsDistinct(unselected);
      forall i, j | 0 <= i < |selected| && 0 <= j < |unselected| ensures selected[i] != unselected[j] {
        assert selected[i] in selected && unselected[j] in unselected;
      }
    }
  }
}
