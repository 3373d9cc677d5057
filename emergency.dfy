/** The checklist state of the emergency screen (App.tsx:844-866, 891-894): which checklist is shown,
    the indices of the items ticked off, and the two flags raised by declaring an emergency. */
module Emergency {

  /** No index appears twice. */
  predicate NoDuplicates(items: seq<int>)
  {
    forall a, b :: 0 <= a < b < |items| ==> items[a] != items[b]
  }

  /** `items.filter(i => i !== x)`: every entry but `x`, in the same order. */
  function Without(items: seq<int>, x: int): (r: seq<int>)
    ensures x !in r
    ensures forall y :: y != x ==> (y in r <==> y in items)
    ensures x !in items ==> r == items
    ensures NoDuplicates(items) ==> NoDuplicates(r)
  {
    if items == [] then []
    else if items[0] == x then Without(items[1..], x)
    else
      var rest := Without(items[1..], x);
      TailNoDuplicates(items);
      [items[0]] + rest
  }

  lemma TailNoDuplicates(items: seq<int>)
    requires items != []
    ensures NoDuplicates(items) ==> NoDuplicates(items[1..]) && items[0] !in items[1..]
  {
    var tail := items[1..];
    assert forall b :: 0 <= b < |tail| ==> tail[b] == items[b + 1];
  }

  /** `handleToggleItem`: an index that is checked is removed, any other is appended. */
  function Toggled(items: seq<int>, index: int): (r: seq<int>)
    ensures index in r <==> index !in items
    ensures forall j :: j != index ==> (j in r <==> j in items)
    ensures NoDuplicates(items) ==> NoDuplicates(r)
  {
    if index in items then Without(items, index) else items + [index]
  }

  /** Toggling the same index twice gives back the same set of checked indices. */
  lemma ToggleTwiceMembership(items: seq<int>, index: int)
    ensures forall j :: j in Toggled(Toggled(items, index), index) <==> j in items
  {
  }

  /** When the index was not checked, toggling it twice gives back the very same list. */
  lemma {:induction false} AppendThenRemove(items: seq<int>, x: int)
    requires x !in items
    ensures Without(items + [x], x) == items
  {
    if items == [] {
      assert [x][1..] == [];
    } else {
      assert (items + [x])[1..] == items[1..] + [x];
      AppendThenRemove(items[1..], x);
      assert items == [items[0]] + items[1..];
    }
  }

  lemma ToggleTwiceUnchecked(items: seq<int>, index: int)
    requires index !in items
    ensures Toggled(Toggled(items, index), index) == items
  {
    AppendThenRemove(items, index);
  }

  class EmergencyScreen {
    var selectedChecklist: string
    var checkedItems: seq<int>
    var emergencyDeclared: bool
    var showMayday: bool

    /** The list of checked indices holds each index at most once. */
    predicate Valid()
      reads this
    {
      NoDuplicates(checkedItems)
    }

    /** `checkedItems.includes(index)`, what each row of the checklist shows. */
    predicate IsChecked(index: int)
      reads this
    {
      index in checkedItems
    }

    /** The initial state: the engine failure checklist, nothing checked, no emergency. */
    constructor()
      ensures selectedChecklist == "engineFailure" && checkedItems == []
      ensures !emergencyDeclared && !showMayday
      ensures Valid()
    {
      selectedChecklist := "engineFailure";
      checkedItems := [];
      emergencyDeclared := false;
      showMayday := false;
    }

    /** `handleToggleItem`: flips whether `index` is checked and leaves every other index as it was. */
    method ToggleItem(index: int)
      modifies this
      ensures checkedItems == Toggled(old(checkedItems), index)
      ensures IsChecked(index) <==> !old(IsChecked(index))
      ensures forall j :: j != index ==> (IsChecked(j) <==> old(IsChecked(j)))
      ensures old(Valid()) ==> Valid()
      ensures selectedChecklist == old(selectedChecklist)
      ensures emergencyDeclared == old(emergencyDeclared) && showMayday == old(showMayday)
    {
      if index in checkedItems {
        checkedItems := Without(checkedItems, index);
      } else {
        checkedItems := checkedItems + [index];
      }
    }

    /** `resetChecklist`: nothing checked and both flags down; the checklist shown stays. */
    method ResetChecklist()
      modifies this
      ensures checkedItems == [] && !emergencyDeclared && !showMayday
      ensures selectedChecklist == old(selectedChecklist)
      ensures Valid()
    {
      checkedItems := [];
      emergencyDeclared := false;
      showMayday := false;
    }

    /** `declareEmergency`: both flags up; the checklist and its ticks stay. */
    method DeclareEmergency()
      modifies this
      ensures emergencyDeclared && showMayday
      ensures selectedChecklist == old(selectedChecklist) && checkedItems == old(checkedItems)
      ensures old(Valid()) ==> Valid()
    {
      emergencyDeclared := true;
      showMayday := true;
    }

    /** Choosing a checklist: it is shown with nothing checked; the flags stay. */
    method SelectChecklist(key: string)
      modifies this
      ensures selectedChecklist == key && checkedItems == []
      ensures emergencyDeclared == old(emergencyDeclared) && showMayday == old(showMayday)
      ensures Valid()
    {
      selectedChecklist := key;
      checkedItems := [];
    }
  }
}
