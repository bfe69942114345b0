/** The kitchen's status filter (`src/components/kds/StatusFilter.tsx`): a
    list of selected statuses that checkboxes toggle and two buttons reset. */
module StatusFilter {
  import opened Seqs
  import opened Types

  /** The statuses the filter offers, in menu order. */
  const AvailableStatuses: seq<OrderStatus> := [Confirmed, Making, Ready, Delivered]

  function IsNot(status: OrderStatus): OrderStatus -> bool
  {
    (s: OrderStatus) => s != status
  }

  /** `toggleStatus`: a selected status is filtered out, any other is
      appended. */
  function ToggleStatus(selected: seq<OrderStatus>, status: OrderStatus): (r: seq<OrderStatus>)
    ensures status !in selected ==> r == selected + [status]
    ensures status in selected ==> status !in r
    ensures forall s :: s != status ==> (s in r <==> s in selected)
  {
    if status in selected then Filter(selected, IsNot(status)) else selected + [status]
  }

  /** "Select All": every status the filter offers. */
  function SelectAll(): seq<OrderStatus>
  {
    AvailableStatuses
  }

  /** "Clear All". */
  function ClearAll(): seq<OrderStatus>
  {
    []
  }

  /** Select All picks the four kitchen statuses in menu order, without
      repetition and without pending or cancelled; Clear All picks none. */
  lemma PresetsAreExact()
    ensures SelectAll() == [Confirmed, Making, Ready, Delivered]
    ensures Distinct(SelectAll())
    ensures forall s :: s in SelectAll() <==> s != Pending && s != Cancelled
    ensures forall s :: s !in ClearAll()
  {
  }

  /** Removing a status that occurs once, at `i`, is cutting out position
      `i`: the other statuses keep their order. */
  lemma ToggleRemovesAt(selected: seq<OrderStatus>, i: int)
    requires Distinct(selected) && 0 <= i < |selected|
    ensures ToggleStatus(selected, selected[i]) == selected[..i] + selected[i + 1..]
  {
    FilterRemovesOne(selected, IsNot(selected[i]), i);
    assert selected[i] in selected;
  }

  lemma DropOne(status: OrderStatus)
    ensures Filter([status], IsNot(status)) == []
  {
    assert [status][1..] == [];
  }

  /** Toggling an absent status on and off again restores the list. */
  lemma ToggleTwiceRestores(selected: seq<OrderStatus>, status: OrderStatus)
    requires status !in selected
    ensures ToggleStatus(ToggleStatus(selected, status), status) == selected
  {
    FilterConcat(selected, [status], IsNot(status));
    FilterKeepsAll(selected, IsNot(status));
    DropOne(status);
  }

  /** Toggling never introduces a repeated status. */
  lemma ToggleKeepsDistinct(selected: seq<OrderStatus>, status: OrderStatus)
    requires Distinct(selected)
    ensures Distinct(ToggleStatus(selected, status))
  {
    if status in selected {
      var i :| 0 <= i < |selected| && selected[i] == status;
      ToggleRemovesAt(selected, i);
      CutKeepsDistinct(selected, i);
    } else {
      AppendKeepsDistinct(selected, status);
    }
  }

  lemma CutKeepsDistinct(s: seq<OrderStatus>, i: int)
    requires Distinct(s) && 0 <= i < |s|
    ensures Distinct(s[..i] + s[i + 1..])
  {
    var r := s[..i] + s[i + 1..];
    forall a, b | 0 <= a < b < |r| ensures r[a] != r[b] {
      var a' := if a < i then a else a + 1;
      var b' := if b < i then b else b + 1;
      assert r[a] == s[a'] && r[b] == s[b'];
    }
  }

  lemma AppendKeepsDistinct(s: seq<OrderStatus>, x: OrderStatus)
    requires Distinct(s) && x !in s
    ensures Distinct(s + [x])
  {
    var r := s + [x];
    forall a, b | 0 <= a < b < |r| ensures r[a] != r[b] {
      assert r[a] == s[a];
      if b < |s| {
        assert r[b] == s[b];
      }
    }
  }
}
