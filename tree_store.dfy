/** The two-column `gtk::TreeStore` that `make_model` fills, as an arena:
    one row per `append`, in append order, each holding the index of its
    parent row (none for a top-level row) and the two text cells
    (column 0: name, column 1: value), both unset until `set` writes them. */
module Store {
  import opened Options

  datatype Row = Row(parent: Option<nat>, name: Option<string>, value: Option<string>)

  /** The columns of the store: 0 holds the name, 1 the value text. */
  datatype Column = NameColumn | ValueColumn

  /** Every parent of a row was appended before it: the arena is a forest. */
  predicate IsForest(rows: seq<Row>) {
    forall i :: 0 <= i < |rows| && rows[i].parent.Some? ==> rows[i].parent.value < i
  }

  /** The children of `parent` in the order the tree view shows them. */
  function ChildrenOf(rows: seq<Row>, parent: Option<nat>): (kids: seq<nat>)
    ensures forall i: nat :: i in kids <==> i < |rows| && rows[i].parent == parent
    ensures forall a, b :: 0 <= a < b < |kids| ==> kids[a] < kids[b]
  {
    if rows == [] then []
    else
      var init := rows[..|rows| - 1];
      assert forall i: nat :: i < |init| ==> init[i] == rows[i];
      assert forall a :: 0 <= a < |ChildrenOf(init, parent)| ==> ChildrenOf(init, parent)[a] in ChildrenOf(init, parent);
      ChildrenOf(init, parent) + (if rows[|rows| - 1].parent == parent then [|rows| - 1] else [])
  }

  /** Appending a row makes it the last child of its parent and leaves every
      other row's list of children as it was. */
  lemma AppendIsLastChild(rows: seq<Row>, row: Row, other: Option<nat>)
    ensures ChildrenOf(rows + [row], row.parent) == ChildrenOf(rows, row.parent) + [|rows|]
    ensures other != row.parent ==> ChildrenOf(rows + [row], other) == ChildrenOf(rows, other)
  {
    assert (rows + [row])[..|rows|] == rows;
  }

  class TreeStore {
    var rows: seq<Row>

    ghost predicate Valid()
      reads this
    {
      IsForest(rows)
    }

    constructor ()
      ensures Valid() && rows == []
    {
      rows := [];
    }

    /** `TreeStore::clear`. */
    method Clear()
      modifies this
      ensures Valid() && rows == []
    {
      rows := [];
    }

    /** `TreeStore::append`: a new row with unset cells, last among the
        children of `parent`; the returned iterator is its index. */
    method Append(parent: Option<nat>) returns (iter: nat)
      requires Valid()
      requires parent.Some? ==> parent.value < |rows|
      modifies this
      ensures Valid()
      ensures iter == old(|rows|)
      ensures rows == old(rows) + [Row(parent, None, None)]
    {
      iter := |rows|;
      rows := rows + [Row(parent, None, None)];
    }

    /** `TreeStore::set` of one column of one row. */
    method Set(iter: nat, column: Column, text: string)
      requires Valid()
      requires iter < |rows|
      modifies this
      ensures Valid()
      ensures column == NameColumn ==>
                rows == old(rows)[iter := old(rows)[iter].(name := Some(text))]
      ensures column == ValueColumn ==>
                rows == old(rows)[iter := old(rows)[iter].(value := Some(text))]
    {
      var row := rows[iter];
      match column
      case NameColumn => rows := rows[iter := row.(name := Some(text))];
      case ValueColumn => rows := rows[iter := row.(value := Some(text))];
    }
  }
}
