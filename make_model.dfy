/** `make_model` (src/main.rs): the loop that turns the structure items of a
    devicetree blob into rows of the tree store, keeping an explicit stack of
    open parents that starts with the top-level sentinel `None`.

    The behaviour is specified by a reference definition that does not use a
    stack: `OpenRow(s, m)` scans the items `s` backwards to find the row of the
    m-th innermost node still open after `s`, and `Expected(s)` lists the rows
    the items create, each under the innermost open node before it. */
module MakeModel {
  import opened Options
  import opened Dtb
  import opened Store
  import opened ValueText

  /** Number of rows the items create. */
  function Rows(s: seq<StructItem>): nat {
    if s == [] then 0
    else Rows(s[..|s| - 1]) + (if CreatesRow(s[|s| - 1]) then 1 else 0)
  }

  /** The height the parents stack would have after `s` if popping an empty
      stack were an error: one for the sentinel, plus one per `BeginNode`,
      minus one per `EndNode`. */
  function Depth(s: seq<StructItem>): int {
    if s == [] then 1
    else
      Depth(s[..|s| - 1]) + match s[|s| - 1]
        case BeginNode(_) => 1
        case Property(_, _) => 0
        case EndNode => -1
  }

  /** The row of the m-th innermost node still open after `s` (m = 0 is the
      innermost); `None` stands for the top level. */
  function OpenRow(s: seq<StructItem>, m: nat): (open: Option<nat>)
    ensures open.Some? ==> open.value < Rows(s)
    decreases |s|
  {
    if s == [] then None
    else
      var init := s[..|s| - 1];
      match s[|s| - 1]
      case EndNode => OpenRow(init, m + 1)
      case Property(_, _) => OpenRow(init, m)
      case BeginNode(_) => if m == 0 then Some(Rows(init)) else OpenRow(init, m - 1)
  }

  /** The rows `item` adds after the items `before`: one row under the
      innermost open node for a `BeginNode` (name only) or a `Property`
      (name and value text), none for an `EndNode`. */
  function NewRows(before: seq<StructItem>, item: StructItem, cls: Classifiers): (rows: seq<Row>)
    ensures |rows| == if CreatesRow(item) then 1 else 0
    ensures |rows| == 1 ==> rows[0].parent == OpenRow(before, 0) && rows[0].name == Some(item.name)
    ensures |rows| == 1 ==> (rows[0].value.Some? <==> item.Property?)
  {
    match item
    case BeginNode(name) => [Row(OpenRow(before, 0), Some(name), None)]
    case Property(name, value) => [Row(OpenRow(before, 0), Some(name), Some(PropertyText(cls, value)))]
    case EndNode => []
  }

  /** The store contents after loading the items `s`. */
  function Expected(s: seq<StructItem>, cls: Classifiers): (rows: seq<Row>)
    ensures |rows| == Rows(s)
  {
    if s == [] then []
    else
      var init := s[..|s| - 1];
      Expected(init, cls) + NewRows(init, s[|s| - 1], cls)
  }

  /** No `BeginNode` or `Property` arrives once the sentinel has been popped,
      so `parents.last().unwrap()` never panics on the items `s`. */
  function NoPanic(s: seq<StructItem>): (ok: bool)
    ensures ok <==> forall k :: 0 <= k < |s| && CreatesRow(s[k]) ==> Stack(s[..k]) != []
  {
    forall k :: 0 <= k < |s| && CreatesRow(s[k]) ==> Depth(s[..k]) >= 1
  }

  /** How a load ends: the item stream ran out, or `unwrap` panicked on the
      item at position `at` of the consumed items. */
  datatype Outcome = Completed | Panicked(at: nat)

  // ---------------------------------------------------------------------
  // One item at a time

  /** A `BeginNode` appends one row, named, under the row on top of the
      stack; the stack grows by exactly one and its new top is the new row. */
  lemma BeginNodeStep(s: seq<StructItem>, name: string, cls: Classifiers)
    ensures Expected(s + [BeginNode(name)], cls) ==
              Expected(s, cls) + [Row(OpenRow(s, 0), Some(name), None)]
    ensures Depth(s) >= 1 ==>
              Stack(s + [BeginNode(name)]) == Stack(s) + [Some(|Expected(s, cls)|)]
  {
    var t := s + [BeginNode(name)];
    assert t[..|s|] == s;
    if Depth(s) >= 1 {
      assert Stack(t) == Stack(s) + [Some(|Expected(s, cls)|)] by {
        assert forall m: nat :: OpenRow(t, m + 1) == OpenRow(s, m);
      }
    }
  }

  /** A `Property` appends exactly one row under the row on top of the stack,
      labelled with its name and its value text; the stack is unchanged. */
  lemma PropertyStep(s: seq<StructItem>, name: string, value: seq<byte>, cls: Classifiers)
    ensures Expected(s + [Property(name, value)], cls) ==
              Expected(s, cls) + [Row(OpenRow(s, 0), Some(name), Some(PropertyText(cls, value)))]
    ensures Stack(s + [Property(name, value)]) == Stack(s)
  {
    var t := s + [Property(name, value)];
    assert t[..|s|] == s;
    assert forall m: nat :: OpenRow(t, m) == OpenRow(s, m);
  }

  /** An `EndNode` adds no row and pops the stack, which shrinks by exactly
      one; popping an empty stack leaves it empty. */
  lemma EndNodeStep(s: seq<StructItem>, cls: Classifiers)
    ensures Expected(s + [EndNode], cls) == Expected(s, cls)
    ensures |Stack(s)| > 0 ==> Stack(s + [EndNode]) == Stack(s)[..|Stack(s)| - 1]
    ensures |Stack(s)| == 0 ==> Stack(s + [EndNode]) == []
  {
    var t := s + [EndNode];
    assert t[..|s|] == s;
    assert forall m: nat :: OpenRow(t, m) == OpenRow(s, m + 1);
  }

  /** Rows are never taken back: a prefix of the items yields a prefix of
      the rows. */
  lemma {:induction false} ExpectedPrefix(s: seq<StructItem>, k: nat, cls: Classifiers)
    requires k <= |s|
    ensures Rows(s[..k]) <= Rows(s)
    ensures Expected(s, cls)[..Rows(s[..k])] == Expected(s[..k], cls)
    decreases |s|
  {
    if k < |s| {
      var init := s[..|s| - 1];
      assert init[..k] == s[..k];
      ExpectedPrefix(init, k, cls);
    } else {
      assert s[..k] == s;
    }
  }

  /** Panicking stops a load for good: a stream that does not panic has no
      prefix that does. */
  lemma NoPanicPrefix(s: seq<StructItem>, k: nat)
    requires NoPanic(s) && k <= |s|
    ensures NoPanic(s[..k])
  {
    assert forall j :: 0 <= j < k ==> s[..k][j] == s[j] && s[..k][..j] == s[..j];
  }

  lemma NoPanicExtend(s: seq<StructItem>, item: StructItem)
    requires NoPanic(s)
    requires CreatesRow(item) ==> Depth(s) >= 1
    ensures NoPanic(s + [item])
  {
    var t := s + [item];
    assert t[..|s|] == s;
    assert forall j :: 0 <= j < |s| ==> t[j] == s[j] && t[..j] == s[..j];
  }

  // ---------------------------------------------------------------------
  // Properties of the reference definition

  /** Every open node is a node row already in the store: the parent the
      next row receives exists, lies before it, and has no value. */
  lemma {:induction false} OpenRowIsNodeRow(s: seq<StructItem>, m: nat, cls: Classifiers)
    requires OpenRow(s, m).Some?
    ensures OpenRow(s, m).value < Rows(s)
    ensures Expected(s, cls)[OpenRow(s, m).value].value.None?
    decreases |s|
  {
    var init := s[..|s| - 1];
    var r := OpenRow(s, m).value;
    assert Expected(s, cls)[..Rows(init)] == Expected(init, cls) by {
      ExpectedPrefix(s, |s| - 1, cls);
    }
    match s[|s| - 1]
    case EndNode => OpenRowIsNodeRow(init, m + 1, cls);
    case Property(_, _) => OpenRowIsNodeRow(init, m, cls);
    case BeginNode(_) =>
      if m > 0 {
        OpenRowIsNodeRow(init, m - 1, cls);
      }
  }

  /** The loaded rows form a forest whose inner rows are all node rows, and
      every row carries a name; property rows also carry a value text. */
  lemma {:induction false} ExpectedIsForest(s: seq<StructItem>, cls: Classifiers)
    ensures IsForest(Expected(s, cls))
    ensures forall i :: 0 <= i < Rows(s) && Expected(s, cls)[i].parent.Some? ==>
              Expected(s, cls)[Expected(s, cls)[i].parent.value].value.None?
    ensures forall i :: 0 <= i < Rows(s) ==> Expected(s, cls)[i].name.Some?
    decreases |s|
  {
    if s != [] {
      var init := s[..|s| - 1];
      ExpectedIsForest(init, cls);
      if CreatesRow(s[|s| - 1]) && OpenRow(init, 0).Some? {
        OpenRowIsNodeRow(init, 0, cls);
      }
    }
  }

  /** The row of the item at position k is row number Rows(s[..k]): rows
      appear in the store in the order of their items in the stream. */
  lemma {:induction false} RowOfItem(s: seq<StructItem>, k: nat, cls: Classifiers)
    requires k < |s| && CreatesRow(s[k])
    ensures Rows(s[..k]) < Rows(s)
    ensures Expected(s, cls)[Rows(s[..k])] == NewRows(s[..k], s[k], cls)[0]
    decreases |s|
  {
    var init := s[..|s| - 1];
    if k == |s| - 1 {
      assert s[..k] == init;
    } else {
      assert init[..k] == s[..k] && init[k] == s[k];
      RowOfItem(init, k, cls);
    }
  }

  /** Of two row-creating items, the earlier one's row comes first; in
      particular the children of every parent are listed in stream order. */
  lemma RowsInStreamOrder(s: seq<StructItem>, k1: nat, k2: nat)
    requires k1 < k2 < |s| && CreatesRow(s[k1])
    ensures Rows(s[..k1]) < Rows(s[..k2])
  {
    var t := s[..k2];
    assert t[..k1] == s[..k1] && t[k1] == s[k1];
    var cls := Classifiers(_ => None, _ => None);
    RowOfItem(t, k1, cls);
  }

  /** Before the first row-creating item there is no open node row. */
  lemma {:induction false} NoRowsNoParent(s: seq<StructItem>, m: nat)
    requires Rows(s) == 0
    ensures OpenRow(s, m) == None
    decreases |s|
  {
    if s != [] {
      var init := s[..|s| - 1];
      match s[|s| - 1]
      case EndNode => NoRowsNoParent(init, m + 1);
      case _ =>
    }
  }

  /** The first row loaded is a top-level row. */
  lemma {:induction false} FirstRowIsTopLevel(s: seq<StructItem>, cls: Classifiers)
    requires Rows(s) > 0
    ensures Expected(s, cls)[0].parent == None
    decreases |s|
  {
    var init := s[..|s| - 1];
    if Rows(init) > 0 {
      FirstRowIsTopLevel(init, cls);
    } else {
      NoRowsNoParent(init, 0);
    }
  }

  /** Every row created before any `BeginNode` has been seen, and the row of
      the first `BeginNode` itself, is a top-level row: the stack then holds
      only the sentinel. */
  lemma FirstNodeIsTopLevel(s: seq<StructItem>, k: nat, cls: Classifiers)
    requires k < |s| && CreatesRow(s[k])
    requires forall j :: 0 <= j < k ==> !s[j].BeginNode?
    ensures Rows(s[..k]) < |Expected(s, cls)|
    ensures Expected(s, cls)[Rows(s[..k])].parent == None
  {
    RowOfItem(s, k, cls);
    assert forall j :: 0 <= j < k ==> s[..k][j] == s[j];
    NoNodeNoParent(s[..k], 0);
  }

  /** With no `BeginNode` among the items, every open entry is the top level. */
  lemma {:induction false} NoNodeNoParent(s: seq<StructItem>, m: nat)
    requires forall j :: 0 <= j < |s| ==> !s[j].BeginNode?
    ensures OpenRow(s, m) == None
    decreases |s|
  {
    if s != [] {
      var init := s[..|s| - 1];
      assert forall j :: 0 <= j < |init| ==> init[j] == s[j];
      assert !s[|s| - 1].BeginNode?;
      match s[|s| - 1]
      case EndNode => NoNodeNoParent(init, m + 1);
      case Property(_, _) => NoNodeNoParent(init, m);
    }
  }

  /** While nothing has panicked, the stack holds the sentinel at the bottom
      and real rows above it. */
  lemma {:induction false} SentinelAtBottom(s: seq<StructItem>, m: nat)
    requires NoPanic(s)
    requires m < Depth(s)
    ensures OpenRow(s, m).Some? <==> m < Depth(s) - 1
    decreases |s|
  {
    if s != [] {
      var init := s[..|s| - 1];
      NoPanicPrefix(s, |s| - 1);
      match s[|s| - 1]
      case EndNode => SentinelAtBottom(init, m + 1);
      case Property(_, _) =>
        assert s[..|s| - 1] == init;
        SentinelAtBottom(init, m);
      case BeginNode(_) =>
        assert s[..|s| - 1] == init;
        if m > 0 {
          SentinelAtBottom(init, m - 1);
        }
    }
  }

  /** `Stack(p)` is the parents vector after the items `p`: bottom first,
      as many entries as the stack holds, each the row of an open node. */
  function Stack(p: seq<StructItem>): (stack: seq<Option<nat>>)
    ensures |stack| == if Depth(p) < 0 then 0 else Depth(p)
    ensures forall j :: 0 <= j < |stack| ==> stack[j] == OpenRow(p, |stack| - 1 - j)
  {
    var n := if Depth(p) < 0 then 0 else Depth(p);
    seq(n, j requires 0 <= j < n => OpenRow(p, n - 1 - j))
  }

  /** Once the items are balanced again the stack is back to the lone
      sentinel it started with. */
  lemma BalancedLeavesSentinel(s: seq<StructItem>)
    requires NoPanic(s) && Depth(s) == 1
    ensures Stack(s) == [None]
  {
    SentinelAtBottom(s, 0);
  }

  /** The reference definition unfolded at the end of the items. */
  lemma Snoc(s: seq<StructItem>, item: StructItem, cls: Classifiers)
    ensures Expected(s + [item], cls) == Expected(s, cls) + NewRows(s, item, cls)
    ensures Rows(s + [item]) == Rows(s) + |NewRows(s, item, cls)|
    ensures Depth(s + [item]) == Depth(s) + (if item.BeginNode? then 1 else if item.EndNode? then -1 else 0)
    ensures OpenRow(s + [item], 0) ==
              match item
              case EndNode => OpenRow(s, 1)
              case Property(_, _) => OpenRow(s, 0)
              case BeginNode(_) => Some(Rows(s))
  {
    assert (s + [item])[..|s|] == s;
  }

  /** The rows of the example blob before its three closing `EndNode`s. */
  lemma ExampleTreeOpen(cls: Classifiers)
    requires cls.valueStr([0x41, 0]) == Some("A")
    ensures var s := [BeginNode(""), Property("model", [0x41, 0]), BeginNode("cpus"), BeginNode("cpu@0")];
            Expected(s, cls) == [Row(None, Some(""), None),
                                 Row(Some(0), Some("model"), Some("A")),
                                 Row(Some(0), Some("cpus"), None),
                                 Row(Some(2), Some("cpu@0"), None)]
  {
    var s0: seq<StructItem> := [];
    var s1 := s0 + [BeginNode("")];
    Snoc(s0, BeginNode(""), cls);
    var s2 := s1 + [Property("model", [0x41, 0])];
    Snoc(s1, Property("model", [0x41, 0]), cls);
    var s3 := s2 + [BeginNode("cpus")];
    Snoc(s2, BeginNode("cpus"), cls);
    var s4 := s3 + [BeginNode("cpu@0")];
    Snoc(s3, BeginNode("cpu@0"), cls);
    assert s4 == [BeginNode(""), Property("model", [0x41, 0]), BeginNode("cpus"), BeginNode("cpu@0")];
  }

  /** A small blob: the root, one property, and a `cpus` node holding
      `cpu@0`. Rows come out in document order, each under its node. */
  lemma ExampleTree(cls: Classifiers)
    requires cls.valueStr([0x41, 0]) == Some("A")
    ensures var s := [BeginNode(""), Property("model", [0x41, 0]), BeginNode("cpus"),
                      BeginNode("cpu@0"), EndNode, EndNode, EndNode];
            Expected(s, cls) == [Row(None, Some(""), None),
                                 Row(Some(0), Some("model"), Some("A")),
                                 Row(Some(0), Some("cpus"), None),
                                 Row(Some(2), Some("cpu@0"), None)]
  {
    var s4 := [BeginNode(""), Property("model", [0x41, 0]), BeginNode("cpus"), BeginNode("cpu@0")];
    ExampleTreeOpen(cls);
    var s5 := s4 + [EndNode];
    Snoc(s4, EndNode, cls);
    var s6 := s5 + [EndNode];
    Snoc(s5, EndNode, cls);
    var s7 := s6 + [EndNode];
    Snoc(s6, EndNode, cls);
    assert s7 == [BeginNode(""), Property("model", [0x41, 0]), BeginNode("cpus"),
                  BeginNode("cpu@0"), EndNode, EndNode, EndNode];
  }

  /** A row-creating item panics once the sentinel has been popped, that is
      after one more `EndNode` than `BeginNode`s: here a property that follows
      a second `EndNode` after the root. */
  lemma ExampleStrayProperty()
    ensures !NoPanic([BeginNode(""), EndNode, EndNode, Property("x", [])])
  {
    var cls := Classifiers(_ => None, _ => None);
    var s0: seq<StructItem> := [];
    Snoc(s0, BeginNode(""), cls);
    Snoc(s0 + [BeginNode("")], EndNode, cls);
    Snoc(s0 + [BeginNode("")] + [EndNode], EndNode, cls);
    var s := [BeginNode(""), EndNode, EndNode, Property("x", [])];
    assert s[..3] == s0 + [BeginNode("")] + [EndNode] + [EndNode];
  }

  /** A property right after the root node has been closed does not panic:
      the stack is back to the sentinel, so it becomes a second top-level
      row. */
  lemma ExamplePropertyAfterRoot(cls: Classifiers)
    ensures var s := [BeginNode(""), EndNode, Property("x", [])];
            NoPanic(s) && |Expected(s, cls)| == 2 && Expected(s, cls)[1].parent == None
  {
    var s0: seq<StructItem> := [];
    var s1 := s0 + [BeginNode("")];
    Snoc(s0, BeginNode(""), cls);
    var s2 := s1 + [EndNode];
    Snoc(s1, EndNode, cls);
    var s3 := s2 + [Property("x", [])];
    Snoc(s2, Property("x", []), cls);
    assert s3 == [BeginNode(""), EndNode, Property("x", [])];
    assert s3[..0] == [] && s3[..1] == s1 && s3[..2] == s2;
  }

  // ---------------------------------------------------------------------
  // The loader

  /** One pass of the `while let` body: the `match` on one item. `ok` is
      false when `parents.last().unwrap()` panics, which happens exactly when
      a row-creating item meets an empty stack; the store is then untouched. */
  method LoadItem(model: TreeStore, parents: seq<Option<nat>>, ghost p: seq<StructItem>,
                  item: StructItem, cls: Classifiers)
    returns (ok: bool, parents': seq<Option<nat>>)
    requires model.Valid() && model.rows == Expected(p, cls)
    requires NoPanic(p) && parents == Stack(p)
    modifies model
    ensures model.Valid()
    ensures ok <==> !CreatesRow(item) || Depth(p) >= 1
    ensures ok ==> && NoPanic(p + [item])
                   && model.rows == Expected(p + [item], cls)
                   && parents' == Stack(p + [item])
    ensures !ok ==> model.rows == old(model.rows)
  {
    ok := true;
    parents' := parents;
    match item {
      case BeginNode(name) =>
        if |parents| == 0 {
          return false, parents;
        }
        var top := parents[|parents| - 1];
        if top.Some? {
          OpenRowIsNodeRow(p, 0, cls);
        }
        assert top == OpenRow(p, 0);
        var iter := model.Append(top);
        model.Set(iter, NameColumn, name);
        assert model.rows == Expected(p, cls) + [Row(top, Some(name), None)];
        BeginNodeStep(p, name, cls);
        NoPanicExtend(p, item);
        parents' := parents + [Some(iter)];
      case Property(name, value) =>
        if |parents| == 0 {
          return false, parents;
        }
        var top := parents[|parents| - 1];
        if top.Some? {
          OpenRowIsNodeRow(p, 0, cls);
        }
        assert top == OpenRow(p, 0);
        var iter := model.Append(top);
        var valueTxt := PropertyText(cls, value);
        model.Set(iter, NameColumn, name);
        model.Set(iter, ValueColumn, valueTxt);
        assert model.rows == Expected(p, cls) + [Row(top, Some(name), Some(valueTxt))];
        PropertyStep(p, name, value, cls);
        NoPanicExtend(p, item);
      case EndNode =>
        if |parents| > 0 {
          parents' := parents[..|parents| - 1];
        }
        EndNodeStep(p, cls);
        NoPanicExtend(p, item);
    }
  }

  /** `make_model` after the file has been read and the blob opened: clear
      the store, then feed it the items of `stream` until the first error. */
  method Load(model: TreeStore, stream: seq<Fetched>, cls: Classifiers) returns (outcome: Outcome)
    modifies model
    ensures model.Valid()
    ensures outcome.Completed? <==> NoPanic(Consumed(stream))
    ensures outcome.Completed? ==> model.rows == Expected(Consumed(stream), cls)
    ensures outcome.Panicked? ==>
              var c := Consumed(stream);
              && outcome.at < |c|
              && NoPanic(c[..outcome.at])
              && CreatesRow(c[outcome.at])
              && Depth(c[..outcome.at]) <= 0
              && model.rows == Expected(c[..outcome.at], cls)
  {
    model.Clear();
    var parents: seq<Option<nat>> := [None];
    ghost var p: seq<StructItem> := [];
    var i := 0;
    while i < |stream| && stream[i].Ok?
      invariant 0 <= i <= |stream|
      invariant |p| == i && forall j :: 0 <= j < i ==> stream[j] == Ok(p[j])
      invariant NoPanic(p)
      invariant model.Valid() && model.rows == Expected(p, cls)
      invariant parents == Stack(p)
    {
      var item := stream[i].item;
      var ok;
      ok, parents := LoadItem(model, parents, p, item, cls);
      if !ok {
        ConsumedExtends(stream, p + [item]);
        assert Consumed(stream)[..i] == p;
        return Panicked(i);
      }
      p := p + [item];
      i := i + 1;
    }
    ConsumedExactly(stream, p);
    return Completed;
  }
}
