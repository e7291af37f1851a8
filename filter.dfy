/** `signal_filter_func` (src/main.rs): whether one row of the store passes
    the search box's filter. It looks at the row's own name cell only. */
module Filter {
  import opened Options
  import opened Dtb
  import opened Store
  import opened MakeModel

  /** `q` occurs in `s` starting at position `i`. */
  predicate OccursAt(q: string, s: string, i: int) {
    0 <= i <= |s| - |q| && s[i..i + |q|] == q
  }

  /** `q` occurs in `s` as a contiguous run of characters. */
  ghost predicate IsSubstring(q: string, s: string) {
    exists i :: OccursAt(q, s, i)
  }

  /** A pattern occurs in a non-empty string when it is a prefix of it or
      occurs in its tail. */
  lemma SubstringCases(q: string, s: string)
    requires s != []
    ensures IsSubstring(q, s) <==> (|q| <= |s| && s[..|q|] == q) || IsSubstring(q, s[1..])
  {
    if IsSubstring(q, s) {
      var i :| OccursAt(q, s, i);
      if i > 0 {
        assert s[1..][i - 1..i - 1 + |q|] == s[i..i + |q|];
        assert OccursAt(q, s[1..], i - 1);
      } else {
        assert s[..|q|] == s[0..0 + |q|];
      }
    }
    if IsSubstring(q, s[1..]) {
      var i :| OccursAt(q, s[1..], i);
      assert s[i + 1..i + 1 + |q|] == s[1..][i..i + |q|];
      assert OccursAt(q, s, i + 1);
    }
    if |q| <= |s| && s[..|q|] == q {
      assert s[0..0 + |q|] == s[..|q|];
      assert OccursAt(q, s, 0);
    }
  }

  /** `str::contains` for a string pattern: compares characters exactly, so
      the match is case-sensitive. */
  function Contains(s: string, q: string): (found: bool)
    ensures found <==> IsSubstring(q, s)
    decreases |s|
  {
    if s == [] then
      assert IsSubstring(q, s) <==> q == [] by {
        if q == [] { assert OccursAt(q, s, 0); }
      }
      q == []
    else
      SubstringCases(q, s);
      (|q| <= |s| && s[..|q|] == q) || Contains(s[1..], q)
  }

  /** The visible-function of the tree model filter: a row without a name is
      shown; a named row is shown when the query is empty or its name
      contains the query. */
  function SignalFilter(model: TreeStore, iter: nat, filterTxt: string): (visible: bool)
    reads model
    requires iter < |model.rows|
    ensures model.rows[iter].name.None? ==> visible
    ensures filterTxt == [] ==> visible
    ensures model.rows[iter].name.Some? && filterTxt != [] ==>
              (visible <==> IsSubstring(filterTxt, model.rows[iter].name.value))
  {
    match model.rows[iter].name
    case Some(name) => filterTxt == [] || Contains(name, filterTxt)
    case None => true
  }

  /** The empty query is contained in every name, so the `is_empty` test
      in front of `contains` never changes the answer. */
  lemma EmptyQueryAlwaysContained(name: string)
    ensures Contains(name, [])
  {
    assert OccursAt([], name, 0);
  }

  /** The filter depends on the row's name and nothing else: two rows with
      the same name, in any stores, at any places in the tree, are shown or
      hidden together. */
  lemma FilterSeesOnlyTheName(a: TreeStore, i: nat, b: TreeStore, j: nat, filterTxt: string)
    requires i < |a.rows| && j < |b.rows|
    requires a.rows[i].name == b.rows[j].name
    ensures SignalFilter(a, i, filterTxt) == SignalFilter(b, j, filterTxt)
  {
  }

  /** Narrowing the query never shows more rows: a row visible under a query
      is visible under every substring of it. */
  lemma {:induction false} NarrowerQueryShowsLess(model: TreeStore, iter: nat, q: string, wider: string)
    requires iter < |model.rows|
    requires IsSubstring(q, wider)
    requires SignalFilter(model, iter, wider)
    ensures SignalFilter(model, iter, q)
  {
    if model.rows[iter].name.Some? && q != [] {
      var name := model.rows[iter].name.value;
      var i :| OccursAt(q, wider, i);
      var j :| OccursAt(wider, name, j);
      assert forall k :: 0 <= k < |wider| ==> name[j + k] == wider[k];
      assert forall k :: 0 <= k < |q| ==> name[j + i + k] == wider[i + k] == q[k];
      assert name[j + i..j + i + |q|] == q;
      assert OccursAt(q, name, j + i);
    }
  }

  /** Every row `make_model` loads has a name, so on a loaded store the
      "no name" case never arises: a row is shown exactly when the query is
      empty or occurs in its name, property rows included. */
  lemma FilterOnLoadedStore(model: TreeStore, iter: nat, filterTxt: string,
                            s: seq<StructItem>, cls: Classifiers)
    requires model.rows == Expected(s, cls)
    requires iter < |model.rows|
    ensures model.rows[iter].name.Some?
    ensures SignalFilter(model, iter, filterTxt) <==>
              filterTxt == [] || IsSubstring(filterTxt, model.rows[iter].name.value)
  {
    ExpectedIsForest(s, cls);
  }
}
