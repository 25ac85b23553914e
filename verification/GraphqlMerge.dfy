/**
 What field collection means. Spreading fragments and then grouping the fields by response
 key gives exactly what the single pass of `Collect` gives, and the groups are described
 without any reference to the order in which the pass meets them.
 */
module GraphqlMerge {
  import opened Results
  import opened GraphqlSyntax
  import opened GraphqlCollect

  /** The fields of a selection set, in document order, with every fragment spread in place. */
  function Inlined(doc: Document, typeName: string, selections: seq<Selection>, vars: Variables,
                   visiting: set<string>): Result<seq<FieldNode>, RequestError>
    decreases |doc.fragments.Keys - visiting|, selections
  {
    if selections == [] then Ok([])
    else
      var first :- InlinedOne(doc, typeName, selections[0], vars, visiting);
      var rest :- Inlined(doc, typeName, selections[1..], vars, visiting);
      Ok(first + rest)
  }

  function InlinedOne(doc: Document, typeName: string, selection: Selection, vars: Variables,
                      visiting: set<string>): Result<seq<FieldNode>, RequestError>
    decreases |doc.fragments.Keys - visiting|, selection
  {
    var stays :- Included(selection.directives, vars);
    if !stays then Ok([])
    else match selection
      case Field(_, _, _, _, _) => Ok([selection])
      case Spread(name, _) =>
        if name !in doc.fragments then Err(UnknownFragment(name))
        else if name in visiting then Err(FragmentCycle(name))
        else if doc.fragments[name].typeCondition != typeName then Ok([])
        else
          SubsetSmaller(doc.fragments.Keys - (visiting + {name}), doc.fragments.Keys - visiting);
          Inlined(doc, typeName, doc.fragments[name].selections, vars, visiting + {name})
      case Inline(condition, _, inner) =>
        if condition.Some? && condition.value != typeName then Ok([])
        else Inlined(doc, typeName, inner, vars, visiting)
  }

  /** Add fields one after another. */
  function Merge(fields: seq<FieldNode>, into: Into): Result<Into, RequestError> {
    if fields == [] then Ok(into)
    else
      var after :- AddField(into, fields[0]);
      Merge(fields[1..], after)
  }

  lemma {:induction false} MergeAppend(a: seq<FieldNode>, b: seq<FieldNode>, into: Into)
    ensures Merge(a + b, into) == match Merge(a, into)
                                  case Ok(after) => Merge(b, after)
                                  case Err(e) => Err(e)
  {
    if a == [] {
      assert a + b == b;
    } else {
      assert (a + b)[1..] == a[1..] + b;
      match AddField(into, a[0]) {
        case Ok(after) => MergeAppend(a[1..], b, after);
        case Err(_) =>
      }
    }
  }

  /** Spreading first and merging afterwards is the same as collecting in one pass. */
  lemma {:induction false} CollectIsMergeOfInlined(doc: Document, typeName: string, selections: seq<Selection>,
                                                   vars: Variables, into: Into, visiting: set<string>)
    ensures match Inlined(doc, typeName, selections, vars, visiting)
            case Ok(fields) => Collect(doc, typeName, selections, vars, into, visiting) == Merge(fields, into)
            case Err(_) => Collect(doc, typeName, selections, vars, into, visiting).Err?
    decreases |doc.fragments.Keys - visiting|, selections
  {
    if selections != [] {
      CollectOneIsMergeOfInlined(doc, typeName, selections[0], vars, into, visiting);
      var one := InlinedOne(doc, typeName, selections[0], vars, visiting);
      var after := CollectOne(doc, typeName, selections[0], vars, into, visiting);
      if one.Ok? && after.Ok? {
        CollectIsMergeOfInlined(doc, typeName, selections[1..], vars, after.value, visiting);
        var rest := Inlined(doc, typeName, selections[1..], vars, visiting);
        if rest.Ok? { MergeAppend(one.value, rest.value, into); }
      } else if one.Ok? {
        var rest := Inlined(doc, typeName, selections[1..], vars, visiting);
        if rest.Ok? { MergeAppend(one.value, rest.value, into); }
      }
    }
  }

  lemma {:induction false} CollectOneIsMergeOfInlined(doc: Document, typeName: string, selection: Selection,
                                                      vars: Variables, into: Into, visiting: set<string>)
    ensures match InlinedOne(doc, typeName, selection, vars, visiting)
            case Ok(fields) => CollectOne(doc, typeName, selection, vars, into, visiting) == Merge(fields, into)
            case Err(_) => CollectOne(doc, typeName, selection, vars, into, visiting).Err?
    decreases |doc.fragments.Keys - visiting|, selection
  {
    var stays := Included(selection.directives, vars);
    if stays.Ok? && stays.value {
      match selection
      case Field(_, _, _, _, _) =>
        var fields: seq<FieldNode> := [selection];
        assert Merge(fields[1..], into) == Ok(into);
        match AddField(into, selection) {
          case Ok(after) => assert Merge(fields[1..], after) == Ok(after);
          case Err(_) =>
        }
      case Spread(name, _) =>
        if name in doc.fragments && name !in visiting && doc.fragments[name].typeCondition == typeName {
          SubsetSmaller(doc.fragments.Keys - (visiting + {name}), doc.fragments.Keys - visiting);
          CollectIsMergeOfInlined(doc, typeName, doc.fragments[name].selections, vars, into, visiting + {name});
        }
      case Inline(condition, _, inner) =>
        if !(condition.Some? && condition.value != typeName) {
          CollectIsMergeOfInlined(doc, typeName, inner, vars, into, visiting);
        }
    }
  }

  // ---------------------------------------------------------------- the groups

  /** The response keys in order of first appearance. */
  function KeysInOrder(fields: seq<FieldNode>): (keys: seq<string>)
    ensures forall i, j | 0 <= i < j < |keys| :: keys[i] != keys[j]
  {
    if fields == [] then []
    else
      var keys, key := KeysInOrder(fields[..|fields| - 1]), fields[|fields| - 1].ResponseKey();
      if key in keys then keys else keys + [key]
  }

  /** The fields answered under `key`, in document order. */
  function Occurrences(fields: seq<FieldNode>, key: string): seq<FieldNode> {
    if fields == [] then []
    else
      var group, last := Occurrences(fields[..|fields| - 1], key), fields[|fields| - 1];
      if last.ResponseKey() == key then group + [last] else group
  }

  function AllSubselections(fields: seq<FieldNode>): seq<Selection> {
    if fields == [] then []
    else AllSubselections(fields[..|fields| - 1]) + fields[|fields| - 1].Subselections()
  }

  /** `e` stands for every field answered under `key`: the first of them, with all their subselections. */
  ghost predicate IsGroup(e: Collected, fields: seq<FieldNode>, key: string) {
    var group := Occurrences(fields, key);
    e.key == key && group != [] && e.node == group[0] && e.selections == AllSubselections(group)
  }

  ghost predicate GroupsOf(into: Into, fields: seq<FieldNode>) {
    var keys := KeysInOrder(fields);
    |into| == |keys| && forall i | 0 <= i < |into| :: IsGroup(into[i], fields, keys[i])
  }

  /** Fields answered under one key all select the same field. */
  ghost predicate NamesAgree(fields: seq<FieldNode>) {
    forall f, g | f in fields && g in fields && f.ResponseKey() == g.ResponseKey() :: f.name == g.name
  }

  lemma OccurrencesAppend(fields: seq<FieldNode>, f: FieldNode, key: string)
    ensures Occurrences(fields + [f], key) ==
            if f.ResponseKey() == key then Occurrences(fields, key) + [f] else Occurrences(fields, key)
  {
    assert (fields + [f])[..|fields|] == fields;
  }

  lemma KeysAppend(fields: seq<FieldNode>, f: FieldNode)
    ensures KeysInOrder(fields + [f]) ==
            if f.ResponseKey() in KeysInOrder(fields) then KeysInOrder(fields)
            else KeysInOrder(fields) + [f.ResponseKey()]
  {
    assert (fields + [f])[..|fields|] == fields;
  }

  lemma SubselectionsAppend(fields: seq<FieldNode>, f: FieldNode)
    ensures AllSubselections(fields + [f]) == AllSubselections(fields) + f.Subselections()
  {
    assert (fields + [f])[..|fields|] == fields;
  }

  lemma {:induction false} OccurrencesAreFields(fields: seq<FieldNode>, key: string)
    ensures forall f | f in Occurrences(fields, key) :: f in fields && f.ResponseKey() == key
    ensures forall f | f in fields && f.ResponseKey() == key :: f in Occurrences(fields, key)
    ensures key in KeysInOrder(fields) <==> Occurrences(fields, key) != []
  {
    if fields != [] {
      var n := |fields| - 1;
      OccurrencesAreFields(fields[..n], key);
      assert forall f | f in fields :: f in fields[..n] || f == fields[n];
    }
  }

  lemma GroupGrows(e: Collected, fields: seq<FieldNode>, f: FieldNode, key: string)
    requires IsGroup(e, fields, key)
    ensures IsGroup(if f.ResponseKey() == key then e.(selections := e.selections + f.Subselections()) else e,
                    fields + [f], key)
  {
    OccurrencesAppend(fields, f, key);
    SubselectionsAppend(Occurrences(fields, key), f);
  }

  lemma GroupOpens(fields: seq<FieldNode>, f: FieldNode)
    requires Occurrences(fields, f.ResponseKey()) == []
    ensures IsGroup(Collected(f.ResponseKey(), f, f.Subselections()), fields + [f], f.ResponseKey())
  {
    OccurrencesAppend(fields, f, f.ResponseKey());
    SubselectionsAppend([], f);
    assert [] + [f] == [f];
  }

  lemma GroupKeys(into: Into, fields: seq<FieldNode>, i: nat)
    requires GroupsOf(into, fields) && i < |into|
    ensures into[i].key == KeysInOrder(fields)[i]
  {
    assert IsGroup(into[i], fields, KeysInOrder(fields)[i]);
  }

  lemma JoinsGroup(into: Into, fields: seq<FieldNode>, f: FieldNode, i: nat)
    requires GroupsOf(into, fields) && i < |into| && into[i].key == f.ResponseKey()
    ensures GroupsOf(into[i := into[i].(selections := into[i].selections + f.Subselections())], fields + [f])
  {
    var keys := KeysInOrder(fields);
    var after := into[i := into[i].(selections := into[i].selections + f.Subselections())];
    GroupKeys(into, fields, i);
    KeysAppend(fields, f);
    forall j | 0 <= j < |into| ensures IsGroup(after[j], fields + [f], keys[j]) {
      GroupKeys(into, fields, j);
      GroupGrows(into[j], fields, f, keys[j]);
    }
  }

  lemma OpensGroup(into: Into, fields: seq<FieldNode>, f: FieldNode)
    requires GroupsOf(into, fields) && f.ResponseKey() !in KeysInOrder(fields)
    ensures GroupsOf(into + [Collected(f.ResponseKey(), f, f.Subselections())], fields + [f])
  {
    var keys := KeysInOrder(fields);
    KeysAppend(fields, f);
    OccurrencesAreFields(fields, f.ResponseKey());
    GroupOpens(fields, f);
    forall j | 0 <= j < |into| ensures IsGroup(into[j], fields + [f], keys[j]) {
      GroupGrows(into[j], fields, f, keys[j]);
    }
  }

  /** A field added under a key already present joins that group; otherwise it opens one. */
  lemma AddedToGroups(into: Into, fields: seq<FieldNode>, f: FieldNode)
    requires GroupsOf(into, fields)
    requires AddField(into, f).Ok?
    ensures GroupsOf(AddField(into, f).value, fields + [f])
  {
    var key, keys, i := f.ResponseKey(), KeysInOrder(fields), IndexOf(into, f.ResponseKey());
    if i == |into| {
      forall j | 0 <= j < |keys| ensures keys[j] != key { GroupKeys(into, fields, j); }
      OpensGroup(into, fields, f);
    } else {
      JoinsGroup(into, fields, f, i);
    }
  }

  lemma NamesAgreeAppend(fields: seq<FieldNode>, f: FieldNode)
    requires NamesAgree(fields)
    ensures NamesAgree(fields + [f]) <==>
            forall g | g in fields && g.ResponseKey() == f.ResponseKey() :: g.name == f.name
  {
    var more := fields + [f];
    assert f in more;
    assert forall g | g in fields :: g in more;
    assert forall g | g in more :: g in fields || g == f;
  }

  /** Adding a field fails exactly when its key already names a different field. */
  lemma AddFieldConflict(into: Into, fields: seq<FieldNode>, f: FieldNode)
    requires GroupsOf(into, fields) && NamesAgree(fields)
    ensures AddField(into, f).Ok? <==> NamesAgree(fields + [f])
  {
    var key, keys, i := f.ResponseKey(), KeysInOrder(fields), IndexOf(into, f.ResponseKey());
    NamesAgreeAppend(fields, f);
    OccurrencesAreFields(fields, key);
    if i < |into| {
      assert IsGroup(into[i], fields, keys[i]);
      var first := Occurrences(fields, key)[0];
      assert first in Occurrences(fields, key);
    } else {
      forall j | 0 <= j < |keys| ensures keys[j] != key {
        assert IsGroup(into[j], fields, keys[j]);
      }
      assert key !in keys;
    }
  }

  /** Merging succeeds exactly when equal keys name equal fields, and then yields the groups. */
  lemma {:induction false} MergeYieldsGroups(fields: seq<FieldNode>)
    ensures Merge(fields, []).Ok? <==> NamesAgree(fields)
    ensures Merge(fields, []).Ok? ==> GroupsOf(Merge(fields, []).value, fields)
  {
    if fields != [] {
      var n := |fields| - 1;
      var init, f := fields[..n], fields[n];
      assert fields == init + [f];
      MergeYieldsGroups(init);
      MergeAppend(init, [f], []);
      if Merge(init, []).Ok? {
        var into := Merge(init, []).value;
        AddFieldConflict(into, init, f);
        if AddField(into, f).Ok? {
          AddedToGroups(into, init, f);
          assert Merge([f][1..], AddField(into, f).value) == AddField(into, f);
        }
      } else {
        var g, h :| g in init && h in init && g.ResponseKey() == h.ResponseKey() && g.name != h.name;
        assert g in fields && h in fields;
      }
    }
  }

  /** Field collection, stated without its algorithm: spread the fragments, group by key. */
  lemma CollectedFieldsAreTheGroups(doc: Document, typeName: string, selections: seq<Selection>, vars: Variables)
    ensures var collected := Collect(doc, typeName, selections, vars, [], {});
            var fields := Inlined(doc, typeName, selections, vars, {});
            && (collected.Ok? <==> fields.Ok? && NamesAgree(fields.value))
            && (collected.Ok? ==> GroupsOf(collected.value, fields.value))
  {
    CollectIsMergeOfInlined(doc, typeName, selections, vars, [], {});
    var fields := Inlined(doc, typeName, selections, vars, {});
    if fields.Ok? { MergeYieldsGroups(fields.value); }
  }
}
