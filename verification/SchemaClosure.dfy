/** The loops of scripts/fetch_models.go as they run, and what they return. */
module SchemaClosure {
  import opened Common
  import opened SchemaGraph
  import opened SchemaVisits
  import opened SchemaTermination

  // ---------------------------------------------------------------------
  // The code
  // ---------------------------------------------------------------------

  /** The code keeps a stack of entries as two stacks in step. */
  ghost predicate InStep(stack: seq<string>, stack2: seq<Proxy>, entries: seq<Entry>) {
    && |stack| == |stack2| == |entries|
    && forall i :: 0 <= i < |entries| ==> entries[i] == (stack[i], stack2[i])
  }

  method ExtractProperty(defs: Definitions, prop: Property, found: seq<string>,
                         stack: seq<string>, stack2: seq<Proxy>, ghost entries: seq<Entry>)
    returns (found': seq<string>, stack': seq<string>, stack2': seq<Proxy>)
    requires InStep(stack, stack2, entries)
    ensures found' == found + PropNames(defs, prop)
    ensures InStep(stack', stack2', entries + PropEntries(defs, prop))
  {
    found', stack', stack2' := found, stack + [prop.key], stack2 + [prop.value];
    if prop.value.Ref? {
      found' := found' + [prop.value.name];
      stack', stack2' := stack' + [prop.value.name], stack2' + [prop.value];
    }
    var items := SchemaOf(defs, prop.value).items;
    if items.Some? {
      if items.value.Ref? {
        found' := found' + [items.value.name];
        stack', stack2' := stack' + [items.value.name], stack2' + [items.value];
      }
    }
  }

  lemma Regroup<T>(a: seq<T>, b: seq<T>, c: seq<T>)
    ensures a + b + c == a + (b + c)
  {
  }

  method ExtractProperties(defs: Definitions, props: seq<Property>, found: seq<string>,
                           stack: seq<string>, stack2: seq<Proxy>, ghost entries: seq<Entry>)
    returns (found': seq<string>, stack': seq<string>, stack2': seq<Proxy>)
    requires InStep(stack, stack2, entries)
    ensures found' == found + PropsNames(defs, props, |props|)
    ensures InStep(stack', stack2', entries + PropsEntries(defs, props, |props|))
  {
    found', stack', stack2' := found, stack, stack2;
    for i := 0 to |props|
      invariant found' == found + PropsNames(defs, props, i)
      invariant InStep(stack', stack2', entries + PropsEntries(defs, props, i))
    {
      ghost var names, pushed := PropsNames(defs, props, i), PropsEntries(defs, props, i);
      found', stack', stack2' := ExtractProperty(defs, props[i], found', stack', stack2', entries + pushed);
      Regroup(found, names, PropNames(defs, props[i]));
      Regroup(entries, pushed, PropEntries(defs, props[i]));
    }
  }

  method ExtractOwnItems(model: string, items: Option<Proxy>, found: seq<string>,
                         stack: seq<string>, stack2: seq<Proxy>, ghost entries: seq<Entry>)
    returns (found': seq<string>, stack': seq<string>, stack2': seq<Proxy>)
    requires InStep(stack, stack2, entries)
    ensures found' == found + if items.Some? then RefName(items.value) else []
    ensures InStep(stack', stack2', entries + OwnItemsEntries(model, items))
  {
    found', stack', stack2' := found, stack, stack2;
    if items.Some? {
      stack', stack2' := stack' + [model + "Items"], stack2' + [items.value];
      if items.value.Ref? {
        found' := found' + [items.value.name];
        stack', stack2' := stack' + [items.value.name], stack2' + [items.value];
      }
    }
  }

  /** The code walks the properties twice, once for each way it reaches the same ordered map. */
  method ExtractFields(defs: Definitions, currentModel: string, def: Proxy, found: seq<string>,
                       stack: seq<string>, stack2: seq<Proxy>, ghost entries: seq<Entry>)
    returns (found': seq<string>, stack': seq<string>, stack2': seq<Proxy>)
    requires InStep(stack, stack2, entries)
    ensures found' == found + FieldNames(defs, def)
    ensures InStep(stack', stack2', entries + FieldEntries(defs, currentModel, def))
  {
    var schema := SchemaOf(defs, def);
    ghost var props := PropsEntries(defs, schema.props, |schema.props|);
    ghost var names := PropsNames(defs, schema.props, |schema.props|);
    found', stack', stack2' := ExtractProperties(defs, schema.props, found, stack, stack2, entries);
    found', stack', stack2' := ExtractProperties(defs, schema.props, found', stack', stack2', entries + props);
    found', stack', stack2' :=
      ExtractOwnItems(currentModel, schema.items, found', stack', stack2', entries + props + props);
    Regroup(found, names, names);
    Regroup(found, names + names, ItemsNames(defs, def));
    Regroup(entries, props, props);
    Regroup(entries, props + props, OwnItemsEntries(currentModel, schema.items));
  }

  /** The loop invariant. */
  ghost predicate LoopOk(defs: Definitions, start: string, p: Proxy, keys: set<string>, visits: seq<Visit>, w: Work) {
    && DocumentWithin(defs, keys, DocumentRefs(defs, p))
    && RecordOk(defs, Visit(start, SchemaOf(defs, p)), visits, w)
    && StackWithin(keys, DocumentRefs(defs, p), w.stack)
    && (forall n :: n in w.found ==> n in DocumentRefs(defs, p))
  }

  lemma RoundKeepsLoopOk(defs: Definitions, start: string, p: Proxy, keys: set<string>, visits: seq<Visit>, w: Work)
    returns (more: seq<Visit>)
    requires ItemsChainsEnd(defs) && LoopOk(defs, start, p, keys, visits, w) && w.stack != []
    ensures LoopOk(defs, start, p, keys, more, Round(defs, w))
  {
    more := RoundKeepsRecord(defs, Visit(start, SchemaOf(defs, p)), visits, w);
    RoundStaysWithin(defs, keys, DocumentRefs(defs, p), w);
  }

  /**
   The result of an exploration: all models reachable from the start, closed under
   direct references, property keys followed too, and nothing unreferenced.
   */
  ghost predicate Complete(defs: Definitions, start: string, p: Proxy, found: seq<string>) {
    && (exists visits :: Explored(defs, Visit(start, SchemaOf(defs, p)), visits, found))
    && (forall path :: RefPath(defs, path) && path[0] == start ==> path[|path| - 1] in found)
    && FollowsNames(defs, start, found)
    && (forall a, b :: a in found && DirectRef(defs, a, b) ==> b in found)
    && (forall n :: n in found ==> n in DocumentRefs(defs, p))
  }

  lemma LoopOkIsComplete(defs: Definitions, start: string, p: Proxy, keys: set<string>, visits: seq<Visit>, w: Work)
    requires LoopOk(defs, start, p, keys, visits, w) && w.stack == []
    ensures Complete(defs, start, p, w.found)
  {
    var first := Visit(start, SchemaOf(defs, p));
    EmptyStackIsExplored(defs, first, visits, w);
    ExploredFollows(defs, first, visits, w.found);
    forall path | RefPath(defs, path) && path[0] == start ensures path[|path| - 1] in w.found {
      FollowingIsComplete(defs, start, w.found, path);
    }
    forall a, b | a in w.found && DirectRef(defs, a, b) ensures b in w.found {
      FoundIsClosed(defs, first, visits, w.found, a, b);
    }
  }

  /** The rest of a pass for a model that was not visited before. */
  method Expand(defs: Definitions, currentModel: string, proxy: Proxy, found: seq<string>,
                stack: seq<string>, stack2: seq<Proxy>, ghost rest: seq<Entry>)
    returns (found': seq<string>, stack': seq<string>, stack2': seq<Proxy>)
    requires InStep(stack, stack2, rest)
    ensures found' == found + FieldNames(defs, proxy) + FieldNames(defs, Again(defs, currentModel))
    ensures InStep(stack', stack2', rest + FieldEntries(defs, currentModel, proxy)
                                    + FieldEntries(defs, currentModel, Again(defs, currentModel)))
  {
    found', stack', stack2' := ExtractFields(defs, currentModel, proxy, found, stack, stack2, rest);
    if currentModel in defs {
      ghost var entries := rest + FieldEntries(defs, currentModel, proxy);
      var def := Inline(defs[currentModel]);
      found', stack', stack2' := ExtractFields(defs, currentModel, def, found', stack', stack2', entries);
    } else {
      NothingToExtract(defs, currentModel);
    }
  }

  /** One pass through the loop body. */
  method OneRound(defs: Definitions, visited: map<string, bool>, found: seq<string>,
                  stack: seq<string>, stack2: seq<Proxy>, ghost w: Work)
    returns (visited': map<string, bool>, found': seq<string>, stack': seq<string>, stack2': seq<Proxy>)
    requires w.visited == visited.Keys && w.found == found && InStep(stack, stack2, w.stack) && stack != []
    ensures var w' := Round(defs, w);
            w'.visited == visited'.Keys && w'.found == found' && InStep(stack', stack2', w'.stack)
  {
    visited', found' := visited, found;
    var currentModel, def := stack[|stack| - 1], stack2[|stack2| - 1];
    stack', stack2' := stack[..|stack| - 1], stack2[..|stack2| - 1];
    assert w.stack[|w.stack| - 1] == (currentModel, def);
    if currentModel in visited {
      return;
    }
    visited' := visited[currentModel := true];
    assert visited'.Keys == w.visited + {currentModel};
    found', stack', stack2' := Expand(defs, currentModel, def, found', stack', stack2', w.stack[..|w.stack| - 1]);
  }

  /**
   Terminates on every document whose array items chains end, cyclic object
   references included, and finds every model reachable from the start.
   */
  method FetchDependentModels(defs: Definitions, modelName: string, proxy: Proxy)
    returns (dependentModels: seq<string>)
    requires ItemsChainsEnd(defs)
    ensures Complete(defs, modelName, proxy, dependentModels)
  {
    dependentModels := [];
    var stack, stack2 := [modelName], [proxy];
    var visited: map<string, bool> := map[];
    ghost var keys := UniverseExists(defs, modelName, proxy);
    ghost var w := Work({}, [], [(modelName, proxy)]);
    ghost var visits: seq<Visit> := [];
    EmptyRecord(defs, modelName, proxy);
    while |stack| > 0
      invariant w.visited == visited.Keys && w.found == dependentModels && InStep(stack, stack2, w.stack)
      invariant LoopOk(defs, modelName, proxy, keys, visits, w)
      decreases |keys - w.visited|, Weight(defs, keys, w.stack)
    {
      visits := RoundKeepsLoopOk(defs, modelName, proxy, keys, visits, w);
      RoundDecreases(defs, keys, DocumentRefs(defs, proxy), w);
      visited, dependentModels, stack, stack2 := OneRound(defs, visited, dependentModels, stack, stack2, w);
      w := Round(defs, w);
    }
    LoopOkIsComplete(defs, modelName, proxy, keys, visits, w);
  }

  // ---------------------------------------------------------------------
  // The outer loop and the output
  // ---------------------------------------------------------------------

  ghost predicate ClosedUnderRefs(defs: Definitions, list: seq<string>) {
    forall a, b :: a in list && DirectRef(defs, a, b) ==> b in list
  }

  lemma SchemaRefsAreDocumentRefs(defs: Definitions, m: string)
    requires m in defs
    ensures DocumentRefs(defs, Inline(defs[m])) == DefinitionRefs(defs)
  {
    forall k | k in RefsOf(Inline(defs[m])) ensures k in DefinitionRefs(defs) {
      assert k in SchemaRefsOf(defs[m]);
    }
  }

  /** Some exploration from m finds only what is in the result. */
  ghost predicate Covers(defs: Definitions, m: string, result: seq<string>)
    requires m in defs
  {
    exists visits, found :: Explored(defs, Visit(m, defs[m]), visits, found) && Contained(found, result)
  }

  ghost predicate Contained(found: seq<string>, result: seq<string>) {
    forall n :: n in found ==> n in result
  }

  ghost predicate StartsAtModel(defs: Definitions, visits: seq<Visit>) {
    visits != [] && visits[0].name in defs && visits[0].schema == defs[visits[0].name]
  }

  /** A chain of visits from a model of the list, each led to by an earlier one, finds n. */
  ghost predicate Traced(defs: Definitions, list: seq<string>, n: string) {
    exists visits: seq<Visit> :: TracedBy(defs, list, visits, n)
  }

  ghost predicate TracedBy(defs: Definitions, list: seq<string>, visits: seq<Visit>, n: string) {
    && StartsAtModel(defs, visits) && visits[0].name in list
    && Grounded(defs, visits[0], visits) && FoundBy(defs, visits, n)
  }

  /** Visits from a model that visits have found continue them. */
  lemma VisitsContinue(defs: Definitions, visits: seq<Visit>, key: string, more: seq<Visit>)
    requires visits != [] && Grounded(defs, visits[0], visits) && FoundBy(defs, visits, key) && key in defs
    requires Grounded(defs, Visit(key, defs[key]), more)
    ensures Grounded(defs, visits[0], visits + more)
  {
    var all := visits + more;
    forall i | 0 < i < |all| ensures LedTo(defs, all[..i], all[i]) {
      if i < |visits| {
        assert all[..i] == visits[..i] && LedTo(defs, visits[..i], visits[i]);
      } else if i == |visits| {
        var j :| 0 <= j < |visits| && Finds(defs, visits[j], key);
        assert LeadsTo(defs, visits[j], Visit(key, SchemaOf(defs, Ref(key))));
        assert all[..i] == visits && all[i] == more[0];
      } else {
        var k := i - |visits|;
        assert LedTo(defs, more[..k], more[k]);
        var j :| 0 <= j < k && LeadsTo(defs, more[..k][j], more[k]);
        assert all[..i][|visits| + j] == more[j];
      }
    }
  }

  lemma FoundByEither(defs: Definitions, visits: seq<Visit>, more: seq<Visit>, n: string)
    requires FoundBy(defs, more, n)
    ensures FoundBy(defs, visits + more, n)
  {
    var i :| 0 <= i < |more| && Finds(defs, more[i], n);
    assert (visits + more)[|visits| + i] == more[i];
  }

  /** What an exploration from a model of the list or from a traced one finds is traced. */
  lemma FoundIsTraced(defs: Definitions, list: seq<string>, key: string, more: seq<Visit>, found: seq<string>,
                      n: string)
    requires key in defs && (key in list || Traced(defs, list, key))
    requires Explored(defs, Visit(key, defs[key]), more, found) && n in found
    ensures Traced(defs, list, n)
  {
    if key in list {
      assert TracedBy(defs, list, more, n);
    } else {
      var visits: seq<Visit> :| TracedBy(defs, list, visits, key);
      VisitsContinue(defs, visits, key, more);
      FoundByEither(defs, visits, more, n);
      assert TracedBy(defs, list, visits + more, n);
    }
  }

  /** A list closed off: it contains the input, all that its models lead to, and nothing else. */
  ghost predicate Collected(defs: Definitions, list: seq<string>, result: seq<string>) {
    && Contained(list, result)
    && (forall m :: m in list && m in defs ==> Covers(defs, m, result))
    && (forall n :: n in result ==> n in list || Traced(defs, list, n))
  }

  /** The same while the models of rest are still to come. */
  ghost predicate CollectedBefore(defs: Definitions, rest: seq<string>, list: seq<string>, result: seq<string>) {
    && (forall m :: m in list && m in defs ==> m in rest || Covers(defs, m, result))
    && (forall n :: n in result ==> n in list || Traced(defs, list, n))
  }

  lemma StaysCovered(defs: Definitions, m: string, list: seq<string>, more: seq<string>, key: string,
                     visits: seq<Visit>)
    requires m in defs && key in defs && Explored(defs, Visit(key, defs[key]), visits, more)
    ensures m == key || Covers(defs, m, list) ==> Covers(defs, m, list + more)
  {
    if m == key {
      assert Contained(more, list + more);
    } else if Covers(defs, m, list) {
      var before: seq<Visit>, found: seq<string> :|
        Explored(defs, Visit(m, defs[m]), before, found) && Contained(found, list);
      assert Contained(found, list + more);
    }
  }

  lemma CollectsOne(defs: Definitions, key: string, rest: seq<string>, list: seq<string>, result: seq<string>,
                    more: seq<string>)
    requires key in defs && key in result && CollectedBefore(defs, [key] + rest, list, result)
    requires Complete(defs, key, Inline(defs[key]), more)
    ensures CollectedBefore(defs, rest, list, result + more)
  {
    var visits: seq<Visit> :| Explored(defs, Visit(key, defs[key]), visits, more);
    forall n | n in more ensures Traced(defs, list, n) {
      FoundIsTraced(defs, list, key, visits, more, n);
    }
    forall m | m in list && m in defs ensures m in rest || Covers(defs, m, result + more) {
      StaysCovered(defs, m, result, more, key, visits);
    }
  }

  /** One pass over the definitions, in whatever order, although the list grows while it is tested. */
  method AppendNestedModels(defs: Definitions, order: seq<string>, modelsList: seq<string>)
    returns (list: seq<string>)
    requires ItemsChainsEnd(defs)
    requires forall m :: m in order <==> m in defs
    ensures modelsList <= list && ClosedUnderRefs(defs, list)
    ensures forall n :: n in list ==> n in modelsList || n in DefinitionRefs(defs)
    ensures Collected(defs, modelsList, list)
  {
    list := modelsList;
    for i := 0 to |order|
      invariant modelsList <= list
      invariant forall a, b :: a in list && DirectRef(defs, a, b) ==> b in list || a in order[i..]
      invariant forall n :: n in list ==> n in modelsList || n in DefinitionRefs(defs)
      invariant CollectedBefore(defs, order[i..], modelsList, list)
    {
      var key := order[i];
      assert order[i..] == [key] + order[i + 1..];
      if key in list {
        var dependentModels := FetchDependentModels(defs, key, Inline(defs[key]));
        SchemaRefsAreDocumentRefs(defs, key);
        forall b | DirectRef(defs, key, b) ensures b in dependentModels {
          assert RefPath(defs, [key, b]);
          assert [key, b][|[key, b]| - 1] == b && [key, b][0] == key;
        }
        CollectsOne(defs, key, order[i + 1..], modelsList, list, dependentModels);
        list := list + dependentModels;
      }
    }
  }

  /** Go's order on strings. */
  predicate Less(a: string, b: string) {
    b != "" && (a == "" || a[0] < b[0] || (a[0] == b[0] && Less(a[1..], b[1..])))
  }

  /** A string comes before another as a proper prefix or with the smaller character where they first differ. */
  lemma {:induction false} LessIsLexicographic(a: string, b: string)
    ensures Less(a, b) <==>
            exists k :: 0 <= k <= |a| && k < |b| && a[..k] == b[..k] && (k == |a| || a[k] < b[k])
  {
    if a != "" && b != "" && a[0] == b[0] {
      LessIsLexicographic(a[1..], b[1..]);
      if Less(a, b) {
        var k :| 0 <= k <= |a[1..]| && k < |b[1..]| && a[1..][..k] == b[1..][..k]
                 && (k == |a[1..]| || a[1..][k] < b[1..][k]);
        assert a[..k + 1] == [a[0]] + a[1..][..k] && b[..k + 1] == [b[0]] + b[1..][..k];
      }
      forall k | 0 <= k <= |a| && k < |b| && a[..k] == b[..k] && (k == |a| || a[k] < b[k]) ensures Less(a, b) {
        assert k > 0;
        assert a[1..][..k - 1] == a[..k][1..] == b[..k][1..] == b[1..][..k - 1];
      }
    } else if Less(a, b) {
      assert a[..0] == b[..0];
    } else {
      forall k | 0 < k <= |a| && k < |b| ensures a[..k] != b[..k] {
        assert a[..k][0] == a[0] && b[..k][0] == b[0];
      }
    }
  }

  lemma {:induction false} LessIsTotal(a: string, b: string)
    requires a != b && !Less(a, b)
    ensures Less(b, a)
  {
    if a != "" && b != "" && a[0] == b[0] {
      assert a == [a[0]] + a[1..] && b == [b[0]] + b[1..];
      LessIsTotal(a[1..], b[1..]);
    }
  }

  lemma {:induction false} LessIsTransitive(a: string, b: string, c: string)
    requires Less(a, b) && Less(b, c)
    ensures Less(a, c)
  {
    if a != "" && a[0] == b[0] == c[0] { LessIsTransitive(a[1..], b[1..], c[1..]); }
  }

  /** Sorted and free of duplicates. */
  ghost predicate Ascending(s: seq<string>) {
    forall i, j :: 0 <= i < j < |s| ==> Less(s[i], s[j])
  }

  function Insert(x: string, s: seq<string>): seq<string> {
    if s == [] || Less(x, s[0]) then [x] + s else [s[0]] + Insert(x, s[1..])
  }

  lemma {:induction false} InsertAscends(x: string, s: seq<string>)
    requires Ascending(s) && x !in s
    ensures Ascending(Insert(x, s))
    ensures forall y :: y in Insert(x, s) <==> y == x || y in s
  {
    if s == [] {
    } else if Less(x, s[0]) {
      forall j | 0 <= j < |s| ensures Less(x, s[j]) {
        if j > 0 { LessIsTransitive(x, s[0], s[j]); }
      }
    } else {
      assert s == [s[0]] + s[1..];
      LessIsTotal(x, s[0]);
      InsertAscends(x, s[1..]);
      var t := Insert(x, s[1..]);
      forall j | 0 <= j < |t| ensures Less(s[0], t[j]) {
        assert t[j] in t;
        if t[j] != x {
          var k :| 0 <= k < |s[1..]| && s[1..][k] == t[j];
          assert s[k + 1] == t[j];
        }
      }
    }
  }

  function SortStrings(s: seq<string>): seq<string> {
    if s == [] then [] else Insert(s[0], SortStrings(s[1..]))
  }

  lemma {:induction false} SortAscends(s: seq<string>)
    requires forall i, j :: 0 <= i < j < |s| ==> s[i] != s[j]
    ensures Ascending(SortStrings(s))
    ensures forall y :: y in SortStrings(s) <==> y in s
  {
    if s != [] {
      assert s == [s[0]] + s[1..];
      SortAscends(s[1..]);
      InsertAscends(s[0], SortStrings(s[1..]));
    }
  }

  method RemoveDuplicates(slice: seq<string>) returns (res: seq<string>)
    ensures Ascending(res)
    ensures forall n :: n in res <==> n in slice
  {
    var unique: set<string> := {};
    for i := 0 to |slice|
      invariant forall n :: n in unique <==> n in slice[..i]
    {
      unique := unique + {slice[i]};
    }
    assert slice[..|slice|] == slice;
    res := [];
    ghost var all := unique;
    while unique != {}
      invariant forall n :: n in all <==> n in unique || n in res
      invariant forall n :: n in res ==> n !in unique
      invariant forall i, j :: 0 <= i < j < |res| ==> res[i] != res[j]
      decreases |unique|
    {
      var key :| key in unique;
      unique := unique - {key};
      res := res + [key];
    }
    SortAscends(res);
    res := SortStrings(res);
  }

  /** What is saved: sorted, free of duplicates, containing the input, closed under references. */
  method CollectModels(defs: Definitions, order: seq<string>, modelsList: seq<string>)
    returns (saved: seq<string>)
    requires ItemsChainsEnd(defs)
    requires forall m :: m in order <==> m in defs
    ensures Ascending(saved) && ClosedUnderRefs(defs, saved)
    ensures forall n :: n in modelsList ==> n in saved
    ensures forall n :: n in saved ==> n in modelsList || n in DefinitionRefs(defs)
    ensures Collected(defs, modelsList, saved)
    ensures forall path :: RefPath(defs, path) && path[0] in modelsList ==> path[|path| - 1] in saved
  {
    var list := AppendNestedModels(defs, order, modelsList);
    saved := RemoveDuplicates(list);
    forall m | m in modelsList && m in defs ensures Covers(defs, m, saved) {
      var visits: seq<Visit>, found: seq<string> :|
        Explored(defs, Visit(m, defs[m]), visits, found) && Contained(found, list);
      assert Contained(found, saved);
    }
    forall path | RefPath(defs, path) && path[0] in modelsList ensures path[|path| - 1] in saved {
      ClosedListsFollowPaths(defs, saved, path);
    }
  }

  lemma {:induction false} ClosedListsFollowPaths(defs: Definitions, list: seq<string>, path: seq<string>)
    requires ClosedUnderRefs(defs, list) && RefPath(defs, path) && path[0] in list
    ensures path[|path| - 1] in list
    decreases |path|
  {
    var n := |path|;
    assert DirectRef(defs, path[n - 2], path[n - 1]);
    if n > 2 { ClosedListsFollowPaths(defs, list, path[..n - 1]); }
  }
}
