/** When the result of scripts/fetch_models.go is exactly what is reachable by references. */
module SchemaReach {
  import opened Common
  import opened SchemaGraph
  import opened SchemaVisits
  import opened SchemaClosure

  /** A path of direct references leads from the list to n. */
  ghost predicate Reached(defs: Definitions, list: seq<string>, n: string) {
    exists path :: RefPath(defs, path) && path[0] in list && path[|path| - 1] == n
  }

  lemma ReachedNext(defs: Definitions, list: seq<string>, m: string, n: string)
    requires (m in list || Reached(defs, list, m)) && DirectRef(defs, m, n)
    ensures Reached(defs, list, n)
  {
    if m in list {
      var path := [m, n];
      assert RefPath(defs, path) && path[|path| - 1] == n;
    } else {
      var path :| RefPath(defs, path) && path[0] in list && path[|path| - 1] == m;
      var longer := path + [n];
      forall i | 0 <= i < |longer| - 1 ensures DirectRef(defs, longer[i], longer[i + 1]) {
        if i < |path| - 1 { assert DirectRef(defs, path[i], path[i + 1]); }
      }
      assert RefPath(defs, longer) && longer[|longer| - 1] == n;
    }
  }

  /** Names walked to from the list: over references, property keys and invented names. */
  ghost predicate Walked(defs: Definitions, list: seq<string>, n: string) {
    exists path :: NamePath(defs, path) && path[0] in list && path[|path| - 1] == n
  }

  lemma WalkedStart(defs: Definitions, list: seq<string>, n: string)
    requires n in list
    ensures Walked(defs, list, n)
  {
    assert NamePath(defs, [n]) && [n][|[n]| - 1] == n;
  }

  lemma WalkedNext(defs: Definitions, list: seq<string>, m: string, n: string)
    requires Walked(defs, list, m) && NameStep(defs, m, n)
    ensures Walked(defs, list, n)
  {
    var path :| NamePath(defs, path) && path[0] in list && path[|path| - 1] == m;
    var longer := path + [n];
    forall i | 0 <= i < |longer| - 1 ensures NameStep(defs, longer[i], longer[i + 1]) {
      if i < |path| - 1 { assert NameStep(defs, path[i], path[i + 1]); }
    }
    assert NamePath(defs, longer) && longer[|longer| - 1] == n;
  }

  /** Some walked name refers to n. */
  ghost predicate Led(defs: Definitions, list: seq<string>, n: string) {
    exists a :: Walked(defs, list, a) && DirectRef(defs, a, n)
  }

  // ---------------------------------------------------------------------
  // What is found on tame documents
  // ---------------------------------------------------------------------

  /** Keys inside an inline property or inline items are no models. */
  ghost predicate NestsNoModelKeys(defs: Definitions, s: Schema) {
    && (forall prop, k :: prop in s.props && k in KeysOf(prop.value) ==> k !in defs)
    && (s.items.Some? ==> forall k :: k in KeysOf(s.items.value) ==> k !in defs)
  }

  /**
   No invented name is a model, no key deeper than a model's own properties is a
   model, and definitions nest no references deeper than the code looks.
   */
  ghost predicate Tame(defs: Definitions) {
    && (forall m: string :: m + "Items" !in defs)
    && (forall m :: m in defs ==> NestsNoModelKeys(defs, defs[m]))
    && (forall m, n :: m in defs && n in SchemaRefsOf(defs[m]) ==> DirectRef(defs, m, n))
  }

  /** The names walked to, and those that are no models. */
  ghost function WalkedNames(defs: Definitions, list: seq<string>): iset<string> {
    iset n: string | n !in defs || Walked(defs, list, n)
  }

  lemma KeysAreWalked(defs: Definitions, list: seq<string>, m: string, k: string)
    requires Tame(defs) && m in defs && Walked(defs, list, m) && k in SchemaKeysOf(defs[m])
    ensures k in WalkedNames(defs, list)
  {
    if k in defs {
      assert NestsNoModelKeys(defs, defs[m]);
      var prop :| prop in defs[m].props && k in {prop.key} + KeysOf(prop.value);
      assert NameStep(defs, m, k);
      WalkedNext(defs, list, m, k);
    }
  }

  lemma WalkedNamesAreClosed(defs: Definitions, list: seq<string>)
    requires Tame(defs)
    ensures ClosedNames(defs, WalkedNames(defs, list))
    ensures forall n :: ReferredIn(defs, WalkedNames(defs, list), n) ==> Led(defs, list, n)
  {
    var names := WalkedNames(defs, list);
    forall m | m in names && m in defs ensures Inside(names, names, Inline(defs[m])) {
      forall k | k in KeysOf(Inline(defs[m])) ensures k in names {
        KeysAreWalked(defs, list, m, k);
      }
      forall k | k in RefsOf(Inline(defs[m])) ensures k in names {
        assert k in SchemaRefsOf(defs[m]);
        WalkedNext(defs, list, m, k);
      }
    }
  }

  lemma ReferredStaysIn(defs: Definitions, names: iset<string>)
    requires ClosedNames(defs, names)
    ensures forall n :: ReferredIn(defs, names, n) ==> n in names
  {
    forall n | ReferredIn(defs, names, n) ensures n in names {
      var m :| m in names && m in defs && n in SchemaRefsOf(defs[m]);
      assert Inside(names, names, Inline(defs[m]));
      assert n in RefsOf(Inline(defs[m]));
    }
  }

  /** In terms of names: visits from a model find only what definitions of names that it leads to refer to. */
  lemma TracedIsReferred(defs: Definitions, names: iset<string>, visits: seq<Visit>, n: string)
    requires ClosedNames(defs, names)
    requires StartsAtModel(defs, visits) && visits[0].name in names
    requires Grounded(defs, visits[0], visits) && FoundBy(defs, visits, n)
    ensures ReferredIn(defs, names, n)
  {
    var refs := iset r: string | ReferredIn(defs, names, r);
    ReferredStaysIn(defs, names);
    AgainIsInside(defs, names, refs, visits[0].name);
    GroundedFindsIn(defs, names, refs, visits[0], visits, n);
  }

  /** The worklist finds exactly what the names walked to from the start refer to. */
  lemma TameResult(defs: Definitions, start: string, found: seq<string>, n: string)
    requires Tame(defs) && start in defs && Complete(defs, start, Inline(defs[start]), found)
    ensures n in found <==> Led(defs, [start], n)
  {
    if n in found {
      var visits: seq<Visit> :| Explored(defs, Visit(start, defs[start]), visits, found);
      WalkedStart(defs, [start], start);
      WalkedNamesAreClosed(defs, [start]);
      TracedIsReferred(defs, WalkedNames(defs, [start]), visits, n);
    }
  }

  lemma CollectedFollows(defs: Definitions, list: seq<string>, saved: seq<string>, m: string)
    requires Collected(defs, list, saved) && m in list
    ensures FollowsNames(defs, m, saved)
  {
    if m in defs {
      var visits: seq<Visit>, found: seq<string> :|
        Explored(defs, Visit(m, defs[m]), visits, found) && Contained(found, saved);
      ExploredFollows(defs, Visit(m, defs[m]), visits, found);
    } else {
      NoModelFollows(defs, m, saved);
    }
  }

  lemma PathsStartAtModels(defs: Definitions, path: seq<string>)
    requires NamePath(defs, path) && |path| > 1
    ensures path[0] in defs
  {
    assert NameStep(defs, path[0], path[1]);
  }

  lemma NoModelFollows(defs: Definitions, start: string, result: seq<string>)
    requires start !in defs
    ensures FollowsNames(defs, start, result)
  {
    forall path | NamePath(defs, path) && path[0] == start ensures |path| == 1 {
      if |path| > 1 { PathsStartAtModels(defs, path); }
    }
  }

  /** And saved is exactly the input with what the names walked to from it refer to. */
  lemma TameOutput(defs: Definitions, list: seq<string>, saved: seq<string>, n: string)
    requires Tame(defs) && Collected(defs, list, saved)
    ensures n in saved <==> n in list || Led(defs, list, n)
  {
    if n in saved && n !in list {
      var visits: seq<Visit> :| TracedBy(defs, list, visits, n);
      WalkedStart(defs, list, visits[0].name);
      WalkedNamesAreClosed(defs, list);
      TracedIsReferred(defs, WalkedNames(defs, list), visits, n);
    }
    if Led(defs, list, n) {
      var a :| Walked(defs, list, a) && DirectRef(defs, a, n);
      var path :| NamePath(defs, path) && path[0] in list && path[|path| - 1] == a;
      CollectedFollows(defs, list, saved, path[0]);
    }
  }

  // ---------------------------------------------------------------------
  // When all of it is reachable
  // ---------------------------------------------------------------------

  /** What a model refers to that is called like a property of m is reachable from m by references. */
  ghost predicate KeysLeadToReached(defs: Definitions) {
    forall m, prop, b :: m in defs && prop in defs[m].props && DirectRef(defs, prop.key, b) ==> Reached(defs, [m], b)
  }

  ghost predicate Home(defs: Definitions, list: seq<string>, n: string) {
    n in list || Reached(defs, list, n)
  }

  lemma {:induction false} ReachedThrough(defs: Definitions, list: seq<string>, path: seq<string>)
    requires RefPath(defs, path)
    requires forall b :: DirectRef(defs, path[0], b) ==> Home(defs, list, b)
    ensures Home(defs, list, path[|path| - 1])
    ensures (forall b :: DirectRef(defs, path[0], b) ==> Reached(defs, list, b)) ==>
              Reached(defs, list, path[|path| - 1])
    decreases |path|
  {
    var n := |path|;
    assert DirectRef(defs, path[n - 2], path[n - 1]);
    if n > 2 {
      ReachedThrough(defs, list, path[..n - 1]);
      ReachedNext(defs, list, path[n - 2], path[n - 1]);
    }
  }

  /** The last step of a walk is a reference or a property key. */
  lemma LastStep(defs: Definitions, path: seq<string>)
    requires Tame(defs) && NamePath(defs, path) && |path| > 1 && path[|path| - 1] in defs
    ensures var a, b := path[|path| - 2], path[|path| - 1];
            && a in defs
            && (DirectRef(defs, a, b) || exists prop :: prop in defs[a].props && prop.key == b)
    ensures NamePath(defs, path[..|path| - 1])
  {
    assert NameStep(defs, path[|path| - 2], path[|path| - 1]);
  }

  lemma {:induction false} WalkReaches(defs: Definitions, path: seq<string>, b: string)
    requires Tame(defs) && KeysLeadToReached(defs)
    requires NamePath(defs, path) && DirectRef(defs, path[|path| - 1], b)
    ensures Reached(defs, [path[0]], b)
    decreases |path|
  {
    var list, n := [path[0]], |path|;
    if n == 1 {
      ReachedNext(defs, list, path[0], b);
    } else {
      var a, before := path[n - 2], path[..n - 1];
      LastStep(defs, path);
      if DirectRef(defs, a, path[n - 1]) {
        WalkReaches(defs, before, path[n - 1]);
        ReachedNext(defs, list, path[n - 1], b);
      } else {
        assert Reached(defs, [a], b);
        var rest :| RefPath(defs, rest) && rest[0] in [a] && rest[|rest| - 1] == b;
        forall x | DirectRef(defs, a, x) ensures Reached(defs, list, x) { WalkReaches(defs, before, x); }
        ReachedThrough(defs, list, rest);
      }
    }
  }

  /** Every result of the worklist is exactly what is reachable from its start. */
  ghost predicate ResultsAreReachable(defs: Definitions, results: map<string, seq<string>>)
    requires results.Keys == defs.Keys
  {
    forall m, n :: m in defs ==> (n in results[m] <==> Reached(defs, [m], n))
  }

  /**
   On tame documents the worklist finds, for every start, exactly the models
   reachable from it, if and only if property keys called like models bring in
   nothing that is not reachable anyway.
   */
  lemma ResultsAreReachableIff(defs: Definitions, results: map<string, seq<string>>)
    requires Tame(defs) && results.Keys == defs.Keys
    requires forall m :: m in defs ==> Complete(defs, m, Inline(defs[m]), results[m])
    ensures ResultsAreReachable(defs, results) <==> KeysLeadToReached(defs)
  {
    if ResultsAreReachable(defs, results) {
      forall m, prop, b | m in defs && prop in defs[m].props && DirectRef(defs, prop.key, b)
        ensures Reached(defs, [m], b)
      {
        KeyIsFollowed(defs, m, prop, b, results[m]);
      }
    } else if KeysLeadToReached(defs) {
      forall m, n | m in defs ensures n in results[m] <==> Reached(defs, [m], n) {
        HarmlessKeysReach(defs, m, results[m], n);
      }
    }
  }

  lemma KeyIsFollowed(defs: Definitions, m: string, prop: Property, b: string, found: seq<string>)
    requires m in defs && prop in defs[m].props && DirectRef(defs, prop.key, b) && FollowsNames(defs, m, found)
    ensures b in found
  {
    var path := [m, prop.key];
    assert NameStep(defs, path[0], path[1]);
    assert NamePath(defs, path) && path[|path| - 1] == prop.key;
  }

  lemma HarmlessKeysReach(defs: Definitions, start: string, found: seq<string>, n: string)
    requires Tame(defs) && KeysLeadToReached(defs)
    requires start in defs && Complete(defs, start, Inline(defs[start]), found)
    ensures n in found <==> Reached(defs, [start], n)
  {
    TameResult(defs, start, found, n);
    if n in found {
      var a :| Walked(defs, [start], a) && DirectRef(defs, a, n);
      var path :| NamePath(defs, path) && path[0] in [start] && path[|path| - 1] == a;
      WalkReaches(defs, path, n);
    }
  }

  // ---------------------------------------------------------------------
  // The same for what is saved, where the input itself counts
  // ---------------------------------------------------------------------

  /**
   What a model refers to that is called like a property of m is m itself or
   reachable from it; and so is that model, if one called like a property of its
   own refers back to it.
   */
  ghost predicate KeysLeadHome(defs: Definitions) {
    && (forall m, p, b :: m in defs && p in defs[m].props && DirectRef(defs, p.key, b) ==> Home(defs, [m], b))
    && (forall m, p, q ::
          m in defs && p in defs[m].props && p.key in defs && q in defs[p.key].props && DirectRef(defs, q.key, p.key)
          ==> Home(defs, [m], p.key))
  }

  lemma {:induction false} WalkStaysHome(defs: Definitions, path: seq<string>, b: string)
    requires Tame(defs) && KeysLeadHome(defs)
    requires NamePath(defs, path) && DirectRef(defs, path[|path| - 1], b)
    ensures Home(defs, [path[0]], b)
    decreases |path|, 0
  {
    var list, n := [path[0]], |path|;
    if n == 1 {
      ReachedNext(defs, list, path[0], b);
    } else {
      var a, before := path[n - 2], path[..n - 1];
      LastStep(defs, path);
      if DirectRef(defs, a, path[n - 1]) {
        WalkStaysHome(defs, before, path[n - 1]);
        ReachedNext(defs, list, path[n - 1], b);
      } else {
        var prop :| prop in defs[a].props && prop.key == path[n - 1];
        assert Home(defs, [a], b);
        if b == a {
          KeyOwnerStaysHome(defs, before, prop);
        } else {
          HomeThrough(defs, before, b);
        }
      }
    }
  }

  /** What is reachable from the end of a walk is at home with its start. */
  lemma {:induction false} HomeThrough(defs: Definitions, path: seq<string>, b: string)
    requires Tame(defs) && KeysLeadHome(defs)
    requires NamePath(defs, path) && Reached(defs, [path[|path| - 1]], b)
    ensures Home(defs, [path[0]], b)
    decreases |path|, 1
  {
    var a := path[|path| - 1];
    var rest :| RefPath(defs, rest) && rest[0] in [a] && rest[|rest| - 1] == b;
    forall x | DirectRef(defs, a, x) ensures Home(defs, [path[0]], x) { WalkStaysHome(defs, path, x); }
    ReachedThrough(defs, [path[0]], rest);
  }

  /** So is the end of the walk, when a model called like its property refers to it. */
  lemma {:induction false} KeyOwnerStaysHome(defs: Definitions, path: seq<string>, q: Property)
    requires Tame(defs) && KeysLeadHome(defs)
    requires NamePath(defs, path)
    requires var a := path[|path| - 1]; a in defs && q in defs[a].props && DirectRef(defs, q.key, a)
    ensures Home(defs, [path[0]], path[|path| - 1])
    decreases |path|, 2
  {
    var n := |path|;
    if n > 1 {
      var a, before := path[n - 2], path[..n - 1];
      LastStep(defs, path);
      if DirectRef(defs, a, path[n - 1]) {
        WalkStaysHome(defs, before, path[n - 1]);
      } else {
        var p :| p in defs[a].props && p.key == path[n - 1];
        assert Home(defs, [a], path[n - 1]);
        if path[n - 1] == a {
          KeyOwnerStaysHome(defs, before, q);
        } else {
          HomeThrough(defs, before, path[n - 1]);
        }
      }
    }
  }

  /** Every output saved for one model is exactly the model with what is reachable from it. */
  ghost predicate OutputsAreReachable(defs: Definitions, outputs: map<string, seq<string>>)
    requires outputs.Keys == defs.Keys
  {
    forall m, n :: m in defs ==> (n in outputs[m] <==> Home(defs, [m], n))
  }

  lemma KeyOfKeyIsFollowed(defs: Definitions, m: string, p: Property, q: Property, b: string, found: seq<string>)
    requires m in defs && p in defs[m].props && p.key in defs && q in defs[p.key].props
    requires DirectRef(defs, q.key, b) && FollowsNames(defs, m, found)
    ensures b in found
  {
    var path := [m, p.key, q.key];
    assert NameStep(defs, path[0], path[1]) && NameStep(defs, path[1], path[2]);
    assert NamePath(defs, path) && path[|path| - 1] == q.key;
  }

  /** On tame documents what is saved for each model is exactly what is reachable, if and only if keys lead home. */
  lemma OutputsAreReachableIff(defs: Definitions, outputs: map<string, seq<string>>)
    requires Tame(defs) && outputs.Keys == defs.Keys
    requires forall m :: m in defs ==> Collected(defs, [m], outputs[m])
    ensures OutputsAreReachable(defs, outputs) <==> KeysLeadHome(defs)
  {
    if OutputsAreReachable(defs, outputs) {
      forall m, p, b | m in defs && p in defs[m].props && DirectRef(defs, p.key, b) ensures Home(defs, [m], b) {
        CollectedFollows(defs, [m], outputs[m], m);
        KeyIsFollowed(defs, m, p, b, outputs[m]);
      }
      forall m, p, q | m in defs && p in defs[m].props && p.key in defs && q in defs[p.key].props
                       && DirectRef(defs, q.key, p.key)
        ensures Home(defs, [m], p.key)
      {
        CollectedFollows(defs, [m], outputs[m], m);
        KeyOfKeyIsFollowed(defs, m, p, q, p.key, outputs[m]);
      }
    } else if KeysLeadHome(defs) {
      forall m, n | m in defs ensures n in outputs[m] <==> Home(defs, [m], n) {
        HarmlessKeysSave(defs, [m], outputs[m], n);
      }
    }
  }

  lemma HomeOfMember(defs: Definitions, list: seq<string>, m: string, n: string)
    requires m in list && Home(defs, [m], n)
    ensures Home(defs, list, n)
  {
    if n != m {
      var path :| RefPath(defs, path) && path[0] in [m] && path[|path| - 1] == n;
      assert path[0] in list;
    }
  }

  /** Then it is so for any input. */
  lemma HarmlessKeysSave(defs: Definitions, list: seq<string>, saved: seq<string>, n: string)
    requires Tame(defs) && KeysLeadHome(defs) && Collected(defs, list, saved)
    ensures n in saved <==> Home(defs, list, n)
  {
    TameOutput(defs, list, saved, n);
    if n in saved && n !in list {
      var a :| Walked(defs, list, a) && DirectRef(defs, a, n);
      var path :| NamePath(defs, path) && path[0] in list && path[|path| - 1] == a;
      WalkStaysHome(defs, path, n);
      HomeOfMember(defs, list, path[0], n);
    }
    if Reached(defs, list, n) { ReachedIsLed(defs, list, n); }
  }

  lemma ReachedIsLed(defs: Definitions, list: seq<string>, n: string)
    requires Reached(defs, list, n)
    ensures Led(defs, list, n)
  {
    var path :| RefPath(defs, path) && path[0] in list && path[|path| - 1] == n;
    var k := |path| - 1;
    var way := path[..k];
    forall i | 0 <= i < |way| - 1 ensures NameStep(defs, way[i], way[i + 1]) {
      assert DirectRef(defs, path[i], path[i + 1]);
    }
    assert NamePath(defs, way) && way[0] in list && way[|way| - 1] == path[k - 1];
    assert DirectRef(defs, path[k - 1], path[k]);
  }

  // ---------------------------------------------------------------------
  // Documents without keys called like models
  // ---------------------------------------------------------------------

  /** No property key and no invented name is a model, and definitions nest no references deeper. */
  ghost predicate Plain(defs: Definitions) {
    && (forall m, k :: m in defs && k in SchemaKeysOf(defs[m]) ==> k !in defs)
    && (forall m: string :: m + "Items" !in defs)
    && (forall m, n :: m in defs && n in SchemaRefsOf(defs[m]) ==> DirectRef(defs, m, n))
  }

  lemma PlainNestsNoModelKeys(defs: Definitions, m: string)
    requires Plain(defs) && m in defs
    ensures NestsNoModelKeys(defs, defs[m])
    ensures forall prop :: prop in defs[m].props ==> prop.key !in defs
  {
    var s := defs[m];
    forall prop, k | prop in s.props && k in {prop.key} + KeysOf(prop.value) ensures k !in defs {
      assert k in SchemaKeysOf(s);
    }
    forall prop | prop in s.props ensures prop.key !in defs {
      assert prop.key in {prop.key} + KeysOf(prop.value);
    }
    forall prop, k | prop in s.props && k in KeysOf(prop.value) ensures k !in defs {
      assert k in {prop.key} + KeysOf(prop.value);
    }
    if s.items.Some? {
      forall k | k in KeysOf(s.items.value) ensures k !in defs { assert k in SchemaKeysOf(s); }
    }
  }

  lemma PlainIsHarmless(defs: Definitions)
    requires Plain(defs)
    ensures Tame(defs) && KeysLeadToReached(defs) && KeysLeadHome(defs)
  {
    forall m | m in defs
      ensures NestsNoModelKeys(defs, defs[m]) && forall prop :: prop in defs[m].props ==> prop.key !in defs
    {
      PlainNestsNoModelKeys(defs, m);
    }
  }

  /** On a plain document the worklist finds exactly the models reachable from the start. */
  lemma PlainResultIsReachable(defs: Definitions, start: string, found: seq<string>, n: string)
    requires Plain(defs) && start in defs && Complete(defs, start, Inline(defs[start]), found)
    ensures n in found <==> Reached(defs, [start], n)
  {
    PlainIsHarmless(defs);
    HarmlessKeysReach(defs, start, found, n);
  }

  /** And what is saved is exactly the input with everything reachable from it. */
  lemma PlainOutputIsReachable(defs: Definitions, list: seq<string>, saved: seq<string>, n: string)
    requires Plain(defs) && Collected(defs, list, saved)
    ensures n in saved <==> n in list || Reached(defs, list, n)
  {
    PlainIsHarmless(defs);
    HarmlessKeysSave(defs, list, saved, n);
  }

  // ---------------------------------------------------------------------
  // References at any depth
  // ---------------------------------------------------------------------

  /**
   Every name stands for one schema: a model for its definition, a property key
   for the schema it has wherever it occurs, an invented name for those items.
   */
  ghost predicate Consistent(defs: Definitions, schemaOf: string -> Schema) {
    && (forall m :: m in defs ==> schemaOf(m) == defs[m])
    && (forall u, v :: Offers(defs, u, schemaOf(u), v) ==> v.schema == schemaOf(v.name))
  }

  /** A chain of references at any depth leads from the model to n. */
  ghost predicate DeepReached(defs: Definitions, m: string, n: string) {
    exists path :: DeepPath(defs, path) && path[0] == m && path[|path| - 1] == n
  }

  ghost predicate DeepPath(defs: Definitions, path: seq<string>) {
    |path| >= 2 && forall i :: 0 <= i < |path| - 1 ==> DeepRef(defs, path[i], path[i + 1])
  }

  /** The definition of a refers to b, however deep inside. */
  ghost predicate DeepRef(defs: Definitions, a: string, b: string) {
    a in defs && b in SchemaRefsOf(defs[a])
  }

  lemma DeepOnce(defs: Definitions, m: string, n: string)
    requires DeepRef(defs, m, n)
    ensures DeepReached(defs, m, n)
  {
    assert DeepPath(defs, [m, n]) && [m, n][|[m, n]| - 1] == n;
  }

  lemma DeepNext(defs: Definitions, m: string, a: string, n: string)
    requires DeepReached(defs, m, a) && DeepRef(defs, a, n)
    ensures DeepReached(defs, m, n)
  {
    var path :| DeepPath(defs, path) && path[0] == m && path[|path| - 1] == a;
    var longer := path + [n];
    forall i | 0 <= i < |longer| - 1 ensures DeepRef(defs, longer[i], longer[i + 1]) {
      if i < |path| - 1 { assert DeepRef(defs, path[i], path[i + 1]); }
    }
    assert DeepPath(defs, longer) && longer[|longer| - 1] == n;
  }

  /** All references inside the schema are reached from the model. */
  ghost predicate RefsReached(defs: Definitions, m: string, s: Schema) {
    forall n :: n in SchemaRefsOf(s) ==> DeepReached(defs, m, n)
  }

  lemma ReferredSchemaReached(defs: Definitions, m: string, n: string)
    requires DeepReached(defs, m, n)
    ensures RefsReached(defs, m, SchemaOf(defs, Ref(n)))
  {
    if n in defs {
      forall r | r in SchemaRefsOf(defs[n]) ensures DeepReached(defs, m, r) { DeepNext(defs, m, n, r); }
    }
  }

  lemma ProxyReached(defs: Definitions, m: string, p: Proxy)
    requires forall n :: n in RefsOf(p) ==> DeepReached(defs, m, n)
    ensures RefsReached(defs, m, SchemaOf(defs, p))
  {
    if p.Ref? { ReferredSchemaReached(defs, m, p.name); }
  }

  lemma PropertyReached(defs: Definitions, m: string, s: Schema, prop: Property)
    requires RefsReached(defs, m, s) && prop in s.props
    ensures forall n :: n in RefsOf(prop.value) ==> DeepReached(defs, m, n)
    ensures RefsReached(defs, m, SchemaOf(defs, prop.value))
  {
    forall n | n in RefsOf(prop.value) ensures DeepReached(defs, m, n) {
      assert n in SchemaRefsOf(s);
    }
    ProxyReached(defs, m, prop.value);
  }

  lemma ItemsReached(defs: Definitions, m: string, s: Schema)
    requires RefsReached(defs, m, s) && s.items.Some?
    ensures forall n :: n in RefsOf(s.items.value) ==> DeepReached(defs, m, n)
    ensures RefsReached(defs, m, SchemaOf(defs, s.items.value))
  {
    forall n | n in RefsOf(s.items.value) ensures DeepReached(defs, m, n) {
      assert n in SchemaRefsOf(s);
    }
    ProxyReached(defs, m, s.items.value);
  }

  lemma RefersReached(defs: Definitions, m: string, s: Schema, n: string)
    requires RefsReached(defs, m, s) && Refers(defs, s, n)
    ensures DeepReached(defs, m, n)
  {
    if s.items == Some(Ref(n)) {
      ItemsReached(defs, m, s);
      assert n in RefsOf(s.items.value);
    } else {
      var prop :| prop in s.props && PropRefers(defs, prop, n);
      PropertyReached(defs, m, s, prop);
      if prop.value == Ref(n) {
        assert n in RefsOf(prop.value);
      } else {
        ItemsReached(defs, m, SchemaOf(defs, prop.value));
        assert n in RefsOf(SchemaOf(defs, prop.value).items.value);
      }
    }
  }

  lemma OfferedReached(defs: Definitions, m: string, u: string, s: Schema, v: Visit)
    requires RefsReached(defs, m, s) && Offers(defs, u, s, v)
    ensures RefsReached(defs, m, v.schema)
  {
    if exists prop :: prop in s.props && v == Visit(prop.key, SchemaOf(defs, prop.value)) {
      var prop :| prop in s.props && v == Visit(prop.key, SchemaOf(defs, prop.value));
      PropertyReached(defs, m, s, prop);
    } else if s.items.Some? && v == Visit(u + "Items", SchemaOf(defs, s.items.value)) {
      ItemsReached(defs, m, s);
    } else {
      RefersReached(defs, m, s, v.name);
      ReferredSchemaReached(defs, m, v.name);
    }
  }

  /** Visits that start at a definition stay with the one schema of each name, and with what is reached. */
  lemma {:induction false} VisitsAreConsistent(defs: Definitions, schemaOf: string -> Schema, visits: seq<Visit>,
                                               i: nat)
    requires Consistent(defs, schemaOf) && StartsAtModel(defs, visits) && Grounded(defs, visits[0], visits)
    requires i < |visits|
    ensures visits[i].schema == schemaOf(visits[i].name) && RefsReached(defs, visits[0].name, visits[i].schema)
    decreases i
  {
    var m := visits[0].name;
    if i == 0 {
      forall n | n in SchemaRefsOf(defs[m]) ensures DeepReached(defs, m, n) { DeepOnce(defs, m, n); }
    } else {
      assert LedTo(defs, visits[..i], visits[i]);
      var j :| 0 <= j < i && LeadsTo(defs, visits[..i][j], visits[i]);
      var u := visits[j];
      VisitsAreConsistent(defs, schemaOf, visits, j);
      assert Offers(defs, u.name, schemaOf(u.name), visits[i]);
      OfferedReached(defs, m, u.name, u.schema, visits[i]);
    }
  }

  lemma FoundIsReached(defs: Definitions, schemaOf: string -> Schema, visits: seq<Visit>, n: string)
    requires Consistent(defs, schemaOf) && StartsAtModel(defs, visits) && Grounded(defs, visits[0], visits)
    requires FoundBy(defs, visits, n)
    ensures DeepReached(defs, visits[0].name, n)
  {
    var i :| 0 <= i < |visits| && Finds(defs, visits[i], n);
    VisitsAreConsistent(defs, schemaOf, visits, i);
    RefersReached(defs, visits[0].name, visits[i].schema, n);
  }

  /** A reference inside a schema is one of its own, or is inside a smaller schema that it offers. */
  lemma NestedStep(defs: Definitions, u: string, s: Schema, n: string) returns (v: Visit)
    requires n in SchemaRefsOf(s) && !Refers(defs, s, n)
    ensures Offers(defs, u, s, v) && n in SchemaRefsOf(v.schema) && v.schema < s
  {
    if s.items.Some? && n in RefsOf(s.items.value) {
      assert s.items.value.Inline?;
      v := Visit(u + "Items", s.items.value.schema);
    } else {
      var prop :| prop in s.props && n in RefsOf(prop.value);
      assert !PropRefers(defs, prop, n);
      v := Visit(prop.key, prop.value.schema);
    }
  }

  /** Every reference inside the schema of a visited name is found, however deep it is nested. */
  lemma {:induction false} NestedIsFound(defs: Definitions, schemaOf: string -> Schema, visits: seq<Visit>,
                                         found: seq<string>, u: string, n: string)
    requires Consistent(defs, schemaOf) && StartsAtModel(defs, visits) && Explored(defs, visits[0], visits, found)
    requires Visited(visits, u) && n in SchemaRefsOf(schemaOf(u))
    ensures n in found
    decreases schemaOf(u)
  {
    var i :| 0 <= i < |visits| && visits[i].name == u;
    VisitsAreConsistent(defs, schemaOf, visits, i);
    if Refers(defs, visits[i].schema, n) {
      assert Finds(defs, visits[i], n);
    } else {
      var v := NestedStep(defs, u, visits[i].schema, n);
      assert LeadsTo(defs, visits[i], v);
      NestedIsFound(defs, schemaOf, visits, found, v.name, n);
    }
  }

  lemma FoundIsVisited(defs: Definitions, visits: seq<Visit>, found: seq<string>, n: string)
    requires visits != [] && Explored(defs, visits[0], visits, found) && n in found
    ensures Visited(visits, n)
  {
    var i :| 0 <= i < |visits| && Finds(defs, visits[i], n);
    assert LeadsTo(defs, visits[i], Visit(n, SchemaOf(defs, Ref(n))));
  }

  lemma {:induction false} DeepPathIsFound(defs: Definitions, schemaOf: string -> Schema, visits: seq<Visit>,
                                           found: seq<string>, path: seq<string>)
    requires Consistent(defs, schemaOf) && StartsAtModel(defs, visits) && Explored(defs, visits[0], visits, found)
    requires DeepPath(defs, path) && path[0] == visits[0].name
    ensures path[|path| - 1] in found
    decreases |path|
  {
    var n := |path|;
    var a := path[n - 2];
    assert DeepRef(defs, a, path[n - 1]);
    if n > 2 {
      DeepPathIsFound(defs, schemaOf, visits, found, path[..n - 1]);
      FoundIsVisited(defs, visits, found, a);
    }
    NestedIsFound(defs, schemaOf, visits, found, a, path[n - 1]);
  }

  /**
   Where every name stands for one schema, the worklist finds exactly what is
   referred to at any depth in the start or in a model so reached.
   */
  lemma DeepResult(defs: Definitions, schemaOf: string -> Schema, start: string, found: seq<string>, n: string)
    requires Consistent(defs, schemaOf) && start in defs && Complete(defs, start, Inline(defs[start]), found)
    ensures n in found <==> DeepReached(defs, start, n)
  {
    var visits: seq<Visit> :| Explored(defs, Visit(start, defs[start]), visits, found);
    if n in found { FoundIsReached(defs, schemaOf, visits, n); }
    if DeepReached(defs, start, n) {
      var path :| DeepPath(defs, path) && path[0] == start && path[|path| - 1] == n;
      DeepPathIsFound(defs, schemaOf, visits, found, path);
    }
  }

  /** And what is saved is exactly the input with what is so reached from it. */
  lemma DeepOutput(defs: Definitions, schemaOf: string -> Schema, list: seq<string>, saved: seq<string>, n: string)
    requires Consistent(defs, schemaOf) && Collected(defs, list, saved)
    ensures n in saved <==> n in list || exists m :: m in list && m in defs && DeepReached(defs, m, n)
  {
    if n in saved && n !in list {
      var visits: seq<Visit> :| TracedBy(defs, list, visits, n);
      FoundIsReached(defs, schemaOf, visits, n);
    }
    forall m | m in list && m in defs && DeepReached(defs, m, n) ensures n in saved {
      var visits: seq<Visit>, found: seq<string> :|
        Explored(defs, Visit(m, defs[m]), visits, found) && Contained(found, saved);
      var path :| DeepPath(defs, path) && path[0] == m && path[|path| - 1] == n;
      DeepPathIsFound(defs, schemaOf, visits, found, path);
    }
  }

  /** Model a has a property k of an inline object, whose property l is model b. */
  function Nesting(a: string, k: string, l: string, b: string): Definitions {
    map[a := Schema([Property(k, Inline(Schema([Property(l, Ref(b))], None)))], None), b := Schema([], None)]
  }

  function NestingSchemas(a: string, k: string, l: string, b: string): string -> Schema {
    n => if n == a then Nesting(a, k, l, b)[a]
         else if n == k then Schema([Property(l, Ref(b))], None)
         else Schema([], None)
  }

  lemma NestingIsConsistent(a: string, k: string, l: string, b: string)
    requires a != b && k != a && k != b && l != a && l != k
    ensures Consistent(Nesting(a, k, l, b), NestingSchemas(a, k, l, b))
  {
    var defs, schemaOf := Nesting(a, k, l, b), NestingSchemas(a, k, l, b);
    forall u, v | Offers(defs, u, schemaOf(u), v) ensures v.schema == schemaOf(v.name) {
      var s := schemaOf(u);
      if Refers(defs, s, v.name) {
        RefersIsMentions(defs, s, v.name);
      }
    }
  }

  /** A reference nested in an inline property is followed, although no model refers to it directly. */
  lemma NestedReferenceIsFollowed(a: string, k: string, l: string, b: string, found: seq<string>, n: string)
    requires a != b && k != a && k != b && l != a && l != k
    requires var defs := Nesting(a, k, l, b); Complete(defs, a, Inline(defs[a]), found)
    ensures n in found <==> n == b
  {
    var defs := Nesting(a, k, l, b);
    NestingIsConsistent(a, k, l, b);
    DeepResult(defs, NestingSchemas(a, k, l, b), a, found, n);
    NestingRefs(a, k, l, b);
    if DeepReached(defs, a, n) {
      var path :| DeepPath(defs, path) && path[0] == a && path[|path| - 1] == n;
      assert DeepRef(defs, path[|path| - 2], path[|path| - 1]);
    }
    DeepOnce(defs, a, b);
  }

  lemma NestingRefs(a: string, k: string, l: string, b: string)
    requires a != b
    ensures SchemaRefsOf(Nesting(a, k, l, b)[a]) == {b} && SchemaRefsOf(Nesting(a, k, l, b)[b]) == {}
  {
    var inner := Schema([Property(l, Ref(b))], None);
    OneProperty(Property(l, Ref(b)));
    OneProperty(Property(k, Inline(inner)));
  }

  lemma OneProperty(prop: Property)
    ensures SchemaRefsOf(Schema([prop], None)) == RefsOf(prop.value)
  {
    var s := Schema([prop], None);
    assert s.props[0] == prop && prop in s.props;
  }

  // ---------------------------------------------------------------------
  // Keys called like models
  // ---------------------------------------------------------------------

  /** Model a has a property called b, of no model; the unrelated model b refers to c. */
  function KeyLikeModel(a: string, b: string, c: string): Definitions {
    map[a := Schema([Property(b, Inline(Schema([], None)))], None), b := Schema([Property("", Ref(c))], None)]
  }

  lemma KeyIsNoReference(a: string, b: string, c: string, path: seq<string>)
    requires a != b && RefPath(KeyLikeModel(a, b, c), path)
    ensures path[0] != a
  {
    assert DirectRef(KeyLikeModel(a, b, c), path[0], path[1]);
  }

  /** A property called like an unrelated model pulls in what that model refers to. */
  lemma UnrelatedModelIsFollowed(a: string, b: string, c: string, found: seq<string>)
    requires a != b
    requires var defs := KeyLikeModel(a, b, c); Complete(defs, a, Inline(defs[a]), found)
    ensures c in found && !Reached(KeyLikeModel(a, b, c), [a], c)
  {
    var defs := KeyLikeModel(a, b, c);
    var key, ref := Property(b, Inline(Schema([], None))), Property("", Ref(c));
    assert defs[a].props == [key] && defs[b].props == [ref];
    assert key in defs[a].props && ref in defs[b].props;
    assert NameStep(defs, a, b) && DirectRef(defs, b, c);
    assert NamePath(defs, [a, b]);
    assert [a, b][|[a, b]| - 1] == b && [a, b][0] == a;
    forall path | RefPath(defs, path) ensures path[0] != a {
      KeyIsNoReference(a, b, c, path);
    }
  }
}
