/** When the worklist of scripts/fetch_models.go comes to its end. */
module SchemaTermination {
  import opened Common
  import opened SchemaGraph

  // ---------------------------------------------------------------------
  // Termination
  // ---------------------------------------------------------------------

  /** Following array items from p ends after at most n hops. */
  ghost predicate Ends(defs: Definitions, p: Proxy, n: nat)
    decreases n
  {
    var items := SchemaOf(defs, p).items;
    items.None? || (n > 0 && Ends(defs, items.value, n - 1))
  }

  /** No chain of array items goes on forever. */
  ghost predicate ItemsChainsEnd(defs: Definitions)
  {
    forall m :: m in defs ==> exists n :: Ends(defs, Ref(m), n)
  }

  lemma {:induction false} EveryChainEnds(defs: Definitions, p: Proxy) returns (n: nat)
    requires ItemsChainsEnd(defs)
    ensures Ends(defs, p, n)
    decreases p
  {
    match p {
      case Ref(m) => n :| Ends(defs, Ref(m), n);
      case Inline(s) =>
        if s.items.None? {
          n := 0;
        } else {
          n := EveryChainEnds(defs, s.items.value);
          n := n + 1;
        }
    }
  }

  /** Property keys and reference names inside p, at any depth, stay in the given sets. */
  ghost predicate Within(keys: set<string>, refs: set<string>, p: Proxy) {
    match p
    case Ref(n) => n in refs
    case Inline(s) => SchemaWithin(keys, refs, s)
  }

  ghost predicate SchemaWithin(keys: set<string>, refs: set<string>, s: Schema) {
    && (forall prop :: prop in s.props ==> prop.key in keys && Within(keys, refs, prop.value))
    && (s.items.Some? ==> Within(keys, refs, s.items.value))
  }

  /** keys holds every definition name and property key of the document, refs every referenced name. */
  ghost predicate DocumentWithin(defs: Definitions, keys: set<string>, refs: set<string>) {
    defs.Keys <= keys && refs <= keys && forall m :: m in defs ==> SchemaWithin(keys, refs, defs[m])
  }

  lemma {:induction false} CollectedIsWithin(keys: set<string>, refs: set<string>, p: Proxy)
    requires KeysOf(p) <= keys && RefsOf(p) <= refs
    ensures Within(keys, refs, p)
    decreases p
  {
    if p.Inline? { SchemaCollectedIsWithin(keys, refs, p.schema); }
  }

  lemma {:induction false} SchemaCollectedIsWithin(keys: set<string>, refs: set<string>, s: Schema)
    requires SchemaKeysOf(s) <= keys && SchemaRefsOf(s) <= refs
    ensures SchemaWithin(keys, refs, s)
    decreases s
  {
    forall prop | prop in s.props ensures prop.key in keys && Within(keys, refs, prop.value) {
      assert forall k :: k in {prop.key} + KeysOf(prop.value) ==> k in SchemaKeysOf(s);
      assert forall k :: k in RefsOf(prop.value) ==> k in SchemaRefsOf(s);
      assert prop.key in {prop.key} + KeysOf(prop.value);
      CollectedIsWithin(keys, refs, prop.value);
    }
    if s.items.Some? { CollectedIsWithin(keys, refs, s.items.value); }
  }

  lemma UniverseExists(defs: Definitions, model: string, p: Proxy) returns (keys: set<string>)
    ensures DocumentWithin(defs, keys, DocumentRefs(defs, p)) && model in keys
    ensures Within(keys, DocumentRefs(defs, p), p)
  {
    var refs := DocumentRefs(defs, p);
    keys := (set m, k | m in defs && k in SchemaKeysOf(defs[m]) :: k) + defs.Keys + {model} + KeysOf(p) + refs;
    CollectedIsWithin(keys, refs, p);
    forall m | m in defs ensures SchemaWithin(keys, refs, defs[m]) {
      SchemaCollectedIsWithin(keys, refs, defs[m]);
    }
  }

  /** Work caused by an entry under a made-up name ending in "Items"; n bounds its items chain. */
  ghost function Cost(defs: Definitions, p: Proxy, n: nat): nat
    requires Ends(defs, p, n)
    decreases n
  {
    var items := SchemaOf(defs, p).items;
    1 + |FieldEntries(defs, "", p)| + (if items.None? then 0 else Cost(defs, items.value, n - 1))
  }

  lemma {:induction false} CostIsFixed(defs: Definitions, p: Proxy, n: nat, m: nat)
    requires Ends(defs, p, n) && Ends(defs, p, m)
    ensures Cost(defs, p, n) == Cost(defs, p, m)
    decreases n
  {
    var items := SchemaOf(defs, p).items;
    if items.Some? { CostIsFixed(defs, items.value, n - 1, m - 1); }
  }

  ghost function ChainLength(defs: Definitions, p: Proxy): (n: nat)
    requires ItemsChainsEnd(defs)
    ensures Ends(defs, p, n)
  {
    assert exists n: nat :: Ends(defs, p, n) by { var n := EveryChainEnds(defs, p); }
    var n: nat :| Ends(defs, p, n);
    n
  }

  /** Names of the document weigh one; made-up names weigh the work they cause. */
  ghost function WeightOf(defs: Definitions, keys: set<string>, e: Entry): nat
    requires ItemsChainsEnd(defs)
  {
    if e.0 in keys then 1 else Cost(defs, e.1, ChainLength(defs, e.1))
  }

  ghost function Weight(defs: Definitions, keys: set<string>, stack: seq<Entry>): nat
    requires ItemsChainsEnd(defs)
  {
    if stack == [] then 0
    else Weight(defs, keys, stack[..|stack| - 1]) + WeightOf(defs, keys, stack[|stack| - 1])
  }

  lemma {:induction false} WeightConcat(defs: Definitions, keys: set<string>, a: seq<Entry>, b: seq<Entry>)
    requires ItemsChainsEnd(defs)
    ensures (forall e :: e in a ==> e in a + b) && (forall e :: e in b ==> e in a + b)
    ensures Weight(defs, keys, a + b) == Weight(defs, keys, a) + Weight(defs, keys, b)
  {
    if b == [] {
      assert a + b == a;
    } else {
      assert (a + b)[..|a + b| - 1] == a + b[..|b| - 1];
      WeightConcat(defs, keys, a, b[..|b| - 1]);
    }
  }

  lemma {:induction false} KnownNamesWeighOne(defs: Definitions, keys: set<string>, stack: seq<Entry>)
    requires ItemsChainsEnd(defs)
    requires forall e :: e in stack ==> e.0 in keys
    ensures Weight(defs, keys, stack) == |stack|
  {
    if stack != [] { KnownNamesWeighOne(defs, keys, stack[..|stack| - 1]); }
  }

  ghost predicate StackWithin(keys: set<string>, refs: set<string>, stack: seq<Entry>) {
    forall e :: e in stack ==> Within(keys, refs, e.1)
  }

  lemma PropStaysWithin(defs: Definitions, keys: set<string>, refs: set<string>, prop: Property)
    requires DocumentWithin(defs, keys, refs) && prop.key in keys && Within(keys, refs, prop.value)
    ensures StackWithin(keys, refs, PropEntries(defs, prop))
    ensures forall e :: e in PropEntries(defs, prop) ==> e.0 in keys
    ensures forall n :: n in PropNames(defs, prop) ==> n in refs
  {
    assert SchemaWithin(keys, refs, SchemaOf(defs, prop.value));
  }

  lemma PropsStayWithin(defs: Definitions, keys: set<string>, refs: set<string>, props: seq<Property>, k: nat)
    requires DocumentWithin(defs, keys, refs) && k <= |props|
    requires forall prop :: prop in props ==> prop.key in keys && Within(keys, refs, prop.value)
    ensures StackWithin(keys, refs, PropsEntries(defs, props, k))
    ensures forall e :: e in PropsEntries(defs, props, k) ==> e.0 in keys
    ensures forall n :: n in PropsNames(defs, props, k) ==> n in refs
  {
    forall e | e in PropsEntries(defs, props, k) ensures e.0 in keys && Within(keys, refs, e.1) {
      EntriesOfProps(defs, props, k, e);
      var i :| 0 <= i < k && e in PropEntries(defs, props[i]);
      PropStaysWithin(defs, keys, refs, props[i]);
    }
    forall n | n in PropsNames(defs, props, k) ensures n in refs {
      NamesOfProps(defs, props, k, n);
      var i :| 0 <= i < k && n in PropNames(defs, props[i]);
      PropStaysWithin(defs, keys, refs, props[i]);
    }
  }

  /** An extraction under a made-up name costs less than the entry it consumed. */
  lemma FieldsWeigh(defs: Definitions, keys: set<string>, refs: set<string>, model: string, def: Proxy)
    requires ItemsChainsEnd(defs) && DocumentWithin(defs, keys, refs) && Within(keys, refs, def)
    ensures StackWithin(keys, refs, FieldEntries(defs, model, def))
    ensures forall n :: n in FieldNames(defs, def) ==> n in refs
    ensures model !in keys ==> Weight(defs, keys, FieldEntries(defs, model, def)) < WeightOf(defs, keys, (model, def))
  {
    var s := SchemaOf(defs, def);
    var props, own := PropsEntries(defs, s.props, |s.props|), OwnItemsEntries(model, s.items);
    assert SchemaWithin(keys, refs, s);
    PropsStayWithin(defs, keys, refs, s.props, |s.props|);
    assert StackWithin(keys, refs, own);
    if model !in keys {
      WeightConcat(defs, keys, props + props, own);
      KnownNamesWeighOne(defs, keys, props + props);
      OwnItemsWeigh(defs, keys, model, def);
    }
  }

  lemma OwnItemsWeigh(defs: Definitions, keys: set<string>, model: string, def: Proxy)
    requires ItemsChainsEnd(defs) && model !in keys
    requires var items := SchemaOf(defs, def).items; items.Some? && items.value.Ref? ==> items.value.name in keys
    ensures var s := SchemaOf(defs, def);
            |FieldEntries(defs, "", def)| - |OwnItemsEntries("", s.items)|
            + Weight(defs, keys, OwnItemsEntries(model, s.items)) < WeightOf(defs, keys, (model, def))
  {
    var s := SchemaOf(defs, def);
    var own := OwnItemsEntries(model, s.items);
    var n := ChainLength(defs, def);
    if s.items.Some? {
      var made := (model + "Items", s.items.value);
      if made.0 !in keys {
        CostIsFixed(defs, made.1, ChainLength(defs, made.1), n - 1);
      }
      assert own == [made] + own[1..];
      WeightConcat(defs, keys, [made], own[1..]);
      KnownNamesWeighOne(defs, keys, own[1..]);
      assert Weight(defs, keys, [made]) == Weight(defs, keys, []) + WeightOf(defs, keys, made);
    }
  }

  lemma RoundStaysWithin(defs: Definitions, keys: set<string>, refs: set<string>, w: Work)
    requires ItemsChainsEnd(defs) && DocumentWithin(defs, keys, refs)
    requires StackWithin(keys, refs, w.stack) && w.stack != []
    requires forall n :: n in w.found ==> n in refs
    ensures StackWithin(keys, refs, Round(defs, w).stack)
    ensures forall n :: n in Round(defs, w).found ==> n in refs
  {
    var top := w.stack[|w.stack| - 1];
    assert top in w.stack;
    if top.0 !in w.visited {
      assert SchemaWithin(keys, refs, Again(defs, top.0).schema);
      FieldsWeigh(defs, keys, refs, top.0, top.1);
      FieldsWeigh(defs, keys, refs, top.0, Again(defs, top.0));
    }
  }

  /** The measure of the loop: names of the document not yet visited, then the weight of the stack. */
  lemma RoundDecreases(defs: Definitions, keys: set<string>, refs: set<string>, w: Work)
    requires ItemsChainsEnd(defs) && DocumentWithin(defs, keys, refs)
    requires StackWithin(keys, refs, w.stack) && w.stack != []
    ensures var w' := Round(defs, w);
            || |keys - w'.visited| < |keys - w.visited|
            || (keys - w'.visited == keys - w.visited
                && Weight(defs, keys, w'.stack) < Weight(defs, keys, w.stack))
  {
    var top, rest := w.stack[|w.stack| - 1], w.stack[..|w.stack| - 1];
    assert top in w.stack;
    if top.0 !in w.visited {
      var visited' := w.visited + {top.0};
      if top.0 in keys {
        assert keys - visited' == (keys - w.visited) - {top.0};
        SmallerWithout(keys - w.visited, top.0);
      } else {
        assert keys - visited' == keys - w.visited;
        MadeUpNameWeighsLess(defs, keys, refs, w);
      }
    }
  }

  lemma MadeUpNameWeighsLess(defs: Definitions, keys: set<string>, refs: set<string>, w: Work)
    requires ItemsChainsEnd(defs) && DocumentWithin(defs, keys, refs)
    requires StackWithin(keys, refs, w.stack) && w.stack != []
    requires w.stack[|w.stack| - 1].0 !in keys + w.visited
    ensures Weight(defs, keys, Round(defs, w).stack) < Weight(defs, keys, w.stack)
  {
    var top, rest := w.stack[|w.stack| - 1], w.stack[..|w.stack| - 1];
    assert top in w.stack;
    FieldsWeigh(defs, keys, refs, top.0, top.1);
    assert FieldEntries(defs, top.0, Again(defs, top.0)) == [];
    WeightConcat(defs, keys, rest, FieldEntries(defs, top.0, top.1));
    assert Round(defs, w).stack == rest + FieldEntries(defs, top.0, top.1);
  }

  lemma SmallerWithout(s: set<string>, x: string)
    requires x in s
    ensures |s - {x}| < |s|
  {
  }

  // ---------------------------------------------------------------------
  // When the loop terminates
  // ---------------------------------------------------------------------

  /** The state after n rounds, or when the stack ran empty before. */
  function Rounds(defs: Definitions, w: Work, n: nat): Work {
    if n == 0 then w
    else
      var before := Rounds(defs, w, n - 1);
      if before.stack == [] then before else Round(defs, before)
  }

  lemma {:induction false} RoundsShift(defs: Definitions, w: Work, n: nat)
    requires w.stack != []
    ensures Rounds(defs, w, n + 1) == Rounds(defs, Round(defs, w), n)
  {
    if n == 0 {
      assert Rounds(defs, w, 0) == w;
    } else {
      RoundsShift(defs, w, n - 1);
    }
  }

  /** The measure runs out. */
  lemma {:induction false} StackEmpties(defs: Definitions, keys: set<string>, refs: set<string>, w: Work)
    returns (n: nat)
    requires ItemsChainsEnd(defs) && DocumentWithin(defs, keys, refs)
    requires StackWithin(keys, refs, w.stack) && (forall m :: m in w.found ==> m in refs)
    ensures Rounds(defs, w, n).stack == []
    decreases |keys - w.visited|, Weight(defs, keys, w.stack)
  {
    n := 0;
    if w.stack != [] {
      RoundDecreases(defs, keys, refs, w);
      RoundStaysWithin(defs, keys, refs, w);
      n := StackEmpties(defs, keys, refs, Round(defs, w));
      RoundsShift(defs, w, n);
      n := n + 1;
    }
  }

  /** The worklist started on a definition. */
  function Started(defs: Definitions, m: string): Work
    requires m in defs
  {
    Work({}, [], [(m, Inline(defs[m]))])
  }

  lemma EndingChainsTerminate(defs: Definitions, m: string) returns (n: nat)
    requires ItemsChainsEnd(defs) && m in defs
    ensures Rounds(defs, Started(defs, m), n).stack == []
  {
    var p := Inline(defs[m]);
    var keys := UniverseExists(defs, m, p);
    n := StackEmpties(defs, keys, DocumentRefs(defs, p), Started(defs, m));
  }

  /** The name invented for the items of the items ... of m, k deep. */
  function MadeUp(m: string, k: nat): string {
    if k == 0 then m else MadeUp(m, k - 1) + "Items"
  }

  lemma {:induction false} MadeUpLength(m: string, k: nat)
    ensures |MadeUp(m, k)| == |m| + 5 * k
  {
    if k > 0 { MadeUpLength(m, k - 1); }
  }

  /** The name is invented from m at depth k or deeper. */
  ghost predicate Deep(m: string, k: nat, name: string) {
    exists j: nat :: j >= k && name == MadeUp(m, j)
  }

  lemma ShallowIsNotDeep(m: string, j: nat, k: nat)
    requires j < k
    ensures !Deep(m, k, MadeUp(m, j))
  {
    forall i: nat | i >= k ensures MadeUp(m, i) != MadeUp(m, j) {
      MadeUpLength(m, i);
      MadeUpLength(m, j);
    }
  }

  lemma DepthOf(m: string, k: nat, name: string) returns (j: nat)
    requires Deep(m, k, name)
    ensures j >= k && name == MadeUp(m, j)
  {
    j :| j >= k && name == MadeUp(m, j);
  }

  lemma DeeperIsDeep(m: string, j: nat, k: nat, name: string)
    requires j >= k && Deep(m, j, name)
    ensures Deep(m, k, name)
  {
  }

  lemma MadeUpFrom(m: string, k: nat, model: string)
    requires k > 0 && model + "Items" == MadeUp(m, k)
    ensures model == MadeUp(m, k - 1)
  {
    var before := MadeUp(m, k - 1);
    assert model + "Items" == before + "Items";
    assert |model| == |before|;
    assert model == (model + "Items")[..|model|] == (before + "Items")[..|before|] == before;
  }

  /** Definition names, property keys and referenced names of the document. */
  ghost function DocumentNames(defs: Definitions): set<string> {
    (set m, k | m in defs && k in SchemaKeysOf(defs[m]) :: k) + defs.Keys + DefinitionRefs(defs)
  }

  lemma DocumentNamesSuffice(defs: Definitions)
    ensures DocumentWithin(defs, DocumentNames(defs), DefinitionRefs(defs))
  {
    var keys, refs := DocumentNames(defs), DefinitionRefs(defs);
    forall m | m in defs ensures SchemaWithin(keys, refs, defs[m]) {
      forall k | k in SchemaKeysOf(defs[m]) ensures k in keys {
      }
      forall k | k in SchemaRefsOf(defs[m]) ensures k in refs {
      }
      SchemaCollectedIsWithin(keys, refs, defs[m]);
    }
  }

  /** No name of the document is one that the loop would invent from m. */
  ghost predicate Unclashing(defs: Definitions, m: string) {
    forall name :: name in DocumentNames(defs) ==> !Deep(m, 1, name)
  }

  /** The chain of items from p goes on forever. */
  ghost predicate Endless(defs: Definitions, p: Proxy) {
    forall n: nat :: !Ends(defs, p, n)
  }

  lemma EndlessGoesOn(defs: Definitions, p: Proxy)
    requires Endless(defs, p)
    ensures SchemaOf(defs, p).items.Some? && Endless(defs, SchemaOf(defs, p).items.value)
  {
    assert !Ends(defs, p, 0);
    var items := SchemaOf(defs, p).items;
    forall n: nat ensures !Ends(defs, items.value, n) {
      assert !Ends(defs, p, n + 1);
    }
  }

  /** Every name pushed is a name of the document, or the invented one, which stands for the items. */
  ghost predicate Ordinary(defs: Definitions, model: string, e: Entry, p: Proxy) {
    e.0 in DocumentNames(defs) || (e.0 == model + "Items" && SchemaOf(defs, p).items == Some(e.1))
  }

  ghost predicate DocumentProxy(defs: Definitions, p: Proxy) {
    Within(DocumentNames(defs), DefinitionRefs(defs), p)
  }

  ghost predicate DocumentStack(defs: Definitions, stack: seq<Entry>) {
    StackWithin(DocumentNames(defs), DefinitionRefs(defs), stack)
  }

  lemma FieldsAreOrdinary(defs: Definitions, model: string, p: Proxy)
    requires DocumentProxy(defs, p)
    ensures forall e :: e in FieldEntries(defs, model, p) ==> Ordinary(defs, model, e, p)
    ensures DocumentStack(defs, FieldEntries(defs, model, p))
    ensures var s := SchemaOf(defs, p);
            s.items.Some? ==> (model + "Items", s.items.value) in FieldEntries(defs, model, p)
  {
    var keys, refs := DocumentNames(defs), DefinitionRefs(defs);
    var s := SchemaOf(defs, p);
    var props, own := PropsEntries(defs, s.props, |s.props|), OwnItemsEntries(model, s.items);
    DocumentNamesSuffice(defs);
    assert SchemaWithin(keys, refs, s);
    PropsStayWithin(defs, keys, refs, s.props, |s.props|);
    if s.items.Some? { assert own[0] in own; }
  }

  lemma AgainIsOfDocument(defs: Definitions, model: string)
    ensures DocumentProxy(defs, Again(defs, model))
  {
    DocumentNamesSuffice(defs);
  }

  lemma PushedIsOrdinary(defs: Definitions, top: Entry)
    requires DocumentProxy(defs, top.1)
    ensures forall e :: e in Pushed(defs, top) ==>
              Ordinary(defs, top.0, e, top.1) || Ordinary(defs, top.0, e, Again(defs, top.0))
    ensures DocumentStack(defs, Pushed(defs, top))
    ensures var s := SchemaOf(defs, top.1);
            s.items.Some? ==> (top.0 + "Items", s.items.value) in Pushed(defs, top)
  {
    FieldsAreOrdinary(defs, top.0, top.1);
    AgainIsOfDocument(defs, top.0);
    FieldsAreOrdinary(defs, top.0, Again(defs, top.0));
  }

  /** No name invented from m at depth k or deeper has been visited. */
  ghost predicate Fresh(m: string, k: nat, visited: set<string>) {
    forall name :: name in visited ==> !Deep(m, k, name)
  }

  /** Entries under such names stand for endless chains. */
  ghost predicate DeepIsEndless(defs: Definitions, m: string, k: nat, stack: seq<Entry>) {
    forall e: Entry :: e in stack && Deep(m, k, e.0) ==> Endless(defs, e.1)
  }

  ghost predicate WaitsAt(defs: Definitions, name: string, stack: seq<Entry>) {
    exists e :: e in stack && e.0 == name && Endless(defs, e.1)
  }

  /** An endless chain waits on the stack under the name invented at depth k, and none deeper was visited. */
  ghost predicate Waiting(defs: Definitions, m: string, k: nat, w: Work) {
    && k > 0
    && WaitsAt(defs, MadeUp(m, k), w.stack)
    && MadeUp(m, k - 1) in w.visited
    && Fresh(m, k, w.visited)
    && DeepIsEndless(defs, m, k, w.stack)
    && DocumentStack(defs, w.stack)
  }

  /** What a visit pushes under an invented name comes from the visit of the name one shallower. */
  lemma DeepComesFromAbove(defs: Definitions, m: string, k: nat, top: Entry, e: Entry) returns (j: nat)
    requires Unclashing(defs, m) && DocumentProxy(defs, top.1)
    requires k > 0 && e in Pushed(defs, top) && Deep(m, k, e.0)
    ensures j >= k && top.0 == MadeUp(m, j - 1)
    ensures SchemaOf(defs, top.1).items == Some(e.1) || SchemaOf(defs, Again(defs, top.0)).items == Some(e.1)
  {
    PushedIsOrdinary(defs, top);
    DeeperIsDeep(m, k, 1, e.0);
    assert e.0 !in DocumentNames(defs);
    j := DepthOf(m, k, e.0);
    MadeUpFrom(m, j, top.0);
  }

  lemma FirstRoundWaits(defs: Definitions, m: string)
    requires m in defs && Unclashing(defs, m) && Endless(defs, Inline(defs[m]))
    ensures Waiting(defs, m, 1, Round(defs, Started(defs, m)))
  {
    var top := (m, Inline(defs[m]));
    var w := Round(defs, Started(defs, m));
    AgainIsOfDocument(defs, m);
    RoundPushes(defs, Started(defs, m));
    assert w.stack == Pushed(defs, top);
    PushedIsOrdinary(defs, top);
    EndlessGoesOn(defs, top.1);
    assert MadeUp(m, 1) == MadeUp(m, 0) + "Items" == m + "Items";
    assert (MadeUp(m, 1), defs[m].items.value) in w.stack;
    ShallowIsNotDeep(m, 0, 1);
    forall e: Entry | e in w.stack && Deep(m, 1, e.0) ensures Endless(defs, e.1) {
      var j := DeepComesFromAbove(defs, m, 1, top, e);
    }
  }

  lemma SkippedRoundWaits(defs: Definitions, m: string, k: nat, w: Work)
    requires Waiting(defs, m, k, w) && w.stack != [] && w.stack[|w.stack| - 1].0 in w.visited
    ensures Waiting(defs, m, k, Round(defs, w))
  {
    var top, rest := w.stack[|w.stack| - 1], w.stack[..|w.stack| - 1];
    assert w.stack == rest + [top];
    var e :| e in w.stack && e.0 == MadeUp(m, k) && Endless(defs, e.1);
    assert Deep(m, k, e.0);
    assert e != top;
    assert e in rest;
  }

  lemma PushedUnderInvented(defs: Definitions, m: string, top: Entry)
    requires Unclashing(defs, m) && Deep(m, 1, top.0)
    ensures SchemaOf(defs, Again(defs, top.0)).items.None?
  {
    assert top.0 !in DocumentNames(defs);
  }

  lemma DeeperStaysFresh(m: string, k: nat, visited: set<string>, j: nat)
    requires Fresh(m, k, visited) && j >= k
    ensures Fresh(m, j + 1, visited + {MadeUp(m, j)})
  {
    ShallowIsNotDeep(m, j, j + 1);
    forall name | name in visited ensures !Deep(m, j + 1, name) {
      if Deep(m, j + 1, name) { DeeperIsDeep(m, j + 1, k, name); }
    }
  }

  lemma DeeperStackIsEndless(defs: Definitions, m: string, k: nat, rest: seq<Entry>, top: Entry, j: nat)
    requires Unclashing(defs, m) && DocumentProxy(defs, top.1) && k > 0
    requires DeepIsEndless(defs, m, k, rest + [top]) && j >= k && top.0 == MadeUp(m, j)
    ensures DeepIsEndless(defs, m, j + 1, rest + Pushed(defs, top))
    ensures WaitsAt(defs, MadeUp(m, j + 1), rest + Pushed(defs, top))
  {
    assert top in rest + [top] && Deep(m, k, top.0) && Deep(m, 1, top.0);
    EndlessGoesOn(defs, top.1);
    PushedIsOrdinary(defs, top);
    var made := (top.0 + "Items", SchemaOf(defs, top.1).items.value);
    assert made.0 == MadeUp(m, j + 1) && made in rest + Pushed(defs, top);
    PushedUnderInvented(defs, m, top);
    forall e: Entry | e in rest + Pushed(defs, top) && Deep(m, j + 1, e.0) ensures Endless(defs, e.1) {
      if e in rest {
        DeeperIsDeep(m, j + 1, k, e.0);
        assert e in rest + [top];
      } else {
        var i := DeepComesFromAbove(defs, m, j + 1, top, e);
      }
    }
  }

  /** Visiting the name invented at depth j pushes the one at depth j + 1. */
  lemma DeeperRoundWaits(defs: Definitions, m: string, k: nat, w: Work, j: nat)
    requires Unclashing(defs, m) && Waiting(defs, m, k, w) && w.stack != []
    requires w.stack[|w.stack| - 1].0 !in w.visited && j >= k && w.stack[|w.stack| - 1].0 == MadeUp(m, j)
    ensures Waiting(defs, m, j + 1, Round(defs, w))
  {
    var top, rest := w.stack[|w.stack| - 1], w.stack[..|w.stack| - 1];
    assert w.stack == rest + [top] && top in w.stack;
    RoundPushes(defs, w);
    PushedIsOrdinary(defs, top);
    DeeperStaysFresh(m, k, w.visited, j);
    DeeperStackIsEndless(defs, m, k, rest, top, j);
    assert Round(defs, w).visited == w.visited + {MadeUp(m, j)};
  }

  lemma AboveIsDeep(m: string, k: nat, j: nat)
    requires j >= k > 0
    ensures j == k || Deep(m, k, MadeUp(m, j - 1))
  {
  }

  lemma NothingDeepIsPushed(defs: Definitions, m: string, k: nat, top: Entry, visited: set<string>, e: Entry)
    requires Unclashing(defs, m) && k > 0 && DocumentProxy(defs, top.1)
    requires top.0 !in visited && MadeUp(m, k - 1) in visited && !Deep(m, k, top.0)
    requires e in Pushed(defs, top)
    ensures !Deep(m, k, e.0)
  {
    if Deep(m, k, e.0) {
      var j := DeepComesFromAbove(defs, m, k, top, e);
      AboveIsDeep(m, k, j);
    }
  }

  lemma OtherRoundWaits(defs: Definitions, m: string, k: nat, w: Work)
    requires Unclashing(defs, m) && Waiting(defs, m, k, w) && w.stack != []
    requires w.stack[|w.stack| - 1].0 !in w.visited && !Deep(m, k, w.stack[|w.stack| - 1].0)
    ensures Waiting(defs, m, k, Round(defs, w))
  {
    var top, rest := w.stack[|w.stack| - 1], w.stack[..|w.stack| - 1];
    var w' := Round(defs, w);
    assert w.stack == rest + [top] && top in w.stack;
    RoundPushes(defs, w);
    PushedIsOrdinary(defs, top);
    var waits :| waits in w.stack && waits.0 == MadeUp(m, k) && Endless(defs, waits.1);
    assert Deep(m, k, waits.0);
    assert waits in rest && waits in w'.stack;
    forall e | e in Pushed(defs, top) ensures !Deep(m, k, e.0) {
      NothingDeepIsPushed(defs, m, k, top, w.visited, e);
    }
  }

  ghost predicate StillWaits(defs: Definitions, m: string, w: Work) {
    exists k: nat :: Waiting(defs, m, k, w)
  }

  lemma VisitKeepsWaiting(defs: Definitions, m: string, k: nat, w: Work)
    requires Unclashing(defs, m) && Waiting(defs, m, k, w) && w.stack != []
    requires w.stack[|w.stack| - 1].0 !in w.visited
    ensures StillWaits(defs, m, Round(defs, w))
  {
    if Deep(m, k, w.stack[|w.stack| - 1].0) {
      var j := DepthOf(m, k, w.stack[|w.stack| - 1].0);
      DeeperRoundWaits(defs, m, k, w, j);
    } else {
      OtherRoundWaits(defs, m, k, w);
    }
  }

  lemma RoundKeepsWaiting(defs: Definitions, m: string, w: Work)
    requires Unclashing(defs, m) && StillWaits(defs, m, w) && w.stack != []
    ensures StillWaits(defs, m, Round(defs, w))
  {
    var k: nat :| Waiting(defs, m, k, w);
    if w.stack[|w.stack| - 1].0 in w.visited {
      SkippedRoundWaits(defs, m, k, w);
    } else {
      VisitKeepsWaiting(defs, m, k, w);
    }
  }

  lemma WaitingIsNotEmpty(defs: Definitions, m: string, w: Work)
    requires StillWaits(defs, m, w)
    ensures w.stack != []
  {
    var k: nat :| Waiting(defs, m, k, w);
    assert WaitsAt(defs, MadeUp(m, k), w.stack);
  }

  lemma {:induction false} WaitingForever(defs: Definitions, m: string, n: nat)
    requires m in defs && Unclashing(defs, m) && Endless(defs, Inline(defs[m]))
    ensures StillWaits(defs, m, Rounds(defs, Started(defs, m), n + 1))
    decreases n
  {
    var start := Started(defs, m);
    if n == 0 {
      assert Rounds(defs, start, 0) == start;
      FirstRoundWaits(defs, m);
    } else {
      WaitingForever(defs, m, n - 1);
      WaitingIsNotEmpty(defs, m, Rounds(defs, start, n));
      RoundKeepsWaiting(defs, m, Rounds(defs, start, n));
    }
  }

  lemma SameChain(defs: Definitions, p: Proxy, q: Proxy, n: nat)
    requires SchemaOf(defs, p) == SchemaOf(defs, q)
    ensures Ends(defs, p, n) <==> Ends(defs, q, n)
  {
  }

  lemma DefinitionChain(defs: Definitions, m: string)
    requires m in defs && forall n: nat :: !Ends(defs, Ref(m), n)
    ensures Endless(defs, Inline(defs[m]))
  {
    forall n: nat ensures !Ends(defs, Inline(defs[m]), n) { SameChain(defs, Ref(m), Inline(defs[m]), n); }
  }

  /** An endless items chain from m keeps the loop going for any number of rounds. */
  lemma EndlessChainNeverEmpties(defs: Definitions, m: string, n: nat)
    requires m in defs && Unclashing(defs, m) && Endless(defs, Ref(m))
    ensures Rounds(defs, Started(defs, m), n).stack != []
  {
    DefinitionChain(defs, m);
    if n > 0 {
      WaitingForever(defs, m, n - 1);
      WaitingIsNotEmpty(defs, m, Rounds(defs, Started(defs, m), n));
    }
  }

  /** The loop started on m comes to its end. */
  ghost predicate Terminates(defs: Definitions, m: string)
    requires m in defs
  {
    exists n: nat :: Rounds(defs, Started(defs, m), n).stack == []
  }

  /**
   On documents whose names do not look like invented ones, the loop terminates
   for every model if and only if no chain of array items goes on forever.
   */
  lemma TerminatesIff(defs: Definitions)
    requires forall m :: m in defs ==> Unclashing(defs, m)
    ensures (forall m :: m in defs ==> Terminates(defs, m)) <==> ItemsChainsEnd(defs)
  {
    if ItemsChainsEnd(defs) {
      forall m | m in defs ensures Terminates(defs, m) {
        var n := EndingChainsTerminate(defs, m);
      }
    } else {
      var m :| m in defs && !exists n: nat :: Ends(defs, Ref(m), n);
      forall n: nat ensures Rounds(defs, Started(defs, m), n).stack != [] {
        EndlessChainNeverEmpties(defs, m, n);
      }
    }
  }

  /** One model, an array of itself. */
  function SelfArray(l: string): Definitions {
    map[l := Schema([], Some(Ref(l)))]
  }

  lemma {:induction false} SelfChainNeverEnds(l: string, k: nat)
    ensures !Ends(SelfArray(l), Ref(l), k)
    decreases k
  {
    if k > 0 { SelfChainNeverEnds(l, k - 1); }
  }

  lemma SelfArrayNames(l: string)
    ensures DocumentNames(SelfArray(l)) <= {l}
  {
    forall k | k in DocumentNames(SelfArray(l)) ensures k == l {
      assert SchemaKeysOf(SelfArray(l)[l]) == {} && SchemaRefsOf(SelfArray(l)[l]) == {l};
    }
  }

  /** The names invented for array items keep a self-array going for any number of rounds. */
  lemma SelfArrayNeverEnds(l: string, n: nat)
    ensures Rounds(SelfArray(l), Started(SelfArray(l), l), n).stack != []
    ensures !ItemsChainsEnd(SelfArray(l))
  {
    SelfArrayNames(l);
    ShallowIsNotDeep(l, 0, 1);
    forall k: nat ensures !Ends(SelfArray(l), Ref(l), k) { SelfChainNeverEnds(l, k); }
    EndlessChainNeverEmpties(SelfArray(l), l, n);
  }
}
