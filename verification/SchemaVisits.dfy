/**
 What the worklist of scripts/fetch_models.go visits, and under which schema: a
 record of the run that says what was visited, why, and what was found there,
 without saying how the code keeps its stacks.
 */
module SchemaVisits {
  import opened Common
  import opened SchemaGraph

  /** A visited name with the schema it came with. */
  datatype Visit = Visit(name: string, schema: Schema)

  /**
   From name u with schema s the worklist may go on to v: to a property, under
   its own schema; to a model that s refers to, under its definition; and to the
   items of s, under an invented name.
   */
  ghost predicate Offers(defs: Definitions, u: string, s: Schema, v: Visit) {
    || (exists prop :: prop in s.props && v == Visit(prop.key, SchemaOf(defs, prop.value)))
    || (Refers(defs, s, v.name) && v.schema == SchemaOf(defs, Ref(v.name)))
    || (s.items.Some? && v == Visit(u + "Items", SchemaOf(defs, s.items.value)))
  }

  /** A visit looks at the schema it came with and at the definition called like it. */
  ghost predicate LeadsTo(defs: Definitions, u: Visit, v: Visit) {
    Offers(defs, u.name, u.schema, v) || (u.name in defs && Offers(defs, u.name, defs[u.name], v))
  }

  ghost predicate Finds(defs: Definitions, u: Visit, n: string) {
    Refers(defs, u.schema, n) || DirectRef(defs, u.name, n)
  }

  ghost predicate Visited(visits: seq<Visit>, name: string) {
    exists i :: 0 <= i < |visits| && visits[i].name == name
  }

  ghost predicate LedTo(defs: Definitions, visits: seq<Visit>, v: Visit) {
    exists i :: 0 <= i < |visits| && LeadsTo(defs, visits[i], v)
  }

  ghost predicate FoundBy(defs: Definitions, visits: seq<Visit>, n: string) {
    exists i :: 0 <= i < |visits| && Finds(defs, visits[i], n)
  }

  /** Every visit but the first was led to by an earlier one. */
  ghost predicate Grounded(defs: Definitions, first: Visit, visits: seq<Visit>) {
    visits != [] && visits[0] == first && forall i :: 0 < i < |visits| ==> LedTo(defs, visits[..i], visits[i])
  }

  ghost predicate EachOnce(visits: seq<Visit>) {
    forall i, j :: 0 <= i < j < |visits| ==> visits[i].name != visits[j].name
  }

  /**
   A whole exploration: no name is visited twice, every name that some visit leads
   to is visited, no visit is without a reason, and found is exactly what the
   visits find.
   */
  ghost predicate Explored(defs: Definitions, first: Visit, visits: seq<Visit>, found: seq<string>) {
    && Grounded(defs, first, visits)
    && EachOnce(visits)
    && (forall i, v :: 0 <= i < |visits| && LeadsTo(defs, visits[i], v) ==> Visited(visits, v.name))
    && (forall n :: n in found <==> FoundBy(defs, visits, n))
  }

  // ---------------------------------------------------------------------
  // The code explores
  // ---------------------------------------------------------------------

  function VisitOf(defs: Definitions, e: Entry): Visit {
    Visit(e.0, SchemaOf(defs, e.1))
  }

  lemma PropEntriesAreOffered(defs: Definitions, u: string, s: Schema, prop: Property, e: Entry)
    requires prop in s.props && e in PropEntries(defs, prop)
    ensures Offers(defs, u, s, VisitOf(defs, e))
  {
    if e != (prop.key, prop.value) { assert PropRefers(defs, prop, e.0) && e.1 == Ref(e.0); }
  }

  /** Everything an extraction pushes is offered by the schema. */
  lemma FieldEntriesAreOffered(defs: Definitions, u: string, def: Proxy, e: Entry)
    requires e in FieldEntries(defs, u, def)
    ensures Offers(defs, u, SchemaOf(defs, def), VisitOf(defs, e))
  {
    var s := SchemaOf(defs, def);
    if e in PropsEntries(defs, s.props, |s.props|) {
      EntriesOfProps(defs, s.props, |s.props|, e);
      var i :| 0 <= i < |s.props| && e in PropEntries(defs, s.props[i]);
      PropEntriesAreOffered(defs, u, s, s.props[i], e);
    } else {
      assert e in OwnItemsEntries(u, s.items);
    }
  }

  lemma PropEntryIsPushed(defs: Definitions, u: string, def: Proxy, prop: Property, e: Entry)
    requires prop in SchemaOf(defs, def).props && e in PropEntries(defs, prop)
    ensures e in FieldEntries(defs, u, def)
  {
    var props := SchemaOf(defs, def).props;
    var i :| 0 <= i < |props| && props[i] == prop;
    EntriesOfProps(defs, props, |props|, e);
  }

  lemma PropRefIsPushed(defs: Definitions, prop: Property, n: string)
    requires PropRefers(defs, prop, n)
    ensures (n, Ref(n)) in PropEntries(defs, prop)
  {
    var items := SchemaOf(defs, prop.value).items;
    if prop.value == Ref(n) {
      assert (n, prop.value) in PropEntries(defs, prop);
    } else {
      assert (n, items.value) in PropEntries(defs, prop);
    }
  }

  /** Everything the schema offers is pushed, with its own schema. */
  lemma OfferedIsPushed(defs: Definitions, u: string, def: Proxy, v: Visit) returns (e: Entry)
    requires Offers(defs, u, SchemaOf(defs, def), v)
    ensures e in FieldEntries(defs, u, def) && VisitOf(defs, e) == v
  {
    var s := SchemaOf(defs, def);
    if exists prop :: prop in s.props && v == Visit(prop.key, SchemaOf(defs, prop.value)) {
      var prop :| prop in s.props && v == Visit(prop.key, SchemaOf(defs, prop.value));
      e := (prop.key, prop.value);
      assert PropEntries(defs, prop)[0] == e;
      PropEntryIsPushed(defs, u, def, prop, e);
    } else if s.items.Some? && v == Visit(u + "Items", SchemaOf(defs, s.items.value)) {
      e := (u + "Items", s.items.value);
      assert OwnItemsEntries(u, s.items)[0] == e;
    } else {
      e := (v.name, Ref(v.name));
      if s.items == Some(Ref(v.name)) {
        assert (v.name, s.items.value) in OwnItemsEntries(u, s.items);
      } else {
        var prop :| prop in s.props && PropRefers(defs, prop, v.name);
        PropRefIsPushed(defs, prop, v.name);
        PropEntryIsPushed(defs, u, def, prop, e);
      }
    }
  }

  lemma PushedIsLedTo(defs: Definitions, top: Entry, e: Entry)
    requires e in Pushed(defs, top)
    ensures LeadsTo(defs, VisitOf(defs, top), VisitOf(defs, e))
  {
    if e in FieldEntries(defs, top.0, top.1) {
      FieldEntriesAreOffered(defs, top.0, top.1, e);
    } else {
      if top.0 !in defs { NothingToExtract(defs, top.0); }
      FieldEntriesAreOffered(defs, top.0, Again(defs, top.0), e);
    }
  }

  lemma LedToIsPushed(defs: Definitions, top: Entry, v: Visit) returns (e: Entry)
    requires LeadsTo(defs, VisitOf(defs, top), v)
    ensures e in Pushed(defs, top) && VisitOf(defs, e) == v
  {
    if Offers(defs, top.0, SchemaOf(defs, top.1), v) {
      e := OfferedIsPushed(defs, top.0, top.1, v);
    } else {
      e := OfferedIsPushed(defs, top.0, Again(defs, top.0), v);
    }
  }

  lemma FoundAtIsFinds(defs: Definitions, top: Entry, n: string)
    ensures n in FoundAt(defs, top) <==> Finds(defs, VisitOf(defs, top), n)
  {
    FieldNamesAreRefs(defs, top.1, n);
    FieldNamesAreRefs(defs, Again(defs, top.0), n);
    if top.0 !in defs { NothingToExtract(defs, top.0); }
  }

  ghost predicate StackOk(defs: Definitions, first: Visit, visits: seq<Visit>, stack: seq<Entry>) {
    if visits == [] then |stack| == 1 && VisitOf(defs, stack[0]) == first
    else Grounded(defs, first, visits) && forall e :: e in stack ==> LedTo(defs, visits, VisitOf(defs, e))
  }

  ghost predicate RestWaits(defs: Definitions, visits: seq<Visit>, stack: seq<Entry>) {
    forall i, v :: 0 <= i < |visits| && LeadsTo(defs, visits[i], v) ==> Visited(visits, v.name) || Names(stack, v.name)
  }

  ghost predicate VisitedOk(visits: seq<Visit>, visited: set<string>) {
    EachOnce(visits) && forall n :: n in visited <==> Visited(visits, n)
  }

  ghost predicate FoundOk(defs: Definitions, visits: seq<Visit>, found: seq<string>) {
    forall n :: n in found <==> FoundBy(defs, visits, n)
  }

  /** What is known between rounds: the visits so far, and everything else they lead to is on the stack. */
  ghost predicate RecordOk(defs: Definitions, first: Visit, visits: seq<Visit>, w: Work) {
    && VisitedOk(visits, w.visited)
    && StackOk(defs, first, visits, w.stack)
    && RestWaits(defs, visits, w.stack)
    && FoundOk(defs, visits, w.found)
  }

  lemma LongerRecord(defs: Definitions, visits: seq<Visit>, v: Visit)
    ensures forall n :: Visited(visits + [v], n) <==> Visited(visits, n) || v.name == n
    ensures forall n :: FoundBy(defs, visits + [v], n) <==> FoundBy(defs, visits, n) || Finds(defs, v, n)
    ensures forall u :: LedTo(defs, visits + [v], u) <==> LedTo(defs, visits, u) || LeadsTo(defs, v, u)
  {
    var more := visits + [v];
    assert more[|visits|] == v && forall i :: 0 <= i < |visits| ==> more[i] == visits[i];
    forall n | Visited(visits, n) ensures Visited(more, n) {
      var i :| 0 <= i < |visits| && visits[i].name == n;
      assert more[i].name == n;
    }
    forall n | FoundBy(defs, visits, n) ensures FoundBy(defs, more, n) {
      var i :| 0 <= i < |visits| && Finds(defs, visits[i], n);
      assert Finds(defs, more[i], n);
    }
    forall u | LedTo(defs, visits, u) ensures LedTo(defs, more, u) {
      var i :| 0 <= i < |visits| && LeadsTo(defs, visits[i], u);
      assert LeadsTo(defs, more[i], u);
    }
  }

  lemma LongerIsGrounded(defs: Definitions, first: Visit, visits: seq<Visit>, v: Visit)
    requires if visits == [] then v == first else Grounded(defs, first, visits) && LedTo(defs, visits, v)
    ensures Grounded(defs, first, visits + [v])
  {
    var more := visits + [v];
    forall i | 0 < i < |more| ensures LedTo(defs, more[..i], more[i]) {
      if i < |visits| {
        assert more[..i] == visits[..i] && LedTo(defs, visits[..i], visits[i]);
      } else {
        assert more[..i] == visits;
      }
    }
  }

  lemma SkipKeepsRecord(defs: Definitions, first: Visit, visits: seq<Visit>, w: Work)
    requires RecordOk(defs, first, visits, w) && w.stack != [] && w.stack[|w.stack| - 1].0 in w.visited
    ensures RecordOk(defs, first, visits, Round(defs, w))
  {
    var top, rest := w.stack[|w.stack| - 1], w.stack[..|w.stack| - 1];
    assert w.stack == rest + [top] && Round(defs, w) == w.(stack := rest);
    StackWithout(defs, first, visits, rest, top);
    RestWaitsWithout(defs, visits, rest, top);
  }

  lemma StackWithout(defs: Definitions, first: Visit, visits: seq<Visit>, rest: seq<Entry>, top: Entry)
    requires StackOk(defs, first, visits, rest + [top]) && Visited(visits, top.0)
    ensures StackOk(defs, first, visits, rest)
  {
    forall e | e in rest ensures LedTo(defs, visits, VisitOf(defs, e)) {
      assert e in rest + [top];
    }
  }

  lemma RestWaitsWithout(defs: Definitions, visits: seq<Visit>, rest: seq<Entry>, top: Entry)
    requires RestWaits(defs, visits, rest + [top]) && Visited(visits, top.0)
    ensures RestWaits(defs, visits, rest)
  {
    forall i, v | 0 <= i < |visits| && LeadsTo(defs, visits[i], v)
      ensures Visited(visits, v.name) || Names(rest, v.name)
    {
      NamesOfConcat(rest, [top], v.name);
    }
  }

  lemma NamesWaiting(defs: Definitions, visits: seq<Visit>, rest: seq<Entry>, top: Entry, i: nat, v: Visit)
    requires RestWaits(defs, visits, rest + [top])
    requires i <= |visits| && LeadsTo(defs, (visits + [VisitOf(defs, top)])[i], v)
    ensures Visited(visits, v.name) || v.name == top.0 || Names(rest + Pushed(defs, top), v.name)
  {
    NamesOfConcat(rest, Pushed(defs, top), v.name);
    if i < |visits| {
      assert LeadsTo(defs, visits[i], v);
      NamesOfConcat(rest, [top], v.name);
    } else {
      var e := LedToIsPushed(defs, top, v);
      assert Names(Pushed(defs, top), v.name);
    }
  }

  lemma RestStillWaits(defs: Definitions, visits: seq<Visit>, rest: seq<Entry>, top: Entry)
    requires RestWaits(defs, visits, rest + [top])
    ensures RestWaits(defs, visits + [VisitOf(defs, top)], rest + Pushed(defs, top))
  {
    var more := visits + [VisitOf(defs, top)];
    LongerRecord(defs, visits, VisitOf(defs, top));
    forall i, u | 0 <= i < |more| && LeadsTo(defs, more[i], u)
      ensures Visited(more, u.name) || Names(rest + Pushed(defs, top), u.name)
    {
      NamesWaiting(defs, visits, rest, top, i, u);
    }
  }

  lemma FoundInRound(defs: Definitions, visits: seq<Visit>, w: Work)
    requires w.stack != [] && w.stack[|w.stack| - 1].0 !in w.visited && FoundOk(defs, visits, w.found)
    ensures FoundOk(defs, visits + [VisitOf(defs, w.stack[|w.stack| - 1])], Round(defs, w).found)
  {
    var top := w.stack[|w.stack| - 1];
    LongerRecord(defs, visits, VisitOf(defs, top));
    forall n ensures n in Round(defs, w).found <==> n in w.found || Finds(defs, VisitOf(defs, top), n) {
      FoundAtIsFinds(defs, top, n);
      assert n in Round(defs, w).found <==> n in w.found || n in FoundAt(defs, top);
    }
  }

  lemma OnceMore(defs: Definitions, visits: seq<Visit>, v: Visit, visited: set<string>)
    requires VisitedOk(visits, visited) && v.name !in visited
    ensures VisitedOk(visits + [v], visited + {v.name})
  {
    LongerRecord(defs, visits, v);
  }

  lemma StackIsLedTo(defs: Definitions, first: Visit, visits: seq<Visit>, rest: seq<Entry>, top: Entry)
    requires StackOk(defs, first, visits, rest + [top])
    ensures StackOk(defs, first, visits + [VisitOf(defs, top)], rest + Pushed(defs, top))
  {
    var stack := rest + [top];
    LongerRecord(defs, visits, VisitOf(defs, top));
    assert top in stack && stack[|stack| - 1] == top;
    LongerIsGrounded(defs, first, visits, VisitOf(defs, top));
    forall e | e in Pushed(defs, top) ensures LeadsTo(defs, VisitOf(defs, top), VisitOf(defs, e)) {
      PushedIsLedTo(defs, top, e);
    }
    forall e | e in rest ensures LedTo(defs, visits, VisitOf(defs, e)) {
      assert e in stack;
    }
  }

  lemma VisitKeepsRecord(defs: Definitions, first: Visit, visits: seq<Visit>, w: Work)
    requires RecordOk(defs, first, visits, w) && w.stack != [] && w.stack[|w.stack| - 1].0 !in w.visited
    ensures RecordOk(defs, first, visits + [VisitOf(defs, w.stack[|w.stack| - 1])], Round(defs, w))
  {
    var top, rest := w.stack[|w.stack| - 1], w.stack[..|w.stack| - 1];
    assert w.stack == rest + [top];
    RoundPushes(defs, w);
    OnceMore(defs, visits, VisitOf(defs, top), w.visited);
    StackIsLedTo(defs, first, visits, rest, top);
    RestStillWaits(defs, visits, rest, top);
    FoundInRound(defs, visits, w);
  }

  /** One round adds a visit to the record, or drops a name visited before. */
  lemma RoundKeepsRecord(defs: Definitions, first: Visit, visits: seq<Visit>, w: Work) returns (more: seq<Visit>)
    requires RecordOk(defs, first, visits, w) && w.stack != []
    ensures RecordOk(defs, first, more, Round(defs, w))
  {
    var top := w.stack[|w.stack| - 1];
    if top.0 in w.visited {
      SkipKeepsRecord(defs, first, visits, w);
      more := visits;
    } else {
      VisitKeepsRecord(defs, first, visits, w);
      more := visits + [VisitOf(defs, top)];
    }
  }

  lemma EmptyRecord(defs: Definitions, start: string, p: Proxy)
    ensures RecordOk(defs, Visit(start, SchemaOf(defs, p)), [], Work({}, [], [(start, p)]))
  {
  }

  /** Once the stack is empty the record is a whole exploration. */
  lemma EmptyStackIsExplored(defs: Definitions, first: Visit, visits: seq<Visit>, w: Work)
    requires RecordOk(defs, first, visits, w) && w.stack == []
    ensures Explored(defs, first, visits, w.found)
  {
  }

  // ---------------------------------------------------------------------
  // What an exploration finds
  // ---------------------------------------------------------------------

  lemma StepIsLedTo(defs: Definitions, u: Visit, b: string) returns (v: Visit)
    requires NameStep(defs, u.name, b)
    ensures LeadsTo(defs, u, v) && v.name == b
  {
    var s := defs[u.name];
    if DirectRef(defs, u.name, b) {
      v := Visit(b, SchemaOf(defs, Ref(b)));
    } else if s.items.Some? && b == u.name + "Items" {
      v := Visit(b, SchemaOf(defs, s.items.value));
    } else {
      var prop :| prop in s.props && prop.key == b;
      v := Visit(b, SchemaOf(defs, prop.value));
    }
  }

  /** Every name the start steps to, over references, property keys and invented names, is visited. */
  lemma {:induction false} StepsAreVisited(defs: Definitions, first: Visit, visits: seq<Visit>, found: seq<string>,
                                           path: seq<string>)
    requires Explored(defs, first, visits, found) && NamePath(defs, path) && path[0] == first.name
    ensures Visited(visits, path[|path| - 1])
    decreases |path|
  {
    var n := |path|;
    if n > 1 {
      StepsAreVisited(defs, first, visits, found, path[..n - 1]);
      var i :| 0 <= i < |visits| && visits[i].name == path[n - 2];
      assert NameStep(defs, path[n - 2], path[n - 1]);
      var v := StepIsLedTo(defs, visits[i], path[n - 1]);
    }
  }

  /** Every model referred to along the way is found, whether the way goes over models or over property keys. */
  ghost predicate FollowsNames(defs: Definitions, start: string, found: seq<string>) {
    forall path, b :: NamePath(defs, path) && path[0] == start && DirectRef(defs, path[|path| - 1], b) ==> b in found
  }

  lemma ExploredFollows(defs: Definitions, first: Visit, visits: seq<Visit>, found: seq<string>)
    requires Explored(defs, first, visits, found)
    ensures FollowsNames(defs, first.name, found)
  {
    forall path, b | NamePath(defs, path) && path[0] == first.name && DirectRef(defs, path[|path| - 1], b)
      ensures b in found
    {
      StepsAreVisited(defs, first, visits, found, path);
      var i :| 0 <= i < |visits| && visits[i].name == path[|path| - 1];
      assert Finds(defs, visits[i], b);
    }
  }

  /** Every model at the end of a reference path from the start is found. */
  lemma FollowingIsComplete(defs: Definitions, start: string, found: seq<string>, path: seq<string>)
    requires FollowsNames(defs, start, found) && RefPath(defs, path) && path[0] == start
    ensures path[|path| - 1] in found
  {
    var n := |path|;
    var way := path[..n - 1];
    forall i | 0 <= i < |way| - 1 ensures NameStep(defs, way[i], way[i + 1]) {
      assert DirectRef(defs, path[i], path[i + 1]);
    }
    assert NamePath(defs, way) && way[|way| - 1] == path[n - 2];
    assert DirectRef(defs, path[n - 2], path[n - 1]);
  }

  /** What is found is visited too, so its references are found as well. */
  lemma FoundIsClosed(defs: Definitions, first: Visit, visits: seq<Visit>, found: seq<string>, a: string, b: string)
    requires Explored(defs, first, visits, found) && a in found && DirectRef(defs, a, b)
    ensures b in found
  {
    var i :| 0 <= i < |visits| && Finds(defs, visits[i], a);
    assert LeadsTo(defs, visits[i], Visit(a, SchemaOf(defs, Ref(a))));
    var k :| 0 <= k < |visits| && visits[k].name == a;
    assert Finds(defs, visits[k], b);
  }

  /** n is the value of a property, the items of a property's inline or referenced schema, or the schema's own items. */
  ghost predicate Mentions(defs: Definitions, s: Schema, n: string) {
    || s.items == Some(Ref(n))
    || exists prop :: prop in s.props &&
         match prop.value
         case Ref(m) => m == n || (m in defs && defs[m].items == Some(Ref(n)))
         case Inline(t) => t.items == Some(Ref(n))
  }

  ghost predicate VisitMentions(defs: Definitions, v: Visit, n: string) {
    Mentions(defs, v.schema, n) || (v.name in defs && Mentions(defs, defs[v.name], n))
  }

  lemma RefersIsMentions(defs: Definitions, s: Schema, n: string)
    ensures Refers(defs, s, n) <==> Mentions(defs, s, n)
  {
    forall prop | prop in s.props
      ensures PropRefers(defs, prop, n) <==>
              match prop.value
              case Ref(m) => m == n || (m in defs && defs[m].items == Some(Ref(n)))
              case Inline(t) => t.items == Some(Ref(n))
    {
    }
  }

  /** Found is exactly what visited schemas, and definitions of visited models, mention. */
  lemma FoundIsMentioned(defs: Definitions, first: Visit, visits: seq<Visit>, found: seq<string>, n: string)
    requires Explored(defs, first, visits, found)
    ensures n in found <==> exists i :: 0 <= i < |visits| && VisitMentions(defs, visits[i], n)
  {
    forall i | 0 <= i < |visits| ensures Finds(defs, visits[i], n) <==> VisitMentions(defs, visits[i], n) {
      RefersIsMentions(defs, visits[i].schema, n);
      if visits[i].name in defs { RefersIsMentions(defs, defs[visits[i].name], n); }
    }
  }

  // ---------------------------------------------------------------------
  // Which names an exploration can lead to
  // ---------------------------------------------------------------------

  /** The names inside p, at any depth: keys in names, references in refs. */
  ghost predicate Inside(names: iset<string>, refs: iset<string>, p: Proxy) {
    (forall k :: k in KeysOf(p) ==> k in names) && (forall k :: k in RefsOf(p) ==> k in refs)
  }

  /** With a name, the set has the keys and references of its definition and the name invented from it. */
  ghost predicate ClosedNames(defs: Definitions, names: iset<string>) {
    && (forall m :: m in names && m in defs ==> Inside(names, names, Inline(defs[m])))
    && (forall m :: m in names ==> m + "Items" in names)
  }

  ghost predicate LeadsInto(defs: Definitions, start: string, p: Proxy, names: iset<string>) {
    start in names && Inside(names, names, p) && ClosedNames(defs, names)
  }

  /** The definition of some name in the set refers to n. */
  ghost predicate ReferredIn(defs: Definitions, names: iset<string>, n: string) {
    exists m :: m in names && m in defs && n in SchemaRefsOf(defs[m])
  }

  /** What p or the definitions of the set refer to. */
  ghost function ReferredFrom(defs: Definitions, p: Proxy, names: iset<string>): iset<string> {
    iset n: string | n in RefsOf(p) || ReferredIn(defs, names, n)
  }

  /** References found in definitions of the set are in refs, and refs is part of the set. */
  ghost predicate Sealed(defs: Definitions, names: iset<string>, refs: iset<string>) {
    && ClosedNames(defs, names)
    && (forall n :: n in refs ==> n in names)
    && (forall n :: ReferredIn(defs, names, n) ==> n in refs)
  }

  lemma SchemaStaysInside(defs: Definitions, names: iset<string>, refs: iset<string>, p: Proxy)
    requires Sealed(defs, names, refs) && Inside(names, refs, p)
    ensures Inside(names, refs, Inline(SchemaOf(defs, p)))
  {
    if p.Ref? {
      assert p.name in RefsOf(p);
      if p.name in defs {
        assert Inside(names, names, Inline(defs[p.name]));
        forall k | k in RefsOf(Inline(defs[p.name])) ensures k in refs {
          assert ReferredIn(defs, names, k);
        }
      }
    }
  }

  lemma PropertyStaysInside(names: iset<string>, refs: iset<string>, s: Schema, prop: Property)
    requires Inside(names, refs, Inline(s)) && prop in s.props
    ensures prop.key in names && Inside(names, refs, prop.value)
  {
    var key := prop.key;
    assert key in {prop.key} + KeysOf(prop.value);
    assert key in SchemaKeysOf(s);
    assert key in KeysOf(Inline(s));
    forall k | k in KeysOf(prop.value) ensures k in names {
      assert k in {prop.key} + KeysOf(prop.value);
      assert k in KeysOf(Inline(s));
    }
    forall k | k in RefsOf(prop.value) ensures k in refs {
      assert k in RefsOf(Inline(s));
    }
  }

  lemma ItemsStayInside(names: iset<string>, refs: iset<string>, s: Schema)
    requires Inside(names, refs, Inline(s)) && s.items.Some?
    ensures Inside(names, refs, s.items.value)
  {
    forall k | k in KeysOf(s.items.value) ensures k in names {
      assert k in KeysOf(Inline(s));
    }
    forall k | k in RefsOf(s.items.value) ensures k in refs {
      assert k in RefsOf(Inline(s));
    }
  }

  lemma AgainIsInside(defs: Definitions, names: iset<string>, refs: iset<string>, model: string)
    requires Sealed(defs, names, refs) && model in names
    ensures model in defs ==> Inside(names, refs, Inline(defs[model]))
  {
    if model in defs {
      assert Inside(names, names, Inline(defs[model]));
      forall k | k in RefsOf(Inline(defs[model])) ensures k in refs {
        assert ReferredIn(defs, names, k);
      }
    }
  }

  lemma LeadsSeals(defs: Definitions, start: string, p: Proxy, names: iset<string>)
    requires LeadsInto(defs, start, p, names)
    ensures Sealed(defs, names, ReferredFrom(defs, p, names))
    ensures Inside(names, ReferredFrom(defs, p, names), p)
  {
    forall n | ReferredIn(defs, names, n) ensures n in names {
      var m :| m in names && m in defs && n in SchemaRefsOf(defs[m]);
      assert Inside(names, names, Inline(defs[m]));
      assert n in RefsOf(Inline(defs[m]));
    }
  }

  lemma RefersInside(defs: Definitions, names: iset<string>, refs: iset<string>, s: Schema, n: string)
    requires Sealed(defs, names, refs) && Inside(names, refs, Inline(s)) && Refers(defs, s, n)
    ensures n in refs
  {
    if s.items == Some(Ref(n)) {
      ItemsStayInside(names, refs, s);
      assert n in RefsOf(s.items.value);
    } else {
      var prop :| prop in s.props && PropRefers(defs, prop, n);
      PropertyStaysInside(names, refs, s, prop);
      if prop.value == Ref(n) {
        assert n in RefsOf(prop.value);
      } else {
        SchemaStaysInside(defs, names, refs, prop.value);
        ItemsStayInside(names, refs, SchemaOf(defs, prop.value));
        assert n in RefsOf(SchemaOf(defs, prop.value).items.value);
      }
    }
  }

  ghost predicate VisitIn(names: iset<string>, refs: iset<string>, v: Visit) {
    v.name in names && Inside(names, refs, Inline(v.schema))
  }

  lemma OfferedStaysIn(defs: Definitions, names: iset<string>, refs: iset<string>, u: string, s: Schema, v: Visit)
    requires Sealed(defs, names, refs) && u in names && Inside(names, refs, Inline(s)) && Offers(defs, u, s, v)
    ensures VisitIn(names, refs, v)
  {
    if exists prop :: prop in s.props && v == Visit(prop.key, SchemaOf(defs, prop.value)) {
      var prop :| prop in s.props && v == Visit(prop.key, SchemaOf(defs, prop.value));
      PropertyStaysInside(names, refs, s, prop);
      SchemaStaysInside(defs, names, refs, prop.value);
    } else if s.items.Some? && v == Visit(u + "Items", SchemaOf(defs, s.items.value)) {
      ItemsStayInside(names, refs, s);
      SchemaStaysInside(defs, names, refs, s.items.value);
    } else {
      RefersInside(defs, names, refs, s, v.name);
      SchemaStaysInside(defs, names, refs, Ref(v.name));
    }
  }

  lemma LedToStaysIn(defs: Definitions, names: iset<string>, refs: iset<string>, u: Visit, v: Visit)
    requires Sealed(defs, names, refs) && VisitIn(names, refs, u) && LeadsTo(defs, u, v)
    ensures VisitIn(names, refs, v)
  {
    if Offers(defs, u.name, u.schema, v) {
      OfferedStaysIn(defs, names, refs, u.name, u.schema, v);
    } else {
      AgainIsInside(defs, names, refs, u.name);
      OfferedStaysIn(defs, names, refs, u.name, defs[u.name], v);
    }
  }

  lemma {:induction false} GroundedStaysIn(defs: Definitions, names: iset<string>, refs: iset<string>,
                                           first: Visit, visits: seq<Visit>, i: nat)
    requires Sealed(defs, names, refs) && Grounded(defs, first, visits) && VisitIn(names, refs, first)
    requires i < |visits|
    ensures VisitIn(names, refs, visits[i])
    decreases i
  {
    if i > 0 {
      assert LedTo(defs, visits[..i], visits[i]);
      var j :| 0 <= j < i && LeadsTo(defs, visits[..i][j], visits[i]);
      GroundedStaysIn(defs, names, refs, first, visits, j);
      LedToStaysIn(defs, names, refs, visits[j], visits[i]);
    }
  }

  lemma GroundedFindsIn(defs: Definitions, names: iset<string>, refs: iset<string>, first: Visit, visits: seq<Visit>,
                        n: string)
    requires Sealed(defs, names, refs) && Grounded(defs, first, visits) && VisitIn(names, refs, first)
    requires FoundBy(defs, visits, n)
    ensures n in refs
  {
    var i :| 0 <= i < |visits| && Finds(defs, visits[i], n);
    GroundedStaysIn(defs, names, refs, first, visits, i);
    if Refers(defs, visits[i].schema, n) {
      RefersInside(defs, names, refs, visits[i].schema, n);
    } else {
      AgainIsInside(defs, names, refs, visits[i].name);
      RefersInside(defs, names, refs, defs[visits[i].name], n);
    }
  }

  /** In terms of names: nothing is found but what the start or definitions it leads to refer to. */
  lemma ExploredIsReferred(defs: Definitions, start: string, p: Proxy, visits: seq<Visit>, found: seq<string>,
                           names: iset<string>, n: string)
    requires Explored(defs, Visit(start, SchemaOf(defs, p)), visits, found)
    requires LeadsInto(defs, start, p, names) && n in found
    ensures n in ReferredFrom(defs, p, names)
  {
    var refs := ReferredFrom(defs, p, names);
    LeadsSeals(defs, start, p, names);
    SchemaStaysInside(defs, names, refs, p);
    GroundedFindsIn(defs, names, refs, Visit(start, SchemaOf(defs, p)), visits, n);
  }
}
