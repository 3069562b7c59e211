/**
 The worklist of scripts/fetch_models.go: from one model, collect every model
 it refers to, directly or through other models.

 A swagger document is a finite map from definition names to schemas.  A schema
 proxy is a reference to a definition or an inline schema; references may form
 cycles.  Properties are listed in the order in which the code iterates them.
 */
module SchemaGraph {
  import opened Common

  datatype Proxy = Ref(name: string) | Inline(schema: Schema)
  datatype Schema = Schema(props: seq<Property>, items: Option<Proxy>)
  datatype Property = Property(key: string, value: Proxy)

  type Definitions = map<string, Schema>

  /** The schema behind a proxy.  The parser rejects dangling references; here they resolve to nothing. */
  function SchemaOf(defs: Definitions, p: Proxy): Schema {
    match p
    case Ref(n) => if n in defs then defs[n] else Schema([], None)
    case Inline(s) => s
  }

  // ---------------------------------------------------------------------
  // Direct references
  // ---------------------------------------------------------------------

  /** The model an array-valued proxy has as its element type. */
  function ItemsRef(defs: Definitions, p: Proxy): Option<string>
  {
    var items := SchemaOf(defs, p).items;
    if items.Some? && items.value.Ref? then Some(items.value.name) else None
  }

  /** The schema refers to model n: as a property, as the items of a property, or as its own items. */
  ghost predicate Refers(defs: Definitions, s: Schema, n: string)
  {
    || (exists prop :: prop in s.props && PropRefers(defs, prop, n))
    || s.items == Some(Ref(n))
  }

  ghost predicate PropRefers(defs: Definitions, prop: Property, n: string) {
    prop.value == Ref(n) || ItemsRef(defs, prop.value) == Some(n)
  }

  /** The definition of model a refers to model b. */
  ghost predicate DirectRef(defs: Definitions, a: string, b: string)
  {
    a in defs && Refers(defs, defs[a], b)
  }

  /** path leads from its first model to its last by one or more direct references. */
  ghost predicate RefPath(defs: Definitions, path: seq<string>)
  {
    |path| >= 2 && forall i :: 0 <= i < |path| - 1 ==> DirectRef(defs, path[i], path[i + 1])
  }

  /** The worklist goes from name a to name b: a reference, a property key, or the invented name for the items. */
  ghost predicate NameStep(defs: Definitions, a: string, b: string)
  {
    || DirectRef(defs, a, b)
    || (a in defs && exists prop :: prop in defs[a].props && prop.key == b)
    || (a in defs && defs[a].items.Some? && b == a + "Items")
  }

  ghost predicate NamePath(defs: Definitions, path: seq<string>)
  {
    path != [] && forall i :: 0 <= i < |path| - 1 ==> NameStep(defs, path[i], path[i + 1])
  }

  // ---------------------------------------------------------------------
  // What one extraction appends
  // ---------------------------------------------------------------------

  type Entry = (string, Proxy)

  function RefName(p: Proxy): seq<string> {
    if p.Ref? then [p.name] else []
  }

  function ItemsNames(defs: Definitions, p: Proxy): seq<string>
  {
    var items := SchemaOf(defs, p).items;
    if items.Some? then RefName(items.value) else []
  }

  function PropNames(defs: Definitions, prop: Property): seq<string>
  {
    RefName(prop.value) + ItemsNames(defs, prop.value)
  }

  function PropEntries(defs: Definitions, prop: Property): seq<Entry>
  {
    var items := SchemaOf(defs, prop.value).items;
    [(prop.key, prop.value)]
    + (if prop.value.Ref? then [(prop.value.name, prop.value)] else [])
    + (if items.Some? && items.value.Ref? then [(items.value.name, items.value)] else [])
  }

  /** The first n pieces one after the other. */
  function Joined<T>(pieces: seq<seq<T>>, n: nat): seq<T>
    requires n <= |pieces|
  {
    if n == 0 then [] else Joined(pieces, n - 1) + pieces[n - 1]
  }

  lemma {:induction false} JoinedMember<T>(pieces: seq<seq<T>>, n: nat, x: T)
    requires n <= |pieces|
    ensures x in Joined(pieces, n) <==> exists i :: 0 <= i < n && x in pieces[i]
    decreases n
  {
    if n > 0 { JoinedMember(pieces, n - 1, x); }
  }

  function NamePieces(defs: Definitions, props: seq<Property>): seq<seq<string>> {
    seq(|props|, i requires 0 <= i < |props| => PropNames(defs, props[i]))
  }

  function EntryPieces(defs: Definitions, props: seq<Property>): seq<seq<Entry>> {
    seq(|props|, i requires 0 <= i < |props| => PropEntries(defs, props[i]))
  }

  /** For the first n properties. */
  function PropsNames(defs: Definitions, props: seq<Property>, n: nat): seq<string>
    requires n <= |props|
  {
    Joined(NamePieces(defs, props), n)
  }

  function PropsEntries(defs: Definitions, props: seq<Property>, n: nat): seq<Entry>
    requires n <= |props|
  {
    Joined(EntryPieces(defs, props), n)
  }

  function OwnItemsEntries(model: string, items: Option<Proxy>): seq<Entry> {
    if items.None? then []
    else [(model + "Items", items.value)]
         + (if items.value.Ref? then [(items.value.name, items.value)] else [])
  }

  function FieldNames(defs: Definitions, def: Proxy): seq<string>
  {
    var s := SchemaOf(defs, def);
    PropsNames(defs, s.props, |s.props|) + PropsNames(defs, s.props, |s.props|) + ItemsNames(defs, def)
  }

  function FieldEntries(defs: Definitions, model: string, def: Proxy): seq<Entry>
  {
    var s := SchemaOf(defs, def);
    PropsEntries(defs, s.props, |s.props|) + PropsEntries(defs, s.props, |s.props|) + OwnItemsEntries(model, s.items)
  }

  // ---------------------------------------------------------------------
  // One round of the loop
  // ---------------------------------------------------------------------

  datatype Work = Work(visited: set<string>, found: seq<string>, stack: seq<Entry>)

  /** What the second extraction of a round looks at. */
  function Again(defs: Definitions, model: string): Proxy {
    Inline(if model in defs then defs[model] else Schema([], None))
  }

  function Round(defs: Definitions, w: Work): Work
    requires w.stack != []
  {
    var (model, def) := w.stack[|w.stack| - 1];
    var rest := w.stack[..|w.stack| - 1];
    if model in w.visited then w.(stack := rest)
    else
      Work(w.visited + {model},
           w.found + FieldNames(defs, def) + FieldNames(defs, Again(defs, model)),
           rest + FieldEntries(defs, model, def) + FieldEntries(defs, model, Again(defs, model)))
  }

  ghost predicate Names(stack: seq<Entry>, n: string) {
    exists e :: e in stack && e.0 == n
  }

  lemma PropNamesComplete(defs: Definitions, prop: Property, b: string)
    ensures b in PropNames(defs, prop) <==> PropRefers(defs, prop, b)
  {
    assert b in RefName(prop.value) <==> prop.value == Ref(b);
    assert b in ItemsNames(defs, prop.value) <==> ItemsRef(defs, prop.value) == Some(b);
  }

  lemma NamesOfProps(defs: Definitions, props: seq<Property>, n: nat, b: string)
    requires n <= |props|
    ensures b in PropsNames(defs, props, n) <==> exists i :: 0 <= i < n && b in PropNames(defs, props[i])
  {
    var pieces := NamePieces(defs, props);
    JoinedMember(pieces, n, b);
    assert forall i :: 0 <= i < n ==> pieces[i] == PropNames(defs, props[i]);
  }

  lemma EntriesOfProps(defs: Definitions, props: seq<Property>, n: nat, e: Entry)
    requires n <= |props|
    ensures e in PropsEntries(defs, props, n) <==> exists i :: 0 <= i < n && e in PropEntries(defs, props[i])
  {
    var pieces := EntryPieces(defs, props);
    JoinedMember(pieces, n, e);
    assert forall i :: 0 <= i < n ==> pieces[i] == PropEntries(defs, props[i]);
  }

  lemma PropsNamesComplete(defs: Definitions, props: seq<Property>, n: nat, b: string)
    requires n <= |props|
    ensures b in PropsNames(defs, props, n) <==> exists i :: 0 <= i < n && PropRefers(defs, props[i], b)
  {
    NamesOfProps(defs, props, n, b);
    forall i | 0 <= i < n ensures b in PropNames(defs, props[i]) <==> PropRefers(defs, props[i], b) {
      PropNamesComplete(defs, props[i], b);
    }
  }

  /** What an extraction finds is exactly what the schema refers to. */
  lemma FieldNamesAreRefs(defs: Definitions, def: Proxy, n: string)
    ensures n in FieldNames(defs, def) <==> Refers(defs, SchemaOf(defs, def), n)
  {
    var s := SchemaOf(defs, def);
    PropsNamesComplete(defs, s.props, |s.props|, n);
    if Refers(defs, s, n) && s.items != Some(Ref(n)) {
      var prop :| prop in s.props && PropRefers(defs, prop, n);
      var i :| 0 <= i < |s.props| && s.props[i] == prop;
      assert PropRefers(defs, s.props[i], n);
    }
  }

  /** In particular for a definition: exactly its direct references. */
  lemma FieldNamesAreDirectRefs(defs: Definitions, a: string, b: string)
    requires a in defs
    ensures b in FieldNames(defs, Inline(defs[a])) <==> DirectRef(defs, a, b)
  {
    FieldNamesAreRefs(defs, Inline(defs[a]), b);
  }

  lemma NamesOfConcat(a: seq<Entry>, b: seq<Entry>, n: string)
    ensures Names(a + b, n) <==> Names(a, n) || Names(b, n)
  {
    if Names(a, n) {
      var e :| e in a && e.0 == n;
      assert e in a + b;
    }
    if Names(b, n) {
      var e :| e in b && e.0 == n;
      assert e in a + b;
    }
  }

  ghost function Pushed(defs: Definitions, top: Entry): seq<Entry> {
    FieldEntries(defs, top.0, top.1) + FieldEntries(defs, top.0, Again(defs, top.0))
  }

  lemma RoundPushes(defs: Definitions, w: Work)
    requires w.stack != [] && w.stack[|w.stack| - 1].0 !in w.visited
    ensures Round(defs, w).stack == w.stack[..|w.stack| - 1] + Pushed(defs, w.stack[|w.stack| - 1])
  {
    var top, rest := w.stack[|w.stack| - 1], w.stack[..|w.stack| - 1];
    var first, second := FieldEntries(defs, top.0, top.1), FieldEntries(defs, top.0, Again(defs, top.0));
    assert rest + first + second == rest + (first + second);
  }

  /** What the visit of an entry finds. */
  function FoundAt(defs: Definitions, e: Entry): seq<string> {
    FieldNames(defs, e.1) + FieldNames(defs, Again(defs, e.0))
  }

  lemma NothingToExtract(defs: Definitions, model: string)
    requires model !in defs
    ensures FieldEntries(defs, model, Again(defs, model)) == []
    ensures FieldNames(defs, Again(defs, model)) == []
  {
  }

  // ---------------------------------------------------------------------
  // The names inside a schema
  // ---------------------------------------------------------------------

  ghost function KeysOf(p: Proxy): set<string> {
    match p
    case Ref(_) => {}
    case Inline(s) => SchemaKeysOf(s)
  }

  ghost function SchemaKeysOf(s: Schema): set<string> {
    (set prop, k | prop in s.props && k in {prop.key} + KeysOf(prop.value) :: k)
    + (if s.items.Some? then KeysOf(s.items.value) else {})
  }

  /** The names referenced inside p, at any depth. */
  ghost function RefsOf(p: Proxy): set<string> {
    match p
    case Ref(n) => {n}
    case Inline(s) => SchemaRefsOf(s)
  }

  ghost function SchemaRefsOf(s: Schema): set<string> {
    (set prop, k | prop in s.props && k in RefsOf(prop.value) :: k)
    + (if s.items.Some? then RefsOf(s.items.value) else {})
  }

  ghost function DefinitionRefs(defs: Definitions): set<string> {
    set m, k | m in defs && k in SchemaRefsOf(defs[m]) :: k
  }

  /** The names referenced anywhere in the document or in the start proxy. */
  ghost function DocumentRefs(defs: Definitions, p: Proxy): set<string> {
    DefinitionRefs(defs) + RefsOf(p)
  }
}
