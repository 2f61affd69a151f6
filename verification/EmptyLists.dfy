/** No `null` where a response promises a list or an object (server/internal/httpapi/emptylists.go). */
module EmptyLists {
  import opened Options

  /**
   * A value as reflection sees it. Pointers, lists and maps refer to something that others may refer to as well;
   * arrays, structs and what is in an interface are copied whole. A field is walked when it is exported and goes into
   * the response.
   */
  datatype Value =
    | Plain(text: string)
    | Bytes(isNil: bool, data: string)
    | SelfEncoding(value: Value)
    | NilPointer | Pointer(cell: Cell)
    | NilInterface | Interface(dynamic: Value)
    | NilList | List(items: array<Value>)
    | Array(elements: seq<Value>)
    | NilMap | Map(table: Table)
    | Struct(fields: seq<Field>)

  datatype Field = Field(walked: bool, value: Value)

  class Cell {
    var target: Value

    constructor (target: Value)
      ensures this.target == target
    {
      this.target := target;
    }
  }

  class Table {
    var entries: map<string, Value>

    constructor (entries: map<string, Value>)
      ensures this.entries == entries
    {
      this.entries := entries;
    }
  }

  // ----- what a value stands for -----

  /** The response as the walk sees it; what it does not go into is the value itself. */
  datatype Tree =
    | Same(value: Value)
    | To(target: Tree)
    | Boxed(dynamic: Tree)
    | NoList | Items(items: seq<Tree>)
    | Fixed(elements: seq<Tree>)
    | NoMap | Entries(entries: map<string, Tree>)
    | Record(fields: seq<Tree>)

  predicate LeftAlone(v: Value) {
    v.Plain? || v.Bytes? || v.SelfEncoding? || v.NilPointer? || v.NilInterface?
  }

  /** By way of the objects in foot, v stands for the tree. */
  ghost predicate Stands(v: Value, t: Tree, foot: set<object>)
    reads foot
    decreases t, 0
  {
    match t
    case Same(x) => v == x && LeftAlone(v)
    case To(x) => v.Pointer? && v.cell in foot && Stands(v.cell.target, x, foot)
    case Boxed(x) => v.Interface? && Stands(v.dynamic, x, foot)
    case NoList => v == NilList
    case Items(xs) =>
      && v.List? && v.items in foot && v.items.Length == |xs|
      && forall i :: 0 <= i < |xs| ==> Stands(v.items[i], xs[i], foot)
    case Fixed(xs) => v.Array? && |v.elements| == |xs| && forall i :: 0 <= i < |xs| ==> Stands(v.elements[i], xs[i], foot)
    case NoMap => v == NilMap
    case Entries(m) =>
      && v.Map? && v.table in foot && v.table.entries.Keys == m.Keys
      && forall k :: k in m ==> Stands(v.table.entries[k], m[k], foot)
    case Record(fs) => v.Struct? && |v.fields| == |fs| && forall i :: 0 <= i < |fs| ==> FieldStands(v.fields[i], fs[i], foot)
  }

  ghost predicate FieldStands(f: Field, t: Tree, foot: set<object>)
    reads foot
    decreases t, 1
  {
    if f.walked then Stands(f.value, t, foot) else t == Same(f.value)
  }

  // ----- what the walk is to find, and to leave -----

  /** A nil list or map at a walked position. */
  predicate HasNil(t: Tree) {
    match t
    case Same(_) => false
    case To(x) => HasNil(x)
    case Boxed(x) => HasNil(x)
    case NoList => true
    case Items(xs) => exists i :: 0 <= i < |xs| && HasNil(xs[i])
    case Fixed(xs) => exists i :: 0 <= i < |xs| && HasNil(xs[i])
    case NoMap => true
    case Entries(m) => exists k :: k in m && HasNil(m[k])
    case Record(fs) => exists i :: 0 <= i < |fs| && HasNil(fs[i])
  }

  /** w is t, but that some nil lists and maps have become empty ones. */
  ghost predicate OnlyFills(t: Tree, w: Tree) {
    match t
    case Same(_) => w == t
    case To(x) => w.To? && OnlyFills(x, w.target)
    case Boxed(x) => w.Boxed? && OnlyFills(x, w.dynamic)
    case NoList => w == NoList || w == Items([])
    case Items(xs) => w.Items? && |w.items| == |xs| && forall i :: 0 <= i < |xs| ==> OnlyFills(xs[i], w.items[i])
    case Fixed(xs) => w.Fixed? && |w.elements| == |xs| && forall i :: 0 <= i < |xs| ==> OnlyFills(xs[i], w.elements[i])
    case NoMap => w == NoMap || w == Entries(map[])
    case Entries(m) => w.Entries? && w.entries.Keys == m.Keys && forall k :: k in m ==> OnlyFills(m[k], w.entries[k])
    case Record(fs) => w.Record? && |w.fields| == |fs| && forall i :: 0 <= i < |fs| ==> OnlyFills(fs[i], w.fields[i])
  }

  function Filled(t: Tree): Tree {
    match t
    case Same(_) => t
    case To(x) => To(Filled(x))
    case Boxed(x) => Boxed(Filled(x))
    case NoList => Items([])
    case Items(xs) => Items(seq(|xs|, i requires 0 <= i < |xs| => Filled(xs[i])))
    case Fixed(xs) => Fixed(seq(|xs|, i requires 0 <= i < |xs| => Filled(xs[i])))
    case NoMap => Entries(map[])
    case Entries(m) => Entries(map k | k in m :: Filled(m[k]))
    case Record(fs) => Record(seq(|fs|, i requires 0 <= i < |fs| => Filled(fs[i])))
  }

  // ----- copying along the paths that change -----

  /**
   * w is v filled: where nothing is nil it is the same value, sharing what v refers to; on the way to a nil list or
   * map it refers to new objects only.
   */
  ghost predicate CopyOf(v: Value, w: Value, t: Tree, foot: set<object>, made: set<object>)
    requires Stands(v, t, foot)
    reads foot, made
    decreases t, 0
  {
    if !HasNil(t) then w == v
    else
      match t
      case Same(_) => false
      case To(x) => w.Pointer? && w.cell in made && CopyOf(v.cell.target, w.cell.target, x, foot, made)
      case Boxed(x) => w.Interface? && CopyOf(v.dynamic, w.dynamic, x, foot, made)
      case NoList => w.List? && w.items in made && w.items.Length == 0
      case Items(xs) =>
        && w.List? && w.items in made && w.items.Length == |xs|
        && forall i :: 0 <= i < |xs| ==> CopyOf(v.items[i], w.items[i], xs[i], foot, made)
      case Fixed(xs) =>
        w.Array? && |w.elements| == |xs| && forall i :: 0 <= i < |xs| ==> CopyOf(v.elements[i], w.elements[i], xs[i], foot, made)
      case NoMap => w.Map? && w.table in made && w.table.entries == map[]
      case Entries(m) =>
        && w.Map? && w.table in made && w.table.entries.Keys == m.Keys
        && forall k :: k in m ==> CopyOf(v.table.entries[k], w.table.entries[k], m[k], foot, made)
      case Record(fs) =>
        w.Struct? && |w.fields| == |fs| && forall i :: 0 <= i < |fs| ==> FieldCopyOf(v.fields[i], w.fields[i], fs[i], foot, made)
  }

  ghost predicate FieldCopyOf(f: Field, g: Field, t: Tree, foot: set<object>, made: set<object>)
    requires FieldStands(f, t, foot)
    reads foot, made
    decreases t, 1
  {
    g.walked == f.walked && if f.walked then CopyOf(f.value, g.value, t, foot, made) else g.value == f.value
  }

  /** More new objects do no harm. */
  lemma {:induction false} MoreMade(v: Value, w: Value, t: Tree, foot: set<object>, made: set<object>, more: set<object>)
    requires Stands(v, t, foot) && CopyOf(v, w, t, foot, made) && made <= more
    ensures CopyOf(v, w, t, foot, more)
    decreases t
  {
    if HasNil(t) {
      match t
      case To(x) => MoreMade(v.cell.target, w.cell.target, x, foot, made, more);
      case Boxed(x) => MoreMade(v.dynamic, w.dynamic, x, foot, made, more);
      case Items(xs) =>
        forall i | 0 <= i < |xs| ensures CopyOf(v.items[i], w.items[i], xs[i], foot, more) {
          MoreMade(v.items[i], w.items[i], xs[i], foot, made, more);
        }
      case Fixed(xs) =>
        forall i | 0 <= i < |xs| ensures CopyOf(v.elements[i], w.elements[i], xs[i], foot, more) {
          MoreMade(v.elements[i], w.elements[i], xs[i], foot, made, more);
        }
      case Entries(m) =>
        forall k | k in m ensures CopyOf(v.table.entries[k], w.table.entries[k], m[k], foot, more) {
          MoreMade(v.table.entries[k], w.table.entries[k], m[k], foot, made, more);
        }
      case Record(fs) =>
        forall i | 0 <= i < |fs| ensures FieldCopyOf(v.fields[i], w.fields[i], fs[i], foot, more) {
          if v.fields[i].walked {
            MoreMade(v.fields[i].value, w.fields[i].value, fs[i], foot, made, more);
          }
        }
      case _ =>
    }
  }

  lemma {:induction false} MoreFoot(v: Value, t: Tree, foot: set<object>, more: set<object>)
    requires Stands(v, t, foot) && foot <= more
    ensures Stands(v, t, more)
    decreases t
  {
    match t
    case To(x) => MoreFoot(v.cell.target, x, foot, more);
    case Boxed(x) => MoreFoot(v.dynamic, x, foot, more);
    case Items(xs) => forall i | 0 <= i < |xs| ensures Stands(v.items[i], xs[i], more) { MoreFoot(v.items[i], xs[i], foot, more); }
    case Fixed(xs) =>
      forall i | 0 <= i < |xs| ensures Stands(v.elements[i], xs[i], more) { MoreFoot(v.elements[i], xs[i], foot, more); }
    case Entries(m) =>
      forall k | k in m ensures Stands(v.table.entries[k], m[k], more) { MoreFoot(v.table.entries[k], m[k], foot, more); }
    case Record(fs) =>
      forall i | 0 <= i < |fs| ensures FieldStands(v.fields[i], fs[i], more) {
        if v.fields[i].walked {
          MoreFoot(v.fields[i].value, fs[i], foot, more);
        }
      }
    case _ =>
  }

  /** The copy stands for the filled tree. */
  lemma {:induction false} CopyStands(v: Value, w: Value, t: Tree, foot: set<object>, made: set<object>)
    requires Stands(v, t, foot) && CopyOf(v, w, t, foot, made)
    ensures Stands(w, Filled(t), foot + made)
    decreases t
  {
    var all := foot + made;
    if !HasNil(t) {
      FilledIfNil(t);
      MoreFoot(v, t, foot, all);
    } else {
      match t
      case To(x) => CopyStands(v.cell.target, w.cell.target, x, foot, made);
      case Boxed(x) => CopyStands(v.dynamic, w.dynamic, x, foot, made);
      case Items(xs) =>
        forall i | 0 <= i < |xs| ensures Stands(w.items[i], Filled(xs[i]), all) {
          CopyStands(v.items[i], w.items[i], xs[i], foot, made);
        }
      case Fixed(xs) =>
        forall i | 0 <= i < |xs| ensures Stands(w.elements[i], Filled(xs[i]), all) {
          CopyStands(v.elements[i], w.elements[i], xs[i], foot, made);
        }
      case Entries(m) =>
        forall k | k in m ensures Stands(w.table.entries[k], Filled(m[k]), all) {
          CopyStands(v.table.entries[k], w.table.entries[k], m[k], foot, made);
        }
      case Record(fs) =>
        forall i | 0 <= i < |fs| ensures FieldStands(w.fields[i], Filled(fs[i]), all) {
          if v.fields[i].walked {
            CopyStands(v.fields[i].value, w.fields[i].value, fs[i], foot, made);
          }
        }
      case _ =>
    }
  }

  // ----- copying one part after the other -----

  ghost predicate AllStand(vs: seq<Value>, xs: seq<Tree>, foot: set<object>)
    reads foot
  {
    |vs| == |xs| && forall k :: 0 <= k < |xs| ==> Stands(vs[k], xs[k], foot)
  }

  predicate NilBefore(xs: seq<Tree>, i: nat) {
    exists k :: 0 <= k < i && k < |xs| && HasNil(xs[k])
  }

  /** The first i of ws are copies of those of vs, the others the same. */
  ghost predicate CopiedTo(vs: seq<Value>, ws: seq<Value>, xs: seq<Tree>, i: nat, foot: set<object>, made: set<object>)
    requires AllStand(vs, xs, foot)
    reads foot, made
  {
    && |ws| == |xs| && i <= |xs|
    && (forall k :: 0 <= k < i ==> CopyOf(vs[k], ws[k], xs[k], foot, made))
    && (forall k :: i <= k < |xs| ==> ws[k] == vs[k])
    && (!NilBefore(xs, i) ==> ws == vs)
  }

  lemma NothingCopied(vs: seq<Value>, xs: seq<Tree>, foot: set<object>)
    requires AllStand(vs, xs, foot)
    ensures CopiedTo(vs, vs, xs, 0, foot, {}) && !NilBefore(xs, 0)
  {
  }

  lemma OneCopied(vs: seq<Value>, ws: seq<Value>, xs: seq<Tree>, i: nat, foot: set<object>, made: set<object>,
                  elem: Value, here: set<object>)
    requires AllStand(vs, xs, foot) && i < |xs| && CopiedTo(vs, ws, xs, i, foot, made)
    requires CopyOf(vs[i], elem, xs[i], foot, here)
    ensures CopiedTo(vs, ws[i := elem], xs, i + 1, foot, made + here)
    ensures NilBefore(xs, i + 1) <==> NilBefore(xs, i) || HasNil(xs[i])
    ensures !HasNil(xs[i]) ==> ws[i := elem] == ws
  {
    hide Stands;
    forall k | 0 <= k < i
      ensures CopyOf(vs[k], ws[k], xs[k], foot, made + here)
    {
      MoreMade(vs[k], ws[k], xs[k], foot, made, made + here);
    }
    MoreMade(vs[i], elem, xs[i], foot, here, made + here);
    assert !HasNil(xs[i]) ==> elem == vs[i];
  }

  lemma AllCopied(vs: seq<Value>, ws: seq<Value>, xs: seq<Tree>, foot: set<object>, made: set<object>, more: set<object>)
    requires AllStand(vs, xs, foot) && CopiedTo(vs, ws, xs, |xs|, foot, made) && made <= more
    ensures forall k :: 0 <= k < |xs| ==> CopyOf(vs[k], ws[k], xs[k], foot, more)
  {
    hide Stands, CopyOf, HasNil;
    forall k | 0 <= k < |xs|
      ensures CopyOf(vs[k], ws[k], xs[k], foot, more)
    {
      MoreMade(vs[k], ws[k], xs[k], foot, made, more);
    }
  }

  lemma ItemsStand(items: array<Value>, t: Tree, foot: set<object>)
    requires Stands(List(items), t, foot)
    ensures t.Items? && items in foot && items.Length == |t.items| && AllStand(items[..], t.items, foot)
    ensures HasNil(t) <==> NilBefore(t.items, |t.items|)
  {
  }

  lemma ItemsCopied(items: array<Value>, copy: array<Value>, t: Tree, foot: set<object>, below: set<object>)
    requires Stands(List(items), t, foot) && HasNil(t) && AllStand(items[..], t.items, foot)
    requires CopiedTo(items[..], copy[..], t.items, |t.items|, foot, below)
    ensures CopyOf(List(items), List(copy), t, foot, below + {copy})
  {
    AllCopied(items[..], copy[..], t.items, foot, below, below + {copy});
    forall k | 0 <= k < |t.items|
      ensures CopyOf(items[k], copy[k], t.items[k], foot, below + {copy})
    {
      assert items[k] == items[..][k] && copy[k] == copy[..][k];
    }
  }

  lemma Uncopied(v: Value, t: Tree, foot: set<object>)
    requires Stands(v, t, foot) && !HasNil(t)
    ensures CopyOf(v, v, t, foot, {})
  {
  }

  lemma ElementsStand(xs: seq<Value>, t: Tree, foot: set<object>)
    requires Stands(Array(xs), t, foot)
    ensures t.Fixed? && AllStand(xs, t.elements, foot) && (HasNil(t) <==> NilBefore(t.elements, |t.elements|))
  {
  }

  lemma ElementsCopied(xs: seq<Value>, ys: seq<Value>, t: Tree, foot: set<object>, made: set<object>)
    requires Stands(Array(xs), t, foot) && AllStand(xs, t.elements, foot)
    requires CopiedTo(xs, ys, t.elements, |t.elements|, foot, made)
    ensures CopyOf(Array(xs), Array(ys), t, foot, made)
  {
    AllCopied(xs, ys, t.elements, foot, made, made);
  }

  /** All entries but those of the keys to come are copied. */
  ghost predicate EntriesCopied(m: map<string, Value>, n: map<string, Value>, ts: map<string, Tree>, keys: set<string>,
                                foot: set<object>, made: set<object>)
    requires EntriesStand(m, ts, foot)
    reads foot, made
  {
    && n.Keys == ts.Keys && keys <= ts.Keys
    && (forall k :: k in ts && k !in keys ==> CopyOf(m[k], n[k], ts[k], foot, made))
    && (forall k :: k in keys ==> n[k] == m[k])
    && (!NilBeside(ts, keys) ==> n == m)
  }

  ghost predicate EntriesStand(m: map<string, Value>, ts: map<string, Tree>, foot: set<object>)
    reads foot
  {
    m.Keys == ts.Keys && forall k :: k in ts ==> Stands(m[k], ts[k], foot)
  }

  predicate NilBeside(ts: map<string, Tree>, keys: set<string>) {
    exists k :: k in ts && k !in keys && HasNil(ts[k])
  }

  lemma TableStands(table: Table, t: Tree, foot: set<object>)
    requires Stands(Map(table), t, foot)
    ensures t.Entries? && table in foot && EntriesStand(table.entries, t.entries, foot)
    ensures HasNil(t) <==> NilBeside(t.entries, {})
  {
  }

  lemma NoEntryCopied(m: map<string, Value>, ts: map<string, Tree>, foot: set<object>)
    requires EntriesStand(m, ts, foot)
    ensures EntriesCopied(m, m, ts, ts.Keys, foot, {}) && !NilBeside(ts, ts.Keys)
  {
  }

  lemma OneEntryCopied(m: map<string, Value>, n: map<string, Value>, ts: map<string, Tree>, keys: set<string>, key: string,
                       foot: set<object>, made: set<object>, elem: Value, here: set<object>)
    requires EntriesStand(m, ts, foot) && EntriesCopied(m, n, ts, keys, foot, made) && key in keys
    requires CopyOf(m[key], elem, ts[key], foot, here)
    ensures EntriesCopied(m, n[key := elem], ts, keys - {key}, foot, made + here)
    ensures NilBeside(ts, keys - {key}) <==> NilBeside(ts, keys) || HasNil(ts[key])
    ensures !HasNil(ts[key]) ==> n[key := elem] == n
  {
    hide Stands, HasNil;
    forall k | k in ts && k !in keys
      ensures CopyOf(m[k], n[k], ts[k], foot, made + here)
    {
      MoreMade(m[k], n[k], ts[k], foot, made, made + here);
    }
    MoreMade(m[key], elem, ts[key], foot, here, made + here);
    assert !HasNil(ts[key]) ==> elem == m[key];
  }

  lemma TableCopied(table: Table, copy: Table, t: Tree, foot: set<object>, below: set<object>)
    requires Stands(Map(table), t, foot) && HasNil(t) && EntriesStand(table.entries, t.entries, foot)
    requires EntriesCopied(table.entries, copy.entries, t.entries, {}, foot, below)
    ensures CopyOf(Map(table), Map(copy), t, foot, below + {copy})
  {
    forall k | k in t.entries
      ensures CopyOf(table.entries[k], copy.entries[k], t.entries[k], foot, below + {copy})
    {
      MoreMade(table.entries[k], copy.entries[k], t.entries[k], foot, below, below + {copy});
    }
  }

  ghost predicate FieldsStand(fs: seq<Field>, ts: seq<Tree>, foot: set<object>)
    reads foot
  {
    |fs| == |ts| && forall k :: 0 <= k < |ts| ==> FieldStands(fs[k], ts[k], foot)
  }

  ghost predicate FieldsCopied(fs: seq<Field>, gs: seq<Field>, ts: seq<Tree>, i: nat, foot: set<object>, made: set<object>)
    requires FieldsStand(fs, ts, foot)
    reads foot, made
  {
    && |gs| == |ts| && i <= |ts|
    && (forall k :: 0 <= k < i ==> FieldCopyOf(fs[k], gs[k], ts[k], foot, made))
    && (forall k :: i <= k < |ts| ==> gs[k] == fs[k])
    && (!NilBefore(ts, i) ==> gs == fs)
  }

  lemma StructStands(fs: seq<Field>, t: Tree, foot: set<object>)
    requires Stands(Struct(fs), t, foot)
    ensures t.Record? && FieldsStand(fs, t.fields, foot) && (HasNil(t) <==> NilBefore(t.fields, |t.fields|))
  {
  }

  lemma NoFieldCopied(fs: seq<Field>, ts: seq<Tree>, foot: set<object>)
    requires FieldsStand(fs, ts, foot)
    ensures FieldsCopied(fs, fs, ts, 0, foot, {}) && !NilBefore(ts, 0)
  {
  }

  lemma MoreFieldMade(f: Field, g: Field, t: Tree, foot: set<object>, made: set<object>, more: set<object>)
    requires FieldStands(f, t, foot) && FieldCopyOf(f, g, t, foot, made) && made <= more
    ensures FieldCopyOf(f, g, t, foot, more)
  {
    if f.walked {
      MoreMade(f.value, g.value, t, foot, made, more);
    }
  }

  lemma OneFieldCopied(fs: seq<Field>, gs: seq<Field>, ts: seq<Tree>, i: nat, foot: set<object>, made: set<object>,
                       g: Field, here: set<object>)
    requires FieldsStand(fs, ts, foot) && i < |ts| && FieldsCopied(fs, gs, ts, i, foot, made)
    requires FieldCopyOf(fs[i], g, ts[i], foot, here) && (!HasNil(ts[i]) ==> g == fs[i])
    ensures FieldsCopied(fs, gs[i := g], ts, i + 1, foot, made + here)
    ensures NilBefore(ts, i + 1) <==> NilBefore(ts, i) || HasNil(ts[i])
    ensures !HasNil(ts[i]) ==> gs[i := g] == gs
  {
    hide FieldCopyOf, HasNil, FieldStands;
    forall k | 0 <= k < i
      ensures FieldCopyOf(fs[k], gs[k], ts[k], foot, made + here)
    {
      MoreFieldMade(fs[k], gs[k], ts[k], foot, made, made + here);
    }
    MoreFieldMade(fs[i], g, ts[i], foot, here, made + here);
  }

  lemma StructCopied(fs: seq<Field>, gs: seq<Field>, t: Tree, foot: set<object>, made: set<object>)
    requires Stands(Struct(fs), t, foot) && FieldsStand(fs, t.fields, foot)
    requires FieldsCopied(fs, gs, t.fields, |t.fields|, foot, made)
    ensures CopyOf(Struct(fs), Struct(gs), t, foot, made)
  {
    hide HasNil;
    if !HasNil(t) {
      assert !NilBefore(t.fields, |t.fields|) by { StructStands(fs, t, foot); }
    }
  }

  // ----- the walk -----

  /**
   * The filled value, and whether there was anything to fill. Nothing that v refers to is modified; what is new is
   * only what lies on the way to something filled.
   */
  method FillLists(v: Value, ghost t: Tree, ghost foot: set<object>)
    returns (out: Value, changed: bool, ghost made: set<object>)
    requires Stands(v, t, foot)
    ensures changed <==> HasNil(t)
    ensures !changed ==> out == v
    ensures fresh(made) && unchanged(foot) && Stands(v, t, foot)
    ensures CopyOf(v, out, t, foot, made)
    ensures Stands(out, Filled(t), foot + made)
    decreases t
  {
    out, changed, made := v, false, {};
    match v {
      case Pointer(cell) =>
        var elem, c, below := FillLists(cell.target, t.target, foot);
        if c {
          var p := new Cell(elem);
          MoreMade(cell.target, elem, t.target, foot, below, below + {p});
          out, changed, made := Pointer(p), true, below + {p};
        }
      case Interface(x) =>
        var elem, c, below := FillLists(x, t.dynamic, foot);
        if c {
          out, changed, made := Interface(elem), true, below;
        }
      case NilList =>
        var items := new Value[0];
        out, changed, made := List(items), true, {items};
      case List(items) =>
        out, changed, made := FillItems(items, t, foot);
      case Array(xs) =>
        out, changed, made := FillElements(xs, t, foot);
      case NilMap =>
        var table := new Table(map[]);
        out, changed, made := Map(table), true, {table};
      case Map(table) =>
        out, changed, made := FillEntries(table, t, foot);
      case Struct(fs) =>
        out, changed, made := FillFields(fs, t, foot);
      case _ =>
    }
    CopyStands(v, out, t, foot, made);
  }

  /** A list is copied when its first element changes. */
  method FillItems(items: array<Value>, ghost t: Tree, ghost foot: set<object>)
    returns (out: Value, changed: bool, ghost made: set<object>)
    requires Stands(List(items), t, foot)
    ensures changed <==> HasNil(t)
    ensures !changed ==> out == List(items)
    ensures fresh(made) && unchanged(foot) && Stands(List(items), t, foot)
    ensures CopyOf(List(items), out, t, foot, made)
    decreases t, 0
  {
    hide Stands, HasNil, CopyOf, CopiedTo, NilBefore;
    ItemsStand(items, t, foot);
    ghost var xs := t.items;
    ghost var was := items[..];
    NothingCopied(was, xs, foot);
    var copy: array?<Value> := null;
    made := {};
    for i := 0 to items.Length
      invariant unchanged(foot) && fresh(made)
      invariant copy != null ==> fresh(copy) && copy !in made && copy.Length == |xs|
      invariant copy != null <==> NilBefore(xs, i)
      invariant CopiedTo(was, if copy == null then was else copy[..], xs, i, foot, made)
    {
      ghost var now := if copy == null then was else copy[..];
      assert items[i] == was[i] && Stands(was[i], xs[i], foot);
      var elem, c, here := FillLists(items[i], xs[i], foot);
      OneCopied(was, now, xs, i, foot, made, elem, here);
      made := made + here;
      if c {
        if copy == null {
          copy := new Value[items.Length](k requires 0 <= k < items.Length reads items => items[k]);
          assert copy[..] == was;
        }
        copy[i] := elem;
        assert copy[..] == now[i := elem];
      }
    }
    if copy == null {
      out, changed, made := List(items), false, {};
      Uncopied(out, t, foot);
    } else {
      ItemsCopied(items, copy, t, foot, made);
      out, changed, made := List(copy), true, made + {copy};
    }
  }

  method FillElements(xs: seq<Value>, ghost t: Tree, ghost foot: set<object>)
    returns (out: Value, changed: bool, ghost made: set<object>)
    requires Stands(Array(xs), t, foot)
    ensures changed <==> HasNil(t)
    ensures !changed ==> out == Array(xs)
    ensures fresh(made) && unchanged(foot) && Stands(Array(xs), t, foot)
    ensures CopyOf(Array(xs), out, t, foot, made)
    decreases t, 0
  {
    hide Stands, HasNil, CopyOf, NilBefore;
    ElementsStand(xs, t, foot);
    ghost var ts := t.elements;
    NothingCopied(xs, ts, foot);
    var copy := xs;
    changed, made := false, {};
    for i := 0 to |xs|
      invariant unchanged(foot) && fresh(made)
      invariant changed <==> NilBefore(ts, i)
      invariant CopiedTo(xs, copy, ts, i, foot, made)
    {
      var elem, c, here := FillLists(xs[i], ts[i], foot);
      OneCopied(xs, copy, ts, i, foot, made, elem, here);
      made := made + here;
      if c {
        copy, changed := copy[i := elem], true;
      }
    }
    ElementsCopied(xs, copy, t, foot, made);
    out := Array(copy);
  }

  method FillEntries(table: Table, ghost t: Tree, ghost foot: set<object>)
    returns (out: Value, changed: bool, ghost made: set<object>)
    requires Stands(Map(table), t, foot)
    ensures changed <==> HasNil(t)
    ensures !changed ==> out == Map(table)
    ensures fresh(made) && unchanged(foot) && Stands(Map(table), t, foot)
    ensures CopyOf(Map(table), out, t, foot, made)
    decreases t, 0
  {
    hide Stands, HasNil, CopyOf, EntriesCopied, NilBeside;
    TableStands(table, t, foot);
    ghost var ts := t.entries;
    ghost var was := table.entries;
    NoEntryCopied(was, ts, foot);
    var copy: Table? := null;
    made := {};
    var keys := table.entries.Keys;
    while keys != {}
      invariant unchanged(foot) && fresh(made) && keys <= ts.Keys
      invariant copy != null ==> fresh(copy) && copy !in made
      invariant copy != null <==> NilBeside(ts, keys)
      invariant EntriesCopied(was, if copy == null then was else copy.entries, ts, keys, foot, made)
      decreases |keys|
    {
      ghost var now := if copy == null then was else copy.entries;
      var key :| key in keys;
      var elem, c, here := FillLists(table.entries[key], ts[key], foot);
      OneEntryCopied(was, now, ts, keys, key, foot, made, elem, here);
      made := made + here;
      keys := keys - {key};
      if c {
        if copy == null {
          copy := new Table(table.entries);
        }
        copy.entries := copy.entries[key := elem];
      }
    }
    if copy == null {
      out, changed, made := Map(table), false, {};
      Uncopied(out, t, foot);
    } else {
      TableCopied(table, copy, t, foot, made);
      out, changed, made := Map(copy), true, made + {copy};
    }
  }

  method FillFields(fs: seq<Field>, ghost t: Tree, ghost foot: set<object>)
    returns (out: Value, changed: bool, ghost made: set<object>)
    requires Stands(Struct(fs), t, foot)
    ensures changed <==> HasNil(t)
    ensures !changed ==> out == Struct(fs)
    ensures fresh(made) && unchanged(foot) && Stands(Struct(fs), t, foot)
    ensures CopyOf(Struct(fs), out, t, foot, made)
    decreases t, 0
  {
    hide Stands, HasNil, CopyOf, NilBefore;
    StructStands(fs, t, foot);
    ghost var ts := t.fields;
    NoFieldCopied(fs, ts, foot);
    var copy := fs;
    changed, made := false, {};
    for i := 0 to |fs|
      invariant unchanged(foot) && fresh(made)
      invariant changed <==> NilBefore(ts, i)
      invariant FieldsCopied(fs, copy, ts, i, foot, made)
    {
      assert FieldStands(fs[i], ts[i], foot);
      if fs[i].walked {
        var elem, c, here := FillLists(fs[i].value, ts[i], foot);
        OneFieldCopied(fs, copy, ts, i, foot, made, fs[i].(value := elem), here);
        made := made + here;
        if c {
          copy, changed := copy[i := fs[i].(value := elem)], true;
        }
      } else {
        NothingWalked(ts[i]);
        OneFieldCopied(fs, copy, ts, i, foot, made, fs[i], {});
        assert made + {} == made;
      }
    }
    StructCopied(fs, copy, t, foot, made);
    out := Struct(copy);
  }

  lemma NothingWalked(t: Tree)
    ensures t.Same? ==> !HasNil(t)
  {
  }

  // ----- what the walk guarantees -----

  /** Filling changes nothing exactly when there is nothing to fill. */
  lemma {:induction false} FilledIfNil(t: Tree)
    ensures Filled(t) == t <==> !HasNil(t)
    decreases t
  {
    match t
    case To(x) => FilledIfNil(x);
    case Boxed(x) => FilledIfNil(x);
    case Items(xs) => EachFilledIfNil(t, xs, Filled(t).items);
    case Fixed(xs) => EachFilledIfNil(t, xs, Filled(t).elements);
    case Entries(m) =>
      forall k | k in m
        ensures Filled(m[k]) == m[k] <==> !HasNil(m[k])
      {
        FilledIfNil(m[k]);
      }
      assert Filled(t).entries == m <==> forall k :: k in m ==> Filled(t).entries[k] == m[k];
    case Record(fs) => EachFilledIfNil(t, fs, Filled(t).fields);
    case _ =>
  }

  lemma EachFilledIfNil(t: Tree, xs: seq<Tree>, ys: seq<Tree>)
    requires t == Items(xs) || t == Fixed(xs) || t == Record(xs)
    requires |ys| == |xs| && forall i :: 0 <= i < |xs| ==> ys[i] == Filled(xs[i])
    ensures ys == xs <==> forall i :: 0 <= i < |xs| ==> !HasNil(xs[i])
    decreases t, 0
  {
    forall i | 0 <= i < |xs|
      ensures ys[i] == xs[i] <==> !HasNil(xs[i])
    {
      FilledIfNil(xs[i]);
    }
    assert ys == xs <==> forall i :: 0 <= i < |xs| ==> ys[i] == xs[i];
  }

  /** Nothing but nil lists and maps is changed, and none of these is left. */
  lemma {:induction false} FilledFills(t: Tree)
    ensures OnlyFills(t, Filled(t)) && !HasNil(Filled(t))
    decreases t
  {
    match t
    case To(x) => FilledFills(x);
    case Boxed(x) => FilledFills(x);
    case Items(xs) => forall i | 0 <= i < |xs| ensures OnlyFills(xs[i], Filled(xs[i])) && !HasNil(Filled(xs[i])) { FilledFills(xs[i]); }
    case Fixed(xs) => forall i | 0 <= i < |xs| ensures OnlyFills(xs[i], Filled(xs[i])) && !HasNil(Filled(xs[i])) { FilledFills(xs[i]); }
    case Entries(m) => forall k | k in m ensures OnlyFills(m[k], Filled(m[k])) && !HasNil(Filled(m[k])) { FilledFills(m[k]); }
    case Record(fs) => forall i | 0 <= i < |fs| ensures OnlyFills(fs[i], Filled(fs[i])) && !HasNil(Filled(fs[i])) { FilledFills(fs[i]); }
    case _ =>
  }

  /** Any other tree that only fills and leaves no nil is the same one. */
  lemma {:induction false} FillingIsUnique(t: Tree, w: Tree)
    requires OnlyFills(t, w) && !HasNil(w)
    ensures w == Filled(t)
    decreases t
  {
    match t
    case To(x) => FillingIsUnique(x, w.target);
    case Boxed(x) => FillingIsUnique(x, w.dynamic);
    case Items(xs) => forall i | 0 <= i < |xs| ensures w.items[i] == Filled(t).items[i] { FillingIsUnique(xs[i], w.items[i]); }
    case Fixed(xs) =>
      forall i | 0 <= i < |xs| ensures w.elements[i] == Filled(t).elements[i] { FillingIsUnique(xs[i], w.elements[i]); }
    case Entries(m) =>
      forall k | k in m ensures w.entries[k] == Filled(m[k]) { FillingIsUnique(m[k], w.entries[k]); }
      assert w.entries == Filled(t).entries;
    case Record(fs) => forall i | 0 <= i < |fs| ensures w.fields[i] == Filled(t).fields[i] { FillingIsUnique(fs[i], w.fields[i]); }
    case _ =>
  }

  /** The response: exactly what fills every nil list and map of t and changes nothing else. */
  lemma FilledIsTheFilling(t: Tree, w: Tree)
    ensures w == Filled(t) <==> OnlyFills(t, w) && !HasNil(w)
  {
    FilledFills(t);
    if OnlyFills(t, w) && !HasNil(w) {
      FillingIsUnique(t, w);
    }
  }

  /** A second walk finds nothing. */
  lemma FillingTwice(t: Tree)
    ensures Filled(Filled(t)) == Filled(t)
  {
    FilledFills(t);
    FilledIfNil(Filled(t));
  }

  // ----- position by position -----

  /** One step of the walk: to what a pointer or an interface holds, to a list's, array's or struct's part, to a map's value. */
  datatype Step = Into | Part(place: int) | ValueOf(key: string)

  /** What is at a position of the response; nothing where the walk does not come. */
  function NodeAt(t: Tree, path: seq<Step>): Option<Tree>
    decreases |path|
  {
    if path == [] then Some(t)
    else match path[0]
      case Into => if t.To? then NodeAt(t.target, path[1..]) else if t.Boxed? then NodeAt(t.dynamic, path[1..]) else None
      case Part(i) =>
        if t.Items? && 0 <= i < |t.items| then NodeAt(t.items[i], path[1..])
        else if t.Fixed? && 0 <= i < |t.elements| then NodeAt(t.elements[i], path[1..])
        else if t.Record? && 0 <= i < |t.fields| then NodeAt(t.fields[i], path[1..])
        else None
      case ValueOf(k) => if t.Entries? && k in t.entries then NodeAt(t.entries[k], path[1..]) else None
  }

  ghost predicate IsNilAt(t: Tree, path: seq<Step>) {
    NodeAt(t, path) == Some(NoList) || NodeAt(t, path) == Some(NoMap)
  }

  lemma StepFirst(t: Tree, step: Step, rest: seq<Step>, next: Tree)
    requires NodeAt(t, [step]) == Some(next)
    ensures NodeAt(t, [step] + rest) == NodeAt(next, rest)
  {
    assert ([step] + rest)[1..] == rest && [step][1..] == [];
  }

  lemma {:induction false} NilIsSomewhere(t: Tree) returns (path: seq<Step>)
    requires HasNil(t)
    ensures IsNilAt(t, path)
    decreases t
  {
    hide NodeAt;
    path := [];
    var step, next;
    match t {
      case To(x) => step, next := Into, x;
      case Boxed(x) => step, next := Into, x;
      case Items(xs) =>
        var i :| 0 <= i < |xs| && HasNil(xs[i]);
        step, next := Part(i), xs[i];
      case Fixed(xs) =>
        var i :| 0 <= i < |xs| && HasNil(xs[i]);
        step, next := Part(i), xs[i];
      case Entries(m) =>
        var k :| k in m && HasNil(m[k]);
        step, next := ValueOf(k), m[k];
      case Record(fs) =>
        var i :| 0 <= i < |fs| && HasNil(fs[i]);
        step, next := Part(i), fs[i];
      case _ =>
        NilHere(t);
        return;
    }
    OneStep(t, step, next);
    var rest := NilIsSomewhere(next);
    StepFirst(t, step, rest, next);
    path := [step] + rest;
  }

  lemma NilHere(t: Tree)
    requires t.NoList? || t.NoMap?
    ensures IsNilAt(t, [])
  {
  }

  lemma OneStep(t: Tree, step: Step, next: Tree)
    requires match step
             case Into => (t.To? && next == t.target) || (t.Boxed? && next == t.dynamic)
             case Part(i) =>
               || (t.Items? && 0 <= i < |t.items| && next == t.items[i])
               || (t.Fixed? && 0 <= i < |t.elements| && next == t.elements[i])
               || (t.Record? && 0 <= i < |t.fields| && next == t.fields[i])
             case ValueOf(k) => t.Entries? && k in t.entries && next == t.entries[k]
    ensures NodeAt(t, [step]) == Some(next)
  {
    assert [step][1..] == [];
  }

  lemma {:induction false} NilIsFound(t: Tree, path: seq<Step>)
    requires IsNilAt(t, path)
    ensures HasNil(t)
    decreases |path|
  {
    if path != [] {
      match path[0]
      case Into => NilIsFound(if t.To? then t.target else t.dynamic, path[1..]);
      case Part(i) => NilIsFound(if t.Items? then t.items[i] else if t.Fixed? then t.elements[i] else t.fields[i], path[1..]);
      case ValueOf(k) => NilIsFound(t.entries[k], path[1..]);
    }
  }

  /** There is something to fill exactly when a nil list or map is at some position the walk comes to. */
  lemma NilAtSomePosition(t: Tree)
    ensures HasNil(t) <==> exists path :: IsNilAt(t, path)
  {
    if HasNil(t) {
      var path := NilIsSomewhere(t);
    }
    if path :| IsNilAt(t, path) {
      NilIsFound(t, path);
    }
  }

  /** Position by position: an empty list for a nil one, an empty map for a nil one, and anything the walk leaves as it was. */
  lemma {:induction false} FilledAtPosition(t: Tree, path: seq<Step>)
    requires NodeAt(t, path).Some?
    ensures NodeAt(Filled(t), path).Some?
    ensures var was, now := NodeAt(t, path).value, NodeAt(Filled(t), path).value;
            && (was == NoList ==> now == Items([])) && (was == NoMap ==> now == Entries(map[]))
            && (was.Same? ==> now == was)
            && (was.Items? ==> now.Items? && |now.items| == |was.items|)
            && (was.Fixed? ==> now.Fixed? && |now.elements| == |was.elements|)
            && (was.Entries? ==> now.Entries? && now.entries.Keys == was.entries.Keys)
            && (was.Record? ==> now.Record? && |now.fields| == |was.fields|)
            && (was.To? ==> now.To?) && (was.Boxed? ==> now.Boxed?)
    decreases |path|
  {
    if path != [] {
      match path[0]
      case Into => FilledAtPosition(if t.To? then t.target else t.dynamic, path[1..]);
      case Part(i) => FilledAtPosition(if t.Items? then t.items[i] else if t.Fixed? then t.elements[i] else t.fields[i], path[1..]);
      case ValueOf(k) => FilledAtPosition(t.entries[k], path[1..]);
    }
  }
}
