/**
 * The canonical text emitter (apiwriter.py). A `Writer` holds the text the
 * `writer` callback has been given so far; every emitter appends to it.
 * Values are the trees Python's JSON loader produces: dicts (as ordered
 * key/value sequences), lists, strings, ints and bools, plus the kinds the
 * emitter refuses (None, float). Strings are written without any escaping.
 */
module ApiWriter {

  import opened Wrappers
  import opened Text

  datatype Value =
    | Dict(entries: seq<(string, Value)>)
    | List(items: seq<Value>)
    | Str(s: string)
    | Int(i: int)
    | Bool(b: bool)
    | Null
    | Float(f: real)

  /** Python's `type(v).__name__`, which the abort message carries. */
  function TypeName(v: Value): string
  {
    match v
    case Dict(_) => "dict"
    case List(_) => "list"
    case Str(_) => "str"
    case Int(_) => "int"
    case Bool(_) => "bool"
    case Null => "NoneType"
    case Float(_) => "float"
  }

  /** Why emission stopped. */
  datatype Abort =
    | UnsupportedKind(typeName: string)   // the exit with the value's type name
    | MissingKey(key: string)             // KeyError from `obj[field]`
    | NotSubscriptable(typeName: string)  // TypeError from `obj[field]` on a non-dict
    | NotIterable(typeName: string)       // TypeError from iterating `api["Constants"]`

  /** The aborts `writeInline` raises itself: a None or a float, named by its type. */
  predicate RefusedKind(a: Abort)
  {
    a == UnsupportedKind("NoneType") || a == UnsupportedKind("float")
  }

  // Regrouping appends: the writer appends one piece at a time, the grammar
  // names whole pieces.

  lemma Append2(x: string, a: string, b: string)
    ensures x + a + b == x + (a + b)
  {
  }

  lemma Append3(x: string, a: string, b: string, c: string)
    ensures x + a + b + c == x + (a + b + c)
  {
    Append2(x, a, b);
    Append2(x, a + b, c);
  }

  lemma Append4(x: string, a: string, b: string, c: string, d: string)
    ensures x + a + b + c + d == x + (a + b + c + d)
  {
    Append3(x, a, b, c);
    Append2(x, a + b + c, d);
  }

  function Keys(es: seq<(string, Value)>): (ks: seq<string>)
    ensures |ks| == |es|
    ensures forall i :: 0 <= i < |es| ==> ks[i] == es[i].0
  {
    if |es| == 0 then [] else Keys(es[..|es| - 1]) + [es[|es| - 1].0]
  }

  predicate DistinctKeys(es: seq<(string, Value)>)
  {
    forall i, j :: 0 <= i < j < |es| ==> es[i].0 != es[j].0
  }

  /** A Python dict never holds a key twice; this holds at every level of the tree. */
  predicate WellFormed(v: Value)
  {
    match v
    case Dict(es) => DistinctKeys(es) && forall i | 0 <= i < |es| :: WellFormed(es[i].1)
    case List(vs) => forall i | 0 <= i < |vs| :: WellFormed(vs[i])
    case _ => true
  }

  /** The tree holds only kinds `writeInline` can write: no None and no float anywhere. */
  predicate Emittable(v: Value)
  {
    match v
    case Dict(es) => forall i | 0 <= i < |es| :: Emittable(es[i].1)
    case List(vs) => forall i | 0 <= i < |vs| :: Emittable(vs[i])
    case Null => false
    case Float(_) => false
    case _ => true
  }

  // ---------------------------------------------------------------------
  // The output grammar

  /** Python's `"{}".format(b)` for a bool: the ints branch catches bools. */
  function BoolText(b: bool): string
  {
    if b then "True" else "False"
  }

  /** What goes before the element at position `k` of a list or field sequence: nothing before the first. */
  function Separator(k: nat): string
  {
    if k == 0 then "" else ","
  }

  /** A dict key as it is written before its value: `"key":`. */
  function KeyText(key: string): string
  {
    "\"" + key + "\":"
  }

  /** A string value as written: between double quotes, with nothing escaped. */
  function Quoted(s: string): string
  {
    "\"" + s + "\""
  }

  /** The text `writeInline` produces for an emittable value. */
  function Render(v: Value): string
    requires Emittable(v)
  {
    match v
    case Dict(es) => "{" + PairsText(es, "", "") + "}"
    case List(vs) => "[" + RenderItems(vs) + "]"
    case Str(s) => Quoted(s)
    case Int(i) => IntText(i)
    case Bool(b) => BoolText(b)
  }

  /** List elements, comma separated, in order. */
  function RenderItems(vs: seq<Value>): string
    requires forall i | 0 <= i < |vs| :: Emittable(vs[i])
    decreases vs
  {
    if |vs| == 0 then ""
    else RenderItems(vs[..|vs| - 1]) + Separator(|vs| - 1) + Render(vs[|vs| - 1])
  }

  /**
   * Key/value pairs as `writeInlineFields` lays them out: per pair the field
   * prefix, the separator (none before the first pair), `"key":`, the value,
   * the field suffix. A dict's entries are this with empty prefix and suffix.
   */
  function PairsText(ps: seq<(string, Value)>, fieldPrefix: string, fieldSuffix: string): string
    requires forall i | 0 <= i < |ps| :: Emittable(ps[i].1)
    decreases ps
  {
    if |ps| == 0 then ""
    else
      var p := ps[|ps| - 1];
      assert p.1 < p;
      PairsText(ps[..|ps| - 1], fieldPrefix, fieldSuffix)
      + FieldHeader(fieldPrefix, Separator(|ps| - 1), p.0) + Render(p.1) + fieldSuffix
  }

  // ---------------------------------------------------------------------
  // Field access, `obj[field]`

  /** Position of `key` among the entries, if present. */
  function FindKey(es: seq<(string, Value)>, key: string): (r: Option<nat>)
    ensures r.Some? ==> r.value < |es| && es[r.value].0 == key
    ensures r.None? ==> forall i :: 0 <= i < |es| ==> es[i].0 != key
  {
    if |es| == 0 then None
    else if es[|es| - 1].0 == key then Some(|es| - 1)
    else FindKey(es[..|es| - 1], key)
  }

  /** Python's `obj[key]` with a string key. */
  function Subscript(obj: Value, key: string): (r: Result<Value, Abort>)
    ensures r.Failure? <==> !obj.Dict? || forall i :: 0 <= i < |obj.entries| ==> obj.entries[i].0 != key
    ensures r.Failure? ==> r.error == if obj.Dict? then MissingKey(key) else NotSubscriptable(TypeName(obj))
  {
    if !obj.Dict? then Failure(NotSubscriptable(TypeName(obj)))
    else match FindKey(obj.entries, key)
      case None => Failure(MissingKey(key))
      case Some(i) => Success(obj.entries[i].1)
  }

  /** Every listed field can be looked up and holds an emittable value. */
  predicate FieldsOk(fields: seq<string>, obj: Value)
  {
    forall i :: 0 <= i < |fields| ==>
      Subscript(obj, fields[i]).Success? && Emittable(Subscript(obj, fields[i]).value)
  }

  /** The header written before a field's value: the field prefix, the separator, then `"field":`. */
  function FieldHeader(fieldPrefix: string, separator: string, field: string): string
  {
    fieldPrefix + separator + KeyText(field)
  }

  /** The fields paired with the values `obj[field]` finds for them, in the order given. */
  function Lookups(fields: seq<string>, obj: Value): seq<(string, Value)>
    requires forall i :: 0 <= i < |fields| ==> Subscript(obj, fields[i]).Success?
  {
    seq(|fields|, i requires 0 <= i < |fields| => (fields[i], Subscript(obj, fields[i]).value))
  }

  /** The text `writeInlineFields` produces: the looked-up pairs, laid out as fields. */
  function FieldsText(fields: seq<string>, fieldPrefix: string, fieldSuffix: string, obj: Value): string
    requires FieldsOk(fields, obj)
  {
    PairsText(Lookups(fields, obj), fieldPrefix, fieldSuffix)
  }

  /** In a dict with distinct keys, looking up an entry's own key finds that entry's value. */
  lemma SubscriptOwnKey(es: seq<(string, Value)>, i: nat)
    requires DistinctKeys(es) && i < |es|
    ensures Subscript(Dict(es), es[i].0) == Success(es[i].1)
  {
    var k := FindKey(es, es[i].0);
    assert k.Some? && es[k.value].0 == es[i].0;
  }

  /**
   * Looking up a dict's own keys in iteration order gives back its entries, so
   * `writeInline` on a dict writes exactly the dict grammar: `"key":value` per
   * entry, comma separated, in order.
   */
  lemma OwnFields(es: seq<(string, Value)>)
    requires DistinctKeys(es)
    ensures FieldsOk(Keys(es), Dict(es)) <==> forall i | 0 <= i < |es| :: Emittable(es[i].1)
    ensures FieldsOk(Keys(es), Dict(es)) ==> FieldsText(Keys(es), "", "", Dict(es)) == PairsText(es, "", "")
  {
    var ks := Keys(es);
    OwnKeysFound(es);
    if FieldsOk(ks, Dict(es)) {
      forall i | 0 <= i < |es|
        ensures Emittable(es[i].1)
      {
        assert Subscript(Dict(es), ks[i]).value == es[i].1;
      }
      var ps := Lookups(ks, Dict(es));
      forall i | 0 <= i < |es|
        ensures ps[i] == es[i]
      {
        assert Subscript(Dict(es), ks[i]).value == es[i].1;
      }
      assert ps == es;
    }
    if forall i | 0 <= i < |es| :: Emittable(es[i].1) {
      forall i | 0 <= i < |ks|
        ensures Subscript(Dict(es), ks[i]).Success? && Emittable(Subscript(Dict(es), ks[i]).value)
      {
        assert Subscript(Dict(es), ks[i]).value == es[i].1;
      }
    }
  }

  lemma OwnKeysFound(es: seq<(string, Value)>)
    requires DistinctKeys(es)
    ensures forall i :: 0 <= i < |es| ==> Subscript(Dict(es), Keys(es)[i]) == Success(es[i].1)
  {
    forall i | 0 <= i < |es|
      ensures Subscript(Dict(es), Keys(es)[i]) == Success(es[i].1)
    {
      SubscriptOwnKey(es, i);
    }
  }

  // ---------------------------------------------------------------------
  // Constants and the document

  /** The five fields of a constant, in the order they are always written. */
  const ConstantFields: seq<string> := ["Name", "Type", "ValueType", "Value", "Attrs"]

  /** The opening line of a constant: a tab, the prefix, then `{`. */
  function ConstantOpen(prefix: string): string
  {
    "\t" + prefix + "{\r\n"
  }

  const ConstantClose: string := "\t}\r\n"

  /** The block `writeConstant` writes: one field per line, tab indented, CRLF line ends. */
  function ConstantText(prefix: string, constant: Value): string
    requires FieldsOk(ConstantFields, constant)
  {
    ConstantOpen(prefix) + FieldsText(ConstantFields, "\t\t", "\r\n", constant) + ConstantClose
  }

  /** Python's `for x in v`: list elements, dict keys, or the characters of a string. */
  function Iterate(v: Value): (r: Result<seq<Value>, Abort>)
    ensures r.Success? <==> v.List? || v.Dict? || v.Str?
    ensures r.Failure? ==> r.error == NotIterable(TypeName(v))
    ensures v.List? ==> r.value == v.items
    ensures v.Dict? ==> |r.value| == |v.entries| && forall i :: 0 <= i < |v.entries| ==> r.value[i] == Str(v.entries[i].0)
    ensures v.Str? ==> |r.value| == |v.s| && forall i :: 0 <= i < |v.s| ==> r.value[i] == Str([v.s[i]])
  {
    match v
    case List(vs) => Success(vs)
    case Dict(es) => Success(seq(|es|, i requires 0 <= i < |es| => Str(es[i].0)))
    case Str(s) => Success(seq(|s|, i requires 0 <= i < |s| => Str([s[i]])))
    case _ => Failure(NotIterable(TypeName(v)))
  }

  /** Every object in `objs` has all the listed fields, writable; read from the last object back. */
  predicate AllFieldsOk(fields: seq<string>, objs: seq<Value>)
  {
    |objs| == 0 || (AllFieldsOk(fields, objs[..|objs| - 1]) && FieldsOk(fields, objs[|objs| - 1]))
  }

  /** Every constant can be written. */
  predicate ConstantsOk(cs: seq<Value>)
  {
    AllFieldsOk(ConstantFields, cs)
  }

  /** Each object of a writable sequence is writable. */
  lemma {:induction false} AllFieldsOkAt(fields: seq<string>, objs: seq<Value>, i: nat)
    requires AllFieldsOk(fields, objs) && i < |objs|
    ensures FieldsOk(fields, objs[i])
  {
    var init := objs[..|objs| - 1];
    if i < |init| {
      AllFieldsOkAt(fields, init, i);
      assert objs[i] == init[i];
    }
  }

  /** A sequence whose every object is writable is writable. */
  lemma {:induction false} AllFieldsOkOfEach(fields: seq<string>, objs: seq<Value>)
    requires forall i :: 0 <= i < |objs| ==> FieldsOk(fields, objs[i])
    ensures AllFieldsOk(fields, objs)
  {
    if |objs| > 0 {
      var init := objs[..|objs| - 1];
      forall i | 0 <= i < |init|
        ensures FieldsOk(fields, init[i])
      {
        assert init[i] == objs[i];
      }
      AllFieldsOkOfEach(fields, init);
    }
  }

  /** The objects can all be written exactly when each one can. */
  lemma AllFieldsOkEach(fields: seq<string>, objs: seq<Value>)
    ensures AllFieldsOk(fields, objs) <==> forall i :: 0 <= i < |objs| ==> FieldsOk(fields, objs[i])
  {
    if AllFieldsOk(fields, objs) {
      forall i | 0 <= i < |objs|
        ensures FieldsOk(fields, objs[i])
      {
        AllFieldsOkAt(fields, objs, i);
      }
    }
    if forall i :: 0 <= i < |objs| ==> FieldsOk(fields, objs[i]) {
      AllFieldsOkOfEach(fields, objs);
    }
  }

  /** The constant blocks in input order: the first has no prefix, every later one a comma. */
  function ConstantsText(cs: seq<Value>): string
    requires ConstantsOk(cs)
  {
    if |cs| == 0 then ""
    else ConstantsText(cs[..|cs| - 1]) + ConstantText(Separator(|cs| - 1), cs[|cs| - 1])
  }

  /** `b` followed by the three opening writes of `write`. */
  function Opened(b: string): string
  {
    b + "{\r\n" + "\r\n" + "\"Constants\":[\r\n"
  }

  /**
   * `b` followed by the closing writes of `write`: the end of `Constants`, then
   * the `Types`, `Functions` and `UnicodeAliases` arrays, each with a leading
   * comma and left empty, then the closing brace.
   */
  function Closed(b: string): string
  {
    b + "]\r\n" + "\r\n"
    + ",\"Types\":[\r\n" + "]\r\n" + "\r\n"
    + ",\"Functions\":[\r\n" + "]\r\n" + "\r\n"
    + ",\"UnicodeAliases\":[\r\n" + "]\r\n" + "\r\n"
    + "}\r\n"
  }

  const DocumentHead: string := Opened("")

  const DocumentTail: string := Closed("")

  lemma HeadShift(b: string)
    ensures Opened(b) == b + DocumentHead
  {
  }

  lemma TailShift(b: string)
    ensures Closed(b) == b + DocumentTail
  {
  }

  /** `api["Constants"]` exists, can be iterated, and every constant can be written. */
  predicate DocumentOk(api: Value)
  {
    && Subscript(api, "Constants").Success?
    && Iterate(Subscript(api, "Constants").value).Success?
    && ConstantsOk(Iterate(Subscript(api, "Constants").value).value)
  }

  /** The whole document `write` produces. */
  function DocumentText(api: Value): string
    requires DocumentOk(api)
  {
    DocumentHead + ConstantsText(Iterate(Subscript(api, "Constants").value).value) + DocumentTail
  }

  /** The constants of a well-formed document are well formed. */
  lemma IteratedWellFormed(api: Value, constants: Value)
    requires WellFormed(api) && Subscript(api, "Constants") == Success(constants)
    requires Iterate(constants).Success?
    ensures forall i :: 0 <= i < |Iterate(constants).value| ==> WellFormed(Iterate(constants).value[i])
  {
    var k := FindKey(api.entries, "Constants").value;
    assert WellFormed(api.entries[k].1);
  }

  lemma PairsStep(ps: seq<(string, Value)>, p: (string, Value), fieldPrefix: string, fieldSuffix: string)
    requires forall i | 0 <= i < |ps| :: Emittable(ps[i].1)
    requires Emittable(p.1)
    ensures PairsText(ps + [p], fieldPrefix, fieldSuffix)
         == PairsText(ps, fieldPrefix, fieldSuffix) + FieldHeader(fieldPrefix, Separator(|ps|), p.0) + Render(p.1) + fieldSuffix
  {
    assert (ps + [p])[..|ps|] == ps;
  }

  lemma FieldsStep(fields: seq<string>, fieldPrefix: string, fieldSuffix: string, obj: Value, i: nat)
    requires i < |fields| && FieldsOk(fields[..i], obj)
    requires Subscript(obj, fields[i]).Success? && Emittable(Subscript(obj, fields[i]).value)
    ensures FieldsOk(fields[..i + 1], obj)
    ensures FieldsText(fields[..i + 1], fieldPrefix, fieldSuffix, obj)
         == FieldsText(fields[..i], fieldPrefix, fieldSuffix, obj)
            + FieldHeader(fieldPrefix, Separator(i), fields[i]) + Render(Subscript(obj, fields[i]).value) + fieldSuffix
  {
    var p := (fields[i], Subscript(obj, fields[i]).value);
    var longer := fields[..i + 1];
    forall k | 0 <= k < |longer|
      ensures Subscript(obj, longer[k]).Success? && Emittable(Subscript(obj, longer[k]).value)
    {
      if k < i {
        assert longer[k] == fields[..i][k];
      }
    }
    assert Lookups(fields[..i + 1], obj) == Lookups(fields[..i], obj) + [p];
    PairsStep(Lookups(fields[..i], obj), p, fieldPrefix, fieldSuffix);
  }

  lemma ItemsStep(vs: seq<Value>, i: nat)
    requires i < |vs| && forall k :: 0 <= k <= i ==> Emittable(vs[k])
    ensures RenderItems(vs[..i + 1]) == RenderItems(vs[..i]) + Separator(i) + Render(vs[i])
  {
    assert vs[..i + 1][..i] == vs[..i];
  }

  lemma ConstantsStep(cs: seq<Value>, i: nat)
    requires i < |cs| && ConstantsOk(cs[..i]) && FieldsOk(ConstantFields, cs[i])
    ensures ConstantsOk(cs[..i + 1])
    ensures ConstantsText(cs[..i + 1]) == ConstantsText(cs[..i]) + ConstantText(Separator(i), cs[i])
  {
    assert cs[..i + 1][..i] == cs[..i];
  }

  // ---------------------------------------------------------------------
  // Reference readings of the grammar, front to back

  /** Pieces separated by commas, read from the first piece on. */
  function Join(ps: seq<string>): string
  {
    if |ps| == 0 then ""
    else if |ps| == 1 then ps[0]
    else ps[0] + "," + Join(ps[1..])
  }

  /** Pieces one after the other, read from the first piece on. */
  function Concat(ps: seq<string>): string
  {
    if |ps| == 0 then "" else ps[0] + Concat(ps[1..])
  }

  lemma {:induction false} JoinSnoc(ps: seq<string>, p: string)
    ensures Join(ps + [p]) == Join(ps) + Separator(|ps|) + p
  {
    if |ps| == 0 {
      assert ps + [p] == [p];
    } else if |ps| == 1 {
      assert (ps + [p])[1..] == [p];
    } else {
      assert (ps + [p])[1..] == ps[1..] + [p];
      JoinSnoc(ps[1..], p);
      Append3(ps[0], ",", Join(ps[1..]), "," + p);
      Append2(ps[0] + "," + Join(ps[1..]), ",", p);
    }
  }

  lemma {:induction false} ConcatSnoc(ps: seq<string>, p: string)
    ensures Concat(ps + [p]) == Concat(ps) + p
  {
    if |ps| == 0 {
      assert ps + [p] == [p];
    } else {
      assert (ps + [p])[1..] == ps[1..] + [p];
      ConcatSnoc(ps[1..], p);
      Append2(ps[0], Concat(ps[1..]), p);
    }
  }

  /** The text of each element of a list, in order. */
  function RenderedItems(vs: seq<Value>): (ts: seq<string>)
    requires forall i | 0 <= i < |vs| :: Emittable(vs[i])
  {
    seq(|vs|, i requires 0 <= i < |vs| => Render(vs[i]))
  }

  lemma ItemsSnoc(vs: seq<Value>)
    requires |vs| > 0 && forall i | 0 <= i < |vs| :: Emittable(vs[i])
    ensures RenderedItems(vs) == RenderedItems(vs[..|vs| - 1]) + [Render(vs[|vs| - 1])]
  {
  }

  /** `JoinSnoc` with the longer sequence named. */
  lemma JoinExtends(ps: seq<string>, p: string, longer: seq<string>)
    requires longer == ps + [p]
    ensures Join(longer) == Join(ps) + Separator(|ps|) + p
  {
    JoinSnoc(ps, p);
  }

  /** A list is `[`, its elements' texts in input order separated by `,`, then `]`; `[]` when empty. */
  lemma {:induction false} ListLayout(vs: seq<Value>)
    requires forall i | 0 <= i < |vs| :: Emittable(vs[i])
    ensures RenderItems(vs) == Join(RenderedItems(vs))
    ensures Render(List(vs)) == "[" + Join(RenderedItems(vs)) + "]"
  {
    if |vs| > 0 {
      var init := vs[..|vs| - 1];
      ListLayout(init);
      ItemsSnoc(vs);
      JoinExtends(RenderedItems(init), Render(vs[|vs| - 1]), RenderedItems(vs));
    }
  }

  /** The `"key":value` text of each dict entry, in iteration order. */
  function RenderedEntries(es: seq<(string, Value)>): seq<string>
    requires forall i | 0 <= i < |es| :: Emittable(es[i].1)
  {
    seq(|es|, i requires 0 <= i < |es| => KeyText(es[i].0) + Render(es[i].1))
  }

  /** One line per looked-up pair: field prefix, separator, `"key":`, value, field suffix. */
  function FieldLines(ps: seq<(string, Value)>, fieldPrefix: string, fieldSuffix: string): seq<string>
    requires forall i | 0 <= i < |ps| :: Emittable(ps[i].1)
  {
    seq(|ps|, i requires 0 <= i < |ps| =>
      FieldHeader(fieldPrefix, Separator(i), ps[i].0) + Render(ps[i].1) + fieldSuffix)
  }

  /** Every field gets its own line, in the order given, and only the first goes without a comma. */
  lemma {:induction false} FieldsLayout(ps: seq<(string, Value)>, fieldPrefix: string, fieldSuffix: string)
    requires forall i | 0 <= i < |ps| :: Emittable(ps[i].1)
    ensures PairsText(ps, fieldPrefix, fieldSuffix) == Concat(FieldLines(ps, fieldPrefix, fieldSuffix))
  {
    if |ps| > 0 {
      var init := ps[..|ps| - 1];
      var p := ps[|ps| - 1];
      var line := FieldHeader(fieldPrefix, Separator(|init|), p.0) + Render(p.1) + fieldSuffix;
      FieldsLayout(init, fieldPrefix, fieldSuffix);
      assert FieldLines(ps, fieldPrefix, fieldSuffix) == FieldLines(init, fieldPrefix, fieldSuffix) + [line];
      ConcatSnoc(FieldLines(init, fieldPrefix, fieldSuffix), line);
      Append3(PairsText(init, fieldPrefix, fieldSuffix), FieldHeader(fieldPrefix, Separator(|init|), p.0), Render(p.1), fieldSuffix);
    }
  }

  /** Each piece behind its separator: none before the first, `,` before the others. */
  function Separated(ps: seq<string>): seq<string>
  {
    seq(|ps|, i requires 0 <= i < |ps| => Separator(i) + ps[i])
  }

  /** Joining with `,` is writing each piece behind its separator. */
  lemma {:induction false} JoinIsSeparatedConcat(ps: seq<string>)
    ensures Join(ps) == Concat(Separated(ps))
  {
    if |ps| > 0 {
      var init := ps[..|ps| - 1];
      var p := ps[|ps| - 1];
      JoinIsSeparatedConcat(init);
      assert init + [p] == ps;
      JoinSnoc(init, p);
      assert Separated(ps) == Separated(init) + [Separator(|init|) + p];
      ConcatSnoc(Separated(init), Separator(|init|) + p);
      Append2(Concat(Separated(init)), Separator(|init|), p);
    }
  }

  /** A dict is `{`, `"key":value` per entry in iteration order separated by `,`, then `}`. */
  lemma DictLayout(es: seq<(string, Value)>)
    requires forall i | 0 <= i < |es| :: Emittable(es[i].1)
    ensures PairsText(es, "", "") == Join(RenderedEntries(es))
    ensures Render(Dict(es)) == "{" + Join(RenderedEntries(es)) + "}"
  {
    var lines := FieldLines(es, "", "");
    var entries := RenderedEntries(es);
    FieldsLayout(es, "", "");
    JoinIsSeparatedConcat(entries);
    forall i | 0 <= i < |es|
      ensures lines[i] == Separated(entries)[i]
    {
      BareLine(Separator(i), es[i].0, Render(es[i].1));
    }
    assert lines == Separated(entries);
  }

  lemma BareLine(separator: string, key: string, value: string)
    ensures FieldHeader("", separator, key) + value + "" == separator + (KeyText(key) + value)
  {
    Append2(separator, KeyText(key), value);
  }

  /**
   * What `writeInlineFields` writes depends only on what each listed field
   * looks up to: keys that are not listed, and the order of the dict's own
   * entries, make no difference.
   */
  lemma SameLookupsSameText(fields: seq<string>, fieldPrefix: string, fieldSuffix: string, a: Value, b: Value)
    requires FieldsOk(fields, a)
    requires forall i :: 0 <= i < |fields| ==> Subscript(a, fields[i]) == Subscript(b, fields[i])
    ensures FieldsOk(fields, b)
    ensures FieldsText(fields, fieldPrefix, fieldSuffix, a) == FieldsText(fields, fieldPrefix, fieldSuffix, b)
  {
    assert Lookups(fields, a) == Lookups(fields, b);
  }

  /** The block of one constant: its opening line, the five field lines in the fixed order, its closing line. */
  lemma ConstantLayout(prefix: string, constant: Value)
    requires FieldsOk(ConstantFields, constant)
    ensures ConstantText(prefix, constant)
         == ConstantOpen(prefix) + Concat(FieldLines(Lookups(ConstantFields, constant), "\t\t", "\r\n")) + ConstantClose
    ensures ConstantOpen(prefix) == "\t" + prefix + "{\r\n" && ConstantClose == "\t}\r\n"
  {
    FieldsLayout(Lookups(ConstantFields, constant), "\t\t", "\r\n");
  }

  /** The constant blocks, in input order. */
  function ConstantBlocks(cs: seq<Value>): seq<string>
    requires ConstantsOk(cs)
  {
    AllFieldsOkEach(ConstantFields, cs);
    seq(|cs|, i requires 0 <= i < |cs| => ConstantText(Separator(i), cs[i]))
  }

  lemma BlocksSnoc(cs: seq<Value>)
    requires |cs| > 0 && ConstantsOk(cs)
    ensures ConstantsOk(cs[..|cs| - 1])
    ensures ConstantBlocks(cs) == ConstantBlocks(cs[..|cs| - 1]) + [ConstantText(Separator(|cs| - 1), cs[|cs| - 1])]
  {
  }

  /** Constants are written in input order; the first has an empty prefix and every later one `,`. */
  lemma {:induction false} ConstantsLayout(cs: seq<Value>)
    requires ConstantsOk(cs)
    ensures ConstantsText(cs) == Concat(ConstantBlocks(cs))
  {
    if |cs| > 0 {
      BlocksSnoc(cs);
      ConstantsLayout(cs[..|cs| - 1]);
      ConcatSnoc(ConstantBlocks(cs[..|cs| - 1]), ConstantText(Separator(|cs| - 1), cs[|cs| - 1]));
    }
  }

  lemma QuotesRegroup(q: string, c: string, s: string, t: string)
    ensures q + (s + (q + c + q) + t) + q == q + s + q + c + (q + t + q)
  {
    Append2(s, q + c + q, t);
    Append2(q, s, (q + c + q) + t);
    Append3(q + s, q, c, q);
    Append3(q + s + q + c, q, t, q);
  }

  /**
   * Strings are written between quotes exactly as they are: a string holding
   * `","` is written the same as the two strings around it.
   */
  lemma NoEscaping(s: string, t: string)
    ensures Render(List([Str(s + "\",\"" + t)])) == Render(List([Str(s), Str(t)]))
  {
    var one := [Str(s + "\",\"" + t)];
    var two := [Str(s), Str(t)];
    ListLayout(one);
    ListLayout(two);
    assert RenderedItems(one) == [Quoted(s + "\",\"" + t)];
    assert RenderedItems(two) == [Quoted(s), Quoted(t)];
    assert [Quoted(s), Quoted(t)][1..] == [Quoted(t)];
    assert "\",\"" == "\"" + "," + "\"";
    QuotesRegroup("\"", ",", s, t);
  }

  /** A bool takes the int branch and is written as Python formats it. */
  lemma BoolLayout()
    ensures Render(Bool(true)) == "True" && Render(Bool(false)) == "False"
    ensures ParseInt(Render(Bool(true))) == None
  {
  }

  /**
   * An empty `api["Constants"]`, list or string, gives just the head and the
   * tail; a missing `Constants` key aborts.
   */
  lemma EmptyConstants()
    ensures DocumentOk(Dict([("Constants", List([]))]))
    ensures DocumentText(Dict([("Constants", List([]))])) == DocumentHead + DocumentTail
    ensures DocumentOk(Dict([("Constants", Str(""))]))
    ensures DocumentText(Dict([("Constants", Str(""))])) == DocumentHead + DocumentTail
    ensures !DocumentOk(Dict([]))
  {
  }

  /**
   * A non-empty string as `api["Constants"]` iterates as one-character
   * strings, and looking up a field of a string aborts.
   */
  lemma StringConstantsAbort(api: Value, s: string)
    requires |s| > 0 && Subscript(api, "Constants") == Success(Str(s))
    ensures !DocumentOk(api)
  {
    var cs := Iterate(Str(s)).value;
    assert cs[0] == Str([s[0]]);
    assert Subscript(cs[0], ConstantFields[0]).Failure?;
    AllFieldsOkEach(ConstantFields, cs);
  }

  // ---------------------------------------------------------------------
  // The emitter

  class Writer {
    /** Everything handed to the `writer` callback so far. */
    var out: string

    constructor ()
      ensures out == ""
    {
      out := "";
    }

    /** `writeInline`: appends the text of one value, or aborts on a kind it cannot write. */
    method WriteInline(v: Value) returns (err: Option<Abort>)
      requires WellFormed(v)
      modifies this
      ensures err.None? <==> Emittable(v)
      ensures err.None? ==> out == old(out) + Render(v)
      ensures err.Some? ==> old(out) <= out && RefusedKind(err.value)
      decreases v, 2
    {
      match v
      case Dict(es) =>
        out := out + "{";
        OwnFields(es);
        err := WriteInlineFields(Keys(es), "", "", v);
        if err.Some? {
          return;
        }
        out := out + "}";
        Append3(old(out), "{", PairsText(es, "", ""), "}");
      case List(_) =>
        err := WriteList(v);
      case Str(s) =>
        out := out + Quoted(s);
        err := None;
      case Int(n) =>
        out := out + IntText(n);
        err := None;
      case Bool(b) =>
        out := out + BoolText(b);
        err := None;
      case Null =>
        err := Some(UnsupportedKind(TypeName(v)));
      case Float(_) =>
        err := Some(UnsupportedKind(TypeName(v)));
    }

    /** The list branch of `writeInline`: `[`, the elements comma separated, `]`. */
    method WriteList(v: Value) returns (err: Option<Abort>)
      requires v.List? && WellFormed(v)
      modifies this
      ensures err.None? <==> Emittable(v)
      ensures err.None? ==> out == old(out) + Render(v)
      ensures err.Some? ==> old(out) <= out && RefusedKind(err.value)
      decreases v, 1
    {
      var vs := v.items;
      out := out + "[";
      ghost var start := out;
      var prefix := "";
      var i := 0;
      while i < |vs|
        invariant 0 <= i <= |vs|
        invariant prefix == Separator(i)
        invariant forall k :: 0 <= k < i ==> Emittable(vs[k])
        invariant out == start + RenderItems(vs[..i])
      {
        out := out + prefix;
        err := WriteInline(vs[i]);
        if err.Some? {
          return;
        }
        ItemsStep(vs, i);
        Append3(start, RenderItems(vs[..i]), prefix, Render(vs[i]));
        prefix := ",";
        i := i + 1;
      }
      assert vs[..i] == vs;
      out := out + "]";
      Append3(old(out), "[", RenderItems(vs), "]");
      err := None;
    }

    /**
     * `writeInlineFields`: for each field in the given order, the header
     * (field prefix, separator, `"field":`), then the value looked up in
     * `obj`, then the field suffix. A failed lookup or an unwritable value aborts.
     */
    method WriteInlineFields(fields: seq<string>, fieldPrefix: string, fieldSuffix: string, obj: Value)
      returns (err: Option<Abort>)
      requires WellFormed(obj)
      modifies this
      ensures err.None? <==> FieldsOk(fields, obj)
      ensures err.None? ==> out == old(out) + FieldsText(fields, fieldPrefix, fieldSuffix, obj)
      ensures err.Some? ==> old(out) <= out
      ensures err.Some? ==> RefusedKind(err.value)
                            || exists i :: 0 <= i < |fields| && Subscript(obj, fields[i]) == Failure(err.value)
      decreases obj, 0
    {
      var separator := "";
      var i := 0;
      while i < |fields|
        invariant 0 <= i <= |fields|
        invariant separator == Separator(i)
        invariant FieldsOk(fields[..i], obj)
        invariant out == old(out) + FieldsText(fields[..i], fieldPrefix, fieldSuffix, obj)
      {
        ghost var done := FieldsText(fields[..i], fieldPrefix, fieldSuffix, obj);
        var field := fields[i];
        var header := FieldHeader(fieldPrefix, separator, field);
        out := out + header;
        var found := Subscript(obj, field);
        if found.Failure? {
          return Some(found.error);
        }
        var k := FindKey(obj.entries, field).value;
        var entry := obj.entries[k];
        assert entry.1 < entry;
        err := WriteInline(entry.1);
        if err.Some? {
          return;
        }
        out := out + fieldSuffix;
        assert found.value == entry.1;
        FieldsStep(fields, fieldPrefix, fieldSuffix, obj, i);
        Append4(old(out), done, header, Render(entry.1), fieldSuffix);
        separator := ",";
        i := i + 1;
      }
      assert fields[..i] == fields;
      err := None;
    }

    /** `writeConstant`: `\t`, the prefix and `{`, the five fields one per line, then `\t}`. */
    method WriteConstant(prefix: string, constant: Value) returns (err: Option<Abort>)
      requires WellFormed(constant)
      modifies this
      ensures err.None? <==> FieldsOk(ConstantFields, constant)
      ensures err.None? ==> out == old(out) + ConstantText(prefix, constant)
      ensures err.Some? ==> old(out) <= out
    {
      out := out + ConstantOpen(prefix);
      err := WriteInlineFields(ConstantFields, "\t\t", "\r\n", constant);
      if err.Some? {
        return;
      }
      out := out + ConstantClose;
      Append3(old(out), ConstantOpen(prefix), FieldsText(ConstantFields, "\t\t", "\r\n", constant), ConstantClose);
    }

    /** The loop of `write` over `api["Constants"]`: each constant, the first with no prefix, later ones with a comma. */
    method WriteConstants(cs: seq<Value>) returns (err: Option<Abort>)
      requires forall i :: 0 <= i < |cs| ==> WellFormed(cs[i])
      modifies this
      ensures err.None? <==> ConstantsOk(cs)
      ensures err.None? ==> out == old(out) + ConstantsText(cs)
      ensures err.Some? ==> old(out) <= out
    {
      var prefix := "";
      var i := 0;
      while i < |cs|
        invariant 0 <= i <= |cs|
        invariant prefix == Separator(i)
        invariant ConstantsOk(cs[..i])
        invariant out == old(out) + ConstantsText(cs[..i])
      {
        err := WriteConstant(prefix, cs[i]);
        if err.Some? {
          AllFieldsOkEach(ConstantFields, cs);
          return;
        }
        ConstantsStep(cs, i);
        Append2(old(out), ConstantsText(cs[..i]), ConstantText(prefix, cs[i]));
        prefix := ",";
        i := i + 1;
      }
      assert cs[..i] == cs;
      err := None;
    }

    /**
     * The closing writes of `write`: the end of `Constants`, the `Types`,
     * `Functions` and `UnicodeAliases` arrays, each with a leading comma and
     * left empty, and the closing brace.
     */
    method WriteClosing()
      modifies this
      ensures out == old(out) + DocumentTail
    {
      out := out + "]\r\n";
      out := out + "\r\n";
      out := out + ",\"Types\":[\r\n";
      out := out + "]\r\n";
      out := out + "\r\n";
      out := out + ",\"Functions\":[\r\n";
      out := out + "]\r\n";
      out := out + "\r\n";
      out := out + ",\"UnicodeAliases\":[\r\n";
      out := out + "]\r\n";
      out := out + "\r\n";
      out := out + "}\r\n";
      assert out == Closed(old(out));
      TailShift(old(out));
    }

    /** `write`: the document shell around the constants of `api`, in input order. */
    method Write(api: Value) returns (err: Option<Abort>)
      requires WellFormed(api)
      modifies this
      ensures err.None? <==> DocumentOk(api)
      ensures err.None? ==> out == old(out) + DocumentText(api)
      ensures err.Some? ==> old(out) <= out
    {
      out := out + "{\r\n";
      out := out + "\r\n";
      out := out + "\"Constants\":[\r\n";
      HeadShift(old(out));
      ghost var start := out;
      var found := Subscript(api, "Constants");
      if found.Failure? {
        return Some(found.error);
      }
      var constants := Iterate(found.value);
      if constants.Failure? {
        return Some(constants.error);
      }
      var cs := constants.value;
      IteratedWellFormed(api, found.value);
      err := WriteConstants(cs);
      if err.Some? {
        return;
      }
      WriteClosing();
      Append3(old(out), DocumentHead, ConstantsText(cs), DocumentTail);
      err := None;
    }
  }
}
