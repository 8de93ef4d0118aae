/** References from one plan step's arguments to another step's outputs. */
module StepReferences {
  import opened Prelude

  const PREFIX := "{{steps."
  const MIDDLE := ".outputs."
  const SUFFIX := "}}"

  predicate IsIdChar(c: char) {
    'A' <= c <= 'Z' || 'a' <= c <= 'z' || '0' <= c <= '9' || c == '_' || c == '.' || c == '-' || c == ':'
  }

  predicate IsKeyChar(c: char) {
    'a' <= c <= 'z' || '0' <= c <= '9' || c == '_'
  }

  predicate IsStepId(s: string) {
    1 <= |s| <= 128 && forall i | 0 <= i < |s| :: IsIdChar(s[i])
  }

  predicate IsOutputKey(s: string) {
    1 <= |s| <= 64 && forall i | 0 <= i < |s| :: IsKeyChar(s[i])
  }

  datatype StepReference = StepReference(stepId: string, output: string)

  /** The language of the reference pattern. */
  ghost predicate Denotes(s: string, ref: StepReference) {
    s == PREFIX + ref.stepId + MIDDLE + ref.output + SUFFIX && IsStepId(ref.stepId) && IsOutputKey(ref.output)
  }

  function LastDot(s: string): (i: int)
    ensures -1 <= i < |s|
    ensures i >= 0 ==> s[i] == '.'
    ensures forall j | i < j < |s| :: s[j] != '.'
  {
    if s == [] then -1
    else if s[|s| - 1] == '.' then |s| - 1
    else LastDot(s[..|s| - 1])
  }

  /** A step id may itself contain ".outputs.", but an output key contains no dot, so the match
      splits at the last one. */
  function ParseInner(inner: string): Option<StepReference> {
    var dot := LastDot(inner);
    var cut := dot + 1 - |MIDDLE|;
    if cut < 0 || inner[cut..dot + 1] != MIDDLE then None
    else if !IsStepId(inner[..cut]) || !IsOutputKey(inner[dot + 1..]) then None
    else Some(StepReference(inner[..cut], inner[dot + 1..]))
  }

  function ParseStepReference(s: string): Option<StepReference> {
    if |s| < |PREFIX| + |SUFFIX| || s[..|PREFIX|] != PREFIX || s[|s| - |SUFFIX|..] != SUFFIX then None
    else ParseInner(s[|PREFIX|..|s| - |SUFFIX|])
  }

  lemma {:induction false} LastDotBefore(head: string, key: string)
    requires head != [] && head[|head| - 1] == '.' && forall i | 0 <= i < |key| :: key[i] != '.'
    ensures LastDot(head + key) == |head| - 1
  {
    var s := head + key;
    if key == [] {
      assert s == head;
    } else {
      assert s[..|s| - 1] == head + key[..|key| - 1];
      LastDotBefore(head, key[..|key| - 1]);
    }
  }

  lemma InnerPrinted(id: string, key: string)
    requires IsStepId(id) && IsOutputKey(key)
    ensures ParseInner(id + MIDDLE + key) == Some(StepReference(id, key))
  {
    LastDotBefore(id + MIDDLE, key);
    CutThree(id, MIDDLE, key);
    ParseAt(id + MIDDLE + key, id, key);
  }

  lemma ParseAt(inner: string, id: string, key: string)
    requires IsStepId(id) && IsOutputKey(key) && LastDot(inner) == |id| + |MIDDLE| - 1
    requires |inner| == |id| + |MIDDLE| + |key|
    requires inner[..|id|] == id && inner[|id|..|id| + |MIDDLE|] == MIDDLE && inner[|id| + |MIDDLE|..] == key
    ensures ParseInner(inner) == Some(StepReference(id, key))
  {
  }

  lemma InnerParsed(inner: string)
    requires ParseInner(inner).Some?
    ensures var ref := ParseInner(inner).value;
      inner == ref.stepId + MIDDLE + ref.output && IsStepId(ref.stepId) && IsOutputKey(ref.output)
  {
    var dot := LastDot(inner);
    assert inner == inner[..dot + 1 - |MIDDLE|] + inner[dot + 1 - |MIDDLE|..dot + 1] + inner[dot + 1..];
  }

  /** Printing a reference and parsing it back returns both parts, whatever the id contains. */
  lemma PrintThenParse(ref: StepReference)
    requires IsStepId(ref.stepId) && IsOutputKey(ref.output)
    ensures ParseStepReference(PREFIX + ref.stepId + MIDDLE + ref.output + SUFFIX) == Some(ref)
  {
    var inner := ref.stepId + MIDDLE + ref.output;
    Nest(PREFIX, ref.stepId, MIDDLE, ref.output, SUFFIX);
    CutThree(PREFIX, inner, SUFFIX);
    InnerPrinted(ref.stepId, ref.output);
  }

  lemma {:induction false} ParseThenPrint(s: string)
    requires ParseStepReference(s).Some?
    ensures Denotes(s, ParseStepReference(s).value)
  {
    var inner, ref := s[|PREFIX|..|s| - |SUFFIX|], ParseStepReference(s).value;
    InnerParsed(inner);
    assert s == s[..|PREFIX|] + inner + s[|s| - |SUFFIX|..];
    Nest(PREFIX, ref.stepId, MIDDLE, ref.output, SUFFIX);
  }

  /** The parser accepts exactly the pattern's language and recovers both parts. */
  lemma ParseExact(s: string, ref: StepReference)
    ensures ParseStepReference(s) == Some(ref) <==> Denotes(s, ref)
  {
    if ParseStepReference(s).Some? { ParseThenPrint(s); }
    if Denotes(s, ref) { PrintThenParse(ref); }
  }

  datatype Field = Field(name: string, value: Arg)

  /** An argument value: JSON data, with JavaScript's undefined. */
  datatype Arg =
    | Undefined
    | Null
    | Bool(b: bool)
    | Number(n: real)
    | Text(s: string)
    | List(items: seq<Arg>)
    | Record(fields: seq<Field>)

  type Outputs = map<string, map<string, Arg>>

  function ReferenceOf(v: Arg): Option<StepReference> {
    if v.Text? then ParseStepReference(v.s) else None
  }

  predicate Produced(outputs: Outputs, ref: StepReference) {
    ref.stepId in outputs && ref.output in outputs[ref.stepId]
    && !outputs[ref.stepId][ref.output].Undefined? && !outputs[ref.stepId][ref.output].Null?
  }

  /** Every reference, in the order a walk over nested lists and records meets it. */
  function Collect(v: Arg): seq<StepReference>
    decreases v, 1
  {
    match v
    case Text(s) => (match ParseStepReference(s) case Some(ref) => [ref] case None => [])
    case List(items) => CollectItems(items)
    case Record(fields) => CollectFields(fields)
    case _ => []
  }

  function CollectItems(items: seq<Arg>): seq<StepReference>
    decreases items, 0
  {
    if items == [] then [] else Collect(items[0]) + CollectItems(items[1..])
  }

  function CollectFields(fields: seq<Field>): seq<StepReference>
    decreases fields, 0
  {
    if fields == [] then [] else Collect(fields[0].value) + CollectFields(fields[1..])
  }

  datatype Walked<T> = Walked(value: T, missing: Option<StepReference>)

  /** The substitution walk. `missing` keeps the first unresolved reference. */
  function Walk(v: Arg, outputs: Outputs, missing: Option<StepReference>): Walked<Arg>
    decreases v, 1
  {
    match ReferenceOf(v)
    case Some(ref) =>
      if Produced(outputs, ref) then Walked(outputs[ref.stepId][ref.output], missing)
      else Walked(v, if missing.None? then Some(ref) else missing)
    case None =>
      match v
      case List(items) =>
        var w := WalkItems(items, outputs, missing);
        Walked(List(w.value), w.missing)
      case Record(fields) =>
        var w := WalkFields(fields, outputs, missing);
        Walked(Record(w.value), w.missing)
      case _ => Walked(v, missing)
  }

  function WalkItems(items: seq<Arg>, outputs: Outputs, missing: Option<StepReference>): Walked<seq<Arg>>
    decreases items, 0
  {
    if items == [] then Walked([], missing)
    else
      var first := Walk(items[0], outputs, missing);
      var rest := WalkItems(items[1..], outputs, first.missing);
      Walked([first.value] + rest.value, rest.missing)
  }

  function WalkFields(fields: seq<Field>, outputs: Outputs, missing: Option<StepReference>): Walked<seq<Field>>
    decreases fields, 0
  {
    if fields == [] then Walked([], missing)
    else
      var first := Walk(fields[0].value, outputs, missing);
      var rest := WalkFields(fields[1..], outputs, first.missing);
      Walked([Field(fields[0].name, first.value)] + rest.value, rest.missing)
  }

  function ResolveStepArgs(args: seq<Field>, outputs: Outputs): Result<seq<Field>, StepReference> {
    var w := WalkFields(args, outputs, None);
    if w.missing.Some? then Err(w.missing.value) else Ok(w.value)
  }

  /** `w` is `v` with every reference replaced by its produced value, all at once: a produced value
      is taken as it is, even when it looks like a reference itself. */
  ghost predicate Substitutes(v: Arg, w: Arg, outputs: Outputs) {
    match v
    case Text(s) =>
      && (forall ref | Denotes(s, ref) :: Produced(outputs, ref) && w == outputs[ref.stepId][ref.output])
      && ((exists ref :: Denotes(s, ref)) || w == v)
    case List(items) =>
      && w.List? && |w.items| == |items|
      && forall i | 0 <= i < |items| :: Substitutes(items[i], w.items[i], outputs)
    case Record(fields) => w.Record? && SubstitutesFields(fields, w.fields, outputs)
    case _ => w == v
  }

  ghost predicate SubstitutesFields(fields: seq<Field>, fields': seq<Field>, outputs: Outputs) {
    && |fields| == |fields'|
    && forall i | 0 <= i < |fields| ::
      fields[i].name == fields'[i].name && Substitutes(fields[i].value, fields'[i].value, outputs)
  }

  ghost predicate Occurs(ref: StepReference, v: Arg) {
    match v
    case Text(s) => Denotes(s, ref)
    case List(items) => exists i | 0 <= i < |items| :: Occurs(ref, items[i])
    case Record(fields) => OccursInFields(ref, fields)
    case _ => false
  }

  ghost predicate OccursInFields(ref: StepReference, fields: seq<Field>) {
    exists i | 0 <= i < |fields| :: Occurs(ref, fields[i].value)
  }

  /** Collecting finds a reference exactly where one occurs. */
  lemma {:induction false} CollectExact(v: Arg, ref: StepReference)
    ensures ref in Collect(v) <==> Occurs(ref, v)
    decreases v, 1
  {
    match v
    case Text(s) =>
      ParseExact(s, ref);
    case List(items) => CollectItemsExact(items, ref);
    case Record(fields) => CollectFieldsExact(fields, ref);
    case _ =>
  }

  lemma {:induction false} CollectItemsExact(items: seq<Arg>, ref: StepReference)
    ensures ref in CollectItems(items) <==> exists i | 0 <= i < |items| :: Occurs(ref, items[i])
    decreases items, 0
  {
    if items != [] {
      CollectExact(items[0], ref);
      CollectItemsExact(items[1..], ref);
      assert forall i | 1 <= i < |items| :: items[i] == items[1..][i - 1];
      assert forall i | 0 <= i < |items[1..]| :: items[1..][i] == items[i + 1];
    }
  }

  lemma {:induction false} CollectFieldsExact(fields: seq<Field>, ref: StepReference)
    ensures ref in CollectFields(fields) <==> OccursInFields(ref, fields)
    decreases fields, 0
  {
    if fields != [] {
      CollectExact(fields[0].value, ref);
      CollectFieldsExact(fields[1..], ref);
      assert forall i | 1 <= i < |fields| :: fields[i] == fields[1..][i - 1];
      assert forall i | 0 <= i < |fields[1..]| :: fields[1..][i] == fields[i + 1];
    }
  }

  function FirstMissing(refs: seq<StepReference>, outputs: Outputs): (r: Option<StepReference>)
    ensures r.None? <==> forall i | 0 <= i < |refs| :: Produced(outputs, refs[i])
    ensures r.Some? ==> exists i | 0 <= i < |refs| ::
      refs[i] == r.value && !Produced(outputs, refs[i]) && forall j | 0 <= j < i :: Produced(outputs, refs[j])
  {
    if refs == [] then None
    else if !Produced(outputs, refs[0]) then Some(refs[0])
    else
      var r := FirstMissing(refs[1..], outputs);
      assert r.Some? ==> var i :| 0 <= i < |refs[1..]| && refs[1..][i] == r.value && !Produced(outputs, refs[1..][i])
        && forall j | 0 <= j < i :: Produced(outputs, refs[1..][j]);
        refs[i + 1] == r.value;
      r
  }

  lemma {:induction false} FirstMissingAppend(a: seq<StepReference>, b: seq<StepReference>, outputs: Outputs)
    ensures FirstMissing(a + b, outputs) ==
      if FirstMissing(a, outputs).Some? then FirstMissing(a, outputs) else FirstMissing(b, outputs)
  {
    if a == [] {
      assert a + b == b;
    } else {
      assert (a + b)[1..] == a[1..] + b;
      FirstMissingAppend(a[1..], b, outputs);
    }
  }

  function MissingAfter(missing: Option<StepReference>, refs: seq<StepReference>,
                        outputs: Outputs): Option<StepReference> {
    if missing.Some? then missing else FirstMissing(refs, outputs)
  }

  lemma {:induction false} WalkExact(v: Arg, outputs: Outputs, missing: Option<StepReference>)
    ensures var w := Walk(v, outputs, missing);
      && w.missing == MissingAfter(missing, Collect(v), outputs)
      && (FirstMissing(Collect(v), outputs).None? ==> Substitutes(v, w.value, outputs))
    decreases v, 1
  {
    match v
    case Text(s) =>
      forall ref ensures ParseStepReference(s) == Some(ref) <==> Denotes(s, ref) { ParseExact(s, ref); }
    case List(items) => WalkItemsExact(items, outputs, missing);
    case Record(fields) => WalkFieldsExact(fields, outputs, missing);
    case _ =>
  }

  lemma {:induction false} WalkItemsExact(items: seq<Arg>, outputs: Outputs, missing: Option<StepReference>)
    ensures var w := WalkItems(items, outputs, missing);
      && w.missing == MissingAfter(missing, CollectItems(items), outputs)
      && (FirstMissing(CollectItems(items), outputs).None? ==>
        |w.value| == |items| && forall i | 0 <= i < |items| :: Substitutes(items[i], w.value[i], outputs))
    decreases items, 0
  {
    if items != [] {
      var first := Walk(items[0], outputs, missing);
      WalkExact(items[0], outputs, missing);
      WalkItemsExact(items[1..], outputs, first.missing);
      FirstMissingAppend(Collect(items[0]), CollectItems(items[1..]), outputs);
    }
  }

  lemma {:induction false} WalkFieldsExact(fields: seq<Field>, outputs: Outputs, missing: Option<StepReference>)
    ensures var w := WalkFields(fields, outputs, missing);
      && w.missing == MissingAfter(missing, CollectFields(fields), outputs)
      && (FirstMissing(CollectFields(fields), outputs).None? ==> SubstitutesFields(fields, w.value, outputs))
    decreases fields, 0
  {
    if fields != [] {
      var first := Walk(fields[0].value, outputs, missing);
      WalkExact(fields[0].value, outputs, missing);
      WalkFieldsExact(fields[1..], outputs, first.missing);
      FirstMissingAppend(Collect(fields[0].value), CollectFields(fields[1..]), outputs);
    }
  }

  /** Resolution succeeds exactly when every reference has a produced value; its result is then the
      simultaneous substitution, and otherwise it names the first reference without one. */
  lemma ResolveExact(args: seq<Field>, outputs: Outputs)
    ensures var r := ResolveStepArgs(args, outputs);
      && (r.Ok? <==> forall ref | OccursInFields(ref, args) :: Produced(outputs, ref))
      && (r.Ok? ==> SubstitutesFields(args, r.value, outputs))
      && (r.Err? ==> FirstMissing(CollectFields(args), outputs) == Some(r.error))
  {
    WalkFieldsExact(args, outputs, None);
    forall ref ensures ref in CollectFields(args) <==> OccursInFields(ref, args) { CollectFieldsExact(args, ref); }
  }
}
