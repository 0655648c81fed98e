/**
  Checklists of work orders: reading the steps (internal/store/maintenance_phase2.go)
  and, in a traversal of its own, their acceptance limits (internal/store/installation.go).
 */
module Checklist {
  import opened Wrappers
  import opened Text
  import opened Floats

  /** A JSON value as far as checklists look at it. A string comes with the
      number scanned from it once its commas are gone, if there is one. */
  datatype Value = Str(text: string, number: Option<Float>) | Num(value: real) | Obj(fields: map<string, Value>) | Other

  datatype Limits = Limits(min: Option<Float>, max: Option<Float>, unit: string) {
    predicate Any() { min.Some? || max.Some? }

    predicate Hold(v: real) {
      (min.Some? ==> min.value.AtMost(v)) && (max.Some? ==> max.value.AtLeast(v))
    }

    /** No reading is inside the limits: one of them is no number or at the wrong end,
        or they are the wrong way round. */
    predicate Contradictory() {
      || (min.Some? && (min.value.NaN? || min.value == Infinite(true)))
      || (max.Some? && (max.value.NaN? || max.value == Infinite(false)))
      || (min.Some? && max.Some? && min.value.Finite? && max.value.Finite? && min.value.value > max.value.value)
    }
  }

  const TEXT_KEYS: seq<string> := ["step", "text", "title", "name"]
  const NO_LIMITS := Limits(None, None, "")

  /** The string under a key; anything else reads as empty. */
  function TextAt(fields: map<string, Value>, key: string): string {
    if key in fields && fields[key].Str? then fields[key].text else ""
  }

  function NumberAt(fields: map<string, Value>, key: string): Option<Float> {
    if key !in fields then None
    else match fields[key]
      case Num(n) => Some(Finite(n))
      case Str(_, n) => n
      case _ => None
  }

  /** Some reading is inside the limits unless they are contradictory. */
  lemma LimitsHoldExactly(l: Limits)
    ensures (exists v :: l.Hold(v)) <==> !l.Contradictory()
  {
    if !l.Contradictory() {
      var v := if l.min.Some? && l.min.value.Finite? then l.min.value.value
               else if l.max.Some? && l.max.value.Finite? then l.max.value.value else 0.0;
      assert l.Hold(v);
    }
  }

  // ---------------------------------------------------------------------------
  // What an item is
  // ---------------------------------------------------------------------------

  /** The first of the text keys from `k` on that is not blank. */
  function TextKey(fields: map<string, Value>, k: nat): Option<nat>
    decreases |TEXT_KEYS| - k
  {
    if k >= |TEXT_KEYS| then None
    else if Trim(TextAt(fields, TEXT_KEYS[k])) != "" then Some(k)
    else TextKey(fields, k + 1)
  }

  /** The name of a step, if the item is one. */
  function StepOf(item: Value): Option<string> {
    match item
    case Str(text, _) => if Trim(text) != "" then Some(Trim(text)) else None
    case Obj(fields) =>
      var k := TextKey(fields, 0);
      if k.Some? && k.value < |TEXT_KEYS| then Some(Trim(TextAt(fields, TEXT_KEYS[k.value]))) else None
    case _ => None
  }

  function LimitsOf(item: Value): Limits {
    if !item.Obj? then NO_LIMITS
    else Limits(NumberAt(item.fields, "min"), NumberAt(item.fields, "max"), Trim(TextAt(item.fields, "unit")))
  }

  /** The positions of the items that are steps. */
  function Positions(raw: seq<Value>): (r: seq<nat>)
    ensures forall i :: 0 <= i < |r| ==> r[i] < |raw| && StepOf(raw[r[i]]).Some?
    ensures forall i, j :: 0 <= i < j < |r| ==> r[i] < r[j]
  {
    if raw == [] then []
    else
      var before := Positions(raw[..|raw| - 1]);
      if StepOf(raw[|raw| - 1]).Some? then before + [|raw| - 1] else before
  }

  function Steps(raw: seq<Value>): seq<string> {
    if raw == [] then []
    else
      var last := StepOf(raw[|raw| - 1]);
      Steps(raw[..|raw| - 1]) + (if last.Some? then [last.value] else [])
  }

  function StepLimits(raw: seq<Value>): seq<Limits> {
    if raw == [] then []
    else
      var last := raw[|raw| - 1];
      StepLimits(raw[..|raw| - 1]) + (if StepOf(last).Some? then [LimitsOf(last)] else [])
  }

  // ---------------------------------------------------------------------------
  // The two traversals
  // ---------------------------------------------------------------------------

  /** The search for a step's text, the same in both traversals. */
  method FirstText(fields: map<string, Value>) returns (text: string)
    ensures StepOf(Obj(fields)) == (if text == "" then None else Some(Trim(text)))
  {
    assert Trim("") == "";
    var k := 0;
    while k < |TEXT_KEYS|
      invariant 0 <= k <= |TEXT_KEYS| && TextKey(fields, 0) == TextKey(fields, k)
    {
      text := TextAt(fields, TEXT_KEYS[k]);
      if Trim(text) != "" {
        return text;
      }
      k := k + 1;
    }
    return "";
  }

  lemma StepsMore(raw: seq<Value>, i: nat)
    requires i < |raw|
    ensures var step := StepOf(raw[i]);
      && Steps(raw[..i + 1]) == (if step.Some? then Steps(raw[..i]) + [step.value] else Steps(raw[..i]))
      && StepLimits(raw[..i + 1])
         == (if step.Some? then StepLimits(raw[..i]) + [LimitsOf(raw[i])] else StepLimits(raw[..i]))
  {
    assert raw[..i + 1][..i] == raw[..i];
  }

  method ChecklistSteps(raw: seq<Value>) returns (out: seq<string>)
    ensures out == Steps(raw)
  {
    out := [];
    var i := 0;
    while i < |raw|
      invariant 0 <= i <= |raw| && out == Steps(raw[..i])
    {
      StepsMore(raw, i);
      match raw[i] {
        case Str(text, _) =>
          var t := Trim(text);
          if t != "" {
            out := out + [t];
          }
        case Obj(fields) =>
          var t := FirstText(fields);
          if t != "" {
            out := out + [Trim(t)];
          }
        case _ =>
      }
      i := i + 1;
    }
    assert raw[..i] == raw;
  }

  method ChecklistLimits(raw: seq<Value>) returns (out: seq<Limits>)
    ensures out == StepLimits(raw)
  {
    out := [];
    var i := 0;
    while i < |raw|
      invariant 0 <= i <= |raw| && out == StepLimits(raw[..i])
    {
      var item := raw[i];
      StepsMore(raw, i);
      i := i + 1;
      match item {
        case Str(text, _) =>
          if Trim(text) != "" {
            out := out + [NO_LIMITS];
          }
        case Obj(fields) =>
          var text := FirstText(fields);
          if text == "" {
            continue;
          }
          var unit := TextAt(fields, "unit");
          out := out + [Limits(NumberAt(fields, "min"), NumberAt(fields, "max"), Trim(unit))];
        case _ =>
      }
    }
    assert raw[..i] == raw;
  }

  /** Step `i` and limits `i` are those of the item at position `p[i]`. */
  ghost predicate Line(raw: seq<Value>, p: seq<nat>, steps: seq<string>, limits: seq<Limits>) {
    && |steps| == |limits| == |p|
    && forall i :: 0 <= i < |p| ==>
         p[i] < |raw| && StepOf(raw[p[i]]) == Some(steps[i]) && limits[i] == LimitsOf(raw[p[i]])
  }

  lemma LineLonger(raw: seq<Value>, item: Value, p: seq<nat>, steps: seq<string>, limits: seq<Limits>)
    requires Line(raw, p, steps, limits)
    ensures Line(raw + [item], p, steps, limits)
    ensures StepOf(item).Some? ==>
      Line(raw + [item], p + [|raw|], steps + [StepOf(item).value], limits + [LimitsOf(item)])
  {
    var all := raw + [item];
    assert forall i :: 0 <= i < |p| ==> all[p[i]] == raw[p[i]];
    assert all[|raw|] == item;
  }

  /** The two lists line up: both hold exactly the named items, in order, so step
      `i` and limits `i` come from the same item. */
  lemma {:induction false} StepsAndLimitsLineUp(raw: seq<Value>)
    ensures Line(raw, Positions(raw), Steps(raw), StepLimits(raw))
    decreases |raw|
  {
    if raw != [] {
      var n := |raw| - 1;
      StepsAndLimitsLineUp(raw[..n]);
      LineLonger(raw[..n], raw[n], Positions(raw[..n]), Steps(raw[..n]), StepLimits(raw[..n]));
      assert raw[..n] + [raw[n]] == raw;
    }
  }

  lemma PositionsMore(raw: seq<Value>, item: Value)
    ensures Positions(raw + [item]) == (if StepOf(item).Some? then Positions(raw) + [|raw|] else Positions(raw))
  {
    assert (raw + [item])[..|raw|] == raw;
  }

  /** No named item is left out: it is step number `i`. */
  lemma {:induction false} EveryNamedItemIsAStep(raw: seq<Value>, j: nat) returns (i: nat)
    requires j < |raw| && StepOf(raw[j]).Some?
    ensures i < |Positions(raw)| && Positions(raw)[i] == j
    decreases |raw|
  {
    var front, last := raw[..|raw| - 1], raw[|raw| - 1];
    assert raw == front + [last];
    PositionsMore(front, last);
    if j < |front| {
      assert front[j] == raw[j];
      i := EveryNamedItemIsAStep(front, j);
    } else {
      i := |Positions(front)|;
    }
  }

  /** No step is blank. */
  lemma {:induction false} StepsAreNamed(raw: seq<Value>, i: nat)
    requires i < |Steps(raw)|
    ensures Steps(raw)[i] != "" && Trim(Steps(raw)[i]) == Steps(raw)[i]
  {
    StepsAndLimitsLineUp(raw);
    var item := raw[Positions(raw)[i]];
    match item
    case Str(text, _) => TrimIsTrimmed(text);
    case Obj(fields) =>
      FoundKey(fields, 0);
      TrimIsTrimmed(TextAt(fields, TEXT_KEYS[TextKey(fields, 0).value]));
    case _ =>
  }

  lemma {:induction false} FoundKey(fields: map<string, Value>, k: nat)
    ensures var r := TextKey(fields, k);
      r.Some? ==> r.value < |TEXT_KEYS| && Trim(TextAt(fields, TEXT_KEYS[r.value])) != ""
    decreases |TEXT_KEYS| - k
  {
    if k < |TEXT_KEYS| && Trim(TextAt(fields, TEXT_KEYS[k])) == "" {
      FoundKey(fields, k + 1);
    }
  }

  // ---------------------------------------------------------------------------
  // A checklist, item by item
  // ---------------------------------------------------------------------------

  function StringUnder(item: Value, key: string): string
    requires item.Obj?
  {
    if key in item.fields && item.fields[key].Str? then Trim(item.fields[key].text) else ""
  }

  /** The name an item gives its step: a string is one, and an object has it under the
      first of four keys that holds one. Blank, and anything else, is no step. */
  function NameOf(item: Value): string {
    if item.Str? then Trim(item.text)
    else if !item.Obj? then ""
    else if StringUnder(item, "step") != "" then StringUnder(item, "step")
    else if StringUnder(item, "text") != "" then StringUnder(item, "text")
    else if StringUnder(item, "title") != "" then StringUnder(item, "title")
    else StringUnder(item, "name")
  }

  /** A number, or a string that reads as one. */
  function NumberUnder(item: Value, key: string): Option<Float>
    requires item.Obj?
  {
    if key !in item.fields then None
    else if item.fields[key].Num? then Some(Finite(item.fields[key].value))
    else if item.fields[key].Str? then item.fields[key].number
    else None
  }

  lemma NamesTheStep(item: Value)
    ensures StepOf(item) == if NameOf(item) == "" then None else Some(NameOf(item))
  {
    assert TEXT_KEYS == ["step", "text", "title", "name"];
    assert Trim("") == "";
    if item.Obj? {
      assert forall k :: 0 <= k < 4 ==> Trim(TextAt(item.fields, TEXT_KEYS[k])) == StringUnder(item, TEXT_KEYS[k]);
      FromKey(item.fields, 3);
      FromKey(item.fields, 2);
      FromKey(item.fields, 1);
      FromKey(item.fields, 0);
    }
  }

  lemma FromKey(fields: map<string, Value>, k: nat)
    requires k < |TEXT_KEYS|
    ensures TextKey(fields, k)
         == (if Trim(TextAt(fields, TEXT_KEYS[k])) != "" then Some(k)
             else if k + 1 < |TEXT_KEYS| then TextKey(fields, k + 1) else None)
  {}

  /** The limits an item gives. */
  function LimitsGiven(item: Value): Limits {
    if item.Obj? then Limits(NumberUnder(item, "min"), NumberUnder(item, "max"), StringUnder(item, "unit"))
    else Limits(None, None, "")
  }

  /** `at` lists the items that give a name, all of them and in order. */
  ghost predicate Naming(raw: seq<Value>, at: seq<nat>) {
    && (forall i :: 0 <= i < |at| ==> at[i] < |raw| && NameOf(raw[at[i]]) != "")
    && (forall i, j :: 0 <= i < j < |at| ==> at[i] < at[j])
    && (forall j: nat :: j < |raw| && NameOf(raw[j]) != "" ==> j in at)
  }

  /** The steps are the names those give, and the limits what they give with them. */
  lemma StepsExactly(raw: seq<Value>) returns (at: seq<nat>)
    ensures Naming(raw, at) && |Steps(raw)| == |StepLimits(raw)| == |at|
    ensures forall i :: 0 <= i < |at| ==>
      Steps(raw)[i] == NameOf(raw[at[i]]) && StepLimits(raw)[i] == LimitsGiven(raw[at[i]])
  {
    at := Positions(raw);
    StepsAndLimitsLineUp(raw);
    assert Trim("") == "";
    forall j: nat | j < |raw| ensures StepOf(raw[j]) == if NameOf(raw[j]) == "" then None else Some(NameOf(raw[j])) {
      NamesTheStep(raw[j]);
    }
    forall j: nat | j < |raw| && NameOf(raw[j]) != "" ensures j in at {
      var i := EveryNamedItemIsAStep(raw, j);
      assert at[i] == j;
    }
    forall i | 0 <= i < |at| ensures StepLimits(raw)[i] == LimitsGiven(raw[at[i]]) {
      assert LimitsOf(raw[at[i]]) == LimitsGiven(raw[at[i]]);
    }
  }
}
