/** Reading a verification job's input out of untyped JSON (wevibe-dashboard/lib/verify-queue.ts).

    `Number(x)` applied to something that is not a number is left to an arbitrary function
    `coerce`, passed to every parser. */
module QueueInput {
  import opened Text
  import opened Wrappers

  /** A JavaScript number: finite, or one of NaN and the infinities. */
  datatype Number = Finite(value: real) | NonFinite

  datatype Json =
    | Undefined
    | Null
    | Bool(b: bool)
    | Num(n: Number)
    | Str(s: string)
    | Arr(items: seq<Json>)
    | Obj(fields: map<string, Json>)

  type Coercion = Json -> Number

  datatype Weight = Weight(keyword: string, weight: real, baseWeight: real)

  datatype Suggestion = Suggestion(keyword: string, weight: real, baseWeight: real, rationale: string)

  datatype Input = Input(
    orgId: string,
    submissionHash: string,
    epochId: real,
    selected: seq<Weight>,
    excluded: seq<Suggestion>,
    ciphertextHex: string,
    wrappedDekMod: string,
    stackHint: seq<string>)

  function Field(fields: map<string, Json>, name: string): Json {
    if name in fields then fields[name] else Undefined
  }

  function ToNumber(raw: Json, coerce: Coercion): Number {
    if raw.Num? then raw.n else coerce(raw)
  }

  function NonEmptyString(raw: Json): (r: Option<string>)
    ensures r.Some? ==> Clean(r.value)
  {
    if raw.Str? && Trim(raw.s) != "" then Some(Trim(raw.s)) else None
  }

  /** `list.filter((entry) => entry !== null)`. */
  function Present<T>(opts: seq<Option<T>>): seq<T> {
    if opts == [] then []
    else if opts[0].Some? then [opts[0].value] + Present(opts[1..])
    else Present(opts[1..])
  }

  lemma {:induction false} InPresent<T>(opts: seq<Option<T>>)
    ensures forall x :: x in Present(opts) ==> Some(x) in opts
  {
    if opts != [] {
      InPresent(opts[1..]);
    }
  }

  lemma {:induction false} AllPresent<T>(opts: seq<Option<T>>, vals: seq<T>)
    requires |opts| == |vals| && forall i :: 0 <= i < |vals| ==> opts[i] == Some(vals[i])
    ensures Present(opts) == vals
  {
    if vals != [] {
      AllPresent(opts[1..], vals[1..]);
    }
  }

  function StackHint(items: seq<Json>): seq<string> {
    if items == [] then []
    else match NonEmptyString(items[0])
      case Some(s) => [s] + StackHint(items[1..])
      case None => StackHint(items[1..])
  }

  function ParseWeight(raw: Json, coerce: Coercion): Option<Weight> {
    if !raw.Obj? then None
    else
      var keyword := NonEmptyString(Field(raw.fields, "keyword"));
      var weight := ToNumber(Field(raw.fields, "weight"), coerce);
      var base := ToNumber(Field(raw.fields, "base_weight"), coerce);
      if keyword.None? || weight.NonFinite? then None
      else Some(Weight(keyword.value, weight.value, if base.Finite? then base.value else weight.value))
  }

  function KeywordWeights(items: seq<Json>, coerce: Coercion): seq<Weight> {
    if items == [] then []
    else match ParseWeight(items[0], coerce)
      case Some(w) => [w] + KeywordWeights(items[1..], coerce)
      case None => KeywordWeights(items[1..], coerce)
  }

  function ParseSuggestion(raw: Json, coerce: Coercion): Option<Suggestion> {
    match ParseWeight(raw, coerce)
    case None => None
    case Some(w) =>
      var rationale := Field(raw.fields, "rationale");
      Some(Suggestion(w.keyword, w.weight, w.baseWeight,
                      if rationale.Str? && Trim(rationale.s) != "" then rationale.s else "excluded"))
  }

  function ExcludedSuggestions(items: seq<Json>, coerce: Coercion): seq<Suggestion> {
    if items == [] then []
    else match ParseSuggestion(items[0], coerce)
      case Some(w) => [w] + ExcludedSuggestions(items[1..], coerce)
      case None => ExcludedSuggestions(items[1..], coerce)
  }

  function Items(raw: Json): seq<Json> {
    if raw.Arr? then raw.items else []
  }

  function ParseInput(raw: Json, coerce: Coercion): Option<Input> {
    if !raw.Obj? then None
    else
      var orgId := NonEmptyString(Field(raw.fields, "orgId"));
      var hash := NonEmptyString(Field(raw.fields, "submissionHash"));
      var epochId := ToNumber(Field(raw.fields, "epochId"), coerce);
      var ciphertextHex := NonEmptyString(Field(raw.fields, "ciphertextHex"));
      var wrappedDekMod := NonEmptyString(Field(raw.fields, "wrappedDekMod"));
      if orgId.None? || hash.None? || epochId.NonFinite? || ciphertextHex.None? || wrappedDekMod.None? then None
      else Some(Input(
                  orgId.value, hash.value, epochId.value,
                  KeywordWeights(Items(Field(raw.fields, "selected")), coerce),
                  ExcludedSuggestions(Items(Field(raw.fields, "excluded")), coerce),
                  ciphertextHex.value, wrappedDekMod.value,
                  StackHint(Items(Field(raw.fields, "stackHint")))))
  }

  function ParseEach(raw: seq<Json>, coerce: Coercion): (r: seq<Option<Input>>)
    ensures |r| == |raw|
    ensures forall i :: 0 <= i < |raw| ==> r[i] == ParseInput(raw[i], coerce)
  {
    seq(|raw|, i requires 0 <= i < |raw| => ParseInput(raw[i], coerce))
  }

  function ParseAll(raw: seq<Json>, coerce: Coercion): seq<Input> {
    Present(ParseEach(raw, coerce))
  }

  // ----- writing an input back -----

  function EncodeStrings(s: seq<string>): (r: seq<Json>)
    ensures |r| == |s|
    ensures forall i :: 0 <= i < |s| ==> r[i] == Str(s[i])
  {
    seq(|s|, i requires 0 <= i < |s| => Str(s[i]))
  }

  function WeightFields(keyword: string, weight: real, baseWeight: real): map<string, Json> {
    map["keyword" := Str(keyword), "weight" := Num(Finite(weight)), "base_weight" := Num(Finite(baseWeight))]
  }

  function EncodeWeights(s: seq<Weight>): (r: seq<Json>)
    ensures |r| == |s|
    ensures forall i :: 0 <= i < |s| ==> r[i] == Obj(WeightFields(s[i].keyword, s[i].weight, s[i].baseWeight))
  {
    seq(|s|, i requires 0 <= i < |s| => Obj(WeightFields(s[i].keyword, s[i].weight, s[i].baseWeight)))
  }

  function EncodeSuggestion(w: Suggestion): Json {
    Obj(WeightFields(w.keyword, w.weight, w.baseWeight)["rationale" := Str(w.rationale)])
  }

  function EncodeSuggestions(s: seq<Suggestion>): (r: seq<Json>)
    ensures |r| == |s|
    ensures forall i :: 0 <= i < |s| ==> r[i] == EncodeSuggestion(s[i])
  {
    seq(|s|, i requires 0 <= i < |s| => EncodeSuggestion(s[i]))
  }

  function InputFields(i: Input): map<string, Json> {
    map[
      "orgId" := Str(i.orgId),
      "submissionHash" := Str(i.submissionHash),
      "epochId" := Num(Finite(i.epochId)),
      "selected" := Arr(EncodeWeights(i.selected)),
      "excluded" := Arr(EncodeSuggestions(i.excluded)),
      "ciphertextHex" := Str(i.ciphertextHex),
      "wrappedDekMod" := Str(i.wrappedDekMod),
      "stackHint" := Arr(EncodeStrings(i.stackHint))]
  }

  function EncodeInput(i: Input): Json {
    Obj(InputFields(i))
  }

  // ----- what the parser can return, and that it reads its own output back -----

  ghost predicate Canonical(i: Input) {
    && Clean(i.orgId) && Clean(i.submissionHash) && Clean(i.ciphertextHex) && Clean(i.wrappedDekMod)
    && (forall w :: w in i.selected ==> Clean(w.keyword))
    && (forall w :: w in i.excluded ==> Clean(w.keyword) && Trim(w.rationale) != "")
    && (forall s :: s in i.stackHint ==> Clean(s))
  }

  lemma {:induction false} StackHintClean(items: seq<Json>)
    ensures forall s :: s in StackHint(items) ==> Clean(s)
  {
    if items != [] {
      StackHintClean(items[1..]);
    }
  }

  lemma {:induction false} WeightsClean(items: seq<Json>, coerce: Coercion)
    ensures forall w :: w in KeywordWeights(items, coerce) ==> Clean(w.keyword)
  {
    if items != [] {
      WeightsClean(items[1..], coerce);
    }
  }

  lemma ExcludedIsText()
    ensures Trim("excluded") == "excluded"
  {
    TrimFixes("excluded");
  }

  lemma {:induction false} SuggestionsClean(items: seq<Json>, coerce: Coercion)
    ensures forall w :: w in ExcludedSuggestions(items, coerce) ==> Clean(w.keyword) && Trim(w.rationale) != ""
  {
    if items != [] {
      ExcludedIsText();
      SuggestionsClean(items[1..], coerce);
    }
  }

  lemma CleanReads(s: string)
    requires Clean(s)
    ensures NonEmptyString(Str(s)) == Some(s)
  {
    TrimFixes(s);
  }

  lemma {:induction false} ReadsStrings(s: seq<string>, items: seq<Json>)
    requires forall x :: x in s ==> Clean(x)
    requires |items| == |s| && forall i :: 0 <= i < |s| ==> items[i] == Str(s[i])
    ensures StackHint(items) == s
  {
    if s != [] {
      assert items[0] == Str(s[0]) && s[0] in s;
      CleanReads(s[0]);
      ReadsStrings(s[1..], items[1..]);
    }
  }

  lemma {:induction false} ReadsWeights(s: seq<Weight>, items: seq<Json>, coerce: Coercion)
    requires forall w :: w in s ==> Clean(w.keyword)
    requires |items| == |s|
    requires forall i :: 0 <= i < |s| ==> items[i] == Obj(WeightFields(s[i].keyword, s[i].weight, s[i].baseWeight))
    ensures KeywordWeights(items, coerce) == s
  {
    if s != [] {
      assert s[0] in s;
      CleanReads(s[0].keyword);
      assert ParseWeight(items[0], coerce) == Some(s[0]);
      ReadsWeights(s[1..], items[1..], coerce);
    }
  }

  lemma {:induction false} ReadsSuggestions(s: seq<Suggestion>, items: seq<Json>, coerce: Coercion)
    requires forall w :: w in s ==> Clean(w.keyword) && Trim(w.rationale) != ""
    requires |items| == |s|
    requires forall i :: 0 <= i < |s| ==> items[i] == EncodeSuggestion(s[i])
    ensures ExcludedSuggestions(items, coerce) == s
  {
    if s != [] {
      assert s[0] in s;
      CleanReads(s[0].keyword);
      assert ParseSuggestion(items[0], coerce) == Some(s[0]);
      ReadsSuggestions(s[1..], items[1..], coerce);
    }
  }

  /** The object holds `i`'s fields, whatever else it holds. */
  ghost predicate Carries(fields: map<string, Json>, i: Input) {
    && Field(fields, "orgId") == Str(i.orgId)
    && Field(fields, "submissionHash") == Str(i.submissionHash)
    && Field(fields, "epochId") == Num(Finite(i.epochId))
    && Field(fields, "selected") == Arr(EncodeWeights(i.selected))
    && Field(fields, "excluded") == Arr(EncodeSuggestions(i.excluded))
    && Field(fields, "ciphertextHex") == Str(i.ciphertextHex)
    && Field(fields, "wrappedDekMod") == Str(i.wrappedDekMod)
    && Field(fields, "stackHint") == Arr(EncodeStrings(i.stackHint))
  }

  lemma FieldsCarry(i: Input)
    ensures Carries(InputFields(i), i)
  {
  }

  lemma ReadsInput(i: Input, fields: map<string, Json>, coerce: Coercion)
    requires Canonical(i) && Carries(fields, i)
    ensures ParseInput(Obj(fields), coerce) == Some(i)
  {
    CleanReads(i.orgId);
    CleanReads(i.submissionHash);
    CleanReads(i.ciphertextHex);
    CleanReads(i.wrappedDekMod);
    ReadsWeights(i.selected, EncodeWeights(i.selected), coerce);
    ReadsSuggestions(i.excluded, EncodeSuggestions(i.excluded), coerce);
    ReadsStrings(i.stackHint, EncodeStrings(i.stackHint));
  }

  lemma ParsedIsCanonical(raw: Json, coerce: Coercion)
    requires ParseInput(raw, coerce).Some?
    ensures Canonical(ParseInput(raw, coerce).value)
  {
    WeightsClean(Items(Field(raw.fields, "selected")), coerce);
    SuggestionsClean(Items(Field(raw.fields, "excluded")), coerce);
    StackHintClean(Items(Field(raw.fields, "stackHint")));
  }

  /** Whatever is accepted is accepted again, unchanged, after being written out, under any two
      coercions; and the only inputs that survive a write and a read unchanged are those the parser
      can return. */
  lemma ParserIdempotent(raw: Json, coerce: Coercion, again: Coercion)
    requires ParseInput(raw, coerce).Some?
    ensures ParseInput(EncodeInput(ParseInput(raw, coerce).value), again) == ParseInput(raw, coerce)
  {
    ParsedIsCanonical(raw, coerce);
    var i := ParseInput(raw, coerce).value;
    FieldsCarry(i);
    ReadsInput(i, InputFields(i), again);
  }

  lemma SurvivesIffCanonical(i: Input, coerce: Coercion)
    ensures ParseInput(EncodeInput(i), coerce) == Some(i) <==> Canonical(i)
  {
    if Canonical(i) {
      FieldsCarry(i);
      ReadsInput(i, InputFields(i), coerce);
    }
    if ParseInput(EncodeInput(i), coerce) == Some(i) {
      ParsedIsCanonical(EncodeInput(i), coerce);
    }
  }
}
