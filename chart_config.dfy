/**
  The chart helpers of static/js/chart-config.js: the recursive merge of chart
  options, the merge of a caller's options over the defaults, and the text of
  a currency tooltip. Chart.js itself, the DOM and number formatting are
  outside the model.
*/
module ChartConfig {
  import opened Optional
  import opened JsValues

  /** `isObject(item)`: a plain object; `null` and arrays are not. */
  predicate IsObject(v: Json) {
    v.JObj?
  }

  /**
    `Object.assign({}, v)`: the own enumerable properties of `v` in a fresh
    object. Arrays and strings contribute their indices, other primitives nothing.
  */
  function ShallowCopy(v: Json): (r: Json)
    ensures r.JObj?
    ensures IsObject(v) ==> r == v
  {
    match v
    case JObj(fields) => JObj(fields)
    case JArr(items) =>
      NatToStringIsInjective();
      JObj(map i | 0 <= i < |items| :: NatToString(i) := items[i])
    case JStr(s) =>
      NatToStringIsInjective();
      JObj(map i | 0 <= i < |s| :: NatToString(i) := JStr([s[i]]))
    case _ => JObj(map[])
  }

  /**
    The merged value at a key of two objects: a source value that is an
    object and whose key the target has is merged into the target's value;
    any other source value replaces it; a key only the target has keeps the
    target's value.
  */
  function MergedAt(target: map<string, Json>, source: map<string, Json>, key: string): Json
    requires key in target || key in source
    decreases JObj(source), 0
  {
    if key in source then
      if IsObject(source[key]) && key in target then Merged(target[key], source[key]) else source[key]
    else target[key]
  }

  /** The result of `deepMerge(target, source)`. */
  function Merged(target: Json, source: Json): (r: Json)
    ensures r.JObj?
    decreases source, 1
  {
    if IsObject(target) && IsObject(source) then
      JObj(map key | key in target.fields.Keys + source.fields.Keys :: MergedAt(target.fields, source.fields, key))
    else ShallowCopy(target)
  }

  /** The output object once the keys in `done` of `source` have been merged into the copy of `target`. */
  function PartlyMerged(target: map<string, Json>, source: map<string, Json>, done: set<string>): map<string, Json>
    requires done <= source.Keys
  {
    map key | key in target.Keys + done :: if key in done then MergedAt(target, source, key) else target[key]
  }

  /** Merging one more key of the source writes its merged value over the partial output. */
  lemma PartlyMergedStep(target: map<string, Json>, source: map<string, Json>, done: set<string>, key: string)
    requires done <= source.Keys && key in source
    ensures PartlyMerged(target, source, done + {key}) == PartlyMerged(target, source, done)[key := MergedAt(target, source, key)]
  {
  }

  /** `deepMerge(target, source)`: copy `target`, then merge every key of `source` into the copy. */
  method DeepMerge(target: Json, source: Json) returns (output: Json)
    ensures output == Merged(target, source)
    decreases source
  {
    output := ShallowCopy(target);
    if IsObject(target) && IsObject(source) {
      var fields := target.fields;
      var remaining := source.fields.Keys;
      while remaining != {}
        invariant remaining <= source.fields.Keys
        invariant fields == PartlyMerged(target.fields, source.fields, source.fields.Keys - remaining)
        decreases remaining
      {
        var key :| key in remaining;
        ghost var done := source.fields.Keys - remaining;
        var value := source.fields[key];
        var merged := value;
        if IsObject(value) && key in target.fields {
          merged := DeepMerge(target.fields[key], value);
        }
        PartlyMergedStep(target.fields, source.fields, done, key);
        fields := fields[key := merged];
        assert done + {key} == source.fields.Keys - (remaining - {key});
        remaining := remaining - {key};
      }
      assert source.fields.Keys - remaining == source.fields.Keys;
      output := JObj(fields);
    }
  }

  /** When both are objects, the output has exactly the keys of target and source. */
  lemma MergedKeys(target: Json, source: Json)
    requires IsObject(target) && IsObject(source)
    ensures Merged(target, source).fields.Keys == target.fields.Keys + source.fields.Keys
  {
  }

  /**
    A key only the target has keeps its value; a non-object source value
    overrides; an object source value is copied when the target lacks the
    key and merged into the target's value when it has it.
  */
  lemma MergedValues(target: Json, source: Json, key: string)
    requires IsObject(target) && IsObject(source)
    requires key in target.fields || key in source.fields
    ensures var r := Merged(target, source).fields;
            && key in r
            && (key !in source.fields ==> r[key] == target.fields[key])
            && (key in source.fields && !IsObject(source.fields[key]) ==> r[key] == source.fields[key])
            && (key in source.fields && IsObject(source.fields[key]) && key !in target.fields ==> r[key] == source.fields[key])
            && (key in source.fields && IsObject(source.fields[key]) && key in target.fields ==>
                  r[key] == Merged(target.fields[key], source.fields[key]))
  {
  }

  /** If either argument is not a plain object the output is a shallow copy of the target. */
  lemma MergedNonObject(target: Json, source: Json)
    requires !IsObject(target) || !IsObject(source)
    ensures Merged(target, source) == ShallowCopy(target)
  {
  }

  /** Merging an object into itself gives it back, at every depth. */
  lemma {:induction false} MergeWithItself(v: Json)
    requires IsObject(v)
    ensures Merged(v, v) == v
    decreases v
  {
    forall key | key in v.fields
      ensures MergedAt(v.fields, v.fields, key) == v.fields[key]
    {
      if IsObject(v.fields[key]) {
        MergeWithItself(v.fields[key]);
      }
    }
    assert Merged(v, v).fields == v.fields;
  }

  /**
    Wherever the source holds an object, the target holds an object too (or
    nothing), at every depth.
  */
  predicate ShapesAgree(target: Json, source: Json)
    decreases source
  {
    IsObject(target) && IsObject(source)
    && forall key | key in source.fields && key in target.fields && IsObject(source.fields[key]) ::
         ShapesAgree(target.fields[key], source.fields[key])
  }

  /** Merging the same source a second time changes nothing, when the shapes agree. */
  lemma {:induction false} MergeIdempotent(target: Json, source: Json)
    requires ShapesAgree(target, source)
    ensures Merged(Merged(target, source), source) == Merged(target, source)
    decreases source
  {
    var once := Merged(target, source);
    {
      forall key | key in once.fields
        ensures MergedAt(once.fields, source.fields, key) == once.fields[key]
      {
        assert once.fields[key] == MergedAt(target.fields, source.fields, key);
        if key in source.fields && IsObject(source.fields[key]) {
          if key in target.fields {
            MergeIdempotent(target.fields[key], source.fields[key]);
          } else {
            MergeWithItself(source.fields[key]);
          }
        }
      }
      assert Merged(once, source).fields == once.fields;
    }
  }

  /**
    Where the target holds a number and the source an object, the output
    holds neither: the recursive call copies the number's (absent) own
    properties and drops the source object.
  */
  lemma ObjectOverNumberIsDropped()
    ensures var target := JObj(map["padding" := JNum(10)]);
            var source := JObj(map["padding" := JObj(map["top" := JNum(5)])]);
            Merged(target, source) == JObj(map["padding" := JObj(map[])])
  {
    var target := JObj(map["padding" := JNum(10)]);
    var source := JObj(map["padding" := JObj(map["top" := JNum(5)])]);
    assert MergedAt(target.fields, source.fields, "padding") == JObj(map[]);
    assert Merged(target, source).fields == map["padding" := JObj(map[])];
  }

  // ---------------------------------------------------------------------------
  // createResponsiveChart
  // ---------------------------------------------------------------------------

  /** `deepMerge(defaultOptions, options || {})`. */
  function ChartOptions(defaults: Json, options: Json): Json {
    Merged(defaults, if Truthy(options) then options else JObj(map[]))
  }

  /** Every non-object option the caller gives overrides the default; without options the defaults stand. */
  lemma CallerOptionsWin(defaults: Json, options: Json, key: string)
    requires IsObject(defaults)
    ensures IsObject(options) && key in options.fields && !IsObject(options.fields[key]) ==>
              ChartOptions(defaults, options).fields[key] == options.fields[key]
    ensures !Truthy(options) ==> ChartOptions(defaults, options) == defaults
  {
    if !Truthy(options) {
      assert Merged(defaults, JObj(map[])).fields == defaults.fields;
    } else if IsObject(options) && key in options.fields {
      MergedValues(defaults, options, key);
    }
  }

  // ---------------------------------------------------------------------------
  // currencyTooltip
  // ---------------------------------------------------------------------------

  /**
    The tooltip label: the dataset label and ": " when the label is
    non-empty, then, when the value is not null, the formatted value, a space
    and the user's currency (USD when the page names none).
  */
  function CurrencyTooltip(datasetLabel: Option<string>, formattedY: Option<string>, userCurrency: Option<string>): (r: string)
    ensures var name := datasetLabel.GetOr("");
            && (name != "" ==> name + ": " <= r)
            && (formattedY.None? ==> r == if name != "" then name + ": " else "")
            && |r| == (if name != "" then |name| + 2 else 0)
                      + (if formattedY.Some? then |formattedY.value| + 1 + |TooltipCurrency(userCurrency)| else 0)
            && (formattedY.Some? ==> r[|r| - |formattedY.value| - 1 - |TooltipCurrency(userCurrency)|..]
                                       == formattedY.value + " " + TooltipCurrency(userCurrency))
  {
    var name := datasetLabel.GetOr("");
    var prefix := if name != "" then name + ": " else name;
    if formattedY.Some? then
      var suffix := formattedY.value + " " + TooltipCurrency(userCurrency);
      assert (prefix + suffix)[|prefix|..] == suffix;
      assert prefix + formattedY.value + " " + TooltipCurrency(userCurrency) == prefix + suffix;
      prefix + suffix
    else prefix
  }

  /** A labelled value on a page naming no currency reads "label: value USD"; without a value only the label remains. */
  lemma TooltipExamples()
    ensures CurrencyTooltip(Some("Spending"), Some("12.50"), None) == "Spending: 12.50 USD"
    ensures CurrencyTooltip(Some("Spending"), Some("12.50"), Some("CZK")) == "Spending: 12.50 CZK"
    ensures CurrencyTooltip(Some(""), Some("12.50"), Some("")) == "12.50 USD"
    ensures CurrencyTooltip(Some("Spending"), None, Some("EUR")) == "Spending: "
  {
    assert TooltipCurrency(None) == "USD" && TooltipCurrency(Some("")) == "USD";
    assert TooltipCurrency(Some("CZK")) == "CZK";
    assert "Spending" + ": " == "Spending: ";
    assert "Spending: " + ("12.50" + " " + "USD") == "Spending: 12.50 USD";
    assert "Spending: " + ("12.50" + " " + "CZK") == "Spending: 12.50 CZK";
    assert "" + ("12.50" + " " + "USD") == "12.50 USD";
  }

  /** `meta[name="user-currency"].content || 'USD'`. */
  function TooltipCurrency(userCurrency: Option<string>): (r: string)
    ensures r != ""
    ensures userCurrency.Some? && userCurrency.value != "" ==> r == userCurrency.value
  {
    if userCurrency.Some? && userCurrency.value != "" then userCurrency.value else "USD"
  }
}
