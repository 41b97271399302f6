/**
  The translation script of static/js/i18n.js: choosing the language when a
  page loads, the guarded language switch, the display name of a language,
  the dotted-path lookup of a translation and its application to a page
  element. Fetching the translation file, the DOM and saving the preference
  on the server are outside the model.
*/
module I18n {
  import opened Optional
  import opened JsValues

  /** The languages the switch accepts. */
  predicate Supported(lang: string) {
    lang == "en" || lang == "pl" || lang == "cs"
  }

  /** A value read from the page or from storage is used only when it is truthy: present and non-empty. */
  predicate Present(v: Option<string>) {
    v.Some? && v.value != ""
  }

  /**
    The language chosen at load: the user's preference from the page's
    `user-language` meta tag, else the stored choice, else English.
  */
  function InitialLanguage(stored: Option<string>, userLanguage: Option<string>): (r: string)
    ensures Present(userLanguage) ==> r == userLanguage.value
    ensures !Present(userLanguage) && Present(stored) ==> r == stored.value
    ensures !Present(userLanguage) && !Present(stored) ==> r == "en"
    ensures r != ""
  {
    if Present(userLanguage) then userLanguage.value
    else if Present(stored) then stored.value
    else "en"
  }

  /** The script's language state: `currentLanguage` and the `language` entry of local storage. */
  class LanguageState {
    var current: string
    var stored: Option<string>

    /** The load handler: start from English, then let storage and then the page override it. */
    constructor (stored: Option<string>, userLanguage: Option<string>)
      ensures this.stored == stored
      ensures current == InitialLanguage(stored, userLanguage)
    {
      current := "en";
      if Present(stored) {
        current := stored.value;
      }
      if Present(userLanguage) {
        current := userLanguage.value;
      }
      this.stored := stored;
    }

    /** `changeLanguage(lang)`: switches and remembers only English, Polish or Czech. */
    method ChangeLanguage(lang: string)
      modifies this
      ensures Supported(lang) ==> current == lang && stored == Some(lang)
      ensures !Supported(lang) ==> current == old(current) && stored == old(stored)
    {
      if lang != "" && (lang == "en" || lang == "pl" || lang == "cs") {
        current := lang;
        stored := Some(lang);
      }
    }
  }

  /** A remembered choice is the language of the next page load unless the user's profile names one. */
  lemma {:induction false} ChoiceSurvivesReload(lang: string, userLanguage: Option<string>)
    requires Supported(lang)
    ensures InitialLanguage(Some(lang), userLanguage) == (if Present(userLanguage) then userLanguage.value else lang)
  {
    assert Present(Some(lang));
  }

  /** The label of the language menu; any unknown code shows as English. */
  function LanguageName(lang: string): (r: string)
    ensures r == "English" || r == "Polski" || r == "Čeština"
    ensures !Supported(lang) ==> r == "English"
    ensures lang == "pl" <==> r == "Polski"
    ensures lang == "cs" <==> r == "Čeština"
  {
    var names := map["en" := "English", "pl" := "Polski", "cs" := "Čeština"];
    if lang in names then names[lang] else "English"
  }

  // ---------------------------------------------------------------------------
  // Dotted paths
  // ---------------------------------------------------------------------------

  /** `path.split('.')`: the segments between the dots, empty ones included. */
  function Split(path: string): (r: seq<string>)
    ensures |r| >= 1
    ensures forall k :: 0 <= k < |r| ==> '.' !in r[k]
  {
    if |path| == 0 then [""]
    else if path[0] == '.' then [""] + Split(path[1..])
    else
      var rest := Split(path[1..]);
      [[path[0]] + rest[0]] + rest[1..]
  }

  /** `segments.join('.')`. */
  function Join(segments: seq<string>): string
    requires |segments| >= 1
  {
    if |segments| == 1 then segments[0] else segments[0] + "." + Join(segments[1..])
  }

  /** Joining the segments of a path gives the path back. */
  lemma {:induction false} JoinSplit(path: string)
    ensures Join(Split(path)) == path
  {
    if |path| > 0 {
      JoinSplit(path[1..]);
      var rest := Split(path[1..]);
      if path[0] != '.' {
        if |rest| == 1 {
          assert Join(Split(path)) == [path[0]] + rest[0];
        } else {
          assert Join(Split(path)) == [path[0]] + rest[0] + "." + Join(rest[1..]);
          assert Join(rest) == rest[0] + "." + Join(rest[1..]);
        }
        assert path == [path[0]] + path[1..];
      } else {
        assert Split(path) == [""] + rest;
        assert path == "." + path[1..];
      }
    }
  }

  /** Splitting a join of dot-free segments gives the segments back. */
  lemma {:induction false} SplitJoin(segments: seq<string>)
    requires |segments| >= 1
    requires forall k :: 0 <= k < |segments| ==> '.' !in segments[k]
    ensures Split(Join(segments)) == segments
    decreases |segments|, |segments[0]|
  {
    var first := segments[0];
    if |first| == 0 {
      if |segments| > 1 {
        SplitJoin(segments[1..]);
        assert Join(segments) == "." + Join(segments[1..]);
        assert Join(segments)[1..] == Join(segments[1..]);
        assert segments == [""] + segments[1..];
      }
    } else {
      var tail := [first[1..]] + segments[1..];
      assert first[1..] == first[1..];
      forall k | 0 <= k < |tail| ensures '.' !in tail[k] {
        if k == 0 {
          assert forall c :: c in first[1..] ==> c in first;
        } else {
          assert tail[k] == segments[k];
        }
      }
      SplitJoin(tail);
      assert tail[1..] == segments[1..];
      assert Join(segments) == [first[0]] + Join(tail) by {
        if |segments| == 1 {
          assert first == [first[0]] + first[1..];
        } else {
          assert first == [first[0]] + first[1..];
          assert Join(tail) == first[1..] + "." + Join(segments[1..]);
        }
      }
      var joined := Join(segments);
      assert joined[0] == first[0] && first[0] in first;
      assert joined[1..] == Join(tail);
      assert Split(joined) == [[first[0]] + tail[0]] + tail[1..];
      assert [first[0]] + tail[0] == first;
      assert [first] + segments[1..] == segments;
    }
  }

  // ---------------------------------------------------------------------------
  // getNestedTranslation
  // ---------------------------------------------------------------------------

  /** One step of the reduce: `(p && p[c]) ? p[c] : null`. */
  function Step(p: Json, c: string): Json {
    if Truthy(p) && Truthy(Get(p, c)) then Get(p, c) else JNull
  }

  /** The reduce over the segments, from the left, starting at the translation table. */
  function Walk(v: Json, segments: seq<string>): Json
    decreases |segments|
  {
    if |segments| == 0 then v else Walk(Step(v, segments[0]), segments[1..])
  }

  /** `getNestedTranslation(obj, path)`. */
  function GetNestedTranslation(translations: Json, path: string): Json {
    Walk(translations, Split(path))
  }

  /** Every segment names an own property (object key, array or string index, `length`) whose value is truthy. */
  predicate TruthyAlong(v: Json, segments: seq<string>)
    decreases |segments|
  {
    |segments| == 0
    || (Has(v, segments[0]) && Truthy(Get(v, segments[0]))
        && TruthyAlong(Get(v, segments[0]), segments[1..]))
  }

  /** Once the reduce has produced `null`, it stays `null`. */
  lemma {:induction false} WalkFromNull(segments: seq<string>)
    ensures Walk(JNull, segments) == JNull
  {
    if |segments| > 0 {
      WalkFromNull(segments[1..]);
    }
  }

  /**
    The reduce yields the value at the path when every segment exists and is
    truthy, and `null` as soon as one is missing or falsy.
  */
  lemma {:induction false} WalkIsLookup(v: Json, segments: seq<string>)
    requires |segments| >= 1
    ensures TruthyAlong(v, segments) ==> Lookup(v, segments).Some? && Walk(v, segments) == Lookup(v, segments).value
    ensures !TruthyAlong(v, segments) ==> Walk(v, segments) == JNull
    decreases |segments|
  {
    var next := Step(v, segments[0]);
    if |segments| == 1 {
      assert Walk(v, segments) == Walk(next, []) == next;
      assert TruthyAlong(Get(v, segments[0]), segments[1..]);
      if TruthyAlong(v, segments) {
        assert Lookup(v, segments) == Lookup(Get(v, segments[0]), []);
      }
    } else if next == JNull {
      WalkFromNull(segments[1..]);
    } else {
      assert Has(v, segments[0]) && next == Get(v, segments[0]) && Truthy(next);
      assert Lookup(v, segments) == Lookup(next, segments[1..]);
      WalkIsLookup(next, segments[1..]);
    }
  }

  /** `key.i` reads element `i` of an array stored under `key`, as `p[c]` does in the browser. */
  lemma NestedTranslationThroughArray(translations: Json, key: string, items: seq<Json>, i: nat)
    requires '.' !in key && Get(translations, key) == JArr(items) && i < |items|
    ensures GetNestedTranslation(translations, key + "." + NatToString(i))
         == if Truthy(items[i]) then items[i] else JNull
  {
    var index := NatToString(i);
    assert '.' !in index by {
      forall k | 0 <= k < |index| ensures index[k] != '.' {
        assert '0' <= index[k] <= '9';
      }
    }
    SplitPair(key, index);
    assert Truthy(translations) by {
      assert Has(translations, key);
    }
    WalkPair(translations, key, index, JArr(items), items[i]);
  }

  /** `key.length` reads the length of a non-empty string stored under `key`; an empty string is falsy and gives `null`. */
  lemma NestedTranslationThroughString(translations: Json, key: string, s: string)
    requires '.' !in key && Get(translations, key) == JStr(s)
    ensures GetNestedTranslation(translations, key + ".length")
         == if s != "" then JNum(|s|) else JNull
  {
    SplitPair(key, "length");
    assert key + "." + "length" == key + ".length";
    assert Truthy(translations) by {
      assert Has(translations, key);
    }
    WalkPair(translations, key, "length", JStr(s), JNum(|s|));
  }

  /** Two steps of the reduce: through `v[a]` on to `v[a][b]`, or `null` as soon as one of them is falsy. */
  lemma WalkPair(v: Json, a: string, b: string, mid: Json, last: Json)
    requires Truthy(v) && Get(v, a) == mid && Get(mid, b) == last
    ensures Walk(v, [a, b]) == if Truthy(mid) && Truthy(last) then last else JNull
  {
    assert [a, b][1..] == [b] && [b][1..] == [];
    assert Walk(v, [a, b]) == Walk(Step(v, a), [b]);
    assert Walk(Step(v, a), [b]) == Walk(Step(Step(v, a), b), []);
    if !Truthy(mid) {
      assert Step(v, a) == JNull;
    }
  }

  /** A path of two dot-free segments splits into them. */
  lemma SplitPair(a: string, b: string)
    requires '.' !in a && '.' !in b
    ensures Split(a + "." + b) == [a, b]
  {
    SplitJoin([a, b]);
    assert Join([a, b]) == a + "." + b;
  }

  /** The value at a dotted path, or `null` when a segment on the way is missing or falsy. */
  lemma NestedTranslationAtPath(translations: Json, path: string)
    ensures var segments := Split(path);
            && (TruthyAlong(translations, segments) ==> Lookup(translations, segments) == Some(GetNestedTranslation(translations, path)))
            && (!TruthyAlong(translations, segments) ==> GetNestedTranslation(translations, path) == JNull)
  {
    WalkIsLookup(translations, Split(path));
  }

  // ---------------------------------------------------------------------------
  // applyTranslations
  // ---------------------------------------------------------------------------

  /** The part of a page element the script reads and writes. */
  datatype Element = Element(key: string, isInputWithPlaceholder: bool, placeholder: Json, text: Json)

  /**
    A truthy translation goes to the placeholder of an input that has one and
    to the text of any other element; otherwise the element is left as it is.
  */
  function ApplyTranslation(e: Element, translations: Json): (r: Element)
    ensures !Truthy(GetNestedTranslation(translations, e.key)) ==> r == e
    ensures Truthy(GetNestedTranslation(translations, e.key)) ==>
      r == if e.isInputWithPlaceholder then e.(placeholder := GetNestedTranslation(translations, e.key))
           else e.(text := GetNestedTranslation(translations, e.key))
  {
    var translation := GetNestedTranslation(translations, e.key);
    if Truthy(translation) then
      if e.isInputWithPlaceholder then e.(placeholder := translation) else e.(text := translation)
    else e
  }

  /** `applyTranslations` over the elements carrying a `data-i18n` key. */
  function ApplyTranslations(elements: seq<Element>, translations: Json): (r: seq<Element>)
    ensures |r| == |elements|
    ensures forall k :: 0 <= k < |elements| ==> r[k] == ApplyTranslation(elements[k], translations)
  {
    seq(|elements|, k requires 0 <= k < |elements| => ApplyTranslation(elements[k], translations))
  }

  /**
    Translating an element keeps its key and kind and changes at most one of
    its placeholder and text, which then holds a truthy translation.
  */
  lemma ApplyTranslationTouchesOneField(e: Element, translations: Json)
    ensures var r := ApplyTranslation(e, translations);
      && r.key == e.key && r.isInputWithPlaceholder == e.isInputWithPlaceholder
      && (r.placeholder == e.placeholder || r.text == e.text)
      && (r.placeholder != e.placeholder ==> e.isInputWithPlaceholder && Truthy(r.placeholder))
      && (r.text != e.text ==> !e.isInputWithPlaceholder && Truthy(r.text))
  {
  }

  /** Applying the same table twice changes nothing the first application did not. */
  lemma ApplyTranslationsIdempotent(elements: seq<Element>, translations: Json)
    ensures ApplyTranslations(ApplyTranslations(elements, translations), translations)
         == ApplyTranslations(elements, translations)
  {
  }
}
