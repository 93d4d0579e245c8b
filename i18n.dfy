/**
 * The interface-text translator (src/i18n.js): a table of translations loaded
 * from a JSON file, and the lookup `t(key)` that falls back to the key itself
 * and fills in the current year. The fetch and the current date are
 * parameters; the DOM is reduced to the list of elements that carry a key.
 */
module I18n {
  import opened Text

  /** A JSON value as `res.json()` produces it; numbers are JSON's finite decimals. */
  datatype Json =
    | JNull
    | JBool(b: bool)
    | JNumber(r: real)
    | JString(s: string)
    | JArray(elems: seq<Json>)
    | JObject(fields: map<string, Json>)

  /** JavaScript truthiness: false, 0, the empty string and null are falsy. */
  predicate Truthy(v: Json)
  {
    match v
    case JNull => false
    case JBool(b) => b
    case JNumber(r) => r != 0.0
    case JString(s) => s != ""
    case JArray(_) => true
    case JObject(_) => true
  }

  /** The placeholder the lookup fills in with the year. */
  const YEAR_PLACEHOLDER: string := "{{year}}"

  /** The locale the page starts with (src/i18n.js:2). */
  const DEFAULT_LOCALE: string := "en-US"

  /** An element carrying `data-i18n`: its key, and whether it is an input whose placeholder is set. */
  datatype Element = Element(key: string, isInput: bool)

  /** What `applyTranslations` assigns to one element. */
  datatype Assignment = Placeholder(value: Json) | TextContent(value: Json)

  class Translator {
    var locale: string
    var translations: map<string, Json>

    constructor ()
      ensures locale == DEFAULT_LOCALE && translations == map[]
    {
      locale := DEFAULT_LOCALE;
      translations := map[];
    }

    /** `loadTranslations(locale)`; `fetched` is the parsed body of `./i18n/<locale>.json`. */
    method LoadTranslations(locale': string, fetched: map<string, Json>)
      modifies this
      ensures translations == fetched && locale == old(locale)
    {
      translations := fetched;
    }

    /** `t(key)` in the given year: the truthy translation, or else the key, with its first `{{year}}` filled in. */
    function T(key: string, year: nat): Json
      reads this
    {
      var text := if key in translations && Truthy(translations[key]) then translations[key] else JString(key);
      if text.JString? then JString(ReplaceFirst(text.s, YEAR_PLACEHOLDER, NatToString(year))) else text
    }

    /** `applyTranslations()`: the title's text and one assignment per keyed element, in document order. */
    method ApplyTranslations(elements: seq<Element>, year: nat) returns (title: Json, assignments: seq<Assignment>)
      ensures title == T("title", year)
      ensures |assignments| == |elements|
      ensures forall i | 0 <= i < |elements| ::
        assignments[i] == (if elements[i].isInput then Placeholder(T(elements[i].key, year)) else TextContent(T(elements[i].key, year)))
    {
      title := T("title", year);
      assignments := [];
      for i := 0 to |elements|
        invariant |assignments| == i
        invariant forall j | 0 <= j < i ::
          assignments[j] == (if elements[j].isInput then Placeholder(T(elements[j].key, year)) else TextContent(T(elements[j].key, year)))
      {
        var text := T(elements[i].key, year);
        if elements[i].isInput {
          assignments := assignments + [Placeholder(text)];
        } else {
          assignments := assignments + [TextContent(text)];
        }
      }
    }
  }

  /**
   * A missing or falsy translation falls back to the key, and the key too has
   * its first `{{year}}` filled in.
   */
  lemma FallbackToKey(tr: Translator, key: string, year: nat)
    requires key !in tr.translations || !Truthy(tr.translations[key])
    ensures tr.T(key, year) == JString(ReplaceFirst(key, YEAR_PLACEHOLDER, NatToString(year)))
    ensures (forall i | 0 <= i :: !OccursAt(key, YEAR_PLACEHOLDER, i)) ==> tr.T(key, year) == JString(key)
  {
    if forall i | 0 <= i :: !OccursAt(key, YEAR_PLACEHOLDER, i) {
      ReplaceFirstAbsent(key, YEAR_PLACEHOLDER, NatToString(year));
    }
  }

  /** A truthy value that is not a string (a number, true, an array, an object) is returned as it is. */
  lemma NonStringUnchanged(tr: Translator, key: string, year: nat)
    requires key in tr.translations && Truthy(tr.translations[key]) && !tr.translations[key].JString?
    ensures tr.T(key, year) == tr.translations[key]
  {
  }

  /**
   * Only the first `{{year}}` is replaced: a translation a + "{{year}}" + b with
   * no earlier occurrence becomes a + year + b, with b, and any placeholder in
   * it, untouched.
   */
  lemma FirstYearOnly(tr: Translator, key: string, year: nat, a: string, b: string)
    requires key in tr.translations && tr.translations[key] == JString(a + YEAR_PLACEHOLDER + b)
    requires forall i | 0 <= i < |a| :: !OccursAt(a + YEAR_PLACEHOLDER + b, YEAR_PLACEHOLDER, i)
    ensures tr.T(key, year) == JString(a + NatToString(year) + b)
  {
    ReplaceFirstSplits(a, YEAR_PLACEHOLDER, b, NatToString(year));
  }

  /** A string translation without a placeholder is returned as it is: the lookup is the identity there. */
  lemma PlainTranslation(tr: Translator, key: string, year: nat)
    requires key in tr.translations && tr.translations[key].JString? && tr.translations[key].s != ""
    requires forall i | 0 <= i :: !OccursAt(tr.translations[key].s, YEAR_PLACEHOLDER, i)
    ensures tr.T(key, year) == tr.translations[key]
  {
    ReplaceFirstAbsent(tr.translations[key].s, YEAR_PLACEHOLDER, NatToString(year));
  }
}
