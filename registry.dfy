/** The fixed, ordered catalogue of LingQ attributes a flashcard field can be filled from. */
module Registry {
  /** LINGQ_ATTRIBUTES, in the order the attribute menu lists them. */
  const LINGQ_ATTRIBUTES: seq<string> := ["term", "hints", "fragment", "notes", "tags"]

  /** The attribute whose value is a list of hint dictionaries. */
  const HINTS: string := "hints"

  /** The attribute whose value is a list of tag strings. */
  const TAGS: string := "tags"

  predicate Distinct<T(==)>(s: seq<T>)
  {
    forall i, j :: 0 <= i < j < |s| ==> s[i] != s[j]
  }

  /** What an AnkiField may hold: nothing ("" = "keep this field empty") or one catalogue attribute. */
  predicate IsAttributeOrEmpty(a: string)
  {
    a == "" || a in LINGQ_ATTRIBUTES
  }

  lemma CatalogueWellFormed()
    ensures Distinct(LINGQ_ATTRIBUTES)
    ensures "" !in LINGQ_ATTRIBUTES
    ensures HINTS == LINGQ_ATTRIBUTES[1] && TAGS == LINGQ_ATTRIBUTES[4]
  {
  }
}
