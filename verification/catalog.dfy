/** `MappingReferenceCatalog`'s lookups: section-scoped translation of a raw
    value into a reference code, and membership in a form field's options. */
module Catalog {
  import opened Wrappers
  import opened JavaText
  import opened Normalization

  /** One CSV section: normalised code → code, normalised integration value → code. */
  datatype SectionMapping = SectionMapping(
    codeByCode: map<string, string>,
    codeByIntegration: map<string, string>)

  /** `sectionMappings` keyed by normalised section name, and `formOptionsByField`
      keyed by normalised field key. */
  datatype Catalog = Catalog(
    sections: map<string, SectionMapping>,
    formOptions: map<string, set<string>>)

  /** A value the loader can store as a code: a trimmed, non-blank second CSV
      column that is not a header (no "code" in it, in any case). */
  predicate IsCodeValue(v: string) {
    v != [] && !IsTrimmable(v[0]) && !IsTrimmable(v[|v| - 1]) && !Contains(ToLower(v), "code")
  }

  /** What the CSV loader guarantees about a section: every code sits under
      its own normalised form, and every integration value leads to a code
      that is itself indexed. */
  predicate SectionWellFormed(m: SectionMapping) {
    && CodesIndexed(m.codeByCode) && LeadsToCodes(m.codeByIntegration, m.codeByCode)
    && ValuesAreCodes(m.codeByCode) && ValuesAreCodes(m.codeByIntegration)
  }

  /** Every code sits under its own normalised form. */
  predicate CodesIndexed(byCode: map<string, string>) {
    forall k :: k in byCode ==> Normalize(Some(byCode[k])) == k
  }

  /** Every value of `byIntegration` is a code indexed in `byCode`. */
  predicate LeadsToCodes(byIntegration: map<string, string>, byCode: map<string, string>) {
    forall k :: k in byIntegration ==> Normalize(Some(byIntegration[k])) in byCode
  }

  /** Every value is a code value. */
  predicate ValuesAreCodes(byKey: map<string, string>) {
    forall k :: k in byKey ==> IsCodeValue(byKey[k])
  }

  predicate WellFormed(cat: Catalog) {
    forall s :: s in cat.sections ==> SectionWellFormed(cat.sections[s])
  }

  /** The section's code for `key`, first as a code, then as an integration value. */
  function Hit(m: SectionMapping, key: string): Option<string> {
    if key in m.codeByCode then Some(m.codeByCode[key])
    else if key in m.codeByIntegration then Some(m.codeByIntegration[key])
    else None
  }

  /** `mapToCode(sectionName, rawValue, aliases, fallbackCode)`. */
  function MapToCode(cat: Catalog, section: Option<string>, raw: Option<string>,
                     aliases: Option<map<string, string>>, fallback: Option<string>): (r: Option<string>)
    ensures IsBlank(raw) ==> r == fallback
    ensures Normalize(section) !in cat.sections ==> r == fallback
    ensures !IsBlank(raw) && Normalize(section) in cat.sections ==>
      var m := cat.sections[Normalize(section)];
      var key := Normalize(raw);
      && (key in m.codeByCode ==> r == Some(m.codeByCode[key]))
      && (key !in m.codeByCode && key in m.codeByIntegration ==> r == Some(m.codeByIntegration[key]))
      && (Hit(m, key).None? && (aliases.None? || key !in aliases.value) ==> r == fallback)
      && (Hit(m, key).None? && aliases.Some? && key in aliases.value ==>
            var alias := Normalize(Some(aliases.value[key]));
            r == (if Hit(m, alias).Some? then Hit(m, alias) else fallback))
  {
    if IsBlank(raw) then fallback
    else if Normalize(section) !in cat.sections then fallback
    else
      var m := cat.sections[Normalize(section)];
      var key := Normalize(raw);
      if Hit(m, key).Some? then Hit(m, key)
      else if aliases.Some? && key in aliases.value then
        var alias := Normalize(Some(aliases.value[key]));
        if Hit(m, alias).Some? then Hit(m, alias) else fallback
      else fallback
  }

  /** An alias table never overrides a direct hit: whenever the lookup
      without aliases finds a code, every alias table gives the same code. */
  lemma AliasesOnlyAddHits(cat: Catalog, section: Option<string>, raw: Option<string>,
                           aliases: map<string, string>, fallback: Option<string>, c: string)
    requires MapToCode(cat, section, raw, None, None) == Some(c)
    ensures MapToCode(cat, section, raw, Some(aliases), fallback) == Some(c)
  {
  }

  /** A non-fallback answer does not depend on the fallback. */
  lemma HitIgnoresFallback(cat: Catalog, section: Option<string>, raw: Option<string>,
                           aliases: Option<map<string, string>>, fallback: Option<string>, c: string)
    requires MapToCode(cat, section, raw, aliases, None) == Some(c)
    ensures MapToCode(cat, section, raw, aliases, fallback) == Some(c)
  {
  }

  /** In a well-formed catalog every answer other than the fallback is a code
      the section stores under its own normalised form: a code, never an
      integration value. */
  lemma AnswerIsStoredCode(cat: Catalog, section: Option<string>, raw: Option<string>,
                           aliases: Option<map<string, string>>, c: string)
    requires WellFormed(cat)
    requires MapToCode(cat, section, raw, aliases, None) == Some(c)
    ensures Normalize(section) in cat.sections
    ensures IsCodeValue(c) && Normalize(Some(c)) in cat.sections[Normalize(section)].codeByCode
  {
    var m := cat.sections[Normalize(section)];
    assert SectionWellFormed(m);
  }

  /** A stored code maps to itself, whatever alias table and fallback are passed. */
  lemma StoredCodeMapsToItself(cat: Catalog, section: Option<string>, k: string,
                               aliases: Option<map<string, string>>, fallback: Option<string>)
    requires WellFormed(cat)
    requires Normalize(section) in cat.sections && k in cat.sections[Normalize(section)].codeByCode
    ensures var c := cat.sections[Normalize(section)].codeByCode[k];
      MapToCode(cat, section, Some(c), aliases, fallback) == Some(c)
  {
    var m := cat.sections[Normalize(section)];
    assert SectionWellFormed(m);
    var c := m.codeByCode[k];
    assert Trim(c) != [];
  }

  /** `isKnownFormOption(fieldKey, rawOption)`. */
  function IsKnownFormOption(cat: Catalog, field: Option<string>, option: Option<string>): (r: bool)
    ensures IsBlank(field) || IsBlank(option) ==> !r
    ensures r <==> && !IsBlank(field) && !IsBlank(option)
                   && Normalize(field) in cat.formOptions
                   && Normalize(option) in cat.formOptions[Normalize(field)]
  {
    if IsBlank(field) || IsBlank(option) then false
    else if Normalize(field) !in cat.formOptions || cat.formOptions[Normalize(field)] == {} then false
    else Normalize(option) in cat.formOptions[Normalize(field)]
  }
}
