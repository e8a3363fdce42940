/** The CSV half of the catalog: the quote-toggling line splitter and the
    section-grouping loader, as a fold over the file's lines. */
module CsvMappings {
  import opened Wrappers
  import opened JavaText
  import opened Normalization
  import opened Catalog

  // ------------------------------------------------------------ line splitter

  /** `parseCsvLine`: a `"` toggles quoting and is dropped; a `,` outside
      quotes ends a column. A doubled `""` is simply two toggles. */
  function ParseCsvLine(line: string): (cols: seq<string>)
    ensures |cols| >= 1
  {
    ParseFrom(line, false, [])
  }

  function ParseFrom(s: string, inQuotes: bool, current: string): (cols: seq<string>)
    ensures |cols| >= 1
    decreases |s|
  {
    if s == [] then [current]
    else if s[0] == '"' then ParseFrom(s[1..], !inQuotes, current)
    else if s[0] == ',' && !inQuotes then [current] + ParseFrom(s[1..], inQuotes, [])
    else ParseFrom(s[1..], inQuotes, current + [s[0]])
  }

  /** The text with every `"` removed. */
  function WithoutQuotes(s: string): string {
    if s == [] then []
    else if s[0] == '"' then WithoutQuotes(s[1..])
    else [s[0]] + WithoutQuotes(s[1..])
  }

  /** The number of commas outside quotes, quoting starting as `inQuotes`. */
  function CommasOutsideQuotes(s: string, inQuotes: bool): nat {
    if s == [] then 0
    else if s[0] == '"' then CommasOutsideQuotes(s[1..], !inQuotes)
    else if s[0] == ',' && !inQuotes then 1 + CommasOutsideQuotes(s[1..], inQuotes)
    else CommasOutsideQuotes(s[1..], inQuotes)
  }

  lemma JoinCons(head: string, rest: seq<string>)
    requires rest != []
    ensures Join([head] + rest, ",") == head + "," + Join(rest, ",")
  {
    assert ([head] + rest)[1..] == rest;
  }

  /** An unquoted comma closes the current column. */
  lemma JoinParseComma(s: string, inQuotes: bool, current: string)
    requires s != [] && s[0] == ',' && !inQuotes
    requires Join(ParseFrom(s[1..], inQuotes, []), ",") == WithoutQuotes(s[1..])
    ensures Join(ParseFrom(s, inQuotes, current), ",") == current + WithoutQuotes(s)
  {
    var rest := ParseFrom(s[1..], inQuotes, []);
    assert ParseFrom(s, inQuotes, current) == [current] + rest;
    JoinCons(current, rest);
    assert WithoutQuotes(s) == [','] + WithoutQuotes(s[1..]);
  }

  /** Any other character but a quote joins the current column. */
  lemma JoinParseKeep(s: string, inQuotes: bool, current: string)
    requires s != [] && s[0] != '"' && !(s[0] == ',' && !inQuotes)
    requires Join(ParseFrom(s[1..], inQuotes, current + [s[0]]), ",") == current + [s[0]] + WithoutQuotes(s[1..])
    ensures Join(ParseFrom(s, inQuotes, current), ",") == current + WithoutQuotes(s)
  {
    var tail := WithoutQuotes(s[1..]);
    assert WithoutQuotes(s) == [s[0]] + tail;
    assert current + [s[0]] + tail == current + ([s[0]] + tail);
  }

  lemma {:induction false} JoinParseFrom(s: string, inQuotes: bool, current: string)
    ensures Join(ParseFrom(s, inQuotes, current), ",") == current + WithoutQuotes(s)
    decreases |s|
  {
    if s == [] {
    } else if s[0] == '"' {
      JoinParseFrom(s[1..], !inQuotes, current);
    } else if s[0] == ',' && !inQuotes {
      JoinParseFrom(s[1..], inQuotes, []);
      JoinParseComma(s, inQuotes, current);
    } else {
      JoinParseFrom(s[1..], inQuotes, current + [s[0]]);
      JoinParseKeep(s, inQuotes, current);
    }
  }

  /** Joining the columns with "," gives back the line without its quotes. */
  lemma JoinColumnsIsLineWithoutQuotes(line: string)
    ensures Join(ParseCsvLine(line), ",") == WithoutQuotes(line)
  {
    JoinParseFrom(line, false, []);
  }

  lemma {:induction false} ParseFromCount(s: string, inQuotes: bool, current: string)
    ensures |ParseFrom(s, inQuotes, current)| == 1 + CommasOutsideQuotes(s, inQuotes)
    decreases |s|
  {
    if s == [] {
    } else if s[0] == '"' {
      ParseFromCount(s[1..], !inQuotes, current);
    } else if s[0] == ',' && !inQuotes {
      ParseFromCount(s[1..], inQuotes, []);
    } else {
      ParseFromCount(s[1..], inQuotes, current + [s[0]]);
    }
  }

  /** There is one more column than there are commas outside quotes. */
  lemma ColumnCount(line: string)
    ensures |ParseCsvLine(line)| == 1 + CommasOutsideQuotes(line, false)
  {
    ParseFromCount(line, false, []);
  }

  /** `column(columns, index)`: a missing column reads as "". */
  function Column(cols: seq<string>, index: int): (r: string)
    ensures 0 <= index < |cols| ==> r == cols[index]
    ensures !(0 <= index < |cols|) ==> r == []
  {
    if index < 0 || index >= |cols| then [] else cols[index]
  }

  // ------------------------------------------------------------ section fold

  /** What one line means to the loader, judged from the line alone. */
  datatype LineKind =
    | SectionLine(name: string)
    | DataLine(code: string, integration: string)
    | OtherLine

  /** A section header, judged on the untrimmed columns: a second column
      holding ':', or a second column with text and blank third and fourth
      columns. `isBlank` trims, so testing a trimmed column is testing the
      column itself. */
  predicate StartsSection(c1: string, c2: string, c3: string) {
    ':' in Trim(c1) || (!IsBlank(Some(c1)) && IsBlank(Some(c2)) && IsBlank(Some(c3)))
  }

  /** "Integration Values" upper-cased: `equalsIgnoreCase` against it is
      equality after upper-casing. */
  const HEADER_UPPER: string := "INTEGRATION VALUES"

  /** A table header row: "code" anywhere in the second column (any case), or
      a fourth column reading "Integration Values" (any case). */
  predicate IsHeader(second: string, fourth: string) {
    Contains(ToLower(second), "code") || ToUpper(fourth) == HEADER_UPPER
  }

  /** The line-local tests of the loader's loop body, in its order, on the
      second, third and fourth columns as parsed. */
  function Decide(c1: string, c2: string, c3: string): LineKind {
    var second, fourth := Trim(c1), Trim(c3);
    if ':' in second then SectionLine(Trim(second[..IndexOf(second, ':')]))
    else if StartsSection(c1, c2, c3) then SectionLine(second)
    else if IsBlank(Some(c1)) || IsBlank(Some(c3)) || IsHeader(second, fourth) then OtherLine
    else DataLine(second, fourth)
  }

  /** How the loader's loop body reads one line. */
  function Classify(line: string): LineKind {
    var cols := ParseCsvLine(line);
    Decide(Column(cols, 1), Column(cols, 2), Column(cols, 3))
  }

  /** The trimmed second column of a line. */
  function SecondColumn(line: string): string {
    Trim(Column(ParseCsvLine(line), 1))
  }

  /** What `Decide` yields: a data line carries the trimmed second column as
      a code value and the trimmed fourth column, non-empty and not the
      header text. */
  lemma DecideShape(c1: string, c2: string, c3: string)
    ensures var second, fourth := Trim(c1), Trim(c3);
      match Decide(c1, c2, c3)
      case DataLine(code, integration) =>
        && code == second && IsCodeValue(code)
        && integration == fourth && integration != []
        && ToUpper(integration) != HEADER_UPPER
      case SectionLine(name) =>
        if ':' in second then name == Trim(second[..IndexOf(second, ':')]) else name == second
      case OtherLine =>
        !StartsSection(c1, c2, c3)
  {
    if Decide(c1, c2, c3).DataLine? {
      DecideData(c1, c2, c3);
    }
  }

  /** A data line: neither column blank, not a section, not a header. */
  lemma DecideData(c1: string, c2: string, c3: string)
    requires Decide(c1, c2, c3).DataLine?
    ensures var d := Decide(c1, c2, c3);
      && d.code == Trim(c1) && IsCodeValue(d.code)
      && d.integration == Trim(c3) && d.integration != []
      && ToUpper(d.integration) != HEADER_UPPER
  {
    var second := Trim(c1);
    assert !IsBlank(Some(c1)) && !IsBlank(Some(c3)) && !IsHeader(second, Trim(c3));
    TrimShape(c1);
  }

  /** A data line carries the line's trimmed second column as its code, a
      code value, and a non-empty trimmed fourth column that is not the
      header text; a section line's name is the text before the first ':'
      or the lone second column. */
  lemma ClassifyShape(line: string)
    ensures var cols := ParseCsvLine(line);
      var second := Trim(Column(cols, 1));
      var fourth := Trim(Column(cols, 3));
      match Classify(line)
      case DataLine(code, integration) =>
        && code == second && code == SecondColumn(line) && IsCodeValue(code)
        && integration == fourth && integration != []
        && ToUpper(integration) != HEADER_UPPER
      case SectionLine(name) =>
        if ':' in second then name == Trim(second[..IndexOf(second, ':')]) else name == second
      case OtherLine =>
        !StartsSection(Column(cols, 1), Column(cols, 2), Column(cols, 3))
  {
    var cols := ParseCsvLine(line);
    DecideShape(Column(cols, 1), Column(cols, 2), Column(cols, 3));
  }

  /** The loop state of `loadCsvMappings`: the current section name and the
      sections built so far. */
  datatype LoadState = LoadState(currentSection: Option<string>, sections: map<string, SectionMapping>)

  function SectionOrEmpty(sections: map<string, SectionMapping>, key: string): SectionMapping {
    if key in sections then sections[key] else SectionMapping(map[], map[])
  }

  /** One iteration of the loader's loop. */
  function Step(st: LoadState, kind: LineKind): (st': LoadState)
    ensures kind.SectionLine? ==> st' == LoadState(Some(kind.name), st.sections)
    ensures !kind.SectionLine? ==> st'.currentSection == st.currentSection
    ensures !kind.DataLine? || IsBlank(st.currentSection) ==> st'.sections == st.sections
  {
    match kind
    case SectionLine(name) => LoadState(Some(name), st.sections)
    case OtherLine => st
    case DataLine(code, integration) =>
      if IsBlank(st.currentSection) then st
      else
        var key := Normalize(st.currentSection);
        var m := SectionOrEmpty(st.sections, key);
        var m' := SectionMapping(
          m.codeByCode[Normalize(Some(code)) := code],
          m.codeByIntegration[Normalize(Some(integration)) := code]);
        LoadState(st.currentSection, st.sections[key := m'])
  }

  /** The loop over classified lines. */
  function LoadFrom(st: LoadState, kinds: seq<LineKind>): LoadState
    decreases |kinds|
  {
    if kinds == [] then st else LoadFrom(Step(st, kinds[0]), kinds[1..])
  }

  function ClassifyAll(lines: seq<string>): (kinds: seq<LineKind>)
    ensures |kinds| == |lines|
    ensures forall i :: 0 <= i < |lines| ==> kinds[i] == Classify(lines[i])
  {
    seq(|lines|, i requires 0 <= i < |lines| => Classify(lines[i]))
  }

  /** The sections `loadCsvMappings` builds from the file's lines. */
  function Load(lines: seq<string>): map<string, SectionMapping> {
    LoadFrom(LoadState(None, map[]), ClassifyAll(lines)).sections
  }

  // ------------------------------------------------------------ properties

  /** After a data row inside a section, looking its code up in that section
      gives the code back. */
  lemma DataRowCodeLookup(st: LoadState, code: string, integration: string,
                          forms: map<string, set<string>>,
                          aliases: Option<map<string, string>>, fallback: Option<string>)
    requires !IsBlank(st.currentSection) && IsCodeValue(code)
    ensures var cat := Catalog(Step(st, DataLine(code, integration)).sections, forms);
      MapToCode(cat, st.currentSection, Some(code), aliases, fallback) == Some(code)
  {
    assert Trim(code) != [];
  }

  /** After a data row inside a section, its integration value leads to its
      code, unless that value is also a code of the section, which takes
      precedence. */
  lemma DataRowIntegrationLookup(st: LoadState, code: string, integration: string,
                                 forms: map<string, set<string>>,
                                 aliases: Option<map<string, string>>, fallback: Option<string>)
    requires !IsBlank(st.currentSection) && !IsBlank(Some(integration))
    requires Normalize(Some(integration)) != Normalize(Some(code))
    requires Normalize(Some(integration)) !in SectionOrEmpty(st.sections, Normalize(st.currentSection)).codeByCode
    ensures var cat := Catalog(Step(st, DataLine(code, integration)).sections, forms);
      MapToCode(cat, st.currentSection, Some(integration), aliases, fallback) == Some(code)
  {
  }

  /** A data row writes only into the current section: every other section
      is left as it was. */
  lemma DataRowTouchesOnlyCurrentSection(st: LoadState, code: string, integration: string, s: string)
    requires s in st.sections && s != Normalize(st.currentSection)
    ensures var st' := Step(st, DataLine(code, integration));
      s in st'.sections && st'.sections[s] == st.sections[s]
  {
  }

  lemma PutKeepsCodesIndexed(byCode: map<string, string>, code: string, codeKey: string)
    requires CodesIndexed(byCode) && codeKey == Normalize(Some(code))
    ensures CodesIndexed(byCode[codeKey := code])
  {
  }

  lemma PutKeepsLeadsToCodes(byIntegration: map<string, string>, byCode: map<string, string>,
                             key: string, code: string, codeKey: string)
    requires LeadsToCodes(byIntegration, byCode) && codeKey == Normalize(Some(code))
    ensures LeadsToCodes(byIntegration[key := code], byCode[codeKey := code])
  {
  }

  lemma PutKeepsValuesAreCodes(byKey: map<string, string>, key: string, code: string)
    requires ValuesAreCodes(byKey) && IsCodeValue(code)
    ensures ValuesAreCodes(byKey[key := code])
  {
  }

  /** Recording a (code, integration value) pair keeps a section well formed. */
  lemma PutKeepsSectionWellFormed(m: SectionMapping, code: string, integrationKey: string, codeKey: string)
    requires SectionWellFormed(m) && IsCodeValue(code) && codeKey == Normalize(Some(code))
    ensures SectionWellFormed(SectionMapping(m.codeByCode[codeKey := code], m.codeByIntegration[integrationKey := code]))
  {
    PutKeepsCodesIndexed(m.codeByCode, code, codeKey);
    PutKeepsLeadsToCodes(m.codeByIntegration, m.codeByCode, integrationKey, code, codeKey);
    PutKeepsValuesAreCodes(m.codeByCode, codeKey, code);
    PutKeepsValuesAreCodes(m.codeByIntegration, integrationKey, code);
  }

  /** The loader's invariant over classified lines: data lines carry code values. */
  predicate CodesAreCodeValues(kinds: seq<LineKind>) {
    forall i :: 0 <= i < |kinds| && kinds[i].DataLine? ==> IsCodeValue(kinds[i].code)
  }

  lemma PutKeepsWellFormed(sections: map<string, SectionMapping>, key: string, m: SectionMapping)
    requires WellFormed(Catalog(sections, map[])) && SectionWellFormed(m)
    ensures WellFormed(Catalog(sections[key := m], map[]))
  {
  }

  /** Every step keeps the sections well formed. */
  lemma StepWellFormed(st: LoadState, kind: LineKind)
    requires kind.DataLine? ==> IsCodeValue(kind.code)
    requires WellFormed(Catalog(st.sections, map[]))
    ensures WellFormed(Catalog(Step(st, kind).sections, map[]))
  {
    if kind.DataLine? && !IsBlank(st.currentSection) {
      var key := Normalize(st.currentSection);
      var m := SectionOrEmpty(st.sections, key);
      assert SectionWellFormed(m);
      var codeKey := Normalize(Some(kind.code));
      var integrationKey := Normalize(Some(kind.integration));
      PutKeepsSectionWellFormed(m, kind.code, integrationKey, codeKey);
      var m' := SectionMapping(m.codeByCode[codeKey := kind.code], m.codeByIntegration[integrationKey := kind.code]);
      PutKeepsWellFormed(st.sections, key, m');
      assert Step(st, kind).sections == st.sections[key := m'];
    }
  }

  lemma {:induction false} LoadFromWellFormed(st: LoadState, kinds: seq<LineKind>)
    requires CodesAreCodeValues(kinds)
    requires WellFormed(Catalog(st.sections, map[]))
    ensures WellFormed(Catalog(LoadFrom(st, kinds).sections, map[]))
    decreases |kinds|
  {
    if kinds != [] {
      StepWellFormed(st, kinds[0]);
      assert CodesAreCodeValues(kinds[1..]) by {
        assert forall i :: 0 <= i < |kinds[1..]| ==> kinds[1..][i] == kinds[i + 1];
      }
      LoadFromWellFormed(Step(st, kinds[0]), kinds[1..]);
    }
  }

  /** The loaded catalog is well formed, so its answers are always stored
      codes (`Catalog.AnswerIsStoredCode`) and stored codes map to
      themselves (`Catalog.StoredCodeMapsToItself`). */
  lemma LoadWellFormed(lines: seq<string>, forms: map<string, set<string>>)
    ensures WellFormed(Catalog(Load(lines), forms))
  {
    var kinds := ClassifyAll(lines);
    forall i | 0 <= i < |kinds| && kinds[i].DataLine?
      ensures IsCodeValue(kinds[i].code)
    {
      ClassifyShape(lines[i]);
    }
    LoadFromWellFormed(LoadState(None, map[]), kinds);
  }

  /** No value of `byKey` equals `v`. */
  predicate MapNeverHolds(byKey: map<string, string>, v: string) {
    forall k :: k in byKey ==> byKey[k] != v
  }

  /** No stored value equals `v`. */
  predicate NeverStores(sections: map<string, SectionMapping>, v: string) {
    forall s :: s in sections ==>
      MapNeverHolds(sections[s].codeByCode, v) && MapNeverHolds(sections[s].codeByIntegration, v)
  }

  lemma PutKeepsNeverHolds(byKey: map<string, string>, key: string, code: string, v: string)
    requires MapNeverHolds(byKey, v) && code != v
    ensures MapNeverHolds(byKey[key := code], v)
  {
  }

  lemma PutKeepsNeverStores(sections: map<string, SectionMapping>, key: string, m: SectionMapping, v: string)
    requires NeverStores(sections, v)
    requires MapNeverHolds(m.codeByCode, v) && MapNeverHolds(m.codeByIntegration, v)
    ensures NeverStores(sections[key := m], v)
  {
  }

  lemma StepNeverStores(st: LoadState, kind: LineKind, v: string)
    requires NeverStores(st.sections, v)
    requires kind.DataLine? ==> kind.code != v
    ensures NeverStores(Step(st, kind).sections, v)
  {
    if kind.DataLine? && !IsBlank(st.currentSection) {
      var key := Normalize(st.currentSection);
      var m := SectionOrEmpty(st.sections, key);
      var codeKey := Normalize(Some(kind.code));
      var integrationKey := Normalize(Some(kind.integration));
      PutKeepsNeverHolds(m.codeByCode, codeKey, kind.code, v);
      PutKeepsNeverHolds(m.codeByIntegration, integrationKey, kind.code, v);
      var m' := SectionMapping(m.codeByCode[codeKey := kind.code], m.codeByIntegration[integrationKey := kind.code]);
      PutKeepsNeverStores(st.sections, key, m', v);
      assert Step(st, kind).sections == st.sections[key := m'];
    }
  }

  lemma {:induction false} LoadFromNeverStores(st: LoadState, kinds: seq<LineKind>, v: string)
    requires NeverStores(st.sections, v)
    requires forall i :: 0 <= i < |kinds| && kinds[i].DataLine? ==> kinds[i].code != v
    ensures NeverStores(LoadFrom(st, kinds).sections, v)
    decreases |kinds|
  {
    if kinds != [] {
      StepNeverStores(st, kinds[0], v);
      assert forall i :: 0 <= i < |kinds[1..]| ==> kinds[1..][i] == kinds[i + 1];
      LoadFromNeverStores(Step(st, kinds[0]), kinds[1..], v);
    }
  }

  /** A value that is no line's trimmed second column is never stored, as a
      code or as the answer for an integration value: every answer of the
      loaded catalog comes from the code column. */
  lemma LoadedCodesComeFromSecondColumns(lines: seq<string>, v: string)
    requires forall i :: 0 <= i < |lines| ==> SecondColumn(lines[i]) != v
    ensures NeverStores(Load(lines), v)
  {
    var kinds := ClassifyAll(lines);
    forall i | 0 <= i < |kinds| && kinds[i].DataLine?
      ensures kinds[i].code != v
    {
      ClassifyShape(lines[i]);
    }
    LoadFromNeverStores(LoadState(None, map[]), kinds, v);
  }
}
