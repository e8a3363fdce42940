/** The forms half of the catalog: `collectFieldOptions`, a walk over a
    parsed JSON form that records, for every object with a textual "key" and
    an array of "options", the normalised option keys under the normalised
    field key. */
module FormOptions {
  import opened Wrappers
  import opened JavaText
  import opened Normalization
  import opened Catalog

  /** A parsed JSON value. An object keeps its fields in document order. */
  datatype Json =
    | JNull
    | JBool(b: bool)
    | JNumber(n: int)
    | JString(s: string)
    | JArray(items: seq<Json>)
    | JObject(fields: seq<Field>)

  datatype Field = Field(name: string, value: Json)

  /** `node.get(name)` on an object: the value of the field with that name.
      A name repeated in the document keeps its last value, as Jackson's
      tree reader replaces an earlier value with a later one. */
  function Get(fields: seq<Field>, name: string): Option<Json> {
    if fields == [] then None
    else
      var rest := Get(fields[1..], name);
      if rest.Some? then rest
      else if fields[0].name == name then Some(fields[0].value)
      else None
  }

  /** `Get` finds a value exactly when some field has the name, and the value
      it finds is that of the last such field. */
  lemma {:induction false} GetTakesLast(fields: seq<Field>, name: string)
    ensures Get(fields, name).Some? <==> exists i :: 0 <= i < |fields| && fields[i].name == name
    ensures Get(fields, name).Some? ==>
      exists i :: 0 <= i < |fields| && fields[i].name == name && fields[i].value == Get(fields, name).value
        && forall j :: i < j < |fields| ==> fields[j].name != name
  {
    if fields != [] {
      GetTakesLast(fields[1..], name);
      assert forall i :: 1 <= i < |fields| ==> fields[i] == fields[1..][i - 1];
      var rest := Get(fields[1..], name);
      if rest.Some? {
        var i :| 0 <= i < |fields[1..]| && fields[1..][i].name == name && fields[1..][i].value == rest.value
          && forall j :: i < j < |fields[1..]| ==> fields[1..][j].name != name;
        assert fields[i + 1].name == name && fields[i + 1].value == rest.value;
      } else if fields[0].name == name {
        assert forall j :: 0 < j < |fields| ==> fields[j].name != name;
      }
    }
  }

  /** `n != null && n.isTextual()`, then `n.asText()`. */
  function TextOf(o: Option<Json>): Option<string> {
    if o.Some? && o.value.JString? then Some(o.value.s) else None
  }

  /** `option.get("key")` read as text: only an object has fields. */
  function OptionKey(option: Json): Option<string> {
    if option.JObject? then TextOf(Get(option.fields, "key")) else None
  }

  /** The normalised textual keys of a list of options, in order. */
  function OptionKeys(options: seq<Json>): seq<string> {
    if options == [] then []
    else
      var rest := OptionKeys(options[1..]);
      match OptionKey(options[0])
      case Some(k) => [Normalize(Some(k))] + rest
      case None => rest
  }

  /** Field key → normalised option keys recorded so far. */
  type Vocabulary = map<string, set<string>>

  function OptionsOf(acc: Vocabulary, field: string): set<string> {
    if field in acc then acc[field] else {}
  }

  /** The object's own contribution: with a textual "key" and an array
      "options", the field's set is created if absent and every textual
      option key is added to it. */
  function RecordField(acc: Vocabulary, fields: seq<Field>): Vocabulary {
    var key := TextOf(Get(fields, "key"));
    var options := Get(fields, "options");
    if key.Some? && options.Some? && options.value.JArray? then
      var field := Normalize(key);
      var added := set k | k in OptionKeys(options.value.items);
      acc[field := OptionsOf(acc, field) + added]
    else acc
  }

  /** `collectFieldOptions(node)`: an object records itself and then visits
      every field value of its tree; an array visits its items; anything else
      adds nothing. */
  function Collect(j: Json, acc: Vocabulary): Vocabulary
    decreases j
  {
    match j
    case JObject(fields) => CollectFields(fields, RecordField(acc, fields))
    case JArray(items) => CollectItems(items, acc)
    case _ => acc
  }

  function CollectItems(items: seq<Json>, acc: Vocabulary): Vocabulary
    decreases items
  {
    if items == [] then acc else CollectItems(items[1..], Collect(items[0], acc))
  }

  /** A field that a later field of the same name replaces: Jackson's tree
      holds only the later value, so `node.fields()` never yields this one. */
  predicate ReplacedLater(f: Field, later: seq<Field>) {
    Get(later, f.name).Some?
  }

  /** The field values of the tree, each visited at its name's last
      occurrence. Jackson yields a replaced name at its first position; as
      each visit only adds options, the vocabulary does not depend on the
      order. */
  function CollectFields(fields: seq<Field>, acc: Vocabulary): Vocabulary
    decreases fields
  {
    if fields == [] then acc
    else if ReplacedLater(fields[0], fields[1..]) then CollectFields(fields[1..], acc)
    else CollectFields(fields[1..], Collect(fields[0].value, acc))
  }

  /** `loadFormMappings`: every form in turn, into one vocabulary. */
  function CollectAll(forms: seq<Json>): Vocabulary {
    CollectItems(forms, map[])
  }

  /** An object whose name repeats reads as the object holding the later
      value alone: `{"a": x, "a": y}` records what `{"a": y}` records. */
  lemma DuplicateNameKeepsLast(n: string, x: Json, y: Json, acc: Vocabulary)
    ensures Collect(JObject([Field(n, x), Field(n, y)]), acc) == Collect(JObject([Field(n, y)]), acc)
  {
    var two, one := [Field(n, x), Field(n, y)], [Field(n, y)];
    assert two[1..] == one && one[1..] == [];
    assert Get(two, "key") == Get(one, "key") && Get(two, "options") == Get(one, "options");
    assert ReplacedLater(two[0], two[1..]);
  }

  /** So a declaration that a later number replaces is never recorded:
      `{"a": {"key": "f", "options": [...]}, "a": 1}` adds nothing. */
  lemma ReplacedDeclarationIgnored(n: string, x: Json, v: int, acc: Vocabulary)
    ensures Collect(JObject([Field(n, x), Field(n, JNumber(v))]), acc) == acc
  {
    DuplicateNameKeepsLast(n, x, JNumber(v), acc);
    var one := [Field(n, JNumber(v))];
    assert one[1..] == [];
    assert Get(one, "key") == (if n == "key" then Some(JNumber(v)) else None);
    assert Get(one, "options") == (if n == "options" then Some(JNumber(v)) else None);
    assert TextOf(Get(one, "key")).None?;
    assert RecordField(acc, one) == acc;
    assert !ReplacedLater(one[0], one[1..]);
    assert CollectFields(one, acc) == CollectFields([], Collect(JNumber(v), acc));
  }

  // ------------------------------------------------------------ declarations

  /** The object itself declares option `o` for field `k`: its textual
      "key" and `k` normalise alike, and one of its textual option keys
      normalises as `o` does. */
  predicate DeclaresHere(fields: seq<Field>, k: string, o: string) {
    var key := TextOf(Get(fields, "key"));
    var options := Get(fields, "options");
    && key.Some? && Normalize(key) == Normalize(Some(k))
    && options.Some? && options.value.JArray?
    && Normalize(Some(o)) in OptionKeys(options.value.items)
  }

  /** Some object inside `j` (or `j` itself) declares option `o` for field `k`. */
  predicate Declares(j: Json, k: string, o: string)
    decreases j
  {
    match j
    case JObject(fields) => DeclaresHere(fields, k, o) || FieldsDeclare(fields, k, o)
    case JArray(items) => ItemsDeclare(items, k, o)
    case _ => false
  }

  predicate ItemsDeclare(items: seq<Json>, k: string, o: string)
    decreases items
  {
    items != [] && (Declares(items[0], k, o) || ItemsDeclare(items[1..], k, o))
  }

  predicate FieldsDeclare(fields: seq<Field>, k: string, o: string)
    decreases fields
  {
    && fields != []
    && ((!ReplacedLater(fields[0], fields[1..]) && Declares(fields[0].value, k, o))
        || FieldsDeclare(fields[1..], k, o))
  }

  // ------------------------------------------------------------ properties

  /** `acc` is contained in `bigger`: every field of `acc` is there with at least its options. */
  predicate Included(acc: Vocabulary, bigger: Vocabulary) {
    forall f :: f in acc ==> f in bigger && acc[f] <= bigger[f]
  }

  lemma IncludedTransitive(a: Vocabulary, b: Vocabulary, c: Vocabulary)
    requires Included(a, b) && Included(b, c)
    ensures Included(a, c)
  {
  }

  lemma RecordFieldGrows(acc: Vocabulary, fields: seq<Field>)
    ensures Included(acc, RecordField(acc, fields))
  {
  }

  /** The walk only ever adds: no field and no option recorded before is lost. */
  lemma {:induction false} CollectGrows(j: Json, acc: Vocabulary)
    ensures Included(acc, Collect(j, acc))
    decreases j
  {
    match j
    case JObject(fields) =>
      RecordFieldGrows(acc, fields);
      CollectFieldsGrows(fields, RecordField(acc, fields));
      IncludedTransitive(acc, RecordField(acc, fields), Collect(j, acc));
    case JArray(items) =>
      CollectItemsGrows(items, acc);
    case _ =>
  }

  lemma {:induction false} CollectItemsGrows(items: seq<Json>, acc: Vocabulary)
    ensures Included(acc, CollectItems(items, acc))
    decreases items
  {
    if items != [] {
      CollectGrows(items[0], acc);
      CollectItemsGrows(items[1..], Collect(items[0], acc));
      IncludedTransitive(acc, Collect(items[0], acc), CollectItems(items, acc));
    }
  }

  lemma {:induction false} CollectFieldsGrows(fields: seq<Field>, acc: Vocabulary)
    ensures Included(acc, CollectFields(fields, acc))
    decreases fields
  {
    if fields != [] {
      if ReplacedLater(fields[0], fields[1..]) {
        CollectFieldsGrows(fields[1..], acc);
      } else {
        CollectGrows(fields[0].value, acc);
        CollectFieldsGrows(fields[1..], Collect(fields[0].value, acc));
        IncludedTransitive(acc, Collect(fields[0].value, acc), CollectFields(fields, acc));
      }
    }
  }

  /** `o` is recorded for `k`. */
  predicate Recorded(acc: Vocabulary, k: string, o: string) {
    Normalize(Some(k)) in acc && Normalize(Some(o)) in acc[Normalize(Some(k))]
  }

  lemma RecordedKept(acc: Vocabulary, bigger: Vocabulary, k: string, o: string)
    requires Recorded(acc, k, o) && Included(acc, bigger)
    ensures Recorded(bigger, k, o)
  {
  }

  lemma RecordFieldRecords(acc: Vocabulary, fields: seq<Field>, k: string, o: string)
    requires DeclaresHere(fields, k, o)
    ensures Recorded(RecordField(acc, fields), k, o)
  {
  }

  /** Every declared option ends up recorded under its field, wherever in
      the form the declaring object sits. */
  lemma {:induction false} CollectRecords(j: Json, acc: Vocabulary, k: string, o: string)
    requires Declares(j, k, o)
    ensures Recorded(Collect(j, acc), k, o)
    decreases j
  {
    match j
    case JObject(fields) =>
      var acc' := RecordField(acc, fields);
      if DeclaresHere(fields, k, o) {
        RecordFieldRecords(acc, fields, k, o);
        CollectFieldsGrows(fields, acc');
        RecordedKept(acc', Collect(j, acc), k, o);
      } else {
        CollectFieldsRecords(fields, acc', k, o);
      }
    case JArray(items) =>
      CollectItemsRecords(items, acc, k, o);
  }

  lemma {:induction false} CollectItemsRecords(items: seq<Json>, acc: Vocabulary, k: string, o: string)
    requires ItemsDeclare(items, k, o)
    ensures Recorded(CollectItems(items, acc), k, o)
    decreases items
  {
    var acc' := Collect(items[0], acc);
    if Declares(items[0], k, o) {
      CollectRecords(items[0], acc, k, o);
      CollectItemsGrows(items[1..], acc');
      RecordedKept(acc', CollectItems(items, acc), k, o);
    } else {
      CollectItemsRecords(items[1..], acc', k, o);
    }
  }

  lemma {:induction false} CollectFieldsRecords(fields: seq<Field>, acc: Vocabulary, k: string, o: string)
    requires FieldsDeclare(fields, k, o)
    ensures Recorded(CollectFields(fields, acc), k, o)
    decreases fields
  {
    if ReplacedLater(fields[0], fields[1..]) {
      CollectFieldsRecords(fields[1..], acc, k, o);
    } else {
      var acc' := Collect(fields[0].value, acc);
      if Declares(fields[0].value, k, o) {
        CollectRecords(fields[0].value, acc, k, o);
        CollectFieldsGrows(fields[1..], acc');
        RecordedKept(acc', CollectFields(fields, acc), k, o);
      } else {
        CollectFieldsRecords(fields[1..], acc', k, o);
      }
    }
  }

  /** The object's own contribution records nothing it does not declare. */
  lemma RecordFieldOnlyDeclared(acc: Vocabulary, fields: seq<Field>, k: string, o: string)
    ensures Recorded(RecordField(acc, fields), k, o) ==> Recorded(acc, k, o) || DeclaresHere(fields, k, o)
  {
    if Recorded(RecordField(acc, fields), k, o) {
      var key := TextOf(Get(fields, "key"));
      var options := Get(fields, "options");
      var nk, no := Normalize(Some(k)), Normalize(Some(o));
      if key.Some? && options.Some? && options.value.JArray? && nk == Normalize(key) {
        var added := set x | x in OptionKeys(options.value.items);
        assert RecordField(acc, fields)[nk] == OptionsOf(acc, nk) + added;
        if no !in added {
          assert no in OptionsOf(acc, nk);
        }
      } else {
        assert RecordField(acc, fields) == acc || RecordField(acc, fields)[nk] == acc[nk];
      }
    }
  }

  /** Conversely, the walk records nothing that was not recorded before or
      declared by some object of the form. */
  lemma {:induction false} CollectOnlyDeclared(j: Json, acc: Vocabulary, k: string, o: string)
    ensures Recorded(Collect(j, acc), k, o) ==> Recorded(acc, k, o) || Declares(j, k, o)
    decreases j
  {
    match j
    case JObject(fields) =>
      var acc' := RecordField(acc, fields);
      CollectFieldsOnlyDeclared(fields, acc', k, o);
      if Recorded(acc', k, o) {
        RecordFieldOnlyDeclared(acc, fields, k, o);
      }
    case JArray(items) =>
      CollectItemsOnlyDeclared(items, acc, k, o);
    case _ =>
  }

  lemma {:induction false} CollectItemsOnlyDeclared(items: seq<Json>, acc: Vocabulary, k: string, o: string)
    ensures Recorded(CollectItems(items, acc), k, o) ==> Recorded(acc, k, o) || ItemsDeclare(items, k, o)
    decreases items
  {
    if items != [] {
      var acc' := Collect(items[0], acc);
      CollectItemsOnlyDeclared(items[1..], acc', k, o);
      if Recorded(acc', k, o) {
        CollectOnlyDeclared(items[0], acc, k, o);
      }
    }
  }

  lemma {:induction false} CollectFieldsOnlyDeclared(fields: seq<Field>, acc: Vocabulary, k: string, o: string)
    ensures Recorded(CollectFields(fields, acc), k, o) ==> Recorded(acc, k, o) || FieldsDeclare(fields, k, o)
    decreases fields
  {
    if fields != [] {
      if ReplacedLater(fields[0], fields[1..]) {
        CollectFieldsOnlyDeclared(fields[1..], acc, k, o);
      } else {
        var acc' := Collect(fields[0].value, acc);
        CollectFieldsOnlyDeclared(fields[1..], acc', k, o);
        if Recorded(acc', k, o) {
          CollectOnlyDeclared(fields[0].value, acc, k, o);
        }
      }
    }
  }

  /** The loaded vocabulary records an option for a field exactly when some
      loaded form declares it. */
  lemma CollectAllExactly(forms: seq<Json>, k: string, o: string)
    ensures Recorded(CollectAll(forms), k, o) <==> ItemsDeclare(forms, k, o)
  {
    if Recorded(CollectAll(forms), k, o) {
      CollectItemsOnlyDeclared(forms, map[], k, o);
    }
    if ItemsDeclare(forms, k, o) {
      CollectItemsRecords(forms, map[], k, o);
    }
  }

  /** Every option a loaded form declares is a known form option of the
      catalog, whenever the field key and the option have text. */
  lemma DeclaredOptionIsKnown(forms: seq<Json>, sections: map<string, SectionMapping>, k: string, o: string)
    requires ItemsDeclare(forms, k, o)
    requires HasText(Some(k)) && HasText(Some(o))
    ensures IsKnownFormOption(Catalog(sections, CollectAll(forms)), Some(k), Some(o))
  {
    CollectItemsRecords(forms, map[], k, o);
  }

  /** Every field key and option the walk records is a canonical token. */
  predicate AllCanonical(acc: Vocabulary) {
    forall f :: f in acc ==> IsCanonical(f) && forall v :: v in acc[f] ==> IsCanonical(v)
  }

  lemma {:induction false} OptionKeysCanonical(options: seq<Json>)
    ensures forall k :: k in OptionKeys(options) ==> IsCanonical(k)
  {
    if options != [] {
      OptionKeysCanonical(options[1..]);
      var rest := OptionKeys(options[1..]);
      var key := OptionKey(options[0]);
      if key.Some? {
        NormalizeIsCanonical(key);
        assert OptionKeys(options) == [Normalize(key)] + rest;
      } else {
        assert OptionKeys(options) == rest;
      }
    }
  }

  lemma RecordFieldCanonical(acc: Vocabulary, fields: seq<Field>)
    requires AllCanonical(acc)
    ensures AllCanonical(RecordField(acc, fields))
  {
    var key := TextOf(Get(fields, "key"));
    var options := Get(fields, "options");
    if key.Some? && options.Some? && options.value.JArray? {
      NormalizeIsCanonical(key);
      OptionKeysCanonical(options.value.items);
    }
  }

  lemma {:induction false} CollectCanonical(j: Json, acc: Vocabulary)
    requires AllCanonical(acc)
    ensures AllCanonical(Collect(j, acc))
    decreases j
  {
    match j
    case JObject(fields) =>
      RecordFieldCanonical(acc, fields);
      CollectFieldsCanonical(fields, RecordField(acc, fields));
    case JArray(items) =>
      CollectItemsCanonical(items, acc);
    case _ =>
  }

  lemma {:induction false} CollectItemsCanonical(items: seq<Json>, acc: Vocabulary)
    requires AllCanonical(acc)
    ensures AllCanonical(CollectItems(items, acc))
    decreases items
  {
    if items != [] {
      CollectCanonical(items[0], acc);
      CollectItemsCanonical(items[1..], Collect(items[0], acc));
    }
  }

  lemma {:induction false} CollectFieldsCanonical(fields: seq<Field>, acc: Vocabulary)
    requires AllCanonical(acc)
    ensures AllCanonical(CollectFields(fields, acc))
    decreases fields
  {
    if fields != [] {
      if ReplacedLater(fields[0], fields[1..]) {
        CollectFieldsCanonical(fields[1..], acc);
      } else {
        CollectCanonical(fields[0].value, acc);
        CollectFieldsCanonical(fields[1..], Collect(fields[0].value, acc));
      }
    }
  }

  /** The loaded vocabulary holds canonical tokens only. */
  lemma CollectAllCanonical(forms: seq<Json>)
    ensures AllCanonical(CollectAll(forms))
  {
    CollectItemsCanonical(forms, map[]);
  }
}
