/** The configuration editor's document model: import, field states, and export. */
module DotenvDocument {
  import opened Prelude
  import opened DotenvScanner
  import opened DotenvValue
  import opened DotenvParser
  import opened DotenvLines
  import opened DotenvQuoting

  datatype FieldState = FieldState(enabled: bool, value: string, hasReference: bool)

  datatype Document = Document(source: string, entries: seq<Entry>, keyOccurrences: map<string, seq<nat>>)

  // Each remark is cut in two because the verifier unfolds a literal one character at a time.
  const OPENING_REMARK := ("# --- Almond configuration" + " (added by config editor) ---") + "\n"
  const CLOSING_REMARK := ("# --- end Almond" + " configuration ---") + "\n"

  predicate Assigns(body: Body, key: string) {
    body.Assign? && body.assignment.key == key
  }

  /** The indices below `n` at which `key` is assigned, in document order. */
  function Occurrences(entries: seq<Entry>, key: string, n: nat): seq<nat>
    requires n <= |entries|
  {
    if n == 0 then []
    else if Assigns(entries[n - 1].body, key) then Occurrences(entries, key, n - 1) + [n - 1]
    else Occurrences(entries, key, n - 1)
  }

  /** They are all of them, in ascending order. */
  lemma {:induction false} OccurrencesAreAll(entries: seq<Entry>, key: string, n: nat)
    requires n <= |entries|
    ensures var occ := Occurrences(entries, key, n);
            && (forall i :: 0 <= i < n ==> (i in occ <==> Assigns(entries[i].body, key)))
            && (forall i :: i in occ ==> i < n)
            && (forall a, b :: 0 <= a < b < |occ| ==> occ[a] < occ[b])
  {
    if n > 0 {
      OccurrencesAreAll(entries, key, n - 1);
      var occ, before := Occurrences(entries, key, n), Occurrences(entries, key, n - 1);
      if occ != before {
        assert occ == before + [n - 1];
        assert forall a :: 0 <= a < |before| ==> before[a] in before;
      }
    }
  }

  function OccurrencesIn(occ: map<string, seq<nat>>, key: string): seq<nat> {
    if key in occ then occ[key] else []
  }

  /** `occ` records the occurrences of every key among the first `n` entries, and nothing else. */
  ghost predicate Indexes(occ: map<string, seq<nat>>, entries: seq<Entry>, n: nat)
    requires n <= |entries|
  {
    && (forall key :: OccurrencesIn(occ, key) == Occurrences(entries, key, n))
    && (forall key :: key in occ ==> occ[key] != [])
  }

  ghost predicate ValidDocument(doc: Document) {
    && doc.entries == EntriesFrom(0, Lines(doc.source))
    && Indexes(doc.keyOccurrences, doc.entries, |doc.entries|)
  }

  lemma IndexStart(entries: seq<Entry>)
    ensures Indexes(map[], entries, 0)
  {
  }

  lemma IndexOne(occ: map<string, seq<nat>>, entries: seq<Entry>, n: nat, key: string)
    requires n < |entries| && Indexes(occ, entries, n) && Assigns(entries[n].body, key)
    ensures Indexes(occ[key := OccurrencesIn(occ, key) + [n]], entries, n + 1)
  {
    var after := occ[key := OccurrencesIn(occ, key) + [n]];
    forall k ensures OccurrencesIn(after, k) == Occurrences(entries, k, n + 1) {
      assert OccurrencesIn(occ, k) == Occurrences(entries, k, n);
    }
  }

  lemma IndexNone(occ: map<string, seq<nat>>, entries: seq<Entry>, n: nat)
    requires n < |entries| && Indexes(occ, entries, n) && !entries[n].body.Assign?
    ensures Indexes(occ, entries, n + 1)
  {
    forall k ensures OccurrencesIn(occ, k) == Occurrences(entries, k, n + 1) {
      assert OccurrencesIn(occ, k) == Occurrences(entries, k, n);
    }
  }

  method BuildDocument(source: string) returns (doc: Document)
    ensures ValidDocument(doc) && doc.source == source
    ensures forall key, i :: 0 <= i < |doc.entries| ==>
              (key in doc.keyOccurrences && i in doc.keyOccurrences[key]
               <==> doc.entries[i].body.Assign? && doc.entries[i].body.assignment.key == key)
  {
    hide Lines, EntriesFrom, Indexes, Occurrences;
    var entries := SplitLogicalLines(source);
    var keyOccurrences: map<string, seq<nat>> := map[];
    IndexStart(entries);
    for idx := 0 to |entries|
      invariant Indexes(keyOccurrences, entries, idx)
    {
      if entries[idx].body.Assign? {
        var key := entries[idx].body.assignment.key;
        IndexOne(keyOccurrences, entries, idx, key);
        keyOccurrences := keyOccurrences[key := OccurrencesIn(keyOccurrences, key) + [idx]];
      } else {
        IndexNone(keyOccurrences, entries, idx);
      }
    }
    doc := Document(source, entries, keyOccurrences);
    forall key, i | 0 <= i < |doc.entries|
      ensures key in doc.keyOccurrences && i in doc.keyOccurrences[key]
              <==> doc.entries[i].body.Assign? && doc.entries[i].body.assignment.key == key
    {
      OccurrencesAreAll(entries, key, |entries|);
      IndexedOccurrences(keyOccurrences, entries, key);
    }
  }

  lemma IndexedOccurrences(occ: map<string, seq<nat>>, entries: seq<Entry>, key: string)
    requires Indexes(occ, entries, |entries|)
    ensures (if key in occ then occ[key] else []) == Occurrences(entries, key, |entries|)
  {
    assert OccurrencesIn(occ, key) == Occurrences(entries, key, |entries|);
  }

  // ----- what import and export compute, over the logical lines -----

  /** The assignment that takes effect: the first one. */
  function Effective(lines: seq<Line>, key: string): Option<Assignment> {
    if lines == [] then None
    else if Assigns(lines[0].body, key) then Some(lines[0].body.assignment)
    else Effective(lines[1..], key)
  }

  function LoadedState(lines: seq<Line>, key: string): FieldState {
    match Effective(lines, key)
    case None => FieldState(false, "", false)
    case Some(a) => FieldState(true, a.value, a.hasReference)
  }

  predicate IsEdited(original: Option<Assignment>, st: FieldState) {
    if original.None? then st.enabled
    else !st.enabled || original.value.value != st.value
  }

  function Serialized(isExport: bool, name: string, st: FieldState): string {
    if !st.enabled then ""
    else if st.hasReference then ExportPrefix(isExport) + (name + "=" + st.value) + "\n"
    else Statement(isExport, name, st.value) + "\n"
  }

  /** What one line becomes. `seen` holds the keys assigned on earlier lines. */
  function ExportedLine(l: Line, seen: set<string>, fields: map<string, FieldState>, edited: set<string>): string {
    if l.body.Assign? && l.body.assignment.key in fields && l.body.assignment.key !in seen
      && l.body.assignment.key in edited
    then Serialized(l.body.assignment.isExport, l.body.assignment.key, fields[l.body.assignment.key])
    else l.text
  }

  function Seeing(seen: set<string>, l: Line): set<string> {
    if l.body.Assign? then seen + {l.body.assignment.key} else seen
  }

  function ExportedBody(lines: seq<Line>, seen: set<string>, fields: map<string, FieldState>,
                        edited: set<string>): string
    decreases |lines|
  {
    if lines == [] then ""
    else ExportedLine(lines[0], seen, fields, edited) + ExportedBody(lines[1..], Seeing(seen, lines[0]), fields, edited)
  }

  function EditedKeys(lines: seq<Line>, fields: map<string, FieldState>): set<string> {
    set k | k in fields && IsEdited(Effective(lines, k), fields[k])
  }

  predicate IsNewKey(lines: seq<Line>, fields: map<string, FieldState>, name: string) {
    name in fields && fields[name].enabled && Effective(lines, name).None?
  }

  /** The schema keys that are switched on but nowhere in the document, in schema order. */
  function NewKeys(schema: seq<string>, lines: seq<Line>, fields: map<string, FieldState>): (keys: seq<string>)
    ensures forall k :: k in keys ==> k in fields
  {
    if schema == [] then []
    else (if IsNewKey(lines, fields, schema[0]) then [schema[0]] else []) + NewKeys(schema[1..], lines, fields)
  }

  function Additions(keys: seq<string>, fields: map<string, FieldState>): string
    requires forall k :: k in keys ==> k in fields
  {
    if keys == [] then "" else Serialized(false, keys[0], fields[keys[0]]) + Additions(keys[1..], fields)
  }

  function Separator(out: string): string {
    if out == "" || (|out| >= 2 && out[|out| - 2..] == "\n\n") then ""
    else if out[|out| - 1] == '\n' then "\n" else "\n\n"
  }

  /** The body is set apart from what follows by exactly one empty line, unless it is empty. */
  lemma SeparatorLeavesOneEmptyLine(out: string)
    ensures out == "" ==> Separator(out) == ""
    ensures out != "" ==>
              var n := if out[|out| - 1] != '\n' then 0 else if |out| >= 2 && out[|out| - 2] == '\n' then 2 else 1;
              |Separator(out)| == 2 - n && forall i :: 0 <= i < 2 - n ==> Separator(out)[i] == '\n'
  {
  }

  function Exported(schema: seq<string>, lines: seq<Line>, fields: map<string, FieldState>): string {
    var out := ExportedBody(lines, {}, fields, EditedKeys(lines, fields));
    var newKeys := NewKeys(schema, lines, fields);
    if newKeys == [] then out
    else out + Separator(out) + OPENING_REMARK + Additions(newKeys, fields) + CLOSING_REMARK
  }

  // ----- the editor -----

  ghost predicate NoneBelow(entries: seq<Entry>, key: string, n: nat)
    requires n <= |entries|
  {
    forall i :: 0 <= i < n ==> !Assigns(entries[i].body, key)
  }

  lemma {:induction false} OccurrencesFirst(entries: seq<Entry>, key: string, n: nat)
    requires n <= |entries|
    ensures var occ := Occurrences(entries, key, n);
            if occ == [] then NoneBelow(entries, key, n)
            else occ[0] < n && Assigns(entries[occ[0]].body, key) && NoneBelow(entries, key, occ[0])
  {
    if n > 0 {
      OccurrencesFirst(entries, key, n - 1);
    }
  }

  lemma {:induction false} EffectiveFirst(lines: seq<Line>, key: string)
    ensures Effective(lines, key).None? <==> forall i :: 0 <= i < |lines| ==> !Assigns(lines[i].body, key)
    ensures forall i ::
              && 0 <= i < |lines| && Assigns(lines[i].body, key)
              && (forall j :: 0 <= j < i ==> !Assigns(lines[j].body, key)) ==>
                Effective(lines, key) == Some(lines[i].body.assignment)
  {
    if lines != [] && !Assigns(lines[0].body, key) {
      EffectiveFirst(lines[1..], key);
      assert forall i :: 0 < i < |lines| ==> lines[i] == lines[1..][i - 1];
    }
  }

  /** The state of a field whose key is assigned on line `i` before any other, or on no line. */
  ghost predicate LoadedFrom(lines: seq<Line>, key: string, st: FieldState) {
    || (st == FieldState(false, "", false)
        && forall i :: 0 <= i < |lines| && lines[i].body.Assign? ==> lines[i].body.assignment.key != key)
    || (exists i ::
          && 0 <= i < |lines| && lines[i].body.Assign? && lines[i].body.assignment.key == key
          && (forall j :: 0 <= j < i && lines[j].body.Assign? ==> lines[j].body.assignment.key != key)
          && st == FieldState(true, lines[i].body.assignment.value, lines[i].body.assignment.hasReference))
  }

  lemma {:induction false} LoadedIsFirst(lines: seq<Line>, key: string)
    ensures LoadedFrom(lines, key, LoadedState(lines, key))
  {
    if lines != [] {
      if Assigns(lines[0].body, key) {
        assert lines[0].body.assignment.key == key;
      } else {
        LoadedIsFirst(lines[1..], key);
        LoadedLater(lines, key, LoadedState(lines[1..], key));
      }
    }
  }

  lemma LoadedLater(lines: seq<Line>, key: string, st: FieldState)
    requires lines != [] && !Assigns(lines[0].body, key) && LoadedFrom(lines[1..], key, st)
    ensures LoadedFrom(lines, key, st)
  {
    var rest := lines[1..];
    assert forall i :: 0 < i < |lines| ==> lines[i] == rest[i - 1];
    if i :| 0 <= i < |rest| && rest[i].body.Assign? && rest[i].body.assignment.key == key
            && (forall j :: 0 <= j < i && rest[j].body.Assign? ==> rest[j].body.assignment.key != key)
            && st == FieldState(true, rest[i].body.assignment.value, rest[i].body.assignment.hasReference)
    {
      assert lines[i + 1] == rest[i];
    }
  }

  lemma {:induction false} EntryBodies(at: nat, lines: seq<Line>)
    ensures |EntriesFrom(at, lines)| == |lines|
    ensures forall i :: 0 <= i < |lines| ==> EntriesFrom(at, lines)[i].body == lines[i].body
    decreases |lines|
  {
    if lines != [] {
      EntryBodies(at + |lines[0].text|, lines[1..]);
    }
  }

  /** `doc.keyOccurrences[key][0]`, when present, is the entry of the effective assignment. */
  lemma FirstOccurrenceIsEffective(doc: Document, key: string)
    requires ValidDocument(doc)
    ensures var lines := Lines(doc.source);
            && |doc.entries| == |lines|
            && (key in doc.keyOccurrences <==> Effective(lines, key).Some?)
            && (key in doc.keyOccurrences ==>
                  var first := doc.keyOccurrences[key][0];
                  && first < |lines| && doc.entries[first].body == lines[first].body
                  && lines[first].body.Assign? && Effective(lines, key) == Some(lines[first].body.assignment)
                  && lines[first].body.assignment.key == key
                  && forall i :: 0 <= i < first ==> !Assigns(lines[i].body, key))
  {
    var lines := Lines(doc.source);
    EntryBodies(0, lines);
    OccurrencesFirst(doc.entries, key, |doc.entries|);
    EffectiveFirst(lines, key);
    assert OccurrencesIn(doc.keyOccurrences, key) == Occurrences(doc.entries, key, |doc.entries|);
  }

  lemma NewKeyTest(doc: Document, fields: map<string, FieldState>, name: string)
    requires ValidDocument(doc) && name in fields
    ensures IsNewKey(Lines(doc.source), fields, name) <==>
            name in EditedKeys(Lines(doc.source), fields) && name !in doc.keyOccurrences && fields[name].enabled
  {
    hide Lines, EntriesFrom, Effective, Indexes;
    FirstOccurrenceIsEffective(doc, name);
  }

  class ConfigEditor {
    const schema: seq<string>
    var doc: Document
    var fieldStates: map<string, FieldState>

    ghost predicate Valid()
      reads this
    {
      ValidDocument(doc) && fieldStates.Keys == set name | name in schema
    }

    constructor (schema: seq<string>)
      ensures Valid() && doc.source == "" && this.schema == schema
    {
      this.schema := schema;
      doc := Document("", [], map[]);
      fieldStates := map name | name in schema :: FieldState(false, "", false);
    }

    /** Import: rebuild the document and reload every field from its effective assignment. */
    method ApplyImport(text: string)
      requires Valid()
      modifies this
      ensures Valid() && doc.source == text
      ensures fieldStates == map name | name in schema :: LoadedState(Lines(text), name)
      ensures forall name :: name in schema ==> name in fieldStates && LoadedFrom(Lines(text), name, fieldStates[name])
    {
      hide LoadedFrom, LoadedState;
      doc := BuildDocument(text);
      LoadFromDocument();
      forall name | name in schema ensures LoadedFrom(Lines(text), name, fieldStates[name]) {
        LoadedIsFirst(Lines(text), name);
      }
    }

    method LoadFromDocument()
      requires ValidDocument(doc)
      modifies this`fieldStates
      ensures Valid()
      ensures fieldStates == map name | name in schema :: LoadedState(Lines(doc.source), name)
    {
      hide Lines, EntriesFrom;
      fieldStates := map name | name in schema :: FieldState(false, "", false);
      var keys := doc.keyOccurrences.Keys;
      while keys != {}
        invariant keys <= doc.keyOccurrences.Keys
        invariant fieldStates.Keys == set name | name in schema
        invariant forall name :: name in schema && (name !in doc.keyOccurrences || name in keys) ==>
                    fieldStates[name] == FieldState(false, "", false)
        invariant forall name :: name in schema && name in doc.keyOccurrences && name !in keys ==>
                    fieldStates[name] == LoadedState(Lines(doc.source), name)
        decreases keys
      {
        var key :| key in keys;
        FirstOccurrenceIsEffective(doc, key);
        var entry := doc.entries[doc.keyOccurrences[key][0]];
        if key in schema {
          fieldStates := fieldStates[key := FieldState(true, entry.body.assignment.value,
                                                       entry.body.assignment.hasReference)];
        }
        keys := keys - {key};
      }
      forall name | name in schema ensures fieldStates[name] == LoadedState(Lines(doc.source), name) {
        FirstOccurrenceIsEffective(doc, name);
      }
    }

    function FirstOccurrenceValue(key: string): Option<Assignment>
      requires Valid()
      reads this
      ensures FirstOccurrenceValue(key) == Effective(Lines(doc.source), key)
    {
      FirstOccurrenceIsEffective(doc, key);
      if key in doc.keyOccurrences then Some(doc.entries[doc.keyOccurrences[key][0]].body.assignment) else None
    }

    method BuildExport() returns (out: string)
      requires Valid()
      ensures out == Exported(schema, Lines(doc.source), fieldStates)
    {
      hide Lines, EntriesFrom, ExportedBody, Serialized, Effective, Additions, NewKeys, IsEdited;
      ghost var lines := Lines(doc.source);
      var edited := set k | k in fieldStates && IsEdited(FirstOccurrenceValue(k), fieldStates[k]);
      assert edited == EditedKeys(lines, fieldStates);
      out := ExportEntries(edited);
      var newKeys := FilterNewKeys(edited);
      if |newKeys| > 0 {
        if |out| > 0 && !(|out| >= 2 && out[|out| - 2..] == "\n\n") {
          out := out + (if out[|out| - 1] == '\n' then "\n" else "\n\n");
        } else {
          assert out + "" == out;
        }
        out := AppendNewKeys(newKeys, out + OPENING_REMARK);
        out := out + CLOSING_REMARK;
      }
    }

    method FilterNewKeys(edited: set<string>) returns (newKeys: seq<string>)
      requires Valid() && edited == EditedKeys(Lines(doc.source), fieldStates)
      ensures newKeys == NewKeys(schema, Lines(doc.source), fieldStates)
    {
      hide Lines, EntriesFrom, IsNewKey, Indexes, EditedKeys;
      ghost var lines := Lines(doc.source);
      newKeys := [];
      for i := 0 to |schema|
        invariant NewKeys(schema, lines, fieldStates) == newKeys + NewKeys(schema[i..], lines, fieldStates)
      {
        assert schema[i..][1..] == schema[i + 1..];
        NewKeyTest(doc, fieldStates, schema[i]);
        if schema[i] in edited && schema[i] !in doc.keyOccurrences && fieldStates[schema[i]].enabled {
          newKeys := newKeys + [schema[i]];
        }
      }
      assert newKeys + [] == newKeys;
    }

    method AppendNewKeys(newKeys: seq<string>, start: string) returns (out: string)
      requires forall k :: k in newKeys ==> k in fieldStates
      ensures out == start + Additions(newKeys, fieldStates)
    {
      hide Serialized;
      out := start;
      for i := 0 to |newKeys|
        invariant start + Additions(newKeys, fieldStates) == out + Additions(newKeys[i..], fieldStates)
      {
        assert newKeys[i..][1..] == newKeys[i + 1..] && newKeys[i] in newKeys;
        ghost var line, later := Serialized(false, newKeys[i], fieldStates[newKeys[i]]), Additions(newKeys[i + 1..],
                fieldStates);
        assert out + (line + later) == (out + line) + later;
        out := out + Serialized(false, newKeys[i], fieldStates[newKeys[i]]);
      }
      assert out + "" == out;
    }

    /** The text one entry contributes: verbatim, unless it is an edited effective assignment. */
    method ExportEntry(i: nat, edited: set<string>) returns (text: string)
      requires Valid() && i < |doc.entries|
      ensures i < |Lines(doc.source)|
      ensures text == ExportedLine(Lines(doc.source)[i], KeysBefore(Lines(doc.source), i), fieldStates, edited)
    {
      hide Lines, EntriesFrom, Serialized, Effective, KeysBefore, Indexes, Occurrences;
      ghost var lines := Lines(doc.source);
      EntrySlice(doc, i);
      var entry := doc.entries[i];
      text := doc.source[entry.start..entry.end];
      if entry.body.Assign? && entry.body.assignment.key in fieldStates {
        var key := entry.body.assignment.key;
        AssignedKeyIsIndexed(doc, i, key);
        if doc.keyOccurrences[key][0] == i && key in edited {
          text := Serialized(entry.body.assignment.isExport, key, fieldStates[key]);
        }
      }
    }

    /** The first loop of the export. */
    method ExportEntries(edited: set<string>) returns (out: string)
      requires Valid()
      ensures out == ExportedBody(Lines(doc.source), {}, fieldStates, edited)
    {
      hide Lines, EntriesFrom, ExportedLine, Indexes, Occurrences;
      ghost var lines := Lines(doc.source);
      EntryBodies(0, lines);
      out := "";
      assert lines[0..] == lines;
      for i := 0 to |doc.entries|
        invariant ExportedBody(lines, {}, fieldStates, edited) == out
                  + ExportedBody(lines[i..], KeysBefore(lines, i), fieldStates, edited)
      {
        var text := ExportEntry(i, edited);
        assert lines[i..][1..] == lines[i + 1..];
        ghost var later := ExportedBody(lines[i + 1..], KeysBefore(lines, i + 1), fieldStates, edited);
        assert out + (text + later) == (out + text) + later;
        out := out + text;
      }
      assert out + "" == out;
    }
  }

  ghost function KeysBefore(lines: seq<Line>, i: nat): set<string>
    requires i <= |lines|
  {
    if i == 0 then {} else Seeing(KeysBefore(lines, i - 1), lines[i - 1])
  }

  lemma {:induction false} KeysBeforeMeaning(lines: seq<Line>, i: nat, key: string)
    requires i <= |lines|
    ensures key in KeysBefore(lines, i) <==> exists j :: 0 <= j < i && Assigns(lines[j].body, key)
  {
    if i > 0 {
      KeysBeforeMeaning(lines, i - 1, key);
    }
  }

  lemma AssignedKeyIsIndexed(doc: Document, i: nat, key: string)
    requires ValidDocument(doc) && i < |doc.entries| && Assigns(doc.entries[i].body, key)
    ensures i < |Lines(doc.source)| && key in doc.keyOccurrences && doc.keyOccurrences[key] != []
    ensures doc.keyOccurrences[key][0] == i <==> key !in KeysBefore(Lines(doc.source), i)
  {
    hide Lines, EntriesFrom, KeysBefore, Occurrences;
    var lines := Lines(doc.source);
    EntryBodies(0, lines);
    EffectiveFirst(lines, key);
    FirstOccurrenceIsEffective(doc, key);
    SeenMeansLater(lines, i, doc.keyOccurrences[key][0], key);
  }

  lemma EntrySlice(doc: Document, i: nat)
    requires ValidDocument(doc) && i < |doc.entries|
    ensures i < |Lines(doc.source)| && doc.entries[i].body == Lines(doc.source)[i].body
    ensures doc.entries[i].start <= doc.entries[i].end <= |doc.source|
    ensures doc.source[doc.entries[i].start..doc.entries[i].end] == Lines(doc.source)[i].text
  {
    hide Lines, EntriesFrom, Tile, Indexes;
    var lines := Lines(doc.source);
    EntryBodies(0, lines);
    EntriesTile(doc.source, 0);
    assert doc.source[0..] == doc.source;
    SliceTexts(doc.source, 0, doc.entries, lines);
  }

  lemma SeenMeansLater(lines: seq<Line>, i: nat, first: nat, key: string)
    requires i < |lines| && first <= i && Assigns(lines[i].body, key) && Assigns(lines[first].body, key)
    requires forall j :: 0 <= j < first ==> !Assigns(lines[j].body, key)
    ensures key in KeysBefore(lines, i) <==> first != i
  {
    KeysBeforeMeaning(lines, i, key);
  }

  lemma {:induction false} SliceTexts(source: string, at: nat, entries: seq<Entry>, lines: seq<Line>)
    requires Tile(source, at, entries, lines)
    ensures |entries| == |lines|
    ensures forall i :: 0 <= i < |lines| ==>
              entries[i].start <= entries[i].end <= |source| &&
              source[entries[i].start..entries[i].end] == lines[i].text
    decreases |lines|
  {
    if lines != [] {
      SliceTexts(source, entries[0].end, entries[1..], lines[1..]);
      forall i | 0 < i < |lines| ensures entries[i] == entries[1..][i - 1] && lines[i] == lines[1..][i - 1] {
      }
    }
  }
}
