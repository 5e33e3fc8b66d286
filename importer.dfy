/**
 * add_notes: for every LingQ that is not known (status 3), fills the reused dictionary
 * `fields_dict` field by field from the chosen mapping and submits one addNote request.
 * Submitting is modelled as appending the note to the returned sequence.
 */
module Importer {
  import opened Registry
  import opened Joiners
  import opened FieldMapping

  /** The status LingQ gives a term the learner already knows; such records are skipped. */
  const KNOWN_STATUS: int := 3

  /** A LingQ record as the LingQ service returns it (only the keys the import reads). */
  datatype LingQ = LingQ(status: int, term: string, hints: seq<map<string, string>>,
                         fragment: string, notes: string, tags: seq<string>)

  /** The `note` parameter of one addNote request. */
  datatype Note = Note(deckName: string, modelName: string, fields: map<string, string>,
                       allowDuplicate: bool, tags: seq<string>)

  /** Every field holds nothing or a catalogue attribute (what select_fields produces). */
  predicate ValidMapping(mapping: seq<Assignment>)
  {
    forall i :: 0 <= i < |mapping| ==> IsAttributeOrEmpty(mapping[i].attribute)
  }

  /** Reading the hints of `q` cannot fail when the mapping uses them. */
  predicate HintsReadable(q: LingQ, mapping: seq<Assignment>)
  {
    forall i :: 0 <= i < |mapping| && mapping[i].attribute == HINTS ==> AllHaveKey(q.hints, "text")
  }

  /** `lingq[attribute]` for the attributes whose value is used as it is. */
  function RawValue(q: LingQ, attribute: string): string
    requires attribute == "term" || attribute == "fragment" || attribute == "notes"
  {
    if attribute == "term" then q.term else if attribute == "fragment" then q.fragment else q.notes
  }

  /**
   * The value stored in a field mapped to `attribute`: hints joined by "\n" as
   * list_of_dicts_to_string writes them, tags joined by ", ", "" for an unmapped field,
   * and the record's own value otherwise.
   */
  function FieldValue(q: LingQ, attribute: string): (v: string)
    requires IsAttributeOrEmpty(attribute)
    requires attribute == HINTS ==> AllHaveKey(q.hints, "text")
    ensures attribute == "" ==> v == ""
    ensures attribute == HINTS && |q.hints| > 1 ==> v == Join(Texts(q.hints, "text"), "\n") + "\n"
    ensures attribute == HINTS && |q.hints| <= 1 ==> v == Join(Texts(q.hints, "text"), "\n")
    ensures attribute == TAGS ==> v == Join(q.tags, ", ")
    ensures attribute == "term" ==> v == q.term
    ensures attribute == "fragment" ==> v == q.fragment
    ensures attribute == "notes" ==> v == q.notes
  {
    if attribute == HINTS then
      DictsJoinVersusJoin(Texts(q.hints, "text"), "\n");
      DictsJoinAsWritten(Texts(q.hints, "text"), "\n")
    else if attribute == TAGS then Join(q.tags, ", ")
    else if attribute == "" then ""
    else RawValue(q, attribute)
  }

  /** The field names a mapping covers. */
  function Names(mapping: seq<Assignment>): set<string>
  {
    set i | 0 <= i < |mapping| :: mapping[i].field
  }

  /** `dict` after the field loop of add_notes has written every field of `mapping`, in order. */
  function Overwrite(q: LingQ, mapping: seq<Assignment>, dict: map<string, string>): (r: map<string, string>)
    requires ValidMapping(mapping) && HintsReadable(q, mapping)
    ensures r.Keys == dict.Keys + Names(mapping)
    decreases |mapping|
  {
    if |mapping| == 0 then dict
    else
      var last := mapping[|mapping| - 1];
      var init := mapping[..|mapping| - 1];
      assert Names(mapping) == Names(init) + {last.field};
      Overwrite(q, init, dict)[last.field := FieldValue(q, last.attribute)]
  }

  /** The field set submitted for `q`: every mapped field written into an empty dictionary. */
  function FieldSet(q: LingQ, mapping: seq<Assignment>): map<string, string>
    requires ValidMapping(mapping) && HintsReadable(q, mapping)
  {
    Overwrite(q, mapping, map[])
  }

  /** Writing every field forgets whatever the dictionary held for those fields before. */
  lemma {:induction false} OverwriteAt(q: LingQ, mapping: seq<Assignment>, dict: map<string, string>, k: string)
    requires ValidMapping(mapping) && HintsReadable(q, mapping)
    requires k in Names(mapping)
    ensures Overwrite(q, mapping, dict)[k] == FieldSet(q, mapping)[k]
    decreases |mapping|
  {
    var last := mapping[|mapping| - 1];
    var init := mapping[..|mapping| - 1];
    assert Names(mapping) == Names(init) + {last.field};
    if k != last.field {
      OverwriteAt(q, init, dict, k);
    }
  }

  /** Reusing one dictionary across records changes nothing once its keys are all fields. */
  lemma OverwriteForgetsOld(q: LingQ, mapping: seq<Assignment>, dict: map<string, string>)
    requires ValidMapping(mapping) && HintsReadable(q, mapping)
    requires dict.Keys <= Names(mapping)
    ensures Overwrite(q, mapping, dict) == FieldSet(q, mapping)
  {
    forall k | k in Names(mapping) ensures Overwrite(q, mapping, dict)[k] == FieldSet(q, mapping)[k] {
      OverwriteAt(q, mapping, dict, k);
    }
  }

  /** With distinct field names each field carries the value of its own attribute. */
  lemma {:induction false} FieldSetValue(q: LingQ, mapping: seq<Assignment>, i: nat)
    requires ValidMapping(mapping) && HintsReadable(q, mapping)
    requires forall j, k :: 0 <= j < k < |mapping| ==> mapping[j].field != mapping[k].field
    requires i < |mapping|
    ensures mapping[i].field in FieldSet(q, mapping)
    ensures FieldSet(q, mapping)[mapping[i].field] == FieldValue(q, mapping[i].attribute)
    decreases |mapping|
  {
    if i < |mapping| - 1 {
      FieldSetValue(q, mapping[..|mapping| - 1], i);
    }
  }

  /** A field the user kept empty is submitted as the empty string. */
  lemma UnmappedFieldIsEmpty(q: LingQ, mapping: seq<Assignment>, i: nat)
    requires ValidMapping(mapping) && HintsReadable(q, mapping)
    requires forall j, k :: 0 <= j < k < |mapping| ==> mapping[j].field != mapping[k].field
    requires i < |mapping| && mapping[i].attribute == ""
    ensures FieldSet(q, mapping)[mapping[i].field] == ""
  {
    FieldSetValue(q, mapping, i);
  }

  /** The records add_notes imports: the non-known ones, in their original order. */
  function Eligible(lingqs: seq<LingQ>): (r: seq<LingQ>)
    ensures forall q :: q in r <==> q in lingqs && q.status != KNOWN_STATUS
    ensures |r| <= |lingqs|
    decreases |lingqs|
  {
    if |lingqs| == 0 then []
    else
      var last := lingqs[|lingqs| - 1];
      Eligible(lingqs[..|lingqs| - 1]) + (if last.status == KNOWN_STATUS then [] else [last])
  }

  /** Filtering distributes over concatenation: each record is kept or dropped on its own, in place. */
  lemma {:induction false} EligibleConcat(a: seq<LingQ>, b: seq<LingQ>)
    ensures Eligible(a + b) == Eligible(a) + Eligible(b)
    decreases |b|
  {
    if |b| == 0 {
      assert a + b == a;
    } else {
      var init := b[..|b| - 1];
      assert (a + b)[..|a + b| - 1] == a + init;
      EligibleConcat(a, init);
    }
  }

  /** A single record is imported exactly when it is not known. */
  lemma EligibleSingleton(q: LingQ)
    ensures Eligible([q]) == if q.status == KNOWN_STATUS then [] else [q]
  {
    assert [q][..0] == [];
  }

  predicate Importable(mapping: seq<Assignment>, lingqs: seq<LingQ>)
  {
    ValidMapping(mapping) &&
    forall i :: 0 <= i < |lingqs| && lingqs[i].status != KNOWN_STATUS ==> HintsReadable(lingqs[i], mapping)
  }

  /** The notes add_notes submits, record by record. */
  function Submissions(deck: string, model: string, mapping: seq<Assignment>, lingqs: seq<LingQ>): (r: seq<Note>)
    requires Importable(mapping, lingqs)
    ensures |r| == |Eligible(lingqs)|
    ensures forall i :: 0 <= i < |r| ==>
              HintsReadable(Eligible(lingqs)[i], mapping)
              && r[i] == Note(deck, model, FieldSet(Eligible(lingqs)[i], mapping), true, [])
    decreases |lingqs|
  {
    if |lingqs| == 0 then []
    else
      var last := lingqs[|lingqs| - 1];
      var init := lingqs[..|lingqs| - 1];
      assert Importable(mapping, init);
      Submissions(deck, model, mapping, init)
      + (if last.status == KNOWN_STATUS then [] else [Note(deck, model, FieldSet(last, mapping), true, [])])
  }

  /** Known records add nothing: importing them alongside others submits the same notes. */
  lemma {:induction false} KnownRecordsSubmitNothing(deck: string, model: string, mapping: seq<Assignment>,
                                                     lingqs: seq<LingQ>, q: LingQ)
    requires Importable(mapping, lingqs) && q.status == KNOWN_STATUS
    ensures Importable(mapping, lingqs + [q])
    ensures Submissions(deck, model, mapping, lingqs + [q]) == Submissions(deck, model, mapping, lingqs)
  {
    assert (lingqs + [q])[..|lingqs|] == lingqs;
  }

  /** A record that is not known adds exactly its own note, after those of the earlier records. */
  lemma {:induction false} NewRecordSubmitsOne(deck: string, model: string, mapping: seq<Assignment>,
                                               lingqs: seq<LingQ>, q: LingQ)
    requires Importable(mapping, lingqs) && q.status != KNOWN_STATUS && HintsReadable(q, mapping)
    ensures Importable(mapping, lingqs + [q])
    ensures Submissions(deck, model, mapping, lingqs + [q])
            == Submissions(deck, model, mapping, lingqs) + [Note(deck, model, FieldSet(q, mapping), true, [])]
  {
    assert (lingqs + [q])[..|lingqs|] == lingqs;
  }

  /** A term mapped to one field and nothing to the other. */
  lemma TermScenario()
    ensures FieldSet(LingQ(1, "hund", [], "", "", []), [Assignment("field1", "term"), Assignment("field2", "")])
            == map["field1" := "hund", "field2" := ""]
  {
  }

  /** Hints come out with a trailing newline from two hints on; tags are joined cleanly. */
  lemma JoinScenarios()
    ensures FieldValue(LingQ(1, "", [map["text" := "a"], map["text" := "b"], map["text" := "c"]], "", "", []), HINTS)
            == "a\nb\nc\n"
    ensures FieldValue(LingQ(1, "", [map["text" := "a"]], "", "", []), HINTS) == "a"
    ensures FieldValue(LingQ(1, "", [], "", "", []), HINTS) == ""
    ensures FieldValue(LingQ(1, "", [], "", "", ["x", "y"]), TAGS) == "x, y"
    ensures FieldValue(LingQ(1, "", [], "", "", ["x"]), TAGS) == "x"
  {
    var hints := [map["text" := "a"], map["text" := "b"], map["text" := "c"]];
    assert Texts(hints, "text") == ["a", "b", "c"];
    assert ["a", "b", "c"][..2] == ["a", "b"];
    assert ["a", "b"][..1] == ["a"];
  }

  /** Of three records the known one is dropped and the other two keep their order. */
  lemma KnownScenario(a: LingQ, b: LingQ, c: LingQ)
    requires a.status != KNOWN_STATUS && b.status == KNOWN_STATUS && c.status != KNOWN_STATUS
    ensures Eligible([a, b, c]) == [a, c]
  {
    assert [a, b, c][..2] == [a, b];
    assert [a, b][..1] == [a];
  }

  /** The body of add_notes' field loop: the value one field receives. */
  method ComputeFieldValue(lingq: LingQ, attribute: string) returns (value: string)
    requires IsAttributeOrEmpty(attribute)
    requires attribute == HINTS ==> AllHaveKey(lingq.hints, "text")
    ensures value == FieldValue(lingq, attribute)
  {
    if attribute == LINGQ_ATTRIBUTES[1] {
      value := ListOfDictsToString(lingq.hints, "text", "\n");
    } else if attribute == LINGQ_ATTRIBUTES[4] {
      value := ListToString(lingq.tags, ", ");
    } else if attribute == "" {
      value := "";
    } else {
      value := RawValue(lingq, attribute);
    }
  }

  /** Writing one more field of the mapping extends the dictionary by that field's value. */
  lemma OverwriteStep(q: LingQ, mapping: seq<Assignment>, dict: map<string, string>, j: nat)
    requires ValidMapping(mapping) && HintsReadable(q, mapping)
    requires j < |mapping|
    ensures ValidMapping(mapping[..j]) && HintsReadable(q, mapping[..j])
    ensures ValidMapping(mapping[..j + 1]) && HintsReadable(q, mapping[..j + 1])
    ensures Overwrite(q, mapping[..j + 1], dict)
            == Overwrite(q, mapping[..j], dict)[mapping[j].field := FieldValue(q, mapping[j].attribute)]
  {
    assert mapping[..j + 1][..j] == mapping[..j];
  }

  /** The field loop of add_notes: writes the value of every field of `fields` into `dict`. */
  method FillFields(lingq: LingQ, fields: seq<AnkiField>, dict: map<string, string>) returns (filled: map<string, string>)
    requires ValidMapping(Snapshot(fields)) && HintsReadable(lingq, Snapshot(fields))
    ensures filled == Overwrite(lingq, Snapshot(fields), dict)
  {
    ghost var mapping := Snapshot(fields);
    filled := dict;
    for j := 0 to |fields|
      invariant filled == Overwrite(lingq, mapping[..j], dict)
    {
      OverwriteStep(lingq, mapping, dict, j);
      var f := fields[j];
      var value := ComputeFieldValue(lingq, f.attribute);
      filled := filled[f.field := value];
    }
    assert mapping[..|fields|] == mapping;
  }

  /** One more loop iteration extends the prefix of records already handled by one. */
  lemma PrefixGrows<T>(s: seq<T>, n: nat)
    requires n < |s|
    ensures s[..n + 1] == s[..n] + [s[n]]
  {
  }

  /**
   * The body of add_notes for a record that is not known: refills the shared dictionary
   * and forms the addNote request, which carries exactly the record's field set.
   */
  method SubmitOne(deck: string, model: string, fields: seq<AnkiField>, lingq: LingQ, fieldsDict: map<string, string>)
    returns (filled: map<string, string>, note: Note)
    requires ValidMapping(Snapshot(fields)) && HintsReadable(lingq, Snapshot(fields))
    requires fieldsDict.Keys <= Names(Snapshot(fields))
    ensures filled.Keys == Names(Snapshot(fields))
    ensures note == Note(deck, model, FieldSet(lingq, Snapshot(fields)), true, [])
  {
    filled := FillFields(lingq, fields, fieldsDict);
    OverwriteForgetsOld(lingq, Snapshot(fields), fieldsDict);
    note := Note(deck, model, filled, true, []);
  }

  /**
   * add_notes: skips known records and, for every other one, overwrites the shared
   * dictionary with each field's value and submits it as a new, duplicate-allowed note.
   */
  method AddNotes(deck: string, model: string, fields: seq<AnkiField>, lingqs: seq<LingQ>) returns (submitted: seq<Note>)
    requires Importable(Snapshot(fields), lingqs)
    ensures submitted == Submissions(deck, model, Snapshot(fields), lingqs)
    ensures |submitted| == |Eligible(lingqs)|
    ensures forall i :: 0 <= i < |submitted| ==>
              submitted[i].fields == FieldSet(Eligible(lingqs)[i], Snapshot(fields)) && submitted[i].allowDuplicate
  {
    ghost var mapping := Snapshot(fields);
    var fieldsDict: map<string, string> := map[];
    submitted := [];
    for n := 0 to |lingqs|
      invariant fieldsDict.Keys <= Names(mapping)
      invariant Importable(mapping, lingqs[..n])
      invariant submitted == Submissions(deck, model, mapping, lingqs[..n])
    {
      var lingq := lingqs[n];
      PrefixGrows(lingqs, n);
      if lingq.status == KNOWN_STATUS {
        continue;
      }
      var note;
      fieldsDict, note := SubmitOne(deck, model, fields, lingq, fieldsDict);
      submitted := submitted + [note];
    }
    assert lingqs[..|lingqs|] == lingqs;
  }
}
