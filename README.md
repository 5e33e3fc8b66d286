# LingQ to Anki: the mapping and import pipeline in Dafny

LingQ-to-Anki copies a learner's saved vocabulary items ("LingQs") from the LingQ service
into Anki notes through the AnkiConnect add-on. The user picks a deck and a note type
("model"). They then pair each field of the note type with at most one LingQ attribute
(`term`, `hints`, `fragment`, `notes`, `tags`). Every LingQ that is not already known
(status 3) then becomes one `addNote` request.

This project models the pipeline between the network calls:

- `joiners.dfy` (module `Joiners`) models the two string joiners. `list_to_string` is
  modelled as a loop proved equal to `Join`, which puts a separator between items and none
  after the last. `list_of_dicts_to_string` is modelled as written: its position counter
  starts at 0 but is compared with the list length, so from two items on it also puts a
  separator after the last item. The comment above the function (main.py:20-22) promises a
  separator between each item and the next; the code adds one after the last item as well.
  The model follows the code and proves exactly where the two joiners differ.
- `selection.dfy` (module `Selection`) models the menu validator `select_item_from_list`.
  The console is a stream of reply lines. A reply is accepted when it is all digits and its
  value is in `1..upper_bound`. Running out of input gives `None`. The module also models
  the index arithmetic of the deck and note-type menus. The deck menu is modelled as
  written: the last deck can never be chosen, and with no decks nothing is accepted.
- `requests.dfy` (module `AnkiRequests`) models `form_request`. The AnkiConnect version
  global, which exists only after the handshake, becomes an `Option<int>`.
- `registry.dfy` (module `Registry`) holds `LINGQ_ATTRIBUTES`.
- `mapping.dfy` (module `FieldMapping`) models `select_fields`. `AnkiField` is a class
  whose attribute is updated in place. `Step` and `Interact` are the pure specification of
  one pass and of the whole dialogue. `SelectFields`, `Pass` and `StoreAttribute` pop the
  lists and write the objects as the source does, and are proved equal to that
  specification. `Consistent` is the loop invariant: the pool is always the catalogue minus
  the stored attributes, in catalogue order, and no attribute sits in two fields.
- `importer.dfy` (module `Importer`) models `add_notes`. `FieldValue` gives the
  per-attribute rules. `Overwrite` writes the fields into the dictionary that is reused
  across records. `Eligible` drops known records and `Submissions` lists the notes sent.
  The imperative `AddNotes` is proved to submit exactly `Submissions`.
- `wrappers.dfy` (module `Wrappers`) holds `Option`.

## Model

| member | source | states |
|---|---|---|
| Registry.CatalogueWellFormed | main.py:244 | the five attributes are pairwise different, none is the empty "keep empty" marker, and `hints`/`tags` sit at indices 1 and 4 as `add_notes` expects |
| Joiners.Join | main.py:32-40 | the clean join `list_to_string` promises: a separator between each item and the next; `JoinThenSeparator` proves it ends without one |
| Joiners.DictsJoinAsWritten | main.py:20-29 | what `list_of_dicts_to_string` returns from the extracted texts: every item terminated by the separator from two items on; `DictsJoinVersusJoin` relates it to `Join` |
| Joiners.JoinThenSeparator | main.py:34-40 | for a non-empty list, the join plus one separator is every item followed by the separator, so the join ends without a separator |
| Joiners.Texts | main.py:25-26 | extracts `item[dict_key]` from every dictionary, one per item and in list order |
| Joiners.DictsJoinVersusJoin | main.py:23-29 | from two items on, `list_of_dicts_to_string` is the clean join plus one trailing separator; for zero or one item the two agree |
| Joiners.ListToString | main.py:34-40 | the loop returns the clean join: "" for [], l[0] for a singleton, and no trailing separator |
| Joiners.ListOfDictsToString | main.py:23-29 | the loop returns the as-written join: "" for [], `l[0][key]` for a singleton, and the clean join plus a trailing separator for two or more items |
| Selection.IsDigits | main.py:47 | `str.isdigit()`: a non-empty reply made only of digits; `DecimalRoundTrip` shows every printed option number passes it |
| Selection.DigitsValue | main.py:47-50 | `int(selection)` for a digit string; `DecimalRoundTrip` shows it inverts `str(n)` |
| Selection.Accepts | main.py:47 | the negated loop condition: all digits and a value in 1..upper_bound; `FirstAccepted` and `OptionSelectable` are stated with it |
| Selection.DecimalRoundTrip | main.py:47-50 | `int` of the printed option number `str(n)` is all digits and reads back as n |
| Selection.FirstAccepted | main.py:45-50 | the selection is the first accepted reply: its value is in 1..upper_bound, every earlier reply was rejected, and None exactly when no remaining reply is acceptable |
| Selection.OptionSelectable | main.py:45-50 | every option 1..upper_bound is accepted when its number is typed |
| Selection.SelectItemFromList | main.py:45-50 | the re-prompting loop returns the first accepted reply and its value lies in 1..upper_bound; None once input is exhausted |
| Selection.SelectDeck | main.py:101-119 | the deck menu's bound `len(decks)` lets option k pick index k-2 only below the last deck, and with no decks no reply is accepted |
| Selection.DeckReachable | main.py:108-117 | every deck except the last can be chosen by typing its menu number |
| Selection.NewDeckReachable | main.py:107-115 | with at least one deck, option 1 "create a new deck" is accepted |
| Selection.LastDeckUnreachable | main.py:108-117 | whatever the replies, the last deck is never selected |
| Selection.SelectModel | main.py:124-137 | the model menu yields an index inside the model list |
| Selection.ModelReachable | main.py:132-137 | every model can be chosen by typing its number |
| AnkiRequests.FormRequest | main.py:55-64 | the request has keys `action` and `params`, plus `version` exactly when the version is known |
| AnkiRequests.FormRequestRoundTrip | main.py:55-64 | reading a formed request back recovers the action, the parameters and whether a version was sent |
| FieldMapping.AnkiField.constructor | main.py:10-17 | a new AnkiField holds the given field name and attribute |
| FieldMapping.Snapshot | main.py:191-193 | the value of the AnkiField list is one (field, attribute) pair per object, in list order |
| FieldMapping.RemoveAt | main.py:214-215 | `list.pop(i)`; its properties are `RemoveAtFacts` and `RemoveAtTakesOne` |
| FieldMapping.RemoveAtTakesOne | main.py:214-215 | `pop(i)` removes exactly one occurrence of the popped value and keeps every other element |
| FieldMapping.SetAttribute | main.py:211-213 | the field list after the inner loop: every field of the given name holds the attribute; `SetOneAttribute` and `StoreAttribute` state its effect |
| FieldMapping.Initial | main.py:191-194 | the state before the first pass: every field empty and on offer, the whole catalogue on offer; `InitialConsistent` proves the loop invariant holds of it |
| FieldMapping.RemoveAtFacts | main.py:214-215 | `pop` shortens a list by one, keeps it free of duplicates and removes the popped value |
| FieldMapping.Step | main.py:198-215 | each pass removes exactly one field from the fields on offer. It changes no field other than the chosen one, and "keep empty" changes neither the fields nor the pool |
| FieldMapping.StepHonoursPicks | main.py:210-215 | every field named after the picked field gets the picked attribute; exactly the picked field leaves the fields on offer and exactly the picked attribute leaves the pool |
| FieldMapping.InteractPass | main.py:199-215 | one pass reads a field reply and then an attribute reply, both within the menus' bounds, and continues from the state one step later |
| FieldMapping.InteractRunsOut | main.py:201-208 | the dialogue fails when either reply of a pass cannot be read |
| FieldMapping.Interact | main.py:198-215 | a completed dialogue leaves no field on offer (the loop stops after one pass per field) and keeps the field names and their order |
| FieldMapping.UnassignedMembers | main.py:194 | an attribute is on offer exactly when it is in the catalogue and stored in no field |
| FieldMapping.UnassignedNothingUsed | main.py:194 | with nothing stored, the pool is the whole catalogue in order |
| FieldMapping.UnassignedIgnores | main.py:210-214 | marking a value outside the catalogue as used leaves the pool unchanged |
| FieldMapping.UnassignedDrop | main.py:210-214 | storing the j-th offered attribute and popping index j of the pool give the same pool |
| FieldMapping.InitialConsistent | main.py:191-194 | before the first pass, with distinct field names, the loop invariant holds |
| FieldMapping.SetOneAttribute | main.py:210-213 | writing an unused attribute into the one empty field of that name adds it to the stored set and keeps attributes unique |
| FieldMapping.StepKeepEmptyConsistent | main.py:203-215 | a "keep this field empty" pass keeps the loop invariant |
| FieldMapping.StepAssignConsistent | main.py:210-215 | a pass that stores an attribute keeps the loop invariant: pool = catalogue minus stored attributes in order, no attribute in two fields |
| FieldMapping.StepConsistent | main.py:198-215 | every pass keeps the loop invariant |
| FieldMapping.InteractConsistent | main.py:198-215 | whatever the replies, a completed dialogue ends in a state satisfying the loop invariant |
| FieldMapping.MappingComplete | main.py:183-216 | a completed mapping has one entry per field in field order, each empty or a catalogue attribute, no attribute twice, and the unchosen attributes left on offer |
| FieldMapping.StoreAttribute | main.py:211-213 | the inner loop writes the chosen attribute into every AnkiField of that name and leaves every other object as it was |
| FieldMapping.NewAnkiFields | main.py:191-193 | creates one fresh, distinct, empty AnkiField per field name, in order |
| FieldMapping.Pass | main.py:199-215 | one in-place pass leaves the objects and the two lists in exactly the state `Step` gives for the two menu numbers read, and the dialogue goes on from there; or it reports that input ran out |
| FieldMapping.SelectFields | main.py:183-216 | returns one AnkiField per field in order. It completes exactly when the replies suffice, then after exactly one pass per field, and matches the specified dialogue. With distinct names no attribute is stored twice and each is empty or from the catalogue |
| Importer.RawValue | main.py:233-234 | `lingq[attribute]` for `term`, `fragment` and `notes`; `FieldValue` states its result per attribute |
| Importer.FieldValue | main.py:226-234 | an unmapped field gets "". Hints get the newline join plus a trailing newline from two hints on, tags get the ", " join, and `term`, `fragment` and `notes` their own raw values |
| Importer.Overwrite | main.py:226-234 | after the field loop the dictionary holds its old keys plus every mapped field name |
| Importer.OverwriteStep | main.py:226-234 | one more pass of the field loop extends the dictionary with exactly that field's value |
| Importer.FieldSet | main.py:221-234 | the dictionary submitted for one record; `FieldSetValue` and `OverwriteForgetsOld` state its contents |
| Importer.OverwriteAt | main.py:221-234 | a mapped field's value does not depend on what the reused dictionary held before |
| Importer.OverwriteForgetsOld | main.py:221-234 | reusing `fields_dict` across records submits the same dictionary as starting empty |
| Importer.FieldSetValue | main.py:226-234 | with distinct field names, each field is submitted with the value of its own attribute |
| Importer.UnmappedFieldIsEmpty | main.py:231-232 | a field kept empty is submitted as "" |
| Importer.Eligible | main.py:222-225 | a record is imported exactly when it is in the input and its status is not 3 |
| Importer.EligibleConcat | main.py:222-225 | each record is kept or skipped on its own and in place: filtering a concatenation is concatenating the filtered parts |
| Importer.EligibleSingleton | main.py:222-225 | a single record is imported exactly when its status is not 3 |
| Importer.Submissions | main.py:222-239 | one note per non-known record, in input order, with that record's field set, duplicates allowed and no tags |
| Importer.KnownRecordsSubmitNothing | main.py:224-225 | appending a known record changes nothing that is submitted |
| Importer.NewRecordSubmitsOne | main.py:222-239 | appending a record that is not known adds exactly its own note, with its field set, after the earlier notes |
| Importer.TermScenario | main.py:226-234 | field1 mapped to term and field2 kept empty give {field1: "hund", field2: ""} |
| Importer.JoinScenarios | main.py:23-40 | three hints a, b, c give "a\nb\nc\n" (trailing newline); one hint gives "a"; none gives ""; tags x, y give "x, y" |
| Importer.KnownScenario | main.py:222-225 | of three records with the middle one known, the first and third are imported in order |
| Importer.ComputeFieldValue | main.py:227-234 | the branch on the field's attribute computes the value `FieldValue` specifies |
| Importer.FillFields | main.py:226-234 | the field loop writes every field's value into the dictionary in field order |
| Importer.SubmitOne | main.py:226-239 | for a record that is not known, the refilled dictionary has exactly the mapped field names as keys and the addNote request carries exactly that record's field set |
| Importer.AddNotes | main.py:219-241 | submits exactly one duplicate-allowed note per non-known LingQ, in order, with the field set built from the mapping |

## Left out

- `send_request`, `retrieve_lingqs` and the version handshake at main.py:253 are network I/O: HTTP, token authentication, `ast.literal_eval`, `json.loads`/`json.dumps` and `exit(1)`.
- AddNotes: an AnkiConnect error on `addNote` ends the program after the notes already sent. The model has no failure path here; every submission succeeds.
- The top-level script (main.py:245-259), the login retry loop and `create_deck`'s name prompt are interactive I/O. Replies are an input sequence and `print` output is dropped.
- The progress line at main.py:240 is dropped. It raises `KeyError` when the first field is unmapped, and `IndexError` when the note type has no fields, right after the first note is submitted. The final line at main.py:241 counts all records, known ones included.
- Selection.IsDigits: only ASCII digits count. Python's `str.isdigit` also accepts other Unicode digits such as "²", on which `int` raises `ValueError`.
- Selection.SelectDeck and Selection.SelectModel model only the menu index arithmetic. The deck name typed for a new deck is not modelled.
- Importer.LingQ: records are typed, with `term`, `fragment` and `notes` as strings. Every record has `status`, `term`, `hints`, `fragment`, `notes` and `tags`, so the `KeyError` the source raises on a record missing one of them cannot occur here. A hint without a `text` key, which also raises `KeyError`, is excluded by a precondition (`HintsReadable`, `AllHaveKey`).
- AddNotes takes the note type as a parameter; the source reads the global `model` at main.py:236.
- The `addNote` request is recorded as a `Note` value. Its JSON envelope (`form_request`) is modelled separately.
- FieldMapping.MappingComplete and FieldMapping.SelectFields state attribute uniqueness only for distinct field names. With two equally named fields, the source writes one attribute into both; Anki does not allow such note types.
- FieldMapping.AnkiField: `mField` is a `const` because nothing reassigns it after construction.
