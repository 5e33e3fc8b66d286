/**
 * select_fields: builds one AnkiField per field of the chosen note type and lets the user
 * pair fields with LingQ attributes. Each pass removes one field from `fieldsAvailable`;
 * choosing an attribute writes it into the matching AnkiField and removes it from the pool
 * of attributes still on offer. The pure side (MappingState, Step, Interact) is the
 * specification the imperative SelectFields is proved against.
 */
module FieldMapping {
  import opened Wrappers
  import opened Registry
  import opened Selection

  /** A field of the note type and the LingQ attribute the user stored in it ("" = none). */
  class AnkiField {
    const field: string
    var attribute: string

    constructor (field: string, attribute: string)
      ensures this.field == field && this.attribute == attribute
    {
      this.field := field;
      this.attribute := attribute;
    }
  }

  /** The value of one AnkiField at a given moment. */
  datatype Assignment = Assignment(field: string, attribute: string)

  function Snapshot(fields: seq<AnkiField>): (r: seq<Assignment>)
    reads fields
    ensures |r| == |fields|
    ensures forall i :: 0 <= i < |fields| ==> r[i] == Assignment(fields[i].field, fields[i].attribute)
  {
    seq(|fields|, i reads fields requires 0 <= i < |fields| => Assignment(fields[i].field, fields[i].attribute))
  }

  /** `list.pop(i)`: the list without its element at index `i`. */
  function RemoveAt<T>(s: seq<T>, i: nat): (r: seq<T>)
    requires i < |s|
  {
    s[..i] + s[i + 1..]
  }

  lemma RemoveAtFacts<T>(s: seq<T>, i: nat)
    requires i < |s|
    ensures |RemoveAt(s, i)| == |s| - 1
    ensures forall x :: x in RemoveAt(s, i) ==> x in s
    ensures Distinct(s) ==> Distinct(RemoveAt(s, i)) && s[i] !in RemoveAt(s, i)
  {
    var r := RemoveAt(s, i);
    assert forall k :: 0 <= k < |r| ==> r[k] == if k < i then s[k] else s[k + 1];
    forall x | x in r ensures x in s {
      var k :| 0 <= k < |r| && r[k] == x;
    }
  }

  /** `pop(i)` removes exactly one occurrence of the popped value and nothing else. */
  lemma RemoveAtTakesOne<T>(s: seq<T>, i: nat)
    requires i < |s|
    ensures multiset(RemoveAt(s, i)) + multiset{s[i]} == multiset(s)
  {
    assert s == s[..i] + [s[i]] + s[i + 1..];
  }

  /** Every AnkiField named `name` now holds `attribute`; the others are untouched. */
  function SetAttribute(fields: seq<Assignment>, name: string, attribute: string): seq<Assignment>
  {
    seq(|fields|, i requires 0 <= i < |fields| =>
      if fields[i].field == name then fields[i].(attribute := attribute) else fields[i])
  }

  /** The loop state of select_fields. */
  datatype MappingState = MappingState(fields: seq<Assignment>, fieldsAvailable: seq<string>, attributesAvailable: seq<string>)

  /** Before the first pass: every field empty and on offer, every attribute on offer. */
  function Initial(fieldNames: seq<string>): MappingState
  {
    MappingState(seq(|fieldNames|, i requires 0 <= i < |fieldNames| => Assignment(fieldNames[i], "")),
                 fieldNames, LINGQ_ATTRIBUTES)
  }

  /** The two menu numbers of one pass are in range (1-based; attribute 1 = keep empty). */
  predicate CanStep(s: MappingState, fieldPick: int, attributePick: int)
  {
    1 <= fieldPick <= |s.fieldsAvailable| && 1 <= attributePick <= |s.attributesAvailable| + 1
  }

  /**
   * One pass of the while loop: the chosen field leaves `fieldsAvailable`; unless the user
   * kept it empty, the chosen attribute is written into the field and leaves the pool.
   */
  function Step(s: MappingState, fieldPick: int, attributePick: int): (r: MappingState)
    requires CanStep(s, fieldPick, attributePick)
    ensures |r.fieldsAvailable| == |s.fieldsAvailable| - 1
    ensures |r.fields| == |s.fields|
    ensures forall i :: 0 <= i < |s.fields| ==> r.fields[i].field == s.fields[i].field
    ensures forall i :: 0 <= i < |s.fields| && s.fields[i].field != s.fieldsAvailable[fieldPick - 1] ==>
              r.fields[i] == s.fields[i]
    ensures attributePick == 1 ==> r.fields == s.fields && r.attributesAvailable == s.attributesAvailable
    ensures attributePick > 1 ==> |r.attributesAvailable| == |s.attributesAvailable| - 1
  {
    var name := s.fieldsAvailable[fieldPick - 1];
    if attributePick == 1 then
      s.(fieldsAvailable := RemoveAt(s.fieldsAvailable, fieldPick - 1))
    else
      MappingState(SetAttribute(s.fields, name, s.attributesAvailable[attributePick - 2]),
                   RemoveAt(s.fieldsAvailable, fieldPick - 1),
                   RemoveAt(s.attributesAvailable, attributePick - 2))
  }

  /**
   * A pass does what the user picked: every AnkiField named after the picked field gets the
   * picked attribute, the picked field leaves the fields on offer and the picked attribute
   * leaves the pool -- exactly one occurrence of each, and nothing else.
   */
  lemma StepHonoursPicks(s: MappingState, fieldPick: int, attributePick: int)
    requires CanStep(s, fieldPick, attributePick)
    ensures var r := Step(s, fieldPick, attributePick);
      && multiset(r.fieldsAvailable) + multiset{s.fieldsAvailable[fieldPick - 1]} == multiset(s.fieldsAvailable)
      && (Distinct(s.fieldsAvailable) ==> s.fieldsAvailable[fieldPick - 1] !in r.fieldsAvailable)
    ensures attributePick > 1 ==>
      var r := Step(s, fieldPick, attributePick);
      && (forall i :: 0 <= i < |s.fields| && s.fields[i].field == s.fieldsAvailable[fieldPick - 1] ==>
            r.fields[i].attribute == s.attributesAvailable[attributePick - 2])
      && multiset(r.attributesAvailable) + multiset{s.attributesAvailable[attributePick - 2]}
         == multiset(s.attributesAvailable)
      && (Distinct(s.attributesAvailable) ==> s.attributesAvailable[attributePick - 2] !in r.attributesAvailable)
  {
    RemoveAtTakesOne(s.fieldsAvailable, fieldPick - 1);
    RemoveAtFacts(s.fieldsAvailable, fieldPick - 1);
    if attributePick > 1 {
      RemoveAtTakesOne(s.attributesAvailable, attributePick - 2);
      RemoveAtFacts(s.attributesAvailable, attributePick - 2);
    }
  }

  /**
   * The whole dialogue: per pass one field reply then one attribute reply, each read with
   * the validator; None when the replies run out before every field is dealt with.
   */
  function Interact(s: MappingState, replies: seq<string>, from: nat): (r: Option<MappingState>)
    requires from <= |replies|
    ensures r.Some? ==> r.value.fieldsAvailable == []
    ensures r.Some? ==> |r.value.fields| == |s.fields|
    ensures r.Some? ==> forall i :: 0 <= i < |s.fields| ==> r.value.fields[i].field == s.fields[i].field
    decreases |s.fieldsAvailable|
  {
    if |s.fieldsAvailable| == 0 then Some(s)
    else
      match FirstAccepted(replies, from, |s.fieldsAvailable|)
      case None => None
      case Some(f) =>
        match FirstAccepted(replies, f.next, |s.attributesAvailable| + 1)
        case None => None
        case Some(a) => Interact(Step(s, f.value, a.value), replies, a.next)
  }

  /** One pass of the dialogue, unfolded. */
  lemma InteractPass(s: MappingState, replies: seq<string>, from: nat, f: Reading, a: Reading)
    requires from <= |replies| && |s.fieldsAvailable| > 0
    requires FirstAccepted(replies, from, |s.fieldsAvailable|) == Some(f)
    requires FirstAccepted(replies, f.next, |s.attributesAvailable| + 1) == Some(a)
    ensures CanStep(s, f.value, a.value) && a.next <= |replies|
    ensures Interact(s, replies, from) == Interact(Step(s, f.value, a.value), replies, a.next)
  {
  }

  /** The dialogue fails as soon as a reply cannot be read. */
  lemma InteractRunsOut(s: MappingState, replies: seq<string>, from: nat)
    requires from <= |replies| && |s.fieldsAvailable| > 0
    requires || FirstAccepted(replies, from, |s.fieldsAvailable|).None?
             || FirstAccepted(replies, FirstAccepted(replies, from, |s.fieldsAvailable|).value.next,
                              |s.attributesAvailable| + 1).None?
    ensures Interact(s, replies, from).None?
  {
  }

  /** The attributes currently stored in some field. */
  function Assigned(fields: seq<Assignment>): set<string>
  {
    set i | 0 <= i < |fields| && fields[i].attribute != "" :: fields[i].attribute
  }

  /** `attributes` without those in `used`, in their original order. */
  function Unassigned(attributes: seq<string>, used: set<string>): seq<string>
    decreases |attributes|
  {
    if |attributes| == 0 then []
    else (if attributes[0] in used then [] else [attributes[0]]) + Unassigned(attributes[1..], used)
  }

  /** No attribute is stored in two fields. */
  predicate AttributesUnique(fields: seq<Assignment>)
  {
    forall i, j :: 0 <= i < j < |fields| && fields[i].attribute != "" ==> fields[i].attribute != fields[j].attribute
  }

  /** What holds of every state the loop reaches from `fieldNames` (names distinct). */
  predicate Consistent(fieldNames: seq<string>, s: MappingState)
  {
    && |s.fields| == |fieldNames|
    && (forall i :: 0 <= i < |fieldNames| ==> s.fields[i].field == fieldNames[i])
    && Distinct(s.fieldsAvailable)
    && (forall x :: x in s.fieldsAvailable ==> x in fieldNames)
    && (forall i :: 0 <= i < |s.fields| && s.fields[i].field in s.fieldsAvailable ==> s.fields[i].attribute == "")
    && (forall i :: 0 <= i < |s.fields| ==> IsAttributeOrEmpty(s.fields[i].attribute))
    && AttributesUnique(s.fields)
    && s.attributesAvailable == Unassigned(LINGQ_ATTRIBUTES, Assigned(s.fields))
  }

  lemma {:induction false} UnassignedMembers(attributes: seq<string>, used: set<string>)
    ensures forall x :: x in Unassigned(attributes, used) <==> x in attributes && x !in used
    decreases |attributes|
  {
    if |attributes| > 0 {
      UnassignedMembers(attributes[1..], used);
      assert attributes == [attributes[0]] + attributes[1..];
    }
  }

  lemma {:induction false} UnassignedNothingUsed(attributes: seq<string>)
    ensures Unassigned(attributes, {}) == attributes
    decreases |attributes|
  {
    if |attributes| > 0 {
      UnassignedNothingUsed(attributes[1..]);
      assert attributes == [attributes[0]] + attributes[1..];
    }
  }

  /** Marking an attribute that is not in the list as used changes nothing. */
  lemma {:induction false} UnassignedIgnores(attributes: seq<string>, used: set<string>, a: string)
    requires a !in attributes
    ensures Unassigned(attributes, used + {a}) == Unassigned(attributes, used)
    decreases |attributes|
  {
    if |attributes| > 0 {
      UnassignedIgnores(attributes[1..], used, a);
    }
  }

  /** Using the j-th offered attribute is the same as popping it from the offer. */
  lemma {:induction false} UnassignedDrop(attributes: seq<string>, used: set<string>, j: nat)
    requires Distinct(attributes)
    requires j < |Unassigned(attributes, used)|
    ensures Unassigned(attributes, used + {Unassigned(attributes, used)[j]}) == RemoveAt(Unassigned(attributes, used), j)
    decreases |attributes|
  {
    var p := Unassigned(attributes, used);
    var a := p[j];
    var x, rest := attributes[0], attributes[1..];
    assert Distinct(rest);
    assert x !in rest;
    var p' := Unassigned(rest, used);
    if x in used {
      assert p == p';
      UnassignedMembers(attributes, used);
      assert a != x;
      UnassignedDrop(rest, used, j);
    } else {
      assert p == [x] + p';
      if j == 0 {
        UnassignedIgnores(rest, used, x);
        assert RemoveAt(p, 0) == p';
      } else {
        UnassignedMembers(rest, used);
        assert a == p'[j - 1] && a in p';
        assert a != x;
        UnassignedDrop(rest, used, j - 1);
        RemoveAtBehindHead(x, p', j);
      }
    }
  }

  /** Popping behind the head of a list keeps the head in front. */
  lemma RemoveAtBehindHead<T>(x: T, rest: seq<T>, j: nat)
    requires 0 < j <= |rest|
    ensures RemoveAt([x] + rest, j) == [x] + RemoveAt(rest, j - 1)
  {
  }

  lemma InitialConsistent(fieldNames: seq<string>)
    requires Distinct(fieldNames)
    ensures Consistent(fieldNames, Initial(fieldNames))
  {
    var s := Initial(fieldNames);
    assert Assigned(s.fields) == {};
    UnassignedNothingUsed(LINGQ_ATTRIBUTES);
  }

  /** Storing a fresh attribute in the one empty field named `name` adds it to the stored set. */
  lemma SetOneAttribute(fields: seq<Assignment>, name: string, k: nat, a: string)
    requires k < |fields| && fields[k].field == name && fields[k].attribute == ""
    requires forall i :: 0 <= i < |fields| && i != k ==> fields[i].field != name
    requires a != "" && a !in Assigned(fields)
    requires AttributesUnique(fields)
    ensures Assigned(SetAttribute(fields, name, a)) == Assigned(fields) + {a}
    ensures AttributesUnique(SetAttribute(fields, name, a))
  {
    var r := SetAttribute(fields, name, a);
    assert r[k].attribute == a;
    assert forall i :: 0 <= i < |fields| && i != k ==> r[i] == fields[i];
    forall x | x in Assigned(r) ensures x in Assigned(fields) + {a} {
      var i :| 0 <= i < |r| && r[i].attribute != "" && r[i].attribute == x;
      if i != k {
        assert fields[i].attribute == x;
      }
    }
    forall x | x in Assigned(fields) + {a} ensures x in Assigned(r) {
      if x != a {
        var i :| 0 <= i < |fields| && fields[i].attribute != "" && fields[i].attribute == x;
        assert r[i].attribute == x;
      }
    }
    forall i, j | 0 <= i < j < |r| && r[i].attribute != "" ensures r[i].attribute != r[j].attribute {
      if i == k {
        assert fields[j].attribute == "" || fields[j].attribute in Assigned(fields);
      } else if j == k {
        assert fields[i].attribute in Assigned(fields);
      }
    }
  }

  /** A pass that keeps the field empty keeps every state invariant. */
  lemma StepKeepEmptyConsistent(fieldNames: seq<string>, s: MappingState, fieldPick: int)
    requires Consistent(fieldNames, s)
    requires CanStep(s, fieldPick, 1)
    ensures Consistent(fieldNames, Step(s, fieldPick, 1))
  {
    RemoveAtFacts(s.fieldsAvailable, fieldPick - 1);
  }

  /** A pass that stores an attribute keeps every state invariant. */
  lemma StepAssignConsistent(fieldNames: seq<string>, s: MappingState, fieldPick: int, attributePick: int)
    requires Distinct(fieldNames)
    requires Consistent(fieldNames, s)
    requires CanStep(s, fieldPick, attributePick) && attributePick > 1
    ensures Consistent(fieldNames, Step(s, fieldPick, attributePick))
  {
    var r := Step(s, fieldPick, attributePick);
    var name := s.fieldsAvailable[fieldPick - 1];
    var a := s.attributesAvailable[attributePick - 2];
    RemoveAtFacts(s.fieldsAvailable, fieldPick - 1);
    assert name in fieldNames;
    var k :| 0 <= k < |fieldNames| && fieldNames[k] == name;
    CatalogueWellFormed();
    UnassignedMembers(LINGQ_ATTRIBUTES, Assigned(s.fields));
    assert s.fields[k].attribute == "";
    assert forall i :: 0 <= i < |s.fields| && i != k ==> s.fields[i].field != name;
    SetOneAttribute(s.fields, name, k, a);
    UnassignedDrop(LINGQ_ATTRIBUTES, Assigned(s.fields), attributePick - 2);
    assert r.fields == SetAttribute(s.fields, name, a);
    assert r.attributesAvailable == Unassigned(LINGQ_ATTRIBUTES, Assigned(r.fields));
    assert a in s.attributesAvailable;
    assert IsAttributeOrEmpty(a);
    forall i | 0 <= i < |r.fields| ensures IsAttributeOrEmpty(r.fields[i].attribute) {
      if i != k {
        assert r.fields[i] == s.fields[i];
      }
    }
    assert forall i :: 0 <= i < |r.fields| && r.fields[i].field in r.fieldsAvailable ==> r.fields[i].attribute == "";
  }

  /** One pass keeps every state invariant: the pool is exactly the unused attributes, in order. */
  lemma StepConsistent(fieldNames: seq<string>, s: MappingState, fieldPick: int, attributePick: int)
    requires Distinct(fieldNames)
    requires Consistent(fieldNames, s)
    requires CanStep(s, fieldPick, attributePick)
    ensures Consistent(fieldNames, Step(s, fieldPick, attributePick))
  {
    if attributePick == 1 {
      StepKeepEmptyConsistent(fieldNames, s, fieldPick);
    } else {
      StepAssignConsistent(fieldNames, s, fieldPick, attributePick);
    }
  }

  /** Every state the dialogue ends in is consistent, with no field left on offer. */
  lemma {:induction false} InteractConsistent(fieldNames: seq<string>, s: MappingState, replies: seq<string>, from: nat)
    requires Distinct(fieldNames)
    requires Consistent(fieldNames, s)
    requires from <= |replies|
    ensures Interact(s, replies, from).Some? ==> Consistent(fieldNames, Interact(s, replies, from).value)
    decreases |s.fieldsAvailable|
  {
    if |s.fieldsAvailable| > 0 {
      match FirstAccepted(replies, from, |s.fieldsAvailable|)
      case None =>
      case Some(f) =>
        match FirstAccepted(replies, f.next, |s.attributesAvailable| + 1)
        case None =>
        case Some(a) =>
          StepConsistent(fieldNames, s, f.value, a.value);
          InteractConsistent(fieldNames, Step(s, f.value, a.value), replies, a.next);
    }
  }

  /**
   * What a completed select_fields returns: one field per note-type field, in order, each
   * empty or holding a catalogue attribute, no attribute in two fields, and the attributes
   * never chosen are exactly those left on offer.
   */
  lemma MappingComplete(fieldNames: seq<string>, replies: seq<string>)
    requires Distinct(fieldNames)
    requires Interact(Initial(fieldNames), replies, 0).Some?
    ensures var m := Interact(Initial(fieldNames), replies, 0).value;
      && |m.fields| == |fieldNames|
      && (forall i :: 0 <= i < |fieldNames| ==> m.fields[i].field == fieldNames[i])
      && (forall i :: 0 <= i < |m.fields| ==> IsAttributeOrEmpty(m.fields[i].attribute))
      && AttributesUnique(m.fields)
      && m.attributesAvailable == Unassigned(LINGQ_ATTRIBUTES, Assigned(m.fields))
  {
    InitialConsistent(fieldNames);
    InteractConsistent(fieldNames, Initial(fieldNames), replies, 0);
  }

  /** The inner loop of select_fields: every AnkiField named `name` now stores `attribute`. */
  method StoreAttribute(fields: seq<AnkiField>, name: string, attribute: string)
    requires forall j, k :: 0 <= j < k < |fields| ==> fields[j] != fields[k]
    modifies fields
    ensures Snapshot(fields) == SetAttribute(old(Snapshot(fields)), name, attribute)
  {
    ghost var before := Snapshot(fields);
    for num := 0 to |fields|
      invariant forall j :: 0 <= j < |fields| ==>
                  fields[j].attribute == if j < num && fields[j].field == name then attribute else before[j].attribute
    {
      if fields[num].field == name {
        fields[num].attribute := attribute;
      }
    }
  }

  /** The first loop of select_fields: one fresh, empty AnkiField per field name, in order. */
  method NewAnkiFields(fieldNames: seq<string>) returns (fields: seq<AnkiField>)
    ensures |fields| == |fieldNames|
    ensures forall j :: 0 <= j < |fields| ==> fresh(fields[j])
    ensures forall j, k :: 0 <= j < k < |fields| ==> fields[j] != fields[k]
    ensures Snapshot(fields) == Initial(fieldNames).fields
  {
    fields := [];
    for i := 0 to |fieldNames|
      invariant |fields| == i
      invariant forall j :: 0 <= j < i ==> fields[j].field == fieldNames[j] && fields[j].attribute == ""
      invariant forall j, k :: 0 <= j < k < i ==> fields[j] != fields[k]
      invariant forall j :: 0 <= j < i ==> fresh(fields[j])
    {
      var f := new AnkiField(fieldNames[i], "");
      fields := fields + [f];
    }
  }

  /**
   * One pass of select_fields' while loop: read a field number and an attribute number,
   * store the attribute (unless "keep this field empty" was chosen) and pop what was used.
   * `ok` is false when the replies run out during the pass.
   */
  method Pass(fields: seq<AnkiField>, fieldsAvailable: seq<string>, attributesAvailable: seq<string>,
              replies: seq<string>, cursor: nat)
    returns (fieldsLeft: seq<string>, attributesLeft: seq<string>, next: nat, ok: bool,
             ghost fieldPick: int, ghost attributePick: int)
    requires |fieldsAvailable| > 0 && cursor <= |replies|
    requires forall j, k :: 0 <= j < k < |fields| ==> fields[j] != fields[k]
    modifies fields
    ensures next <= |replies|
    ensures ok ==> |fieldsLeft| == |fieldsAvailable| - 1
    ensures ok ==> CanStep(MappingState(old(Snapshot(fields)), fieldsAvailable, attributesAvailable), fieldPick, attributePick)
                   && MappingState(Snapshot(fields), fieldsLeft, attributesLeft)
                      == Step(MappingState(old(Snapshot(fields)), fieldsAvailable, attributesAvailable), fieldPick, attributePick)
    ensures ok ==> Interact(MappingState(old(Snapshot(fields)), fieldsAvailable, attributesAvailable), replies, cursor)
                   == Interact(MappingState(Snapshot(fields), fieldsLeft, attributesLeft), replies, next)
    ensures !ok ==> Interact(MappingState(old(Snapshot(fields)), fieldsAvailable, attributesAvailable), replies, cursor).None?
  {
    ghost var before := MappingState(Snapshot(fields), fieldsAvailable, attributesAvailable);
    fieldsLeft, attributesLeft := fieldsAvailable, attributesAvailable;
    var field, afterField := SelectItemFromList(|fieldsAvailable|, replies, cursor);
    if field.None? {
      InteractRunsOut(before, replies, cursor);
      return fieldsLeft, attributesLeft, afterField, false, 0, 0;
    }
    var attribute, afterAttribute := SelectItemFromList(|attributesAvailable| + 1, replies, afterField);
    if attribute.None? {
      InteractRunsOut(before, replies, cursor);
      return fieldsLeft, attributesLeft, afterAttribute, false, 0, 0;
    }
    ghost var after := Step(before, field.value, attribute.value);
    if attribute.value != 1 {
      var name := fieldsAvailable[field.value - 1];
      var chosen := attributesAvailable[attribute.value - 2];
      assert after.fields == SetAttribute(before.fields, name, chosen);
      StoreAttribute(fields, name, chosen);
      attributesLeft := RemoveAt(attributesAvailable, attribute.value - 2);
    }
    fieldsLeft := RemoveAt(fieldsAvailable, field.value - 1);
    InteractPass(before, replies, cursor, Reading(field.value, afterField), Reading(attribute.value, afterAttribute));
    assert MappingState(Snapshot(fields), fieldsLeft, attributesLeft) == after;
    next, ok, fieldPick, attributePick := afterAttribute, true, field.value, attribute.value;
  }

  /**
   * select_fields: creates the AnkiField objects, then passes over `fieldsAvailable` until it
   * is empty, popping the chosen field and, when an attribute is chosen, writing it into
   * every AnkiField of that name and popping it from `attributesAvailable`. `complete` is
   * false when the replies run out first (end of input).
   */
  method SelectFields(fieldNames: seq<string>, replies: seq<string>)
    returns (fields: seq<AnkiField>, complete: bool, ghost passes: nat)
    ensures |fields| == |fieldNames|
    ensures forall i :: 0 <= i < |fieldNames| ==> fields[i].field == fieldNames[i]
    ensures forall i, j :: 0 <= i < j < |fields| ==> fields[i] != fields[j]
    ensures complete == Interact(Initial(fieldNames), replies, 0).Some?
    ensures complete ==> Snapshot(fields) == Interact(Initial(fieldNames), replies, 0).value.fields
    ensures complete ==> passes == |fieldNames|
    ensures complete && Distinct(fieldNames) ==>
              AttributesUnique(Snapshot(fields))
              && forall i :: 0 <= i < |fields| ==> IsAttributeOrEmpty(fields[i].attribute)
  {
    var fieldsAvailable := fieldNames;
    fields := NewAnkiFields(fieldNames);
    var attributesAvailable := LINGQ_ATTRIBUTES;
    var cursor: nat := 0;
    passes := 0;
    complete := true;
    while |fieldsAvailable| > 0
      invariant cursor <= |replies|
      invariant forall j, k :: 0 <= j < k < |fields| ==> fields[j] != fields[k]
      invariant forall j :: 0 <= j < |fields| ==> fresh(fields[j])
      invariant passes + |fieldsAvailable| == |fieldNames|
      invariant Interact(Initial(fieldNames), replies, 0)
                == Interact(MappingState(Snapshot(fields), fieldsAvailable, attributesAvailable), replies, cursor)
      decreases |fieldsAvailable|
    {
      var ok;
      ghost var fieldPick, attributePick;
      fieldsAvailable, attributesAvailable, cursor, ok, fieldPick, attributePick :=
        Pass(fields, fieldsAvailable, attributesAvailable, replies, cursor);
      if !ok {
        return fields, false, passes;
      }
      passes := passes + 1;
    }
    if Distinct(fieldNames) {
      MappingComplete(fieldNames, replies);
    }
  }
}
