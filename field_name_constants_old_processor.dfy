/**
 * The class-level processor for the legacy (prefix/suffix) variant of the
 * field-name-constants annotation: it checks that the annotation applies,
 * validates the annotated class, picks the fields that get a constant,
 * generates one constant per accepted field, and tells the IDE which fields
 * this generation counts as used.
 */
module FieldNameConstantsOld {
  import opened Wrappers
  import opened Problems
  import opened Subsequences
  import opened Psi

  /** Names starting with this marker belong to fields synthesised by tools. */
  const InternFieldMarker: string := "$"

  /** Message key of the error reported for an interface or annotation type. */
  const WrongTypeMessage: string := "inspection.message.field.name.constants.only.supported.on.class.enum.or.field.type"

  /** Whether a field counts as used by this processor. */
  datatype ElementUsage = NoUsage | Usage

  // ---------------------------------------------------------------- variant

  /**
   * The legacy variant applies when the annotation has a `prefix` attribute at
   * all; only presence matters, so an empty prefix still selects it.
   */
  function SupportAnnotationVariant(annotation: Annotation): (supported: bool)
    ensures supported <==> annotation.prefix.Some?
  {
    annotation.prefix != None
  }

  // ------------------------------------------------------------- validation

  /** Classes and enums can host the generated constants; interfaces and annotation types cannot. */
  predicate RightType(kind: ClassKind)
  {
    kind != AnnotationType && kind != Interface
  }

  method ValidateAnnotationOnRightType(psiClass: PsiClass, builder: ProblemBuilder) returns (result: bool)
    modifies builder
    ensures result <==> RightType(psiClass.kind)
    ensures builder.problems == old(builder.problems) + (if result then [] else [Problem(Error, WrongTypeMessage)])
  {
    result := true;
    if psiClass.kind == AnnotationType || psiClass.kind == Interface {
      builder.AddError(WrongTypeMessage);
      result := false;
    }
  }

  /** The warnings the name check reports for `fields`, field by field in order. */
  function NameWarnings<E>(fieldProcessor: FieldProcessor<E>, annotation: Annotation, fields: seq<Field>): seq<Problem>
  {
    if fields == [] then []
    else
      NameWarnings(fieldProcessor, annotation, fields[..|fields| - 1])
      + fieldProcessor.nameCheck(annotation, fields[|fields| - 1]).warnings
  }

  lemma NameWarningsAppend<E>(fieldProcessor: FieldProcessor<E>, annotation: Annotation, fields: seq<Field>, field: Field)
    ensures NameWarnings(fieldProcessor, annotation, fields + [field])
         == NameWarnings(fieldProcessor, annotation, fields) + fieldProcessor.nameCheck(annotation, field).warnings
  {
    assert (fields + [field])[..|fields|] == fields;
  }

  /**
   * Everything `Validate` reports: the shape error if the class has the
   * wrong kind, and the name-check warnings of the filtered fields only
   * when both the shape and the access level pass.
   */
  function ValidationProblems<E>(fieldProcessor: FieldProcessor<E>, annotation: Annotation, psiClass: PsiClass): seq<Problem>
  {
    (if RightType(psiClass.kind) then [] else [Problem(Error, WrongTypeMessage)])
    + (if RightType(psiClass.kind) && annotation.levelVisible
       then NameWarnings(fieldProcessor, annotation, Filtered(psiClass))
       else [])
  }

  method Validate<E>(annotation: Annotation, psiClass: PsiClass, fieldProcessor: FieldProcessor<E>, builder: ProblemBuilder)
    returns (result: bool)
    modifies builder
    ensures result <==> RightType(psiClass.kind) && annotation.levelVisible
    ensures builder.problems == old(builder.problems) + ValidationProblems(fieldProcessor, annotation, psiClass)
  {
    var onRightType := ValidateAnnotationOnRightType(psiClass, builder);
    result := onRightType && annotation.levelVisible;
    if result {
      var psiFields := FilterFields(psiClass);
      ghost var before := builder.problems;
      assert before == old(builder.problems);
      for i := 0 to |psiFields|
        invariant builder.problems == before + NameWarnings(fieldProcessor, annotation, psiFields[..i])
      {
        var _ := fieldProcessor.CheckIfFieldNameIsValidAndWarn(annotation, psiFields[i], builder);
        assert psiFields[..i + 1] == psiFields[..i] + [psiFields[i]];
        NameWarningsAppend(fieldProcessor, annotation, psiFields[..i], psiFields[i]);
      }
      assert psiFields[..|psiFields|] == psiFields;
      assert ValidationProblems(fieldProcessor, annotation, psiClass) == [] + NameWarnings(fieldProcessor, annotation, psiFields);
    } else {
      assert ValidationProblems(fieldProcessor, annotation, psiClass)
          == (if onRightType then [] else [Problem(Error, WrongTypeMessage)]) + [];
    }
  }

  /**
   * A class of the wrong kind gets exactly one problem, the shape error,
   * whatever its fields, its annotation and the name check say.
   */
  lemma WrongTypeReportsOnlyShapeError<E>(fieldProcessor: FieldProcessor<E>, annotation: Annotation, psiClass: PsiClass)
    requires psiClass.kind in {Interface, AnnotationType}
    ensures ValidationProblems(fieldProcessor, annotation, psiClass) == [Problem(Error, WrongTypeMessage)]
  {
  }

  /** A class of the right kind never gets an error from this processor itself; an invisible level reports nothing. */
  lemma RightTypeReportsOnlyNameWarnings<E>(fieldProcessor: FieldProcessor<E>, annotation: Annotation, psiClass: PsiClass)
    requires RightType(psiClass.kind)
    ensures ValidationProblems(fieldProcessor, annotation, psiClass)
         == (if annotation.levelVisible then NameWarnings(fieldProcessor, annotation, Filtered(psiClass)) else [])
  {
  }

  // -------------------------------------------------------------- filtering

  /**
   * Whether a field gets a constant. A field without a modifier list is
   * always kept; otherwise it must be non-static, not carry the field-level
   * annotation itself, and have a name not starting with `$`.
   */
  predicate UseField(field: Field)
  {
    match field.modifierList
    case None => true
    case Some(modifierList) =>
      !modifierList.isStatic
      && !field.annotatedWithFieldNameConstants
      && !(InternFieldMarker <= field.name)
  }

  /** The fields of `psiClass` that get a constant, in declaration order. */
  function Filtered(psiClass: PsiClass): seq<Field>
  {
    Select(psiClass.fields, UseField)
  }

  method FilterFields(psiClass: PsiClass) returns (psiFields: seq<Field>)
    ensures psiFields == Filtered(psiClass)
  {
    psiFields := [];
    for i := 0 to |psiClass.fields|
      invariant psiFields == Select(psiClass.fields[..i], UseField)
    {
      var psiField := psiClass.fields[i];
      var useField := true;
      match psiField.modifierList {
        case Some(modifierList) =>
          useField := !modifierList.isStatic;
          useField := useField && !psiField.annotatedWithFieldNameConstants;
          useField := useField && !(InternFieldMarker <= psiField.name);
        case None =>
      }
      if useField {
        psiFields := psiFields + [psiField];
      }
      assert psiClass.fields[..i + 1] == psiClass.fields[..i] + [psiField];
      SelectAppend(psiClass.fields[..i], UseField, psiField);
    }
    assert psiClass.fields[..|psiClass.fields|] == psiClass.fields;
  }

  /**
   * The filtered fields are the class's fields at ascending positions, and a
   * position is taken exactly when its field has no modifier list, or is
   * non-static, not annotated itself and not named with the `$` marker.
   */
  lemma FilteredInDeclarationOrder(psiClass: PsiClass)
    ensures |KeptPositions(psiClass.fields, UseField)| == |Filtered(psiClass)|
    ensures StrictlyIncreasing(KeptPositions(psiClass.fields, UseField))
    ensures forall k :: 0 <= k < |Filtered(psiClass)| ==>
              KeptPositions(psiClass.fields, UseField)[k] < |psiClass.fields|
              && Filtered(psiClass)[k] == psiClass.fields[KeptPositions(psiClass.fields, UseField)[k]]
    ensures forall i :: 0 <= i < |psiClass.fields| ==>
              (i in KeptPositions(psiClass.fields, UseField) <==>
                 psiClass.fields[i].modifierList.None?
                 || (!psiClass.fields[i].modifierList.value.isStatic
                     && !psiClass.fields[i].annotatedWithFieldNameConstants
                     && !("$" <= psiClass.fields[i].name)))
  {
    SelectAtPositions(psiClass.fields, UseField);
  }

  /** A field is among the filtered ones iff it is a field of the class that passes the filter. */
  lemma FilteredMembership(psiClass: PsiClass, field: Field)
    ensures field in Filtered(psiClass) <==> field in psiClass.fields && UseField(field)
  {
    SelectMembership(psiClass.fields, UseField, field);
  }

  /** None of the exclusion checks runs for a field without a modifier list, so it is always kept. */
  lemma FieldWithoutModifierListIsKept(psiClass: PsiClass, i: nat)
    requires i < |psiClass.fields| && psiClass.fields[i].modifierList.None?
    ensures psiClass.fields[i] in Filtered(psiClass)
    ensures i in KeptPositions(psiClass.fields, UseField)
  {
    SelectMembership(psiClass.fields, UseField, psiClass.fields[i]);
    SelectAtPositions(psiClass.fields, UseField);
  }

  // ------------------------------------------------------------- generation

  /** The constants generated for `fields`: one per field the name check accepts, in order. */
  function Constants<E>(fieldProcessor: FieldProcessor<E>, annotation: Annotation, psiClass: PsiClass, fields: seq<Field>): seq<E>
  {
    if fields == [] then []
    else
      var last := fields[|fields| - 1];
      Constants(fieldProcessor, annotation, psiClass, fields[..|fields| - 1])
      + (if fieldProcessor.nameCheck(annotation, last).valid
         then [fieldProcessor.createConstant(last, psiClass, annotation)]
         else [])
  }

  lemma ConstantsAppend<E>(fieldProcessor: FieldProcessor<E>, annotation: Annotation, psiClass: PsiClass, fields: seq<Field>, field: Field)
    ensures Constants(fieldProcessor, annotation, psiClass, fields + [field])
         == Constants(fieldProcessor, annotation, psiClass, fields)
            + (if fieldProcessor.nameCheck(annotation, field).valid
               then [fieldProcessor.createConstant(field, psiClass, annotation)]
               else [])
  {
    assert (fields + [field])[..|fields|] == fields;
  }

  function GeneratedConstants<E>(fieldProcessor: FieldProcessor<E>, annotation: Annotation, psiClass: PsiClass): seq<E>
  {
    Constants(fieldProcessor, annotation, psiClass, Filtered(psiClass))
  }

  /** The filtered fields whose name the name check accepts, in order. */
  function AcceptedFields<E>(fieldProcessor: FieldProcessor<E>, annotation: Annotation, psiClass: PsiClass): seq<Field>
  {
    Select(Filtered(psiClass), fieldProcessor.AcceptsName(annotation))
  }

  lemma {:induction false} ConstantsOfAcceptedFields<E>(
    fieldProcessor: FieldProcessor<E>, annotation: Annotation, psiClass: PsiClass, fields: seq<Field>)
    ensures |Constants(fieldProcessor, annotation, psiClass, fields)| == |Select(fields, fieldProcessor.AcceptsName(annotation))|
    ensures forall k :: 0 <= k < |Constants(fieldProcessor, annotation, psiClass, fields)| ==>
              Constants(fieldProcessor, annotation, psiClass, fields)[k]
              == fieldProcessor.createConstant(Select(fields, fieldProcessor.AcceptsName(annotation))[k], psiClass, annotation)
  {
    if fields != [] {
      ConstantsOfAcceptedFields(fieldProcessor, annotation, psiClass, fields[..|fields| - 1]);
    }
  }

  /**
   * What generation produces: exactly one constant per accepted field, built
   * from that field, in filter order; the accepted fields are the filtered
   * fields the name check accepts, taken at ascending positions, so there
   * are never more constants than filtered fields.
   */
  lemma GeneratedConstantsFromAcceptedFields<E>(fieldProcessor: FieldProcessor<E>, annotation: Annotation, psiClass: PsiClass)
    ensures |GeneratedConstants(fieldProcessor, annotation, psiClass)| == |AcceptedFields(fieldProcessor, annotation, psiClass)|
    ensures |AcceptedFields(fieldProcessor, annotation, psiClass)| <= |Filtered(psiClass)|
    ensures forall k :: 0 <= k < |GeneratedConstants(fieldProcessor, annotation, psiClass)| ==>
              GeneratedConstants(fieldProcessor, annotation, psiClass)[k]
              == fieldProcessor.createConstant(AcceptedFields(fieldProcessor, annotation, psiClass)[k], psiClass, annotation)
    ensures forall f :: f in AcceptedFields(fieldProcessor, annotation, psiClass) <==>
              f in psiClass.fields && UseField(f) && fieldProcessor.nameCheck(annotation, f).valid
    ensures |KeptPositions(Filtered(psiClass), fieldProcessor.AcceptsName(annotation))|
            == |AcceptedFields(fieldProcessor, annotation, psiClass)|
    ensures StrictlyIncreasing(KeptPositions(Filtered(psiClass), fieldProcessor.AcceptsName(annotation)))
    ensures forall k :: 0 <= k < |AcceptedFields(fieldProcessor, annotation, psiClass)| ==>
              KeptPositions(Filtered(psiClass), fieldProcessor.AcceptsName(annotation))[k] < |Filtered(psiClass)|
              && AcceptedFields(fieldProcessor, annotation, psiClass)[k]
                 == Filtered(psiClass)[KeptPositions(Filtered(psiClass), fieldProcessor.AcceptsName(annotation))[k]]
  {
    var accepts := fieldProcessor.AcceptsName(annotation);
    ConstantsOfAcceptedFields(fieldProcessor, annotation, psiClass, Filtered(psiClass));
    SelectAtPositions(Filtered(psiClass), accepts);
    forall f
      ensures f in AcceptedFields(fieldProcessor, annotation, psiClass) <==>
              f in psiClass.fields && UseField(f) && fieldProcessor.nameCheck(annotation, f).valid
    {
      SelectMembership(Filtered(psiClass), accepts, f);
      SelectMembership(psiClass.fields, UseField, f);
    }
  }

  method GeneratePsiElements<E>(psiClass: PsiClass, annotation: Annotation, fieldProcessor: FieldProcessor<E>, target: ElementList<E>)
    modifies target
    ensures target.elements == old(target.elements) + GeneratedConstants(fieldProcessor, annotation, psiClass)
  {
    var psiFields := FilterFields(psiClass);
    for i := 0 to |psiFields|
      invariant target.elements == old(target.elements) + Constants(fieldProcessor, annotation, psiClass, psiFields[..i])
    {
      // the warnings go to a throw-away sink, as with the empty problem builder
      var discarded := new ProblemBuilder();
      var valid := fieldProcessor.CheckIfFieldNameIsValidAndWarn(annotation, psiFields[i], discarded);
      if valid {
        target.Add(fieldProcessor.createConstant(psiFields[i], psiClass, annotation));
      }
      assert psiFields[..i + 1] == psiFields[..i] + [psiFields[i]];
      ConstantsAppend(fieldProcessor, annotation, psiClass, psiFields[..i], psiFields[i]);
    }
    assert psiFields[..|psiFields|] == psiFields;
  }

  // ------------------------------------------------------------------ usage

  function Names(fields: seq<Field>): (names: seq<string>)
    ensures |names| == |fields| && forall k :: 0 <= k < |fields| ==> names[k] == fields[k].name
  {
    MapSeq((f: Field) => f.name, fields)
  }

  lemma NameAmongFiltered(psiClass: PsiClass, name: string)
    ensures name in Names(Filtered(psiClass)) <==>
              exists i :: 0 <= i < |psiClass.fields| && UseField(psiClass.fields[i]) && psiClass.fields[i].name == name
  {
    var filtered := Filtered(psiClass);
    var names := Names(filtered);
    if name in names {
      var j :| 0 <= j < |names| && names[j] == name;
      SelectMembership(psiClass.fields, UseField, filtered[j]);
      var i :| 0 <= i < |psiClass.fields| && psiClass.fields[i] == filtered[j];
      assert UseField(psiClass.fields[i]) && psiClass.fields[i].name == name;
    }
    if exists i :: 0 <= i < |psiClass.fields| && UseField(psiClass.fields[i]) && psiClass.fields[i].name == name {
      var i :| 0 <= i < |psiClass.fields| && UseField(psiClass.fields[i]) && psiClass.fields[i].name == name;
      SelectMembership(psiClass.fields, UseField, psiClass.fields[i]);
      var j :| 0 <= j < |filtered| && filtered[j] == psiClass.fields[i];
      assert names[j] == name;
    }
  }

  /**
   * A field is used exactly when it has a containing class one of whose
   * fields with the same name survives the filter.
   */
  function CheckFieldUsage(psiField: Field, containingClass: Option<PsiClass>, annotation: Annotation): (usage: ElementUsage)
    ensures usage == Usage <==>
              containingClass.Some?
              && exists i :: 0 <= i < |containingClass.value.fields|
                   && UseField(containingClass.value.fields[i])
                   && containingClass.value.fields[i].name == psiField.name
  {
    if containingClass.Some? then
      NameAmongFiltered(containingClass.value, psiField.name);
      if psiField.name in Names(Filtered(containingClass.value)) then Usage else NoUsage
    else NoUsage
  }

  /**
   * When field names within the class are distinct, a field of the class is
   * used exactly when the filter keeps it.
   */
  lemma UsageAgreesWithFilter(psiClass: PsiClass, i: nat, annotation: Annotation)
    requires i < |psiClass.fields|
    requires forall j, k :: 0 <= j < k < |psiClass.fields| ==> psiClass.fields[j].name != psiClass.fields[k].name
    ensures CheckFieldUsage(psiClass.fields[i], Some(psiClass), annotation) == Usage <==> UseField(psiClass.fields[i])
  {
    if CheckFieldUsage(psiClass.fields[i], Some(psiClass), annotation) == Usage {
      var j :| 0 <= j < |psiClass.fields| && UseField(psiClass.fields[j]) && psiClass.fields[j].name == psiClass.fields[i].name;
      assert j == i;
    }
  }
}
