/**
 * The parts of the IDE's program structure the processor reads, reduced to
 * plain data, and the two collaborators it is handed: the field-level
 * processor service and the list generated elements are added to.
 */
module Psi {
  import opened Wrappers
  import opened Problems

  /** The shape of a class declaration; records and other classes fold into `Class`. */
  datatype ClassKind = Class | Enum | Interface | AnnotationType

  /** A field's modifier list; only the `static` property is consulted here. */
  datatype ModifierList = ModifierList(isStatic: bool)

  /**
   * A field declaration. `modifierList` is `None` where the IDE has no
   * modifier list for the field; `annotatedWithFieldNameConstants` says
   * whether the field itself carries the field-level annotation.
   */
  datatype Field = Field(name: string, modifierList: Option<ModifierList>, annotatedWithFieldNameConstants: bool)

  /** A class: its kind and its own fields in declaration order. */
  datatype PsiClass = PsiClass(name: string, kind: ClassKind, fields: seq<Field>)

  /**
   * The class-level annotation. `prefix` is `Some` exactly when the
   * annotation exposes a `prefix` attribute (its value may be empty);
   * `levelVisible` is whether its access level lets anything be generated.
   */
  datatype Annotation = Annotation(prefix: Option<string>, suffix: Option<string>, levelVisible: bool)

  /** What the field-level name check answers: usable or not, and what it would warn. */
  datatype NameCheck = NameCheck(valid: bool, warnings: seq<Problem>)

  /**
   * The field-level processor service, injected rather than looked up.
   * Its name check and its constant builder are left uninterpreted.
   */
  datatype FieldProcessor<E> = FieldProcessor(
    nameCheck: (Annotation, Field) -> NameCheck,
    createConstant: (Field, PsiClass, Annotation) -> E)
  {
    /** Runs the name check and reports its warnings into `builder`. */
    method CheckIfFieldNameIsValidAndWarn(annotation: Annotation, field: Field, builder: ProblemBuilder)
      returns (valid: bool)
      modifies builder
      ensures valid == nameCheck(annotation, field).valid
      ensures builder.problems == old(builder.problems) + nameCheck(annotation, field).warnings
    {
      var check := nameCheck(annotation, field);
      builder.AddAll(check.warnings);
      valid := check.valid;
    }

    /** The name check as a predicate on fields, with its warnings discarded. */
    function AcceptsName(annotation: Annotation): Field -> bool
    {
      f => nameCheck(annotation, f).valid
    }
  }

  /** The caller's list that generated elements are appended to. */
  class ElementList<E> {
    var elements: seq<E>

    constructor ()
      ensures elements == []
    {
      elements := [];
    }

    method Add(e: E)
      modifies this
      ensures elements == old(elements) + [e]
    {
      elements := elements + [e];
    }
  }
}
