# Legacy `@FieldNameConstants` class processor, modelled in Dafny

This project models the IntelliJ Lombok plugin's class-level processor for the
legacy (lombok 1.16.22 – 1.18.2) variant of `@FieldNameConstants`. The annotation
asks for one string constant per field, holding that field's name. For an annotated
class, the processor does the following:

- it decides whether the legacy variant applies: the annotation must have a `prefix` attribute;
- it validates the class. Interfaces and annotation types are rejected with one error,
  and the annotation's access level must be visible. If both pass, the field-level
  name check reports its warnings for every selected field;
- it filters the class's fields, in declaration order. A field with a modifier list is
  dropped when it is static, already carries the field-level annotation, or has a name
  starting with `$`. A field without a modifier list is always kept;
- it appends one generated constant to the caller's list for each filtered field whose
  name the field-level check accepts;
- it answers whether a field counts as used: a field is used when its containing class
  has a filtered field with the same name.

Modules:

- `Wrappers` (`wrappers.dfy`): `Option`.
- `Subsequences` (`subsequences.dfy`): the order-preserving `Select`, its kept positions, and lemmas about both.
- `Problems` (`problems.dfy`): diagnostics and the `ProblemBuilder` sink class.
- `Psi` (`psi.dfy`): the inputs as plain data. These are the class kind, the fields and the annotation.
  It also holds the injected field-level processor (`FieldProcessor`) and the caller's `ElementList` target.
- `FieldNameConstantsOld` (`field_name_constants_old_processor.dfy`): the processor itself.

The imperative parts of the source are imperative here too. `FilterFields`,
`Validate` and `GeneratePsiElements` are loops, each proved against a specification
function: `Filtered`, `ValidationProblems` and `GeneratedConstants`.
The diagnostics sink and the target list are classes whose methods append to them.
The variant check and the usage query are functions.

The field-level processor is a different class and is not part of this model.
Its name check and its constant builder are uninterpreted functions, held in the
`FieldProcessor` value that is passed in. The model assumes nothing about their
results, so it does not assume any identifier casing or collision rule.

Two behaviours of the code are worth stating plainly:

- A field whose modifier list is null is always kept, because none of the exclusion checks run for it.
- The usage query compares field names and ignores the annotation argument.

## Model

| member | source | states |
|---|---|---|
| `FieldNameConstantsOld.SupportAnnotationVariant` | src/main/java/de/plushnikov/intellij/plugin/processor/clazz/fieldnameconstants/FieldNameConstantsOldProcessor.java:41-44 | the legacy variant is supported exactly when the annotation has a `prefix` attribute, whatever its value (an empty prefix still counts as present) |
| `FieldNameConstantsOld.ValidateAnnotationOnRightType` | src/main/java/de/plushnikov/intellij/plugin/processor/clazz/fieldnameconstants/FieldNameConstantsOldProcessor.java:59-66 | false and exactly one error appended for an interface or annotation type; true and nothing appended for any other kind |
| `FieldNameConstantsOld.Validate` | src/main/java/de/plushnikov/intellij/plugin/processor/clazz/fieldnameconstants/FieldNameConstantsOldProcessor.java:47-57 | result is true iff the kind check passes and the level is visible, so name warnings never change it; the builder gains the shape error (if any), then the name-check warnings of the filtered fields in order, the warnings only when the result is true |
| `FieldNameConstantsOld.WrongTypeReportsOnlyShapeError` | src/main/java/de/plushnikov/intellij/plugin/processor/clazz/fieldnameconstants/FieldNameConstantsOldProcessor.java:47-66 | for an interface or annotation type, validation reports exactly the one shape error, whatever the fields and the name check |
| `FieldNameConstantsOld.RightTypeReportsOnlyNameWarnings` | src/main/java/de/plushnikov/intellij/plugin/processor/clazz/fieldnameconstants/FieldNameConstantsOldProcessor.java:47-57 | for a class or enum, validation reports only the filtered fields' name warnings, and nothing at all when the level is not visible |
| `Psi.FieldProcessor.CheckIfFieldNameIsValidAndWarn` | src/main/java/de/plushnikov/intellij/plugin/processor/clazz/fieldnameconstants/FieldNameConstantsOldProcessor.java:53 | the name check's verdict is returned and its warnings are appended to the given sink, nothing else changes in it |
| `FieldNameConstantsOld.FilterFields` | src/main/java/de/plushnikov/intellij/plugin/processor/clazz/fieldnameconstants/FieldNameConstantsOldProcessor.java:80-101 | the loop with its `&=` flag returns exactly the order-preserving selection of the class's fields that `UseField` accepts (no modifier list, or non-static, not annotated itself and not named with `$`) |
| `FieldNameConstantsOld.FilteredInDeclarationOrder` | src/main/java/de/plushnikov/intellij/plugin/processor/clazz/fieldnameconstants/FieldNameConstantsOldProcessor.java:84-99 | the filtered fields are the class's fields read at strictly ascending positions (nothing added, duplicated or reordered), and position i is taken iff its field has no modifier list, or is non-static, not annotated itself, and not named with `$` |
| `FieldNameConstantsOld.FilteredMembership` | src/main/java/de/plushnikov/intellij/plugin/processor/clazz/fieldnameconstants/FieldNameConstantsOldProcessor.java:84-99 | a field is in the filtered result iff it is a field of the class and it passes the filter |
| `FieldNameConstantsOld.FieldWithoutModifierListIsKept` | src/main/java/de/plushnikov/intellij/plugin/processor/clazz/fieldnameconstants/FieldNameConstantsOldProcessor.java:85-87 | a field whose modifier list is null is always kept, since no exclusion check runs for it |
| `FieldNameConstantsOld.GeneratePsiElements` | src/main/java/de/plushnikov/intellij/plugin/processor/clazz/fieldnameconstants/FieldNameConstantsOldProcessor.java:69-77 | only appends to the target, leaving its earlier elements unchanged, and what it appends is exactly `GeneratedConstants` |
| `FieldNameConstantsOld.ConstantsOfAcceptedFields` | src/main/java/de/plushnikov/intellij/plugin/processor/clazz/fieldnameconstants/FieldNameConstantsOldProcessor.java:72-76 | for any field list, the constants produced are the constant builder applied to the fields the name check accepts, one each, in order |
| `FieldNameConstantsOld.GeneratedConstantsFromAcceptedFields` | src/main/java/de/plushnikov/intellij/plugin/processor/clazz/fieldnameconstants/FieldNameConstantsOldProcessor.java:69-77 | one constant per filtered field that passes the name check, built from that field, in filter order; the accepted fields are a subsequence of the filtered fields (at most as many), and a field is accepted iff it is a class field that the filter keeps and the name check accepts |
| `FieldNameConstantsOld.NameAmongFiltered` | src/main/java/de/plushnikov/intellij/plugin/processor/clazz/fieldnameconstants/FieldNameConstantsOldProcessor.java:107 | a name is among the filtered fields' names iff some field of the class with that name passes the filter |
| `FieldNameConstantsOld.CheckFieldUsage` | src/main/java/de/plushnikov/intellij/plugin/processor/clazz/fieldnameconstants/FieldNameConstantsOldProcessor.java:104-112 | USAGE iff the field has a containing class and one of that class's fields with the same name passes the filter; NONE otherwise, including when there is no containing class |
| `FieldNameConstantsOld.UsageAgreesWithFilter` | src/main/java/de/plushnikov/intellij/plugin/processor/clazz/fieldnameconstants/FieldNameConstantsOldProcessor.java:104-112 | when field names in the class are distinct, a field of the class is used iff the filter keeps it |

## Left out

- The service lookup of the field-level processor through the application is not modelled. That processor is passed in as a `FieldProcessor` parameter.
- The bodies of the field-level name check and constant builder are left out. They belong to the field-level processor, which is not part of this model. Both are uninterpreted parameters, so no casing transform or collision rule is assumed.
- The empty problem builder singleton used during generation is modelled as a fresh `ProblemBuilder` whose contents are dropped. The caller observes the same thing: no diagnostics.
- Message texts from the resource bundle are left out. The shape error carries its message key instead.
- The foreign helpers are represented by input data:
  - field collection: `PsiClass.fields`;
  - the field-annotation search: `Field.annotatedWithFieldNameConstants`;
  - the access-level visibility test: `Annotation.levelVisible`;
  - the attribute lookup for `prefix`: `Annotation.prefix`.
- The PSI class kind is reduced to four cases. Records and other classes fold into `Class`.
- Only the two usage values this processor returns, NONE and USAGE, are modelled.
- The class-processor base class is not part of this model. It decides when validation and generation run.
- The extension-method integration test has no logic of this processor, so it is left out.
