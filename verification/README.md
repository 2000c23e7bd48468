# Caliper record construction: object-property classifier and AssignableEvent template

This project models two pure pieces of the Caliper JavaScript library's
record construction-and-projection layer and proves properties of them in
Dafny.

- **The object-property classifier** (`src/validators/objectProperties.js`).
  The library exports a fixed list of 35 property names and nothing else. In
  the design, a property on the list holds a nested record, except the
  reserved name `extensions`, which holds a raw key/value mapping; a name
  off the list is read as a literal value. The list itself does not
  classify anything: that three-way projection policy is the design's
  reading of it. Module `ObjectProperties` holds the list as a
  `seq<string>`, the predicate `IsObjectProperty`, the policy `Classify`,
  and a front-to-back lookup `Contains`. It proves that the list is strictly
  sorted in code-unit order, that it has no duplicates (so it denotes a set
  of exactly 35 names), and that a name falling between two listed
  neighbours, before the first or after the last, is not listed. Module `StringOrder` gives the order JavaScript's
  `<` uses on strings, together with the general facts: transitivity,
  irreflexivity, sorted implies distinct, and distinct implies the set has
  the list's size. Module `FieldClassification` records which of the fields
  that events and entities carry are on the list.
- **The AssignableEvent template** (`src/events/assignableEvent.js`). The
  constructor runs the generic event initialiser and then makes six setter
  calls. Two of them set the fixed `context` and `type` constants. The other
  four set defaults: `generated` and `duration` become an explicit null, and
  `startedAtTime` and `endedAtTime` become 0. Module `AssignableEvent`
  models an event as an immutable `map<string, Value>`. It models the
  constructor as a pure function of the record the generic initialiser
  produced: that record is an input, because the initialiser is not part of
  this model. The six setter calls become six map updates in source order.
  The model proves four things about the constructor:
  - it equals the base record with the template's fixed values laid over it;
  - the template's values win over anything the base held;
  - no other field is added, removed or changed;
  - building twice gives the same record as building once.

## Model

| member | source | states |
|---|---|---|
| ObjectProperties.Classify | src/validators/objectProperties.js:19-57 | under the design's projection policy, a name is a literal value exactly when it is not listed; it is a raw mapping exactly when it is `extensions`; it is a nested record exactly when it is listed and is not `extensions` |
| ObjectProperties.Contains | src/validators/objectProperties.js:19-57 | a front-to-back lookup on the exported list answers true exactly for the listed names |
| ObjectProperties.NamesSorted | src/validators/objectProperties.js:19-55 | every listed name sorts strictly before the next one in code-unit order, for example `member` < `membership` < `messageParameters` and `rated` < `rater` < `ratingComment` |
| ObjectProperties.NamesDistinct | src/validators/objectProperties.js:19-55 | no name is listed twice, so the set of listed names has exactly 35 elements, the list's length |
| ObjectProperties.NotListedBetween | src/validators/objectProperties.js:19-55 | a name that sorts strictly between two neighbouring listed names, or after the last one, is not an object property |
| ObjectProperties.NotListedBeforeFirst | src/validators/objectProperties.js:19-55 | a name that sorts strictly before `actor`, the first listed name, is not an object property |
| ObjectProperties.ObjectPropertiesExactly | src/validators/objectProperties.js:19-55 | a string is an object property if and only if it is one of the list's names, which are 35 distinct strings; `actor` is first and `user` is last |
| FieldClassification.ExtensionsIsRawMapping | src/validators/objectProperties.js:30 | `extensions` is listed, and it is the name classified as a raw mapping |
| FieldClassification.EventParticipantsListed | src/validators/objectProperties.js:20-38 | `actor`, `object` and `generated` are listed, and `actor` and `generated` are classified as nested records |
| FieldClassification.EventContextListed | src/validators/objectProperties.js:29-51 | `edApp`, `group`, `membership` and `session` are listed |
| FieldClassification.DescriptiveFieldsNotListed | src/validators/objectProperties.js:19-55 | `name` and `version` are not listed |
| FieldClassification.ScalarFieldsNotListed | src/validators/objectProperties.js:19-55 | `dateCreated` and `count` are not listed |
| FieldClassification.WithAgentsNotListed | src/validators/objectProperties.js:19-55 | `withAgents` is not listed, even though the tests fill it with Person records, so the design's policy classifies it as a literal value |
| FieldClassification.RolesNotListed | src/validators/objectProperties.js:19-55 | `roles` is not listed |
| FieldClassification.ItemLabelsNotListed | src/validators/objectProperties.js:19-55 | `itemLabels` is not listed |
| AssignableEvent.NewAssignableEvent | src/events/assignableEvent.js:10-21 | the built event has the base's fields plus the six template fields. `context` and `type` hold the AssignableEvent constants. `generated` and `duration` are present and null. `startedAtTime` and `endedAtTime` are present and 0. Every other base field keeps its value |
| AssignableEvent.AssignableEventIsOverlay | src/events/assignableEvent.js:12-20 | the built event is exactly the base record with the template's six fixed values laid over it |
| AssignableEvent.TemplateOverridesBase | src/events/assignableEvent.js:12-15 | events built from any two base records agree on all six template fields, so the template's values win over whatever the base initialiser set |
| AssignableEvent.OnlyTemplateFieldsChange | src/events/assignableEvent.js:12-20 | a field outside the template is present in the built event exactly when it is present in the base, and it has the same value |
| AssignableEvent.NewAssignableEventIdempotent | src/events/assignableEvent.js:14-20 | applying the template to an event it already built changes nothing |

## Left out

- The generic event initialiser (`caliperEvent`, called at src/events/assignableEvent.js:12) is not part of this model. Its record is an arbitrary input map.
- All six setters (`setContext`, `setType`, `setGenerated`, `setStartedAtTime`, `setEndedAtTime`, `setDuration`, called at src/events/assignableEvent.js:14-20) are defined in `caliperEvent`, which is not part of this model. Each is modelled as a plain write of its argument to one field named after it, with no other effect. A setter that wrote a different key, or also changed another field, would break `AssignableEvent.OnlyTemplateFieldsChange` and `AssignableEvent.TemplateOverridesBase`.
- Key insertion order is not modelled. A JavaScript object keeps the order in which its keys were added, and a key the base lacked is appended at the end. A `map<string, Value>` has no order.
- The prototype link `_.create(Event.prototype)` (src/events/assignableEvent.js:23) is not modelled: records are plain values with no method chain.
- Timestamps, durations and nested records stored by the base initialiser are opaque `Value`s. No `moment`/`Date` formatting is modelled.
- The entity and event factories, the serializer, and UUID generation and validation are not part of this model. So the reference-versus-embed decision itself is not modelled; only the classifier it relies on is.
- The test harnesses compare against JSON fixture files read from disk. They are left out as I/O.
- Determinism needs no lemma. The list is a Dafny `const` that no member changes, and `IsObjectProperty`, `Classify` and `NewAssignableEvent` are functions. So repeated lookups agree, and two events built from the same base are equal.
- JavaScript compares strings by UTF-16 code unit, while Dafny's `char` is a Unicode scalar value. The two orders agree on the listed names and the other names used here, which are all ASCII.
