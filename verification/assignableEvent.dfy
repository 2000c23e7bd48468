/**
 The AssignableEvent template. Its constructor first runs the generic event
 initialiser, then calls six setters in turn: the fixed `context` and `type`
 constants, and defaults for four fields. `generated` and `duration` become
 an explicit null; `startedAtTime` and `endedAtTime` become 0.

 An event is an immutable record, a map from field name to value. What the
 generic initialiser puts in it is an input here, since it is not part of
 this model; the constructor is a pure function of that base record.
 */
module AssignableEvent {

  /** A field value. Timestamps, nested records and whatever else the base
      initialiser stores are opaque to the template. */
  datatype Value =
    | Null
    | Number(n: int)
    | Text(s: string)
    | Opaque(handle: nat)

  /** An event record: its fields, by name. A name absent from the map is
      an absent field, which differs from one holding Null. */
  type Event = map<string, Value>

  const ContextField: string := "context"
  const TypeField: string := "type"
  const GeneratedField: string := "generated"
  const StartedAtTimeField: string := "startedAtTime"
  const EndedAtTimeField: string := "endedAtTime"
  const DurationField: string := "duration"

  const AssignableContext: string := "http://purl.imsglobal.org/ctx/caliper/v1/AssignableEvent"
  const AssignableType: string := "http://purl.imsglobal.org/caliper/v1/AssignableEvent"

  /** The six fields the template sets. */
  const TemplateFields: set<string> :=
    {ContextField, TypeField, GeneratedField, StartedAtTimeField, EndedAtTimeField, DurationField}

  /** The fixed values of the template, as a record fragment. */
  const TemplateValues: map<string, Value> := map[
    ContextField := Text(AssignableContext),
    TypeField := Text(AssignableType),
    GeneratedField := Null,
    StartedAtTimeField := Number(0),
    EndedAtTimeField := Number(0),
    DurationField := Null
  ]

  /** The constructor: the base initialiser's record, then the template's
      six setter calls in source order. */
  function NewAssignableEvent(base: Event): (e: Event)
    ensures e.Keys == base.Keys + TemplateFields
    ensures e[ContextField] == Text(AssignableContext)
    ensures e[TypeField] == Text(AssignableType)
    ensures e[GeneratedField] == Null
    ensures e[StartedAtTimeField] == Number(0) && e[EndedAtTimeField] == Number(0)
    ensures e[DurationField] == Null
    ensures forall f :: f in base && f !in TemplateFields ==> e[f] == base[f]
  {
    base[ContextField := Text(AssignableContext)]
        [TypeField := Text(AssignableType)]
        [GeneratedField := Null]
        [StartedAtTimeField := Number(0)]
        [EndedAtTimeField := Number(0)]
        [DurationField := Null]
  }

  /** Reference definition: the constructed event is the base record with
      the template's fixed values laid over it. */
  lemma AssignableEventIsOverlay(base: Event)
    ensures NewAssignableEvent(base) == base + TemplateValues
  {
  }

  /** The template wins over the base: whatever two base records hold, the
      events built from them agree on all six template fields. */
  lemma TemplateOverridesBase(base1: Event, base2: Event)
    ensures forall f :: f in TemplateFields ==>
      NewAssignableEvent(base1)[f] == NewAssignableEvent(base2)[f]
  {
  }

  /** Nothing else changes: the built event and its base agree on every
      field outside the template, present or absent. */
  lemma OnlyTemplateFieldsChange(base: Event, f: string)
    requires f !in TemplateFields
    ensures f in NewAssignableEvent(base) <==> f in base
    ensures f in base ==> NewAssignableEvent(base)[f] == base[f]
  {
  }

  /** Building again on a built event changes nothing. */
  lemma NewAssignableEventIdempotent(base: Event)
    ensures NewAssignableEvent(NewAssignableEvent(base)) == NewAssignableEvent(base)
  {
    var e := NewAssignableEvent(base);
    AssignableEventIsOverlay(base);
    AssignableEventIsOverlay(e);
  }
}
