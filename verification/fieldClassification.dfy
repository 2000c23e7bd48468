/**
 Which of the fields that events and entities actually carry are on the
 list: the event fields that hold nested records are, while plain value
 fields, including arrays of records, are not. Each lemma names the
 listed neighbours it relies on, which keeps every proof small.
 */
module FieldClassification {
  import opened ObjectProperties

  /** `extensions` is listed, and is the one listed name read as a raw
      mapping rather than a record. */
  lemma ExtensionsIsRawMapping()
    ensures IsObjectProperty("extensions")
    ensures Classify("extensions") == RawMapping
  {
    assert Names[10] == "extensions";
  }

  /** The agent and object of an event are nested records. */
  lemma EventParticipantsListed()
    ensures IsObjectProperty("actor") && IsObjectProperty("object")
    ensures IsObjectProperty("generated")
    ensures Classify("actor") == NestedRecord && Classify("generated") == NestedRecord
  {
    assert Names[0] == "actor" && Names[12] == "generated" && Names[18] == "object";
  }

  /** The context an event happens in is made of nested records too. */
  lemma EventContextListed()
    ensures IsObjectProperty("edApp") && IsObjectProperty("group")
    ensures IsObjectProperty("membership") && IsObjectProperty("session")
  {
    assert Names[9] == "edApp" && Names[13] == "group";
    assert Names[16] == "membership" && Names[31] == "session";
  }

  /** A document's descriptive fields are not listed. */
  lemma DescriptiveFieldsNotListed()
    ensures !IsObjectProperty("name") && !IsObjectProperty("version")
  {
    assert Names[17] == "messageParameters" && Names[18] == "object";
    NotListedBetween("name", 17);
    assert Names[34] == "user";
    NotListedBetween("version", 34);
  }

  /** Creation dates and counts are not listed. */
  lemma ScalarFieldsNotListed()
    ensures !IsObjectProperty("dateCreated") && !IsObjectProperty("count")
  {
    assert Names[7] == "commenter" && Names[8] == "creator" && Names[9] == "edApp";
    NotListedBetween("count", 7);
    NotListedBetween("dateCreated", 8);
  }

  /** `withAgents` is not listed, although it holds an array of Person
      records; the design's projection policy reads it as a literal value. */
  lemma WithAgentsNotListed()
    ensures !IsObjectProperty("withAgents")
    ensures Classify("withAgents") == LiteralValue
  {
    assert Names[34] == "user";
    NotListedBetween("withAgents", 34);
  }

  /** A membership's roles, an array of terms, are not listed. */
  lemma RolesNotListed()
    ensures !IsObjectProperty("roles")
  {
    assert Names[25] == "replyTo" && Names[26] == "scale";
    NotListedBetween("roles", 25);
  }

  /** A scale's item labels, an array of strings, are not listed. */
  lemma ItemLabelsNotListed()
    ensures !IsObjectProperty("itemLabels")
  {
    assert Names[14] == "isPartOf" && Names[15] == "member";
    NotListedBetween("itemLabels", 14);
  }
}
