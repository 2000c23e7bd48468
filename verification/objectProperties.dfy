/**
 The object-property classifier: a closed, read-only list of the property
 names whose values are nested records. The reserved name `extensions` is on
 the list but, by design, holds a raw key/value mapping rather than a record.
 The source exports the bare list; the three-way projection policy `Classify`
 encodes is the design's reading of it, not code of its own.
 */
module ObjectProperties {
  import opened StringOrder

  /** The exported list, in its declared order. */
  const Names: seq<string> := [
    "actor",
    "annotated",
    "annotator",
    "assignable",
    "assignee",
    "attempt",
    "commentedOn",
    "commenter",
    "creator",
    "edApp",
    "extensions",
    "federatedSession",
    "generated",
    "group",
    "isPartOf",
    "member",
    "membership",
    "messageParameters",
    "object",
    "organization",
    "query",
    "rated",
    "rater",
    "ratingComment",
    "referrer",
    "replyTo",
    "scale",
    "scoredBy",
    "searchProvider",
    "searchTarget",
    "selection",
    "session",
    "subOrganizationOf",
    "target",
    "user"
  ]

  /** The one listed name whose value is a raw mapping, not a record. */
  const ExtensionsName: string := "extensions"

  /** `name` is an object property: its value is a nested record (or, for
      `extensions`, a raw mapping). */
  predicate IsObjectProperty(name: string)
  {
    name in Names
  }

  /** How the design's projection policy treats the value of a property. */
  datatype Projection =
    | NestedRecord  // a record: referenced by its identifier or embedded
    | RawMapping    // the extensions mapping, emitted verbatim
    | LiteralValue  // a primitive or array, emitted as it stands

  /** The projection policy the list selects for a property name. */
  function Classify(name: string): (p: Projection)
    ensures p.LiteralValue? <==> !IsObjectProperty(name)
    ensures p.RawMapping? <==> name == ExtensionsName
    ensures p.NestedRecord? <==> IsObjectProperty(name) && name != ExtensionsName
  {
    if name == ExtensionsName then RawMapping
    else if IsObjectProperty(name) then NestedRecord
    else LiteralValue
  }

  /** Membership test on a list of names, scanning it front to back as a
      test on a plain array does. */
  method Scan(names: seq<string>, name: string) returns (found: bool)
    ensures found <==> name in names
  {
    found := false;
    var i := 0;
    while i < |names|
      invariant 0 <= i <= |names|
      invariant found <==> name in names[..i]
    {
      if names[i] == name {
        found := true;
      }
      i := i + 1;
    }
    assert names[..i] == names;
  }

  /** The classifier's lookup on the exported list. */
  method Contains(name: string) returns (found: bool)
    ensures found <==> IsObjectProperty(name)
  {
    found := Scan(Names, name);
  }

  // The chain of neighbours is checked in three overlapping stretches,
  // walking back two neighbours per step, to keep each proof small.

  lemma NamesSortedUpper()
    ensures SortedBetween(Names, 23, 35)
  {
    assert SortedBetween(Names, 32, 35);
    assert SortedBetween(Names, 30, 35);
    assert SortedBetween(Names, 28, 35);
    assert SortedBetween(Names, 26, 35);
    assert SortedBetween(Names, 24, 35);
  }

  lemma NamesSortedMiddle()
    ensures SortedBetween(Names, 11, 24)
  {
    assert SortedBetween(Names, 21, 24);
    assert SortedBetween(Names, 19, 24);
    assert SortedBetween(Names, 17, 24);
    assert SortedBetween(Names, 15, 24);
    assert SortedBetween(Names, 13, 24);
    assert SortedBetween(Names, 11, 24);
  }

  lemma NamesSortedLower()
    ensures SortedBetween(Names, 0, 12)
  {
    assert SortedBetween(Names, 9, 12);
    assert SortedBetween(Names, 7, 12);
    assert SortedBetween(Names, 5, 12);
    assert SortedBetween(Names, 3, 12);
    assert SortedBetween(Names, 1, 12);
  }

  /** The list is in strictly ascending code-unit order. */
  lemma NamesSorted()
    ensures StrictlySorted(Names)
  {
    NamesSortedUpper();
    NamesSortedMiddle();
    NamesSortedLower();
    SortedBetweenNeighbours(Names, 23, 35);
    SortedBetweenNeighbours(Names, 11, 24);
    SortedBetweenNeighbours(Names, 0, 12);
  }

  /** A name that sorts strictly between two listed neighbours, or after the
      last listed name, is not listed: the order leaves no room for it. */
  lemma NotListedBetween(name: string, k: nat)
    requires k < |Names|
    requires Less(Names[k], name)
    requires k + 1 == |Names| || Less(name, Names[k + 1])
    ensures !IsObjectProperty(name)
  {
    NamesSorted();
    SortedPairwise(Names);
    forall i | 0 <= i < |Names|
      ensures Names[i] != name
    {
      if i <= k {
        if i < k {
          LessTransitive(Names[i], Names[k], name);
        }
        if Names[i] == name {
          LessIrreflexive(name);
        }
      } else {
        if i > k + 1 {
          LessTransitive(name, Names[k + 1], Names[i]);
        }
        if Names[i] == name {
          LessIrreflexive(name);
        }
      }
    }
  }

  /** A name that sorts strictly before the first listed name is not
      listed either. */
  lemma NotListedBeforeFirst(name: string)
    requires Less(name, Names[0])
    ensures !IsObjectProperty(name)
  {
    NamesSorted();
    SortedPairwise(Names);
    forall i | 0 <= i < |Names|
      ensures Names[i] != name
    {
      if i > 0 {
        LessTransitive(name, Names[0], Names[i]);
      }
      if Names[i] == name {
        LessIrreflexive(name);
      }
    }
  }

  /** No name is listed twice: the list denotes a set of 35 names. */
  lemma NamesDistinct()
    ensures Distinct(Names)
    ensures |Elements(Names)| == |Names| == 35
  {
    NamesSorted();
    SortedIsDistinct(Names);
    DistinctCardinality(Names);
  }

  /** Exact membership: the object properties are the 35 distinct names of
      the list, from `actor` through `user`, and no other string. */
  lemma ObjectPropertiesExactly()
    ensures forall name :: IsObjectProperty(name) <==> name in Elements(Names)
    ensures |Elements(Names)| == 35
    ensures Names[0] == "actor" && Names[|Names| - 1] == "user"
  {
    NamesDistinct();
  }
}
