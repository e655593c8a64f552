/** The entities the text-analytics service returns and the provider's rule
    for which of them become tags. */
module Entities {
  import opened Wrappers
  import opened Text

  /** One recognised entity: its name as it occurs in the text, its type
      ("Organization", "Location", "Other", "Quantity", "Person", ...) and an
      optional sub-type ("City", "Number", ...). */
  datatype Entity = Entity(name: string, entityType: string, subType: Option<string>)

  /** The three list settings the inclusion rule consults. */
  datatype Filters = Filters(exclude: seq<string>, includeOther: seq<string>, includeQuantity: seq<string>)

  const Organization: string := "Organization"
  const Location: string := "Location"
  const Other: string := "Other"
  const Quantity: string := "Quantity"

  /** The inclusion rule: an entity whose lower-cased name is excluded is
      dropped; otherwise organisations and locations are kept, an "Other" entity
      is kept when its lower-cased name is listed in includeOther, a "Quantity"
      when its exact name is listed in includeQuantity, and nothing else is kept. */
  function IsIncluded(e: Entity, f: Filters): (r: bool)
    ensures Lower(e.name) in f.exclude ==> !r
    ensures Lower(e.name) !in f.exclude && (e.entityType == Organization || e.entityType == Location) ==> r
    ensures e.entityType == Other ==> (r <==> Lower(e.name) !in f.exclude && Lower(e.name) in f.includeOther)
    ensures e.entityType == Quantity ==> (r <==> Lower(e.name) !in f.exclude && e.name in f.includeQuantity)
    ensures e.entityType !in [Organization, Location, Other, Quantity] ==> !r
  {
    Lower(e.name) !in f.exclude &&
    (e.entityType == Organization || e.entityType == Location ||
     (e.entityType == Other && Lower(e.name) in f.includeOther) ||
     (e.entityType == Quantity && e.name in f.includeQuantity))
  }

  /** Exclusion wins over every include list, whatever the entity's type. */
  lemma ExclusionWins(e: Entity, f: Filters)
    requires Lower(e.name) in f.exclude
    ensures !IsIncluded(e, f)
  {
  }

  /** Against a Quantity list without upper-case elements, a Quantity entity
      whose name has an upper-case letter is never accepted. */
  lemma UpperCaseQuantityNeverIncluded(e: Entity, f: Filters)
    requires e.entityType == Quantity && HasUpper(e.name)
    requires NoUpperCase(f.includeQuantity)
    ensures !IsIncluded(e, f)
  {
    NoUpperCaseExcludes(f.includeQuantity, e.name);
  }

  /** The include lists only matter for their own type: changing includeOther
      and includeQuantity never changes the verdict on an organisation or location. */
  lemma IncludeListsOnlyForTheirType(e: Entity, f: Filters, g: Filters)
    requires f.exclude == g.exclude
    requires e.entityType == Organization || e.entityType == Location
    ensures IsIncluded(e, f) == IsIncluded(e, g)
  {
  }

  /** The tag label of an accepted entity, built from its type, its sub-type
      when there is one, and its normalised name, separated by " - ". */
  function TagLabel(e: Entity, normalizedName: string): (r: string)
    ensures e.subType.Some? ==> r == e.entityType + " - " + e.subType.value + " - " + normalizedName
    ensures e.subType.None? ==> r == e.entityType + " - " + normalizedName
  {
    match e.subType
    case Some(sub) => e.entityType + " - " + sub + " - " + normalizedName
    case None => e.entityType + " - " + normalizedName
  }

  /** The part of the label before the name. */
  function LabelPrefix(e: Entity): string
  {
    match e.subType
    case Some(sub) => e.entityType + " - " + sub + " - "
    case None => e.entityType + " - "
  }

  /** A label ends with the normalised name after a prefix fixed by the type and
      sub-type, so for one type and sub-type the label determines the name. */
  lemma TagLabelDeterminesName(e: Entity, e': Entity, n: string, n': string)
    requires e.entityType == e'.entityType && e.subType == e'.subType
    requires TagLabel(e, n) == TagLabel(e', n')
    ensures n == n'
  {
    var p := LabelPrefix(e);
    assert TagLabel(e, n) == p + n;
    assert TagLabel(e', n') == p + n';
    assert n == (p + n)[|p|..];
    assert n' == (p + n')[|p|..];
  }

  /** The format does not keep sub-types apart from names: an entity with
      sub-type `sub` and name `n` gets the same label as an entity of the same
      type without sub-type whose name is `sub + " - " + n` (a location "Paris"
      of sub-type "City" and a location named "City - Paris"), so
      de-duplication merges them. */
  lemma TagLabelCollision(e: Entity, e': Entity, n: string)
    requires e.entityType == e'.entityType && e.subType.Some? && e'.subType.None?
    ensures TagLabel(e, n) == TagLabel(e', e.subType.value + " - " + n)
  {
    var t, sub := e.entityType, e.subType.value;
    assert t + " - " + sub + " - " + n == t + " - " + (sub + " - " + n);
  }
}
