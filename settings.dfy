/** Parsing of the provider's multi-valued settings: a '|'-separated list
    such as "united states|europe" in one configuration value. */
module SettingsParsing {
  import opened Wrappers
  import opened Text
  import opened Entities

  /** `Environment.NewLine` on the Windows hosts the provider runs on. */
  const NewLine: string := "\r\n"

  /** One element of a parsed list: trimmed first, then lower-cased. */
  function Normalized(segment: string): (r: string)
    ensures IsTrimmed(r) && !HasUpper(r)
    ensures '|' in r ==> '|' in segment
  {
    LowerIsLowered(Trim(segment));
    LowerKeepsShape(Trim(segment));
    TrimKeepsCharacters(segment);
    Lower(Trim(segment))
  }

  /** `PipeSeparatedStringToList`: null or "" gives the empty list; otherwise the
      line breaks are deleted, the value is split at '|' with empty entries
      removed, and each entry is trimmed and lower-cased. */
  function PipeSeparatedStringToList(value: Option<string>): (r: seq<string>)
    ensures value == None || value == Some("") ==> r == []
    ensures forall i :: 0 <= i < |r| ==>
      Trim(r[i]) == r[i] && Lower(r[i]) == r[i] && '|' !in r[i]
  {
    if value == None || value.value == "" then []
    else
      var segments := Split(RemoveAll(value.value, NewLine));
      var r := seq(|segments|, i requires 0 <= i < |segments| => Normalized(segments[i]));
      assert forall i :: 0 <= i < |r| ==> Trim(r[i]) == r[i] && Lower(r[i]) == r[i] by {
        forall i | 0 <= i < |r| ensures Trim(r[i]) == r[i] && Lower(r[i]) == r[i] {
          TrimOfTrimmed(r[i]);
          assert !HasUpper(r[i]);
        }
      }
      r
  }

  /** A parsed list has no upper-case element. */
  lemma ParsedListLowerCase(value: Option<string>)
    ensures NoUpperCase(PipeSeparatedStringToList(value))
  {
    var r := PipeSeparatedStringToList(value);
    forall i | 0 <= i < |r| ensures !HasUpper(r[i]) {
      LowerIsLowered(r[i]);
    }
    NoUpperCaseFromElements(r);
  }

  /** A value written as entries joined by '|' (no entry empty, none holding '|'
      or a carriage return) parses to exactly its entries, trimmed and lower-cased,
      one for one and in order. */
  lemma ParseJoined(entries: seq<string>)
    requires entries != []
    requires forall i :: 0 <= i < |entries| ==> IsSegment(entries[i]) && '\r' !in entries[i]
    ensures var r := PipeSeparatedStringToList(Some(Join(entries)));
      |r| == |entries| && forall i :: 0 <= i < |r| ==> r[i] == Lower(Trim(entries[i]))
  {
    var v := Join(entries);
    JoinNonEmpty(entries);
    JoinAvoids(entries, '\r');
    RemoveAllAbsent(v, NewLine);
    SplitJoin(entries);
  }

  lemma {:induction false} JoinNonEmpty(entries: seq<string>)
    requires entries != [] && IsSegment(entries[0])
    ensures Join(entries) != []
  {
  }

  /** A character that is in no entry and is not '|' is not in their join. */
  lemma {:induction false} JoinAvoids(entries: seq<string>, c: char)
    requires c != '|'
    requires forall i :: 0 <= i < |entries| ==> c !in entries[i]
    ensures c !in Join(entries)
  {
    if |entries| > 1 {
      JoinAvoids(entries[1..], c);
    }
  }

  /** Empty entries are removed BEFORE trimming, so an entry of blanks only
      survives as the empty string: " a |  | b " parses to ["a", "", "b"]. */
  lemma BlankEntrySurvives(entries: seq<string>, i: nat)
    requires i < |entries|
    requires forall j :: 0 <= j < |entries| ==> IsSegment(entries[j]) && '\r' !in entries[j]
    requires AllWhiteSpace(entries[i])
    ensures i < |PipeSeparatedStringToList(Some(Join(entries)))|
    ensures PipeSeparatedStringToList(Some(Join(entries)))[i] == ""
  {
    ParseJoined(entries);
    TrimEmptyIff(entries[i]);
  }

  /** Every parsed entry is lower case, so a name with an upper-case letter is
      in no parsed list. This is why a Quantity entity named "Billion" can never
      pass the case-sensitive IncludeQuantity test. */
  lemma UpperCaseNeverListed(name: string, value: Option<string>)
    requires HasUpper(name)
    ensures name !in PipeSeparatedStringToList(value)
  {
  }

  /** The Quantity list is matched by exact name and parsed lists are lower
      case, so a Quantity entity whose name has an upper-case letter is never
      accepted. */
  lemma UpperCaseQuantityRejected(e: Entity, f: Filters, v: Option<string>)
    requires e.entityType == Quantity && HasUpper(e.name)
    requires f.includeQuantity == PipeSeparatedStringToList(v)
    ensures !IsIncluded(e, f)
  {
    UpperCaseNeverListed(e.name, v);
  }
}
