/** Collecting the tag labels of the accepted entities of all documents of a
    response, and removing duplicate labels. */
module Tags {
  import opened Entities
  import opened Normalization

  /** The entities recognised in one submitted document. */
  datatype DocumentEntities = DocumentEntities(id: string, entities: seq<Entity>)

  /** `x` is the label the provider makes for entity `e`. */
  predicate IsLabelOf(x: string, e: Entity, f: Filters, rules: seq<EntityNameReplacement>, rx: RegexReplace)
  {
    IsIncluded(e, f) && x == TagLabel(e, Normalize(rules, e.name, rx))
  }

  /** The labels of the accepted entities of one document, in order. */
  function DocumentLabels(entities: seq<Entity>, f: Filters, rules: seq<EntityNameReplacement>,
                          rx: RegexReplace): seq<string>
  {
    if entities == [] then []
    else
      var e := entities[|entities| - 1];
      DocumentLabels(entities[..|entities| - 1], f, rules, rx) +
        (if IsIncluded(e, f) then [TagLabel(e, Normalize(rules, e.name, rx))] else [])
  }

  /** The labels of the accepted entities of all documents, in order, before
      duplicates are removed. */
  function EntityNames(documents: seq<DocumentEntities>, f: Filters, rules: seq<EntityNameReplacement>,
                       rx: RegexReplace): seq<string>
  {
    if documents == [] then []
    else
      EntityNames(documents[..|documents| - 1], f, rules, rx) +
        DocumentLabels(documents[|documents| - 1].entities, f, rules, rx)
  }

  lemma {:induction false} DocumentLabelsExact(entities: seq<Entity>, f: Filters,
                                               rules: seq<EntityNameReplacement>, rx: RegexReplace, x: string)
    ensures x in DocumentLabels(entities, f, rules, rx) <==>
            exists e :: e in entities && IsLabelOf(x, e, f, rules, rx)
  {
    if entities != [] {
      var init := entities[..|entities| - 1];
      var e := entities[|entities| - 1];
      DocumentLabelsExact(init, f, rules, rx, x);
      assert entities == init + [e];
      if x in DocumentLabels(entities, f, rules, rx) && x !in DocumentLabels(init, f, rules, rx) {
        assert IsLabelOf(x, e, f, rules, rx);
      }
    }
  }

  /** A string is among the collected names exactly when it is the label of an
      accepted entity of some document. */
  lemma {:induction false} EntityNamesExact(documents: seq<DocumentEntities>, f: Filters,
                                            rules: seq<EntityNameReplacement>, rx: RegexReplace, x: string)
    ensures x in EntityNames(documents, f, rules, rx) <==>
            exists j, e :: 0 <= j < |documents| && e in documents[j].entities && IsLabelOf(x, e, f, rules, rx)
  {
    if documents != [] {
      var init := documents[..|documents| - 1];
      var last := |documents| - 1;
      EntityNamesExact(init, f, rules, rx, x);
      DocumentLabelsExact(documents[last].entities, f, rules, rx, x);
      if exists j, e :: 0 <= j < |documents| && e in documents[j].entities && IsLabelOf(x, e, f, rules, rx) {
        var j, e :| 0 <= j < |documents| && e in documents[j].entities && IsLabelOf(x, e, f, rules, rx);
        if j < last {
          assert init[j] == documents[j];
        }
      }
      if exists j, e :: 0 <= j < |init| && e in init[j].entities && IsLabelOf(x, e, f, rules, rx) {
        var j, e :| 0 <= j < |init| && e in init[j].entities && IsLabelOf(x, e, f, rules, rx);
        assert documents[j] == init[j];
      }
    }
  }

  predicate NoDuplicates(s: seq<string>)
  {
    forall i, j :: 0 <= i < j < |s| ==> s[i] != s[j]
  }

  /** `Enumerable.Distinct` with the default (ordinal, case-sensitive) string
      comparer: keeps the first occurrence of each string not yet seen. */
  function DistinctFrom(s: seq<string>, seen: set<string>): (r: seq<string>)
    ensures NoDuplicates(r)
    ensures forall x :: x in r <==> x in s && x !in seen
  {
    if s == [] then []
    else if s[0] in seen then DistinctFrom(s[1..], seen)
    else [s[0]] + DistinctFrom(s[1..], seen + {s[0]})
  }

  function Distinct(s: seq<string>): (r: seq<string>)
    ensures NoDuplicates(r)
    ensures forall x :: x in r <==> x in s
    ensures |r| <= |s|
  {
    DistinctLength(s, {});
    DistinctFrom(s, {})
  }

  lemma {:induction false} DistinctLength(s: seq<string>, seen: set<string>)
    ensures |DistinctFrom(s, seen)| <= |s|
  {
    if s != [] {
      DistinctLength(s[1..], if s[0] in seen then seen else seen + {s[0]});
    }
  }

  /** A sequence without duplicates is left as it is. */
  lemma {:induction false} DistinctOfDistinct(s: seq<string>, seen: set<string>)
    requires NoDuplicates(s)
    requires forall x :: x in s ==> x !in seen
    ensures DistinctFrom(s, seen) == s
  {
    if s != [] {
      assert forall x :: x in s[1..] ==> x != s[0] by {
        forall x | x in s[1..] ensures x != s[0] {
          var i :| 0 <= i < |s[1..]| && s[1..][i] == x;
          assert s[i + 1] == x;
        }
      }
      DistinctOfDistinct(s[1..], seen + {s[0]});
    }
  }

  /** The tag names the provider returns for the entity lists of a response. */
  function TagNames(documents: seq<DocumentEntities>, f: Filters, rules: seq<EntityNameReplacement>,
                    rx: RegexReplace): seq<string>
  {
    Distinct(EntityNames(documents, f, rules, rx))
  }

  /** The output is exact: no name twice, and a name is in it exactly when it is
      the label of an accepted entity of some document. */
  lemma TagNamesExact(documents: seq<DocumentEntities>, f: Filters, rules: seq<EntityNameReplacement>,
                      rx: RegexReplace, x: string)
    ensures NoDuplicates(TagNames(documents, f, rules, rx))
    ensures x in TagNames(documents, f, rules, rx) <==>
            exists j, e :: 0 <= j < |documents| && e in documents[j].entities && IsLabelOf(x, e, f, rules, rx)
  {
    EntityNamesExact(documents, f, rules, rx, x);
  }
}
