/** Label-selector matching and schema identifiers (pkg/utils/utils.go). */
module Utils {
  import opened Base

  type Labels = map<string, string>

  /** The meaning of a selector: the object carries at least one label, and
      every selector key is present with exactly the selector's value. An
      object without labels is never selected, even by an empty selector. */
  predicate LabelsMatch(labels: Labels, selector: Labels) {
    && |labels| > 0
    && forall key :: key in selector ==> key in labels && labels[key] == selector[key]
  }

  /** The Go loop: reject empty label maps, then walk the selector's keys and
      stop at the first key that is missing or carries another value. */
  method MatchesLabelSelector(labels: Labels, selector: Labels) returns (matched: bool)
    ensures matched <==> LabelsMatch(labels, selector)
  {
    if |labels| == 0 {
      return false;
    }
    var pending := selector.Keys;
    while pending != {}
      invariant pending <= selector.Keys
      invariant forall key :: key in selector && key !in pending ==>
          key in labels && labels[key] == selector[key]
      decreases pending
    {
      var key :| key in pending;
      if key !in labels || labels[key] != selector[key] {
        return false;
      }
      pending := pending - {key};
    }
    return true;
  }

  lemma EmptyLabelsNeverMatch(selector: Labels)
    ensures !LabelsMatch(map[], selector)
  {
  }

  lemma EmptySelectorMatchesAnyLabels(labels: Labels)
    requires |labels| > 0
    ensures LabelsMatch(labels, map[])
  {
  }

  /** Adding labels never unselects an object: a larger label map that agrees
      on every label of a matching map matches too. */
  lemma MatchIsMonotonic(labels: Labels, larger: Labels, selector: Labels)
    requires LabelsMatch(labels, selector)
    requires forall key :: key in labels ==> key in larger && larger[key] == labels[key]
    ensures LabelsMatch(larger, selector)
  {
    var key :| key in labels;
    assert key in larger;
  }

  /** `apiVersion + "/" + kind`, the identifier under which a resource shape
      is registered. */
  function JSONSchemaID(apiVersion: string, kind: string): string {
    Join(apiVersion, '/', kind)
  }

  /** A schema identifier names one (apiVersion, kind) pair: Kubernetes kinds
      never contain a slash, so the identifier splits back at its last one,
      while the apiVersion ("group/version") may contain slashes. It is never
      empty, which is what lets a message store tell "registered" apart. */
  lemma SchemaIdIdentifiesKind(apiVersion1: string, kind1: string, apiVersion2: string, kind2: string)
    requires '/' !in kind1 && '/' !in kind2
    ensures JSONSchemaID(apiVersion1, kind1) != ""
    ensures JSONSchemaID(apiVersion1, kind1) == JSONSchemaID(apiVersion2, kind2)
        <==> apiVersion1 == apiVersion2 && kind1 == kind2
  {
    if JSONSchemaID(apiVersion1, kind1) == JSONSchemaID(apiVersion2, kind2) {
      JoinInjectiveRight(apiVersion1, kind1, apiVersion2, kind2, '/');
    }
  }
}
