/** services/rules.py: pick the strictest enabled rule that an event satisfies. */
module PyRules {
  import opened Util
  import opened PyTables

  predicate Applies(r: Rule, category: string, severity: int) {
    r.enabled && r.category == category && r.minimumSeverity <= severity
  }

  /** Rows of equal threshold are unordered in the query; the model returns the earliest of them. */
  function Match(rules: seq<Rule>, category: string, severity: int): (r: Option<nat>)
    ensures r.None? <==> forall i :: 0 <= i < |rules| ==> !Applies(rules[i], category, severity)
    ensures r.Some? ==> r.value < |rules| && Applies(rules[r.value], category, severity)
    ensures r.Some? ==> forall i :: 0 <= i < |rules| && Applies(rules[i], category, severity) ==>
              rules[i].minimumSeverity <= rules[r.value].minimumSeverity
    ensures r.Some? ==> forall i :: 0 <= i < r.value && Applies(rules[i], category, severity) ==>
              rules[i].minimumSeverity < rules[r.value].minimumSeverity
  {
    if rules == [] then None
    else
      var last := |rules| - 1;
      var best := Match(rules[..last], category, severity);
      if !Applies(rules[last], category, severity) then best
      else if best.Some? && rules[last].minimumSeverity <= rules[best.value].minimumSeverity then best
      else Some(last)
  }
}
