/** Where the provider's configuration comes from: the host's key/value
    settings and its tree of configuration nodes. */
module Configuration {
  import opened Wrappers
  import opened Normalization

  const EndpointSetting: string := "AzureCognitiveServicesTextAnalytics.Endpoint"
  const DefaultEndpoint: string := "https://westus.api.cognitive.microsoft.com"
  const ExcludeSetting: string := "AzureCognitiveServicesTextAnalytics.NamedEntities.Exclude"
  const IncludeOtherSetting: string := "AzureCognitiveServicesTextAnalytics.NamedEntities.IncludeOther"
  const IncludeQuantitySetting: string := "AzureCognitiveServicesTextAnalytics.NamedEntities.IncludeQuantity"
  const KeySetting: string := "AzureCognitiveServicesTextAnalytics.Key"
  const ReplacementsPath: string :=
    "contentTagging/azureCognitiveServicesTextAnalyticsNamedEntities/entityNameReplacements/replace"

  /** The host's settings; the host may change them at any time. What the
      one-argument `GetSetting` returns for a setting that is not defined is
      the host's choice, so it is a parameter: null (`None`) or a fixed string
      such as "" (`Some("")`). */
  class SettingsStore {
    var values: map<string, string>
    const absent: Option<string>

    constructor (values: map<string, string>, absent: Option<string>)
      ensures this.values == values && this.absent == absent
    {
      this.values := values;
      this.absent := absent;
    }

    /** `GetSetting(name)`: the stored value, or the host's value for an
        undefined setting. */
    function GetSetting(name: string): Option<string>
      reads this
    {
      if name in values then Some(values[name]) else absent
    }

    /** `GetSetting(name, defaultValue)`: the default stands in for an undefined setting. */
    function GetSettingOr(name: string, defaultValue: string): string
      reads this
    {
      if name in values then values[name] else defaultValue
    }

    method Set(name: string, value: string)
      modifies this
      ensures values == old(values)[name := value]
    {
      values := values[name := value];
    }
  }

  /** A configuration node, reduced to its attributes. */
  datatype ConfigNode = ConfigNode(attributes: map<string, string>)

  /** The host's configuration tree: `GetConfigNodes(path)`. */
  class ConfigFactory {
    var nodes: map<string, seq<ConfigNode>>

    constructor (nodes: map<string, seq<ConfigNode>>)
      ensures this.nodes == nodes
    {
      this.nodes := nodes;
    }

    function GetConfigNodes(path: string): seq<ConfigNode>
      reads this
    {
      if path in nodes then nodes[path] else []
    }
  }

  /** A replace node defines a rule only when it has both attributes. */
  predicate DefinesRule(node: ConfigNode)
  {
    "pattern" in node.attributes && "replacement" in node.attributes
  }

  function RuleOf(node: ConfigNode): EntityNameReplacement
    requires DefinesRule(node)
  {
    EntityNameReplacement(node.attributes["pattern"], node.attributes["replacement"])
  }

  /** The rules of a list of replace nodes: one per node having both
      attributes, in document order. */
  function LoadReplacements(nodes: seq<ConfigNode>): (r: seq<EntityNameReplacement>)
    ensures |r| <= |nodes|
  {
    if nodes == [] then []
    else
      var last := nodes[|nodes| - 1];
      LoadReplacements(nodes[..|nodes| - 1]) + (if DefinesRule(last) then [RuleOf(last)] else [])
  }

  /** Loading keeps the document order of the nodes. */
  lemma {:induction false} LoadReplacementsAppend(a: seq<ConfigNode>, b: seq<ConfigNode>)
    ensures LoadReplacements(a + b) == LoadReplacements(a) + LoadReplacements(b)
    decreases |b|
  {
    if b == [] {
      assert a + b == a;
    } else {
      var b' := b[..|b| - 1];
      assert (a + b)[..|a + b| - 1] == a + b';
      LoadReplacementsAppend(a, b');
    }
  }

  /** A rule is loaded exactly when some node with both attributes defines it. */
  lemma {:induction false} LoadReplacementsExact(nodes: seq<ConfigNode>, rule: EntityNameReplacement)
    ensures rule in LoadReplacements(nodes) <==>
            exists i :: 0 <= i < |nodes| && DefinesRule(nodes[i]) && rule == RuleOf(nodes[i])
  {
    if nodes != [] {
      var init := nodes[..|nodes| - 1];
      LoadReplacementsExact(init, rule);
      if exists i :: 0 <= i < |init| && DefinesRule(init[i]) && rule == RuleOf(init[i]) {
        var i :| 0 <= i < |init| && DefinesRule(init[i]) && rule == RuleOf(init[i]);
        assert nodes[i] == init[i];
      }
      if exists i :: 0 <= i < |nodes| && DefinesRule(nodes[i]) && rule == RuleOf(nodes[i]) {
        var i :| 0 <= i < |nodes| && DefinesRule(nodes[i]) && rule == RuleOf(nodes[i]);
        if i < |init| {
          assert init[i] == nodes[i];
        }
      }
    }
  }
}
