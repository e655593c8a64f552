/** The discovery provider: an object that reads its configuration lazily,
    caches every value it reads, and turns taggable contents into tags by one
    batch call to the named-entity service. */
module Provider {
  import opened Wrappers
  import opened Text
  import opened SettingsParsing
  import opened Batching
  import opened Entities
  import opened Normalization
  import opened Tags
  import opened Pipeline
  import opened Configuration

  /** The host's message bus: posting a message appends it to what was sent. */
  class MessageBus {
    var sent: seq<Message>

    constructor ()
      ensures sent == []
    {
      sent := [];
    }

    method SendMessage(m: Message)
      modifies this
      ensures sent == old(sent) + [m]
    {
      sent := sent + [m];
    }
  }

  /** The remote named-entity service, seen from the provider: it answers a
      batch request as `respond` says and remembers the requests it received. */
  class TextAnalyticsService {
    const respond: Request -> Outcome
    var requests: seq<Request>

    constructor (respond: Request -> Outcome)
      ensures this.respond == respond && requests == []
    {
      this.respond := respond;
      requests := [];
    }

    method EntitiesBatch(request: Request) returns (outcome: Outcome)
      modifies this
      ensures requests == old(requests) + [request]
      ensures outcome == respond(request)
    {
      requests := requests + [request];
      outcome := respond(request);
    }
  }

  /** A tag handed back to the host. */
  datatype TagData = TagData(tagName: string)

  function RequestLog(request: Option<Request>): seq<Request>
  {
    if request.Some? then [request.value] else []
  }

  class DiscoveryProvider {
    const baseSettings: SettingsStore
    const baseFactory: ConfigFactory
    /** The regex engine that runs the replacement rules. */
    const regexReplace: RegexReplace
    /** Set by the host; may be null. */
    var messageBus: MessageBus?

    // The caches: empty (null) until the first read of each value.
    var endpoint: Option<string>
    var exclude: Option<seq<string>>
    var entityNameReplacements: Option<seq<EntityNameReplacement>>
    var includeOther: Option<seq<string>>
    var includeQuantity: Option<seq<string>>
    var key: Option<string>

    constructor (baseSettings: SettingsStore, baseFactory: ConfigFactory, regexReplace: RegexReplace)
      ensures this.baseSettings == baseSettings && this.baseFactory == baseFactory
      ensures this.regexReplace == regexReplace && messageBus == null
      ensures endpoint == None && exclude == None && entityNameReplacements == None
      ensures includeOther == None && includeQuantity == None && key == None
      ensures Valid()
    {
      this.baseSettings := baseSettings;
      this.baseFactory := baseFactory;
      this.regexReplace := regexReplace;
      messageBus := null;
      endpoint, exclude, entityNameReplacements := None, None, None;
      includeOther, includeQuantity, key := None, None, None;
    }

    /** The class invariant: the cached Quantity list has no upper-case
        element, since the getter caches a parsed list. (The other two lists
        are only ever searched for lower-cased names.) */
    ghost predicate Valid()
      reads this`includeQuantity
    {
      includeQuantity.Some? ==> NoUpperCase(includeQuantity.value)
    }

    // The value each getter returns now: the cached one, or else what it
    // would read from the host at this moment.

    ghost function CurrentEndpoint(): string
      reads this`endpoint, baseSettings
    {
      if endpoint.Some? then endpoint.value else baseSettings.GetSettingOr(EndpointSetting, DefaultEndpoint)
    }

    ghost function CurrentKey(): Option<string>
      reads this`key, baseSettings
    {
      if key.Some? then key else baseSettings.GetSetting(KeySetting)
    }

    ghost function CurrentExclude(): seq<string>
      reads this`exclude, baseSettings
    {
      if exclude.Some? then exclude.value
      else PipeSeparatedStringToList(baseSettings.GetSetting(ExcludeSetting))
    }

    ghost function CurrentIncludeOther(): seq<string>
      reads this`includeOther, baseSettings
    {
      if includeOther.Some? then includeOther.value
      else PipeSeparatedStringToList(baseSettings.GetSetting(IncludeOtherSetting))
    }

    ghost function CurrentIncludeQuantity(): seq<string>
      reads this`includeQuantity, baseSettings
    {
      if includeQuantity.Some? then includeQuantity.value
      else PipeSeparatedStringToList(baseSettings.GetSetting(IncludeQuantitySetting))
    }

    ghost function CurrentReplacements(): seq<EntityNameReplacement>
      reads this`entityNameReplacements, baseFactory
    {
      if entityNameReplacements.Some? then entityNameReplacements.value
      else LoadReplacements(baseFactory.GetConfigNodes(ReplacementsPath))
    }

    ghost function CurrentFilters(): Filters
      reads this`exclude, this`includeOther, this`includeQuantity, baseSettings
    {
      Filters(CurrentExclude(), CurrentIncludeOther(), CurrentIncludeQuantity())
    }

    /** Under the invariant, the Quantity list in effect has no upper-case element. */
    lemma QuantityListLowerCase()
      requires Valid()
      ensures NoUpperCase(CurrentIncludeQuantity())
    {
      if includeQuantity.None? {
        ParsedListLowerCase(baseSettings.GetSetting(IncludeQuantitySetting));
      }
    }

    ghost function CurrentConfig(): Config
      reads this`endpoint, this`key, this`exclude, this`includeOther, this`includeQuantity,
            this`entityNameReplacements, baseSettings, baseFactory
    {
      Config(CurrentEndpoint(), CurrentKey(), CurrentFilters(), CurrentReplacements())
    }

    /** Reads the endpoint setting, with its default, on first use only. */
    method Endpoint() returns (r: string)
      modifies this`endpoint
      ensures r == old(CurrentEndpoint()) && endpoint == Some(r)
    {
      if endpoint == None {
        endpoint := Some(baseSettings.GetSettingOr(EndpointSetting, DefaultEndpoint));
      }
      r := endpoint.value;
    }

    /** Reads the key setting until it is found; a missing key stays uncached. */
    method Key() returns (r: Option<string>)
      modifies this`key
      ensures r == old(CurrentKey()) && key == r
    {
      if key == None {
        key := baseSettings.GetSetting(KeySetting);
      }
      r := key;
    }

    method Exclude() returns (r: seq<string>)
      modifies this`exclude
      ensures r == old(CurrentExclude()) && exclude == Some(r)
    {
      if exclude == None {
        exclude := Some(PipeSeparatedStringToList(baseSettings.GetSetting(ExcludeSetting)));
      }
      r := exclude.value;
    }

    method IncludeOther() returns (r: seq<string>)
      modifies this`includeOther
      ensures r == old(CurrentIncludeOther()) && includeOther == Some(r)
    {
      if includeOther == None {
        includeOther := Some(PipeSeparatedStringToList(baseSettings.GetSetting(IncludeOtherSetting)));
      }
      r := includeOther.value;
    }

    method IncludeQuantity() returns (r: seq<string>)
      modifies this`includeQuantity
      requires Valid()
      ensures Valid()
      ensures r == old(CurrentIncludeQuantity()) && includeQuantity == Some(r)
    {
      if includeQuantity == None {
        ParsedListLowerCase(baseSettings.GetSetting(IncludeQuantitySetting));
        includeQuantity := Some(PipeSeparatedStringToList(baseSettings.GetSetting(IncludeQuantitySetting)));
      }
      r := includeQuantity.value;
    }

    /** Builds the rule list on first use from the replace nodes that have both
        a pattern and a replacement, in document order. */
    method EntityNameReplacements() returns (r: seq<EntityNameReplacement>)
      modifies this`entityNameReplacements
      ensures r == old(CurrentReplacements()) && entityNameReplacements == Some(r)
    {
      if entityNameReplacements == None {
        entityNameReplacements := Some([]);
        var replaceNodes := baseFactory.GetConfigNodes(ReplacementsPath);
        for i := 0 to |replaceNodes|
          invariant entityNameReplacements == Some(LoadReplacements(replaceNodes[..i]))
        {
          assert replaceNodes[..i + 1][..i] == replaceNodes[..i];
          var replaceNode := replaceNodes[i];
          if "pattern" in replaceNode.attributes && "replacement" in replaceNode.attributes {
            var rule := EntityNameReplacement(replaceNode.attributes["pattern"],
                                              replaceNode.attributes["replacement"]);
            assert LoadReplacements(replaceNodes[..i + 1]) == LoadReplacements(replaceNodes[..i]) + [rule];
            entityNameReplacements := Some(entityNameReplacements.value + [rule]);
          } else {
            assert !DefinesRule(replaceNode);
            assert LoadReplacements(replaceNodes[..i + 1]) == LoadReplacements(replaceNodes[..i]);
          }
        }
        assert replaceNodes[..|replaceNodes|] == replaceNodes;
      }
      r := entityNameReplacements.value;
    }

    /** The provider counts as configured exactly when its key is non-empty. */
    method IsConfigured() returns (b: bool)
      modifies this`key
      ensures b <==> old(CurrentKey()).Some? && old(CurrentKey()).value != ""
      ensures key == old(CurrentKey())
    {
      var k := Key();
      b := k.Some? && k.value != "";
    }

    /** The configured rules in order, then Trim. */
    method NormalizeEntityName(name: string) returns (r: string)
      modifies this`entityNameReplacements
      ensures r == Normalize(old(CurrentReplacements()), name, regexReplace)
      ensures entityNameReplacements == Some(old(CurrentReplacements()))
    {
      var rules := EntityNameReplacements();
      r := NormalizeName(rules, name, regexReplace);
    }

    method ReportException(message: string)
      modifies messageBus
      ensures messageBus != null ==> messageBus.sent == old(messageBus.sent) + [ExceptionMessage(message)]
    {
      var bus := messageBus;
      if bus != null {
        bus.SendMessage(ExceptionMessage(message));
      }
    }

    /** The filter lists and the replacement rules in effect are those in
        effect at the start: a cache may have been filled since, but only with
        the value that was in effect. */
    twostate predicate EntityViewUnchanged()
      reads this`exclude, this`includeOther, this`includeQuantity, this`entityNameReplacements,
            baseSettings, baseFactory
    {
      CurrentExclude() == old(CurrentExclude()) &&
      CurrentIncludeOther() == old(CurrentIncludeOther()) &&
      CurrentIncludeQuantity() == old(CurrentIncludeQuantity()) &&
      CurrentReplacements() == old(CurrentReplacements())
    }

    /** The inclusion test, reading each list only when the condition before
        it leaves the verdict open. */
    method Accepts(entity: Entity) returns (accepted: bool)
      modifies this`exclude, this`includeOther, this`includeQuantity
      requires Valid()
      ensures accepted == IsIncluded(entity, old(CurrentFilters()))
      ensures entity.entityType == Quantity && HasUpper(entity.name) ==> !accepted
      ensures EntityViewUnchanged() && Valid()
    {
      if entity.entityType == Quantity && HasUpper(entity.name) {
        QuantityListLowerCase();
        NoUpperCaseExcludes(CurrentIncludeQuantity(), entity.name);
      }
      accepted := false;
      var excluded := Exclude();
      if Lower(entity.name) !in excluded {
        if entity.entityType == Organization || entity.entityType == Location {
          accepted := true;
        } else if entity.entityType == Other {
          var other := IncludeOther();
          accepted := Lower(entity.name) in other;
        } else if entity.entityType == Quantity {
          var quantity := IncludeQuantity();
          accepted := entity.name in quantity;
        }
      }
    }

    /** The label of an accepted entity. */
    method EntityLabel(entity: Entity) returns (text: string)
      modifies this`entityNameReplacements
      ensures text == TagLabel(entity, Normalize(old(CurrentReplacements()), entity.name, regexReplace))
      ensures entityNameReplacements == Some(old(CurrentReplacements()))
      ensures EntityViewUnchanged()
    {
      var name := NormalizeEntityName(entity.name);
      if entity.subType.Some? {
        text := entity.entityType + " - " + entity.subType.value + " - " + name;
      } else {
        text := entity.entityType + " - " + name;
      }
    }

    /** The inner loop over the entities of one document. */
    method CollectDocumentLabels(entities: seq<Entity>) returns (labels: seq<string>)
      modifies this`exclude, this`includeOther, this`includeQuantity, this`entityNameReplacements
      ensures labels == DocumentLabels(entities, old(CurrentFilters()), old(CurrentReplacements()), regexReplace)
      requires Valid()
      ensures EntityViewUnchanged() && Valid()
    {
      labels := [];
      for j := 0 to |entities|
        invariant labels == DocumentLabels(entities[..j], old(CurrentFilters()), old(CurrentReplacements()), regexReplace)
        invariant EntityViewUnchanged() && Valid()
      {
        assert entities[..j + 1][..j] == entities[..j];
        var accepted := Accepts(entities[j]);
        if accepted {
          var text := EntityLabel(entities[j]);
          labels := labels + [text];
        }
      }
      assert entities[..|entities|] == entities;
    }

    /** The outer loop over the documents of the answer. */
    method CollectEntityNames(documents: seq<DocumentEntities>) returns (entityNames: seq<string>)
      modifies this`exclude, this`includeOther, this`includeQuantity, this`entityNameReplacements
      ensures entityNames == EntityNames(documents, old(CurrentFilters()), old(CurrentReplacements()), regexReplace)
      requires Valid()
      ensures EntityViewUnchanged() && Valid()
    {
      entityNames := [];
      for d := 0 to |documents|
        invariant entityNames == EntityNames(documents[..d], old(CurrentFilters()), old(CurrentReplacements()), regexReplace)
        invariant EntityViewUnchanged() && Valid()
      {
        assert documents[..d + 1][..d] == documents[..d];
        var labels := CollectDocumentLabels(documents[d].entities);
        entityNames := entityNames + labels;
      }
      assert documents[..|documents|] == documents;
    }

    /** One message per document error, when there is a message bus. */
    method ReportDocumentErrors(errors: seq<DocumentError>)
      modifies messageBus
      ensures messageBus != null ==> messageBus.sent == old(messageBus.sent) + ErrorMessages(errors)
    {
      if |errors| > 0 {
        var bus := messageBus;
        if bus != null {
          for i := 0 to |errors|
            invariant bus.sent == old(bus.sent) + ErrorMessages(errors[..i])
          {
            assert errors[..i + 1] == errors[..i] + [errors[i]];
            ErrorMessagesAppend(errors[..i], [errors[i]]);
            bus.SendMessage(DocumentErrorMessage(errors[i]));
          }
          assert errors[..|errors|] == errors;
        }
      }
    }

    /** What the provider does with an answer: report its document errors,
        then collect and de-duplicate the labels of its accepted entities. */
    method ProcessResults(results: Response) returns (names: seq<string>)
      modifies this`exclude, this`includeOther, this`includeQuantity, this`entityNameReplacements, messageBus
      ensures names == TagNames(results.documents, old(CurrentFilters()), old(CurrentReplacements()), regexReplace)
      requires Valid()
      ensures messageBus != null ==> messageBus.sent == old(messageBus.sent) + ErrorMessages(results.errors)
      ensures EntityViewUnchanged() && Valid()
    {
      ReportDocumentErrors(results.errors);
      var entityNames := CollectEntityNames(results.documents);
      names := Distinct(entityNames);
    }

    /** The batch call and what follows it: a raising call is reported and
        yields nothing; an answer is processed. */
    method SendBatch(request: Request, service: TextAnalyticsService) returns (names: seq<string>)
      modifies this`exclude, this`includeOther, this`includeQuantity, this`entityNameReplacements,
               service, messageBus
      ensures var x := Answer(request, service.respond(request), old(CurrentFilters()),
                              old(CurrentReplacements()), regexReplace);
        names == x.tags && service.requests == old(service.requests) + [request] &&
        (messageBus != null ==> messageBus.sent == old(messageBus.sent) + x.messages)
      requires Valid()
      ensures EntityViewUnchanged() && Valid()
    {
      var outcome := service.EntitiesBatch(request);
      if outcome.Threw? {
        ReportException(outcome.message);
        return [];
      }
      names := ProcessResults(outcome.response);
    }

    /** Tag discovery. The tags, the request the service receives and the
        messages posted are those of Discover for the configuration in effect
        when the call starts; the key and endpoint are read before anything
        else, so those caches are filled on every call. */
    method GetTags(contents: seq<TaggableContent>, service: TextAnalyticsService) returns (tags: seq<TagData>)
      modifies this`endpoint, this`key, this`exclude, this`includeOther, this`includeQuantity,
               this`entityNameReplacements, service, messageBus
      ensures var x := Discover(contents, old(CurrentConfig()), service.respond, regexReplace);
        tags == ToTagData(x.tags) &&
        service.requests == old(service.requests) + RequestLog(x.request) &&
        (messageBus != null ==> messageBus.sent == old(messageBus.sent) + x.messages)
      requires Valid()
      ensures EntityViewUnchanged() && Valid()
      ensures NoUpperCase(old(CurrentIncludeQuantity()))
      ensures key == old(CurrentKey()) && endpoint == Some(old(CurrentEndpoint()))
    {
      QuantityListLowerCase();
      ghost var cfg := CurrentConfig();
      ghost var x := Discover(contents, cfg, service.respond, regexReplace);
      var k := Key();
      var ep := Endpoint();
      var batch := BuildDocuments(contents);
      if batch.Failure? {
        assert x == Exchange([], None, [ExceptionMessage(batch.error)]);
        ReportException(batch.error);
        return [];
      }
      var documents := batch.value;
      if documents == [] {
        assert x == Exchange([], None, []);
        return [];
      }
      var request := Request(ep, k, documents);
      assert x == Answer(request, service.respond(request), cfg.filters, cfg.replacements, regexReplace);
      var names := SendBatch(request, service);
      tags := ToTagData(names);
    }
  }

  /** One tag per name, in order. */
  function ToTagData(names: seq<string>): (r: seq<TagData>)
    ensures |r| == |names| && forall i :: 0 <= i < |r| ==> r[i].tagName == names[i]
  {
    seq(|names|, i requires 0 <= i < |names| => TagData(names[i]))
  }

  lemma {:induction false} ErrorMessagesAppend(a: seq<DocumentError>, b: seq<DocumentError>)
    ensures ErrorMessages(a + b) == ErrorMessages(a) + ErrorMessages(b)
  {
    if a != [] {
      assert (a + b)[1..] == a[1..] + b;
      ErrorMessagesAppend(a[1..], b);
    } else {
      assert a + b == b;
    }
  }

  /** A client's view, for a host whose undefined settings read as null: once
      the exclusion list has been read, a later change of the setting does not
      reach the provider, while an unset key is read again and picked up. */
  method CachedValuesOutliveSettingChanges(rx: RegexReplace)
  {
    var settings := new SettingsStore(map[ExcludeSetting := "Acme|Contoso"], None);
    var factory := new ConfigFactory(map[]);
    var provider := new DiscoveryProvider(settings, factory, rx);
    var configured := provider.IsConfigured();
    assert !configured;
    var first := provider.Exclude();
    settings.Set(ExcludeSetting, "Fabrikam");
    settings.Set(KeySetting, "secret");
    var second := provider.Exclude();
    assert second == first;
    configured := provider.IsConfigured();
    assert configured;
  }

  /** For a host whose undefined settings read as "", the first read caches the
      empty key, so a key set later never makes the provider configured. */
  method EmptyKeyIsCachedForGood(rx: RegexReplace)
  {
    var settings := new SettingsStore(map[], Some(""));
    var factory := new ConfigFactory(map[]);
    var provider := new DiscoveryProvider(settings, factory, rx);
    var configured := provider.IsConfigured();
    assert !configured;
    settings.Set(KeySetting, "secret");
    configured := provider.IsConfigured();
    assert !configured;
  }
}
