# Named-entity tag discovery for Sitecore content tagging

This project models the discovery provider of the Sitecore text-analytics
integration. The provider turns a page's taggable contents into tags. It
sends every non-empty text, cut to 5100 characters, as one numbered document
of a single batch request to the Azure Cognitive Services named-entity
service. It keeps the entities that its configuration accepts:

- an entity whose lower-cased name is excluded is never kept;
- organisations and locations are always kept otherwise;
- "Other" entities are kept only when listed, by lower-cased name;
- "Quantity" entities are kept only when listed, by exact name.

Each kept entity becomes a label "Type - SubType - Name" or "Type - Name".
The name goes through the configured regex replacement rules, in order, and
is then trimmed. The labels are de-duplicated. A document error reported by
the service becomes one error message on the host's message bus. Any
exception makes the call post one error message and return no tags.

The settings are read lazily and cached: the endpoint (with its default),
the key, the three '|'-separated lists and the replacement rules. A cache is
filled on first use and never re-read. The key cache stays empty while the
host answers null for the key; what the host answers for an undefined
setting is a parameter of the settings store (null or a string such as "").
Line breaks in a list setting are `Environment.NewLine`, fixed here to
`SettingsParsing.NewLine`, "\r\n".

The model has a pure layer and a stateful layer.

The pure layer sits in the modules Text, SettingsParsing, Batching,
Entities, Normalization, Tags and Pipeline. Its centre is
`Pipeline.Discover`, one call as a value: the contents, the configuration
and the service's answer go in; the tags, the request sent and the messages
posted come out.

The stateful layer is the class `Provider.DiscoveryProvider`. It has one
field per cache, and its getters, loops and `GetTags` follow the source step
by step. Each method is proved against the pure layer for the configuration
in effect when the call starts. The ghost functions `Current*` say, for each
cache, what its getter would return now: the cached value, or what the host
holds.

Dependencies are modelled as follows:

- The host's settings and configuration nodes are the classes
  `Configuration.SettingsStore` and `Configuration.ConfigFactory`. They are
  given to the provider's constructor.
- The message bus is `Provider.MessageBus`, which records what was sent.
- The remote service is `Provider.TextAnalyticsService`. It answers with a
  fixed function of the request and records every request it receives.
- The regex engine is a function `(pattern, input, replacement) -> output`
  that the provider holds.

## Model

All source cells refer to
`src/OneNorth.SitecoreTextAnalytics/ContentTagging/Providers/AzureCognitiveServicesTextAnalyticsNamedEntitiesDiscoveryProvider.cs`,
abbreviated here only in prose; each cell gives the full path.

| member | source | states |
|---|---|---|
| Batching.ContentText | src/OneNorth.SitecoreTextAnalytics/ContentTagging/Providers/AzureCognitiveServicesTextAnalyticsNamedEntitiesDiscoveryProvider.cs:144 | the text of a content: none for a null content, else its (possibly null) Content |
| Batching.IsSubmitted | src/OneNorth.SitecoreTextAnalytics/ContentTagging/Providers/AzureCognitiveServicesTextAnalyticsNamedEntitiesDiscoveryProvider.cs:144-146 | a content is sent exactly when its text is non-null and non-empty |
| Batching.Truncate | src/OneNorth.SitecoreTextAnalytics/ContentTagging/Providers/AzureCognitiveServicesTextAnalyticsNamedEntitiesDiscoveryProvider.cs:148-149 | a document text is at most 5100 characters; a text within the limit is unchanged, and a longer one is its first 5100 characters |
| Batching.SubmittedTexts | src/OneNorth.SitecoreTextAnalytics/ContentTagging/Providers/AzureCognitiveServicesTextAnalyticsNamedEntitiesDiscoveryProvider.cs:142-155 | every text sent has between 1 and 5100 characters |
| Batching.Documents | src/OneNorth.SitecoreTextAnalytics/ContentTagging/Providers/AzureCognitiveServicesTextAnalyticsNamedEntitiesDiscoveryProvider.cs:153-154 | one document per text, carrying that text, in order |
| Batching.DocumentId | src/OneNorth.SitecoreTextAnalytics/ContentTagging/Providers/AzureCognitiveServicesTextAnalyticsNamedEntitiesDiscoveryProvider.cs:153-154 | the i-th document's id is `i.ToString()` |
| Batching.DocumentIdsDistinct | src/OneNorth.SitecoreTextAnalytics/ContentTagging/Providers/AzureCognitiveServicesTextAnalyticsNamedEntitiesDiscoveryProvider.cs:153-154 | no two documents of a batch share an id |
| Batching.CastError | src/OneNorth.SitecoreTextAnalytics/ContentTagging/Providers/AzureCognitiveServicesTextAnalyticsNamedEntitiesDiscoveryProvider.cs:142 | the cast error of the first content that is neither null nor a StringContent, if any |
| Batching.CastErrorIff | src/OneNorth.SitecoreTextAnalytics/ContentTagging/Providers/AzureCognitiveServicesTextAnalyticsNamedEntitiesDiscoveryProvider.cs:142 | a cast error is raised exactly when some content is neither null nor a StringContent |
| Batching.Batch | src/OneNorth.SitecoreTextAnalytics/ContentTagging/Providers/AzureCognitiveServicesTextAnalyticsNamedEntitiesDiscoveryProvider.cs:140-155 | the batch fails exactly when some content is not a StringContent, and otherwise holds one numbered document per submitted text |
| Batching.BuildDocuments | src/OneNorth.SitecoreTextAnalytics/ContentTagging/Providers/AzureCognitiveServicesTextAnalyticsNamedEntitiesDiscoveryProvider.cs:140-155 | the batching loop returns exactly `Batch(contents)`: the cast error of the first non-string content, or else the numbered, truncated non-empty texts |
| Batching.BatchStep | src/OneNorth.SitecoreTextAnalytics/ContentTagging/Providers/AzureCognitiveServicesTextAnalyticsNamedEntitiesDiscoveryProvider.cs:143-154 | one more content adds a document numbered after the others when its text is non-null and non-empty, and adds nothing otherwise |
| Batching.CastErrorIsFirst | src/OneNorth.SitecoreTextAnalytics/ContentTagging/Providers/AzureCognitiveServicesTextAnalyticsNamedEntitiesDiscoveryProvider.cs:142 | the error raised is that of the first content that is not a StringContent |
| Batching.CastErrorNone | src/OneNorth.SitecoreTextAnalytics/ContentTagging/Providers/AzureCognitiveServicesTextAnalyticsNamedEntitiesDiscoveryProvider.cs:142 | contents that are all null or StringContent raise no cast error |
| Batching.SubmittedTextsAppend | src/OneNorth.SitecoreTextAnalytics/ContentTagging/Providers/AzureCognitiveServicesTextAnalyticsNamedEntitiesDiscoveryProvider.cs:142-155 | batching keeps input order: the texts of a concatenation are the concatenated texts of its parts |
| Batching.SubmittedTextsSingle | src/OneNorth.SitecoreTextAnalytics/ContentTagging/Providers/AzureCognitiveServicesTextAnalyticsNamedEntitiesDiscoveryProvider.cs:144-149 | one content is sent, truncated, exactly when its text is non-null and non-empty |
| Batching.NothingSubmitted | src/OneNorth.SitecoreTextAnalytics/ContentTagging/Providers/AzureCognitiveServicesTextAnalyticsNamedEntitiesDiscoveryProvider.cs:144-146 | no text is sent exactly when every content is null or has a null or empty text |
| Batching.BatchDocumentsShape | src/OneNorth.SitecoreTextAnalytics/ContentTagging/Providers/AzureCognitiveServicesTextAnalyticsNamedEntitiesDiscoveryProvider.cs:148-154 | the i-th document of a successful batch has id i in decimal and a text of 1 to 5100 characters |
| Text.LeadingWhiteSpace | src/OneNorth.SitecoreTextAnalytics/ContentTagging/Providers/AzureCognitiveServicesTextAnalyticsNamedEntitiesDiscoveryProvider.cs:242 | the length of the longest all-white-space prefix |
| Text.TrailingWhiteSpace | src/OneNorth.SitecoreTextAnalytics/ContentTagging/Providers/AzureCognitiveServicesTextAnalyticsNamedEntitiesDiscoveryProvider.cs:242 | the length of the longest all-white-space suffix |
| Text.Trim | src/OneNorth.SitecoreTextAnalytics/ContentTagging/Providers/AzureCognitiveServicesTextAnalyticsNamedEntitiesDiscoveryProvider.cs:242 | `String.Trim`: the result neither starts nor ends with white space, and is the input with a white-space prefix and a white-space suffix removed |
| Text.TrimOfTrimmed | src/OneNorth.SitecoreTextAnalytics/ContentTagging/Providers/AzureCognitiveServicesTextAnalyticsNamedEntitiesDiscoveryProvider.cs:242 | trimming a trimmed string changes nothing |
| Text.TrimIdempotent | src/OneNorth.SitecoreTextAnalytics/ContentTagging/Providers/AzureCognitiveServicesTextAnalyticsNamedEntitiesDiscoveryProvider.cs:242 | trimming twice is trimming once |
| Text.TrimEmptyIff | src/OneNorth.SitecoreTextAnalytics/ContentTagging/Providers/AzureCognitiveServicesTextAnalyticsNamedEntitiesDiscoveryProvider.cs:242 | trimming gives "" exactly when the input is all white space |
| Text.TrimKeepsCharacters | src/OneNorth.SitecoreTextAnalytics/ContentTagging/Providers/AzureCognitiveServicesTextAnalyticsNamedEntitiesDiscoveryProvider.cs:242 | trimming introduces no character |
| Text.IsWhiteSpace | src/OneNorth.SitecoreTextAnalytics/ContentTagging/Providers/AzureCognitiveServicesTextAnalyticsNamedEntitiesDiscoveryProvider.cs:242 | the characters `Trim` removes: the ASCII white space, U+0085 and U+00A0 |
| Text.LowerChar | src/OneNorth.SitecoreTextAnalytics/ContentTagging/Providers/AzureCognitiveServicesTextAnalyticsNamedEntitiesDiscoveryProvider.cs:187-189 | a lowered character is not upper case; an upper-case letter becomes a different, lower-case ASCII letter and any other character stays |
| Text.Lower | src/OneNorth.SitecoreTextAnalytics/ContentTagging/Providers/AzureCognitiveServicesTextAnalyticsNamedEntitiesDiscoveryProvider.cs:187-189 | lower-casing keeps the length |
| Text.LowerIsLowered | src/OneNorth.SitecoreTextAnalytics/ContentTagging/Providers/AzureCognitiveServicesTextAnalyticsNamedEntitiesDiscoveryProvider.cs:187-189 | a lowered string has no upper-case letter, and lowering it again changes nothing |
| Text.UpperNeverLowered | src/OneNorth.SitecoreTextAnalytics/ContentTagging/Providers/AzureCognitiveServicesTextAnalyticsNamedEntitiesDiscoveryProvider.cs:187-189 | a string with an upper-case letter is the lowered form of no string |
| Text.LowerKeepsShape | src/OneNorth.SitecoreTextAnalytics/ContentTagging/Providers/AzureCognitiveServicesTextAnalyticsNamedEntitiesDiscoveryProvider.cs:229 | lowering keeps a string trimmed and introduces no '\|' |
| Text.NoUpperCaseFromElements | src/OneNorth.SitecoreTextAnalytics/ContentTagging/Providers/AzureCognitiveServicesTextAnalyticsNamedEntitiesDiscoveryProvider.cs:229 | a list whose every element lacks an upper-case letter has no upper-case element |
| Text.NoUpperCaseExcludes | src/OneNorth.SitecoreTextAnalytics/ContentTagging/Providers/AzureCognitiveServicesTextAnalyticsNamedEntitiesDiscoveryProvider.cs:190 | a string with an upper-case letter is not an element of a list without upper-case elements |
| Text.RemoveAll | src/OneNorth.SitecoreTextAnalytics/ContentTagging/Providers/AzureCognitiveServicesTextAnalyticsNamedEntitiesDiscoveryProvider.cs:229 | `Replace(pattern, "")`: removing a pattern never lengthens a string |
| Text.RemoveAllAbsent | src/OneNorth.SitecoreTextAnalytics/ContentTagging/Providers/AzureCognitiveServicesTextAnalyticsNamedEntitiesDiscoveryProvider.cs:229 | a string that lacks the pattern's first character is unchanged |
| Text.SegmentEnd | src/OneNorth.SitecoreTextAnalytics/ContentTagging/Providers/AzureCognitiveServicesTextAnalyticsNamedEntitiesDiscoveryProvider.cs:229 | the position of the first '\|', or the length when there is none |
| Text.Split | src/OneNorth.SitecoreTextAnalytics/ContentTagging/Providers/AzureCognitiveServicesTextAnalyticsNamedEntitiesDiscoveryProvider.cs:229 | `Split('\|', RemoveEmptyEntries)`: every piece is non-empty and free of '\|' |
| Text.SplitSegment | src/OneNorth.SitecoreTextAnalytics/ContentTagging/Providers/AzureCognitiveServicesTextAnalyticsNamedEntitiesDiscoveryProvider.cs:229 | a segment splits to itself, and a segment followed by '\|' comes off as the first piece |
| Text.SegmentEndOfSegment | src/OneNorth.SitecoreTextAnalytics/ContentTagging/Providers/AzureCognitiveServicesTextAnalyticsNamedEntitiesDiscoveryProvider.cs:229 | the first '\|' after a '\|'-free prefix is at the end of that prefix |
| Text.Join | src/OneNorth.SitecoreTextAnalytics/ContentTagging/Providers/AzureCognitiveServicesTextAnalyticsNamedEntitiesDiscoveryProvider.cs:229 | `string.Join("\|", …)`, the inverse that `SplitJoin` proves `Split` undoes |
| Text.SplitJoin | src/OneNorth.SitecoreTextAnalytics/ContentTagging/Providers/AzureCognitiveServicesTextAnalyticsNamedEntitiesDiscoveryProvider.cs:229 | round trip: non-empty '\|'-free segments joined with '\|' split back to themselves |
| Text.SplitCharacters | src/OneNorth.SitecoreTextAnalytics/ContentTagging/Providers/AzureCognitiveServicesTextAnalyticsNamedEntitiesDiscoveryProvider.cs:229 | splitting introduces no character |
| Text.DigitChar | src/OneNorth.SitecoreTextAnalytics/ContentTagging/Providers/AzureCognitiveServicesTextAnalyticsNamedEntitiesDiscoveryProvider.cs:153 | a digit's character is between '0' and '9' |
| Text.NatToString | src/OneNorth.SitecoreTextAnalytics/ContentTagging/Providers/AzureCognitiveServicesTextAnalyticsNamedEntitiesDiscoveryProvider.cs:153 | `int.ToString()` for a non-negative id: a non-empty string of digits without a leading zero |
| Text.DecimalRoundTrip | src/OneNorth.SitecoreTextAnalytics/ContentTagging/Providers/AzureCognitiveServicesTextAnalyticsNamedEntitiesDiscoveryProvider.cs:153 | reading an id's decimal digits back gives the id |
| Text.NatToStringInjective | src/OneNorth.SitecoreTextAnalytics/ContentTagging/Providers/AzureCognitiveServicesTextAnalyticsNamedEntitiesDiscoveryProvider.cs:153-154 | distinct ids have distinct decimal strings |
| SettingsParsing.Normalized | src/OneNorth.SitecoreTextAnalytics/ContentTagging/Providers/AzureCognitiveServicesTextAnalyticsNamedEntitiesDiscoveryProvider.cs:229 | `x.Trim().ToLower()`: the result is trimmed, has no upper-case letter and no '\|' the segment lacked |
| SettingsParsing.PipeSeparatedStringToList | src/OneNorth.SitecoreTextAnalytics/ContentTagging/Providers/AzureCognitiveServicesTextAnalyticsNamedEntitiesDiscoveryProvider.cs:225-230 | null or "" gives the empty list; every element is trimmed, lower-case and free of '\|' |
| SettingsParsing.ParsedListLowerCase | src/OneNorth.SitecoreTextAnalytics/ContentTagging/Providers/AzureCognitiveServicesTextAnalyticsNamedEntitiesDiscoveryProvider.cs:229 | no element of a parsed list has an upper-case letter |
| SettingsParsing.ParseJoined | src/OneNorth.SitecoreTextAnalytics/ContentTagging/Providers/AzureCognitiveServicesTextAnalyticsNamedEntitiesDiscoveryProvider.cs:225-230 | entries joined with '\|' parse back to the same number of entries, each trimmed and lower-cased, in order |
| SettingsParsing.JoinNonEmpty | src/OneNorth.SitecoreTextAnalytics/ContentTagging/Providers/AzureCognitiveServicesTextAnalyticsNamedEntitiesDiscoveryProvider.cs:227 | a joined value with a non-empty first entry is not "", so it takes the parsing path |
| SettingsParsing.JoinAvoids | src/OneNorth.SitecoreTextAnalytics/ContentTagging/Providers/AzureCognitiveServicesTextAnalyticsNamedEntitiesDiscoveryProvider.cs:229 | joining with '\|' introduces no other character |
| SettingsParsing.BlankEntrySurvives | src/OneNorth.SitecoreTextAnalytics/ContentTagging/Providers/AzureCognitiveServicesTextAnalyticsNamedEntitiesDiscoveryProvider.cs:229 | an all-white-space entry such as "a\| \|b" is not removed (emptiness is tested before trimming) and becomes "" in the list |
| SettingsParsing.UpperCaseNeverListed | src/OneNorth.SitecoreTextAnalytics/ContentTagging/Providers/AzureCognitiveServicesTextAnalyticsNamedEntitiesDiscoveryProvider.cs:190 | a name with an upper-case letter is in no parsed list, so the exact-name Quantity test can never pass for it |
| SettingsParsing.UpperCaseQuantityRejected | src/OneNorth.SitecoreTextAnalytics/ContentTagging/Providers/AzureCognitiveServicesTextAnalyticsNamedEntitiesDiscoveryProvider.cs:190 | a Quantity entity whose name has an upper-case letter is rejected by a parsed Quantity list |
| Entities.IsIncluded | src/OneNorth.SitecoreTextAnalytics/ContentTagging/Providers/AzureCognitiveServicesTextAnalyticsNamedEntitiesDiscoveryProvider.cs:187-190 | the inclusion predicate, case by case: exclusion by lower-cased name wins; Organization and Location are kept; Other is kept iff listed by lower-cased name; Quantity iff listed by exact name; any other type never |
| Entities.ExclusionWins | src/OneNorth.SitecoreTextAnalytics/ContentTagging/Providers/AzureCognitiveServicesTextAnalyticsNamedEntitiesDiscoveryProvider.cs:187 | an excluded name is rejected whatever the include lists hold and whatever its type |
| Entities.UpperCaseQuantityNeverIncluded | src/OneNorth.SitecoreTextAnalytics/ContentTagging/Providers/AzureCognitiveServicesTextAnalyticsNamedEntitiesDiscoveryProvider.cs:190 | against a Quantity list without upper-case elements, a Quantity entity whose name has an upper-case letter is rejected |
| Entities.IncludeListsOnlyForTheirType | src/OneNorth.SitecoreTextAnalytics/ContentTagging/Providers/AzureCognitiveServicesTextAnalyticsNamedEntitiesDiscoveryProvider.cs:188 | the include lists play no part for organisations and locations |
| Entities.TagLabel | src/OneNorth.SitecoreTextAnalytics/ContentTagging/Providers/AzureCognitiveServicesTextAnalyticsNamedEntitiesDiscoveryProvider.cs:193-196 | the label is "Type - SubType - Name" with a subtype and "Type - Name" without |
| Entities.TagLabelDeterminesName | src/OneNorth.SitecoreTextAnalytics/ContentTagging/Providers/AzureCognitiveServicesTextAnalyticsNamedEntitiesDiscoveryProvider.cs:193-196 | for the same type and subtype, equal labels mean equal normalised names |
| Entities.TagLabelCollision | src/OneNorth.SitecoreTextAnalytics/ContentTagging/Providers/AzureCognitiveServicesTextAnalyticsNamedEntitiesDiscoveryProvider.cs:193-196 | the format is ambiguous: a subtyped entity's label equals the label of the same type without subtype whose name is "SubType - Name" |
| Normalization.ApplyReplacements | src/OneNorth.SitecoreTextAnalytics/ContentTagging/Providers/AzureCognitiveServicesTextAnalyticsNamedEntitiesDiscoveryProvider.cs:237-240 | each rule's regex replacement applied in turn to the output of the previous one |
| Normalization.ApplyReplacementsAppend | src/OneNorth.SitecoreTextAnalytics/ContentTagging/Providers/AzureCognitiveServicesTextAnalyticsNamedEntitiesDiscoveryProvider.cs:237-240 | the rules run in list order: applying a concatenation applies the first part, then the second |
| Normalization.FirstRuleFirst | src/OneNorth.SitecoreTextAnalytics/ContentTagging/Providers/AzureCognitiveServicesTextAnalyticsNamedEntitiesDiscoveryProvider.cs:237-240 | the first rule sees the raw name and the rest see its output |
| Normalization.Normalize | src/OneNorth.SitecoreTextAnalytics/ContentTagging/Providers/AzureCognitiveServicesTextAnalyticsNamedEntitiesDiscoveryProvider.cs:232-243 | a normalised name neither starts nor ends with white space |
| Normalization.NormalizeWithoutRules | src/OneNorth.SitecoreTextAnalytics/ContentTagging/Providers/AzureCognitiveServicesTextAnalyticsNamedEntitiesDiscoveryProvider.cs:232-243 | without rules, normalising is trimming |
| Normalization.TwoRuleExample | src/OneNorth.SitecoreTextAnalytics/ContentTagging/Providers/AzureCognitiveServicesTextAnalyticsNamedEntitiesDiscoveryProvider.cs:237-242 | with an engine that behaves so, the rules "Inc\.$" then "\s+$" turn "Acme Inc." into "Acme" |
| Normalization.NormalizeName | src/OneNorth.SitecoreTextAnalytics/ContentTagging/Providers/AzureCognitiveServicesTextAnalyticsNamedEntitiesDiscoveryProvider.cs:232-243 | the loop computes `Normalize(rules, name)`, a trimmed name |
| Tags.DocumentLabels | src/OneNorth.SitecoreTextAnalytics/ContentTagging/Providers/AzureCognitiveServicesTextAnalyticsNamedEntitiesDiscoveryProvider.cs:185-198 | the labels of a document's accepted entities in entity order; `DocumentLabelsExact` characterises them |
| Tags.EntityNames | src/OneNorth.SitecoreTextAnalytics/ContentTagging/Providers/AzureCognitiveServicesTextAnalyticsNamedEntitiesDiscoveryProvider.cs:183-199 | the labels of all documents, in document order and with repeats; `EntityNamesExact` characterises them |
| Tags.DocumentLabelsExact | src/OneNorth.SitecoreTextAnalytics/ContentTagging/Providers/AzureCognitiveServicesTextAnalyticsNamedEntitiesDiscoveryProvider.cs:185-198 | a label is collected for a document iff it is the label of an accepted entity of that document |
| Tags.EntityNamesExact | src/OneNorth.SitecoreTextAnalytics/ContentTagging/Providers/AzureCognitiveServicesTextAnalyticsNamedEntitiesDiscoveryProvider.cs:183-199 | a label is collected iff it is the label of an accepted entity of some document of the answer |
| Tags.DistinctFrom | src/OneNorth.SitecoreTextAnalytics/ContentTagging/Providers/AzureCognitiveServicesTextAnalyticsNamedEntitiesDiscoveryProvider.cs:201 | first occurrences of the names not yet seen: no duplicates, and a name is kept iff it occurs and was not seen |
| Tags.Distinct | src/OneNorth.SitecoreTextAnalytics/ContentTagging/Providers/AzureCognitiveServicesTextAnalyticsNamedEntitiesDiscoveryProvider.cs:201 | `Distinct()`: no duplicates, the same set of names, no longer than the input |
| Tags.DistinctLength | src/OneNorth.SitecoreTextAnalytics/ContentTagging/Providers/AzureCognitiveServicesTextAnalyticsNamedEntitiesDiscoveryProvider.cs:201 | de-duplication never lengthens the list |
| Tags.DistinctOfDistinct | src/OneNorth.SitecoreTextAnalytics/ContentTagging/Providers/AzureCognitiveServicesTextAnalyticsNamedEntitiesDiscoveryProvider.cs:201 | a list without duplicates is returned unchanged, order included |
| Tags.TagNames | src/OneNorth.SitecoreTextAnalytics/ContentTagging/Providers/AzureCognitiveServicesTextAnalyticsNamedEntitiesDiscoveryProvider.cs:181-201 | the collected labels de-duplicated; `TagNamesExact` characterises them |
| Tags.TagNamesExact | src/OneNorth.SitecoreTextAnalytics/ContentTagging/Providers/AzureCognitiveServicesTextAnalyticsNamedEntitiesDiscoveryProvider.cs:183-201 | the tag names have no duplicates, and a name is among them iff it labels an accepted entity of some document |
| Configuration.DefinesRule | src/OneNorth.SitecoreTextAnalytics/ContentTagging/Providers/AzureCognitiveServicesTextAnalyticsNamedEntitiesDiscoveryProvider.cs:96-98 | a replace node yields a rule exactly when it has both a pattern and a replacement attribute |
| Configuration.RuleOf | src/OneNorth.SitecoreTextAnalytics/ContentTagging/Providers/AzureCognitiveServicesTextAnalyticsNamedEntitiesDiscoveryProvider.cs:100-104 | the rule of such a node: its pattern and its replacement |
| Configuration.LoadReplacements | src/OneNorth.SitecoreTextAnalytics/ContentTagging/Providers/AzureCognitiveServicesTextAnalyticsNamedEntitiesDiscoveryProvider.cs:93-109 | there are no more rules than nodes |
| Configuration.LoadReplacementsAppend | src/OneNorth.SitecoreTextAnalytics/ContentTagging/Providers/AzureCognitiveServicesTextAnalyticsNamedEntitiesDiscoveryProvider.cs:94-109 | rules are loaded in document order |
| Configuration.LoadReplacementsExact | src/OneNorth.SitecoreTextAnalytics/ContentTagging/Providers/AzureCognitiveServicesTextAnalyticsNamedEntitiesDiscoveryProvider.cs:96-107 | a rule is loaded iff some node carries both a pattern and a replacement attribute that give it |
| Pipeline.DocumentErrorMessage | src/OneNorth.SitecoreTextAnalytics/ContentTagging/Providers/AzureCognitiveServicesTextAnalyticsNamedEntitiesDiscoveryProvider.cs:170-174 | a document error becomes an error-level message starting with "Azure Cogntive Services Text Analytics Error: " |
| Pipeline.ExceptionMessage | src/OneNorth.SitecoreTextAnalytics/ContentTagging/Providers/AzureCognitiveServicesTextAnalyticsNamedEntitiesDiscoveryProvider.cs:208-212 | an exception becomes an error-level message starting with the same prefix |
| Pipeline.ErrorMessages | src/OneNorth.SitecoreTextAnalytics/ContentTagging/Providers/AzureCognitiveServicesTextAnalyticsNamedEntitiesDiscoveryProvider.cs:168-177 | one message per document error, in order, each "…Error: {id} Message: {message}" at level Error |
| Pipeline.Answer | src/OneNorth.SitecoreTextAnalytics/ContentTagging/Providers/AzureCognitiveServicesTextAnalyticsNamedEntitiesDiscoveryProvider.cs:161-216 | once the request is sent: a raising call yields no tags and one exception message; an answer yields one message per document error |
| Pipeline.DiscoverRequest | src/OneNorth.SitecoreTextAnalytics/ContentTagging/Providers/AzureCognitiveServicesTextAnalyticsNamedEntitiesDiscoveryProvider.cs:129-161 | the request depends on the batch alone: none for a cast error or no documents, or else the configured endpoint and key with the documents |
| Pipeline.NoDocumentsNoCall | src/OneNorth.SitecoreTextAnalytics/ContentTagging/Providers/AzureCognitiveServicesTextAnalyticsNamedEntitiesDiscoveryProvider.cs:157-158 | when every content is null or has a null or empty text: no request, no tag, no message |
| Pipeline.RequestShape | src/OneNorth.SitecoreTextAnalytics/ContentTagging/Providers/AzureCognitiveServicesTextAnalyticsNamedEntitiesDiscoveryProvider.cs:129-161 | without a cast error, a request is sent iff some content has a non-empty text, and it carries the configured endpoint and key and the numbered documents |
| Pipeline.CastFailureYieldsNothing | src/OneNorth.SitecoreTextAnalytics/ContentTagging/Providers/AzureCognitiveServicesTextAnalyticsNamedEntitiesDiscoveryProvider.cs:203-216 | the first non-string content ends the call with no request, no tag and exactly its exception message |
| Pipeline.ServiceFailureYieldsNothing | src/OneNorth.SitecoreTextAnalytics/ContentTagging/Providers/AzureCognitiveServicesTextAnalyticsNamedEntitiesDiscoveryProvider.cs:203-216 | a raising service call yields no tags and exactly one exception message |
| Pipeline.ErrorsDoNotBlockTags | src/OneNorth.SitecoreTextAnalytics/ContentTagging/Providers/AzureCognitiveServicesTextAnalyticsNamedEntitiesDiscoveryProvider.cs:163-201 | document errors give one message each and leave the tags as they would be without errors |
| Pipeline.AnsweredTagsExact | src/OneNorth.SitecoreTextAnalytics/ContentTagging/Providers/AzureCognitiveServicesTextAnalyticsNamedEntitiesDiscoveryProvider.cs:181-201 | the tags of an answered call have no duplicates, and a tag is returned iff it labels an accepted entity of some answered document |
| Pipeline.UpperCaseQuantitiesNeverTagged | src/OneNorth.SitecoreTextAnalytics/ContentTagging/Providers/AzureCognitiveServicesTextAnalyticsNamedEntitiesDiscoveryProvider.cs:187-201 | with a Quantity list free of upper case, every tag labels an accepted entity that is not an upper-case Quantity |
| Pipeline.Discover | src/OneNorth.SitecoreTextAnalytics/ContentTagging/Providers/AzureCognitiveServicesTextAnalyticsNamedEntitiesDiscoveryProvider.cs:125-217 | one call as a value: whatever happens no tag is returned twice, and no request means no tags |
| Provider.MessageBus.SendMessage | src/OneNorth.SitecoreTextAnalytics/ContentTagging/Providers/AzureCognitiveServicesTextAnalyticsNamedEntitiesDiscoveryProvider.cs:170-174 | a sent message is appended to what was sent |
| Provider.TextAnalyticsService.EntitiesBatch | src/OneNorth.SitecoreTextAnalytics/ContentTagging/Providers/AzureCognitiveServicesTextAnalyticsNamedEntitiesDiscoveryProvider.cs:161 | the service records the request and answers it as its response function says |
| Provider.DiscoveryProvider.constructor | src/OneNorth.SitecoreTextAnalytics/ContentTagging/Providers/AzureCognitiveServicesTextAnalyticsNamedEntitiesDiscoveryProvider.cs:119-123 | a new provider has every cache empty and no message bus, and meets the class invariant `Valid` (the cached Quantity list has no upper-case element) |
| Provider.DiscoveryProvider.Endpoint | src/OneNorth.SitecoreTextAnalytics/ContentTagging/Providers/AzureCognitiveServicesTextAnalyticsNamedEntitiesDiscoveryProvider.cs:34-42 | returns the cached endpoint, or else the setting with its default "https://westus.api.cognitive.microsoft.com"; the cache then holds it |
| Provider.DiscoveryProvider.Key | src/OneNorth.SitecoreTextAnalytics/ContentTagging/Providers/AzureCognitiveServicesTextAnalyticsNamedEntitiesDiscoveryProvider.cs:75-83 | returns the cached key, or else the setting; an unset key leaves the cache empty |
| Provider.DiscoveryProvider.Exclude | src/OneNorth.SitecoreTextAnalytics/ContentTagging/Providers/AzureCognitiveServicesTextAnalyticsNamedEntitiesDiscoveryProvider.cs:45-53 | returns the cached exclusion list, or else the parsed setting; the cache then holds it |
| Provider.DiscoveryProvider.IncludeOther | src/OneNorth.SitecoreTextAnalytics/ContentTagging/Providers/AzureCognitiveServicesTextAnalyticsNamedEntitiesDiscoveryProvider.cs:55-63 | the same for the Other inclusion list |
| Provider.DiscoveryProvider.IncludeQuantity | src/OneNorth.SitecoreTextAnalytics/ContentTagging/Providers/AzureCognitiveServicesTextAnalyticsNamedEntitiesDiscoveryProvider.cs:65-73 | the same for the Quantity inclusion list; the invariant `Valid` is kept, since a parsed list is lower case |
| Provider.DiscoveryProvider.QuantityListLowerCase | src/OneNorth.SitecoreTextAnalytics/ContentTagging/Providers/AzureCognitiveServicesTextAnalyticsNamedEntitiesDiscoveryProvider.cs:65-73 | under the invariant, the Quantity list in effect, cached or still to be read, has no upper-case element |
| Provider.DiscoveryProvider.EntityNameReplacements | src/OneNorth.SitecoreTextAnalytics/ContentTagging/Providers/AzureCognitiveServicesTextAnalyticsNamedEntitiesDiscoveryProvider.cs:85-113 | returns the cached rules, or else builds them from the replace nodes (`LoadReplacements`); the cache then holds them |
| Provider.DiscoveryProvider.IsConfigured | src/OneNorth.SitecoreTextAnalytics/ContentTagging/Providers/AzureCognitiveServicesTextAnalyticsNamedEntitiesDiscoveryProvider.cs:219-223 | true iff the key in effect is set and non-empty |
| Provider.DiscoveryProvider.NormalizeEntityName | src/OneNorth.SitecoreTextAnalytics/ContentTagging/Providers/AzureCognitiveServicesTextAnalyticsNamedEntitiesDiscoveryProvider.cs:232-243 | the name normalised by the rules in effect, which are then cached |
| Provider.DiscoveryProvider.ReportException | src/OneNorth.SitecoreTextAnalytics/ContentTagging/Providers/AzureCognitiveServicesTextAnalyticsNamedEntitiesDiscoveryProvider.cs:203-214 | when there is a bus, exactly one "…Error: {message}" message is sent |
| Provider.DiscoveryProvider.Accepts | src/OneNorth.SitecoreTextAnalytics/ContentTagging/Providers/AzureCognitiveServicesTextAnalyticsNamedEntitiesDiscoveryProvider.cs:187-190 | the verdict is `IsIncluded` for the lists in effect; a Quantity entity whose name has an upper-case letter is never accepted; the lists in effect do not change and the invariant is kept |
| Provider.DiscoveryProvider.EntityLabel | src/OneNorth.SitecoreTextAnalytics/ContentTagging/Providers/AzureCognitiveServicesTextAnalyticsNamedEntitiesDiscoveryProvider.cs:192-196 | the label is `TagLabel` of the name normalised by the rules in effect, and the rule cache then holds those rules |
| Provider.DiscoveryProvider.CollectDocumentLabels | src/OneNorth.SitecoreTextAnalytics/ContentTagging/Providers/AzureCognitiveServicesTextAnalyticsNamedEntitiesDiscoveryProvider.cs:185-198 | the inner loop collects `DocumentLabels` for the configuration in effect |
| Provider.DiscoveryProvider.CollectEntityNames | src/OneNorth.SitecoreTextAnalytics/ContentTagging/Providers/AzureCognitiveServicesTextAnalyticsNamedEntitiesDiscoveryProvider.cs:181-199 | the outer loop collects `EntityNames` for the configuration in effect |
| Provider.DiscoveryProvider.ReportDocumentErrors | src/OneNorth.SitecoreTextAnalytics/ContentTagging/Providers/AzureCognitiveServicesTextAnalyticsNamedEntitiesDiscoveryProvider.cs:163-179 | when there is a bus, it receives exactly `ErrorMessages(errors)`, in order |
| Provider.DiscoveryProvider.ProcessResults | src/OneNorth.SitecoreTextAnalytics/ContentTagging/Providers/AzureCognitiveServicesTextAnalyticsNamedEntitiesDiscoveryProvider.cs:163-201 | errors are reported, then the names are `TagNames` (collected and de-duplicated) for the configuration in effect |
| Provider.DiscoveryProvider.SendBatch | src/OneNorth.SitecoreTextAnalytics/ContentTagging/Providers/AzureCognitiveServicesTextAnalyticsNamedEntitiesDiscoveryProvider.cs:160-216 | the service receives the request once, and the names and messages are those of `Answer` for its response |
| Provider.DiscoveryProvider.GetTags | src/OneNorth.SitecoreTextAnalytics/ContentTagging/Providers/AzureCognitiveServicesTextAnalyticsNamedEntitiesDiscoveryProvider.cs:125-217 | the tags, the requests logged by the service and the messages sent are exactly those of `Discover` for the configuration in effect at the call; key and endpoint are read first and cached; the Quantity list in effect has no upper-case element, so `UpperCaseQuantitiesNeverTagged` applies |
| Provider.ToTagData | src/OneNorth.SitecoreTextAnalytics/ContentTagging/Providers/AzureCognitiveServicesTextAnalyticsNamedEntitiesDiscoveryProvider.cs:201 | one TagData per name, in order |
| Provider.ErrorMessagesAppend | src/OneNorth.SitecoreTextAnalytics/ContentTagging/Providers/AzureCognitiveServicesTextAnalyticsNamedEntitiesDiscoveryProvider.cs:168-177 | the messages for two runs of errors are the messages of each, concatenated |

`Provider.CachedValuesOutliveSettingChanges` is a client of the class, for
a host whose undefined settings read as null. It shows that a cached
exclusion list survives a change of its setting, and that an unset key is
read again, so `IsConfigured` turns true once the key is set.
`Provider.EmptyKeyIsCachedForGood` is the same client for a host whose
undefined settings read as "": the empty key is cached on the first read,
so `IsConfigured` stays false after the key is set.

## Left out

- The credentials class and the `Ocp-Apim-Subscription-Key` header it adds are
  not part of this model. The request carries the key as a value instead.
- How the request is sent is left out: the HTTP call, serialisation,
  retries, time-outs. The service is a function from request to outcome, and
  an outcome is an answer or an exception with its message.
- Regex semantics are left out: the engine is a parameter. Also left out:
  the IgnoreCase and Compiled options, the two-second match time-out, and
  the exceptions that an invalid pattern or a time-out raises. Regex
  construction inside the getter could fail halfway and leave a partially
  filled rule cache; the model's rule loading never fails.
- In `Text.Lower`, `ToLower` is culture-sensitive Unicode lower-casing; the
  model lowers ASCII letters only.
- In `Text.IsWhiteSpace`, `Trim` removes every Unicode white-space
  character; the model knows the ASCII ones, U+0085 and U+00A0.
- Strings are UTF-16 code units in the source and characters here. The
  5100-character cut can split a surrogate pair in the source.
- In `SettingsParsing.NewLine`, `Environment.NewLine` is platform
  dependent; the model fixes it to "\r\n", the value on the Windows hosts.
- A null entity name and null lists (`Errors`, `Documents`, `Entities`) in
  the service's answer are left out. In the source these raise
  null-reference exceptions that the catch block turns into one message.
  A null entity type raises nothing: the C# string `==` is null-safe, so such
  an entity is rejected like one of an unlisted type, which `IsIncluded`
  covers.
- `GetTags(null)` is left out, because the contents are a sequence here. In
  the source the `foreach` throws after the key and endpoint were read; the
  catch posts one message and no request is sent.
- A `SendMessage` that throws while the document errors are reported is left
  out: the bus here never throws. In the source the catch then tries to post
  one more message, and no tags are returned.
- An exception thrown after the document errors were reported is left out:
  in the source the errors stay posted and one more message follows. The
  model's entity processing never throws.
- Dependency injection through the service locator is left out. The settings
  store and the configuration factory are constructor parameters.
- The value the host's one-argument `GetSetting` gives for an undefined
  setting is not fixed by the provider's code; it is the settings store's
  `absent` parameter. The key is read again only while that value is null;
  a host answering "" fills the key cache with "" for good.
- Concurrent callers racing to fill the lazy caches are out of scope: the
  model is sequential.
- Provider.DiscoveryProvider.GetTags: states which caches hold what for the
  key and endpoint only. For the four other caches it states that the value
  in effect is unchanged, not whether the call filled them (a call that
  stops early fills none of them).
- Provider.DiscoveryProvider.Valid: the invariant is about the Quantity
  cache only. The exclusion and Other lists are searched for lower-cased
  names, so their case never changes a verdict.
- Provider.DiscoveryProvider.Accepts: states that the lists in effect are
  unchanged, not which of the three caches a call fills (it depends on the
  short-circuit order of the test).
- The service's limits (1000 documents and 1 MB per request, 5120 text
  elements per document) are noted in the source and not enforced there;
  the model enforces none of them beyond the 5100-character cut.
- `Distinct` uses ordinal, case-sensitive comparison, so labels that differ
  only in case are both kept.
- The `MessageSource` base class and the `IDiscoveryProvider` interface are
  represented only by the `messageBus` field and `GetTags`/`IsConfigured`.
