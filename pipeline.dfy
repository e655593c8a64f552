/** One tag-discovery call as a value: from the contents, the configuration
    and the service's answer to the tags returned, the request sent (if any)
    and the error messages posted. */
module Pipeline {
  import opened Wrappers
  import opened Text
  import opened Batching
  import opened Entities
  import opened Normalization
  import opened Tags

  /** The batch request: the configured endpoint, the subscription key that
      authenticates it, and the documents. */
  datatype Request = Request(endpoint: string, key: Option<string>, documents: seq<Document>)

  /** A document the service could not process, with the service's message. */
  datatype DocumentError = DocumentError(id: string, message: string)

  /** The service's answer: entity lists for the documents it processed and
      errors for the others. */
  datatype Response = Response(documents: seq<DocumentEntities>, errors: seq<DocumentError>)

  /** What the batch call does: it answers, or it raises an exception
      (network, authentication or service failure) with a message. */
  datatype Outcome = Responded(response: Response) | Threw(message: string)

  /** The only severity the provider posts. */
  datatype MessageLevel = Error

  datatype Message = Message(body: string, level: MessageLevel)

  /** The configuration one call works with. */
  datatype Config = Config(endpoint: string, key: Option<string>, filters: Filters,
                           replacements: seq<EntityNameReplacement>)

  /** The message texts keep the source's spelling. */
  const ErrorPrefix: string := "Azure Cogntive Services Text Analytics Error: "

  /** The message for one document error, at level Error. */
  function DocumentErrorMessage(e: DocumentError): (m: Message)
    ensures m.level == Error && ErrorPrefix <= m.body
  {
    Message(ErrorPrefix + e.id + " Message: " + e.message, Error)
  }

  /** The message for an exception caught by the call, at level Error. */
  function ExceptionMessage(message: string): (m: Message)
    ensures m.level == Error && ErrorPrefix <= m.body
  {
    Message(ErrorPrefix + message, Error)
  }

  /** One message per document error, in the order of the errors. */
  function ErrorMessages(errors: seq<DocumentError>): (r: seq<Message>)
    ensures |r| == |errors|
    ensures forall i :: 0 <= i < |r| ==> r[i] == DocumentErrorMessage(errors[i])
  {
    if errors == [] then [] else [DocumentErrorMessage(errors[0])] + ErrorMessages(errors[1..])
  }

  /** The observable effect of one call. */
  datatype Exchange = Exchange(tags: seq<string>, request: Option<Request>, messages: seq<Message>)

  /** One tag-discovery call. A content that is not a StringContent makes the
      batching loop raise before anything is sent; no document means no request;
      a raising service call yields no tags and one exception message; an
      answer yields one message per document error and the de-duplicated labels
      of the accepted entities of every document in the answer. */
  function Discover(contents: seq<TaggableContent>, cfg: Config, respond: Request -> Outcome,
                    rx: RegexReplace): (x: Exchange)
    ensures NoDuplicates(x.tags)
    ensures x.request.None? ==> x.tags == []
  {
    match Batch(contents)
    case Failure(e) => Exchange([], None, [ExceptionMessage(e)])
    case Success(docs) =>
      if docs == [] then Exchange([], None, [])
      else
        var request := Request(cfg.endpoint, cfg.key, docs);
        Answer(request, respond(request), cfg.filters, cfg.replacements, rx)
  }

  /** The part of a call after the request is sent: a raising call yields no
      tags and one exception message; an answer yields one message per
      document error and the de-duplicated labels of the accepted entities. */
  function Answer(request: Request, outcome: Outcome, filters: Filters,
                  replacements: seq<EntityNameReplacement>, rx: RegexReplace): (x: Exchange)
    ensures x.request == Some(request)
    ensures outcome.Threw? ==> x.tags == [] && x.messages == [ExceptionMessage(outcome.message)]
    ensures outcome.Responded? ==> x.messages == ErrorMessages(outcome.response.errors)
  {
    match outcome
    case Threw(e) => Exchange([], Some(request), [ExceptionMessage(e)])
    case Responded(response) =>
      Exchange(TagNames(response.documents, filters, replacements, rx), Some(request),
               ErrorMessages(response.errors))
  }

  /** The request of a call depends on the batch alone. */
  lemma DiscoverRequest(contents: seq<TaggableContent>, cfg: Config, respond: Request -> Outcome,
                        rx: RegexReplace)
    ensures Discover(contents, cfg, respond, rx).request ==
            match Batch(contents)
            case Failure(_) => None
            case Success(docs) => if docs == [] then None else Some(Request(cfg.endpoint, cfg.key, docs))
  {
    match Batch(contents)
    case Failure(_) =>
    case Success(docs) =>
      if docs != [] {
        match respond(Request(cfg.endpoint, cfg.key, docs))
        case Threw(_) =>
        case Responded(_) =>
      }
  }

  /** Without a non-empty text there is no request, no tag and no message. */
  lemma NoDocumentsNoCall(contents: seq<TaggableContent>, cfg: Config, respond: Request -> Outcome,
                          rx: RegexReplace)
    requires forall i :: 0 <= i < |contents| ==> contents[i].NullContent? || contents[i].StringContent?
    requires forall i :: 0 <= i < |contents| ==> !IsSubmitted(contents[i])
    ensures Discover(contents, cfg, respond, rx) == Exchange([], None, [])
  {
    CastErrorNone(contents);
    NothingSubmitted(contents);
  }

  /** A request is sent exactly when some content has a non-empty text (and
      no foreign content stops the loop first); it carries the configured
      endpoint and key and one document per such text, numbered from "0", each
      within the document limit. */
  lemma RequestShape(contents: seq<TaggableContent>, cfg: Config, respond: Request -> Outcome,
                     rx: RegexReplace)
    requires CastError(contents) == None
    ensures Discover(contents, cfg, respond, rx).request.Some? <==>
            exists i :: 0 <= i < |contents| && IsSubmitted(contents[i])
    ensures Discover(contents, cfg, respond, rx).request.Some? ==>
            Discover(contents, cfg, respond, rx).request.value ==
            Request(cfg.endpoint, cfg.key, Documents(SubmittedTexts(contents)))
  {
    var texts := SubmittedTexts(contents);
    assert Batch(contents) == Success(Documents(texts));
    assert Documents(texts) == [] <==> texts == [];
    NothingSubmitted(contents);
    DiscoverRequest(contents, cfg, respond, rx);
  }

  /** The first content that is not a StringContent makes the call yield
      nothing, send nothing and post the cast error. */
  lemma CastFailureYieldsNothing(contents: seq<TaggableContent>, cfg: Config, respond: Request -> Outcome,
                                 rx: RegexReplace, i: nat)
    requires i < |contents| && contents[i].OtherContent?
    requires forall j :: 0 <= j < i ==> !contents[j].OtherContent?
    ensures Discover(contents, cfg, respond, rx) ==
            Exchange([], None, [ExceptionMessage(contents[i].castError)])
  {
    CastErrorIsFirst(contents, i);
  }

  /** A raising service call yields no tags and exactly one exception message. */
  lemma ServiceFailureYieldsNothing(contents: seq<TaggableContent>, cfg: Config, respond: Request -> Outcome,
                                    rx: RegexReplace)
    requires Discover(contents, cfg, respond, rx).request.Some?
    requires respond(Discover(contents, cfg, respond, rx).request.value).Threw?
    ensures var x := Discover(contents, cfg, respond, rx);
      x.tags == [] && x.messages == [ExceptionMessage(respond(x.request.value).message)]
  {
  }

  /** Document errors are reported, one message each, and do not stop the
      tags of the other documents: the tags are those of an answer without errors. */
  lemma ErrorsDoNotBlockTags(contents: seq<TaggableContent>, cfg: Config, respond: Request -> Outcome,
                             rx: RegexReplace)
    requires Discover(contents, cfg, respond, rx).request.Some?
    requires respond(Discover(contents, cfg, respond, rx).request.value).Responded?
    ensures var x := Discover(contents, cfg, respond, rx);
      var response := respond(x.request.value).response;
      var clean := (request: Request) => Responded(Response(response.documents, []));
      |x.messages| == |response.errors| &&
      x.tags == Discover(contents, cfg, clean, rx).tags &&
      Discover(contents, cfg, clean, rx).messages == []
  {
  }

  /** The tags of an answered call are exact: no tag twice, and a tag is
      returned exactly when it is the label of an accepted entity of some
      document of the answer. */
  lemma AnsweredTagsExact(contents: seq<TaggableContent>, cfg: Config, respond: Request -> Outcome,
                          rx: RegexReplace, t: string)
    requires Discover(contents, cfg, respond, rx).request.Some?
    requires respond(Discover(contents, cfg, respond, rx).request.value).Responded?
    ensures var x := Discover(contents, cfg, respond, rx);
      var docs := respond(x.request.value).response.documents;
      NoDuplicates(x.tags) &&
      (t in x.tags <==> exists j, e :: 0 <= j < |docs| && e in docs[j].entities &&
                                       IsLabelOf(t, e, cfg.filters, cfg.replacements, rx))
  {
    var x := Discover(contents, cfg, respond, rx);
    var docs := respond(x.request.value).response.documents;
    TagNamesExact(docs, cfg.filters, cfg.replacements, rx, t);
  }

  /** With a Quantity list free of upper case, as the provider's always is,
      every tag of an answered call labels an accepted entity that is not a
      Quantity with an upper-case letter in its name. */
  lemma UpperCaseQuantitiesNeverTagged(contents: seq<TaggableContent>, cfg: Config,
                                       respond: Request -> Outcome, rx: RegexReplace, t: string)
    requires NoUpperCase(cfg.filters.includeQuantity)
    requires Discover(contents, cfg, respond, rx).request.Some?
    requires respond(Discover(contents, cfg, respond, rx).request.value).Responded?
    requires t in Discover(contents, cfg, respond, rx).tags
    ensures var x := Discover(contents, cfg, respond, rx);
      var docs := respond(x.request.value).response.documents;
      exists j, e :: 0 <= j < |docs| && e in docs[j].entities &&
                     IsLabelOf(t, e, cfg.filters, cfg.replacements, rx) &&
                     !(e.entityType == Quantity && HasUpper(e.name))
  {
    var x := Discover(contents, cfg, respond, rx);
    var docs := respond(x.request.value).response.documents;
    AnsweredTagsExact(contents, cfg, respond, rx, t);
    var j, e :| 0 <= j < |docs| && e in docs[j].entities && IsLabelOf(t, e, cfg.filters, cfg.replacements, rx);
    if e.entityType == Quantity && HasUpper(e.name) {
      UpperCaseQuantityNeverIncluded(e, cfg.filters);
    }
  }
}
