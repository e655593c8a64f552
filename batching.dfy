/** The first stage of tag discovery: turning the taggable contents into the
    documents of one batch request, each with a sequential id and a text the
    service accepts. */
module Batching {
  import opened Wrappers
  import opened Text

  /** Per-document limit the provider applies; the service's own limit is 5,120
      characters, so this keeps a margin. */
  const MaxDocumentLength: nat := 5100

  /** One element of the sequence of taggable contents handed to the provider. */
  datatype TaggableContent =
    | NullContent
      // a null element
    | StringContent(content: Option<string>)
      // the only kind the provider reads; its Content may itself be null
    | OtherContent(castError: string)
      // any other kind of content: the provider's loop casts every element to
      // StringContent, so this one raises an invalid-cast error with this message

  /** One input document of the batch request: its id and its text. */
  datatype Document = Document(id: string, text: string)

  /** The text the provider reads from a content: null for a null element. */
  function ContentText(c: TaggableContent): Option<string>
  {
    if c.StringContent? then c.content else None
  }

  /** Contents whose text is null or empty are skipped. */
  predicate IsSubmitted(c: TaggableContent)
  {
    ContentText(c).Some? && ContentText(c).value != ""
  }

  /** Cuts a text down to the document limit: the result is the longest prefix
      of `text` within the limit. */
  function Truncate(text: string): (r: string)
    ensures |r| <= MaxDocumentLength
    ensures |text| <= MaxDocumentLength ==> r == text
    ensures |text| > MaxDocumentLength ==> |r| == MaxDocumentLength && r == text[..MaxDocumentLength]
  {
    if |text| > MaxDocumentLength then text[..MaxDocumentLength] else text
  }

  /** The texts sent for `contents`, in input order: the non-empty ones, truncated. */
  function SubmittedTexts(contents: seq<TaggableContent>): (r: seq<string>)
    ensures forall i :: 0 <= i < |r| ==> 1 <= |r[i]| <= MaxDocumentLength
  {
    if contents == [] then []
    else
      var last := contents[|contents| - 1];
      SubmittedTexts(contents[..|contents| - 1]) +
        (if IsSubmitted(last) then [Truncate(ContentText(last).value)] else [])
  }

  /** The error raised by the first content that is not a StringContent, if any. */
  function CastError(contents: seq<TaggableContent>): Option<string>
  {
    if contents == [] then None
    else if contents[0].OtherContent? then Some(contents[0].castError)
    else CastError(contents[1..])
  }

  /** The documents for a sequence of texts: the i-th text gets id i in decimal. */
  function Documents(texts: seq<string>): (r: seq<Document>)
    ensures |r| == |texts|
    ensures forall i :: 0 <= i < |r| ==> r[i].text == texts[i]
  {
    if texts == [] then []
    else Documents(texts[..|texts| - 1]) + [Document(NatToString(|texts| - 1), texts[|texts| - 1])]
  }

  /** The i-th document has id i in decimal. */
  lemma {:induction false} DocumentId(texts: seq<string>, i: nat)
    requires i < |texts|
    ensures Documents(texts)[i].id == NatToString(i)
  {
    if i < |texts| - 1 {
      DocumentId(texts[..|texts| - 1], i);
    }
  }

  /** No two documents of a batch share an id. */
  lemma DocumentIdsDistinct(texts: seq<string>, i: nat, j: nat)
    requires i < j < |texts|
    ensures Documents(texts)[i].id != Documents(texts)[j].id
  {
    DocumentId(texts, i);
    DocumentId(texts, j);
    NatToStringInjective(i, j);
  }

  /** What batching produces: the cast error of the first foreign content, or the documents. */
  function Batch(contents: seq<TaggableContent>): (r: Result<seq<Document>, string>)
    ensures r.Failure? <==> exists i :: 0 <= i < |contents| && contents[i].OtherContent?
  {
    CastErrorIff(contents);
    match CastError(contents)
    case Some(e) => Failure(e)
    case None => Success(Documents(SubmittedTexts(contents)))
  }

  /** The batching loop: skips null and empty texts, truncates the rest and
      numbers them "0", "1", ... as they are added. */
  method BuildDocuments(contents: seq<TaggableContent>) returns (r: Result<seq<Document>, string>)
    ensures r == Batch(contents)
  {
    var documents: seq<Document> := [];
    var id: nat := 0;
    var i := 0;
    while i < |contents|
      invariant 0 <= i <= |contents|
      invariant forall j :: 0 <= j < i ==> !contents[j].OtherContent?
      invariant documents == Documents(SubmittedTexts(contents[..i]))
      invariant id == |documents|
    {
      var c := contents[i];
      if c.OtherContent? {
        CastErrorIsFirst(contents, i);
        return Failure(c.castError);
      }
      BatchStep(contents, i);
      var text := if c.StringContent? then c.content else None;
      if text.Some? && text.value != "" {
        var t := text.value;
        if |t| > MaxDocumentLength {
          t := t[..MaxDocumentLength];
        }
        documents := documents + [Document(NatToString(id), t)];
        id := id + 1;
      }
      i := i + 1;
    }
    assert contents[..i] == contents;
    CastErrorNone(contents);
    return Success(documents);
  }

  /** One more content adds at most one document, numbered after the others. */
  lemma BatchStep(contents: seq<TaggableContent>, i: nat)
    requires i < |contents|
    ensures var texts := SubmittedTexts(contents[..i]);
      var c := contents[i];
      Documents(SubmittedTexts(contents[..i + 1])) ==
        Documents(texts) +
        (if IsSubmitted(c) then [Document(NatToString(|texts|), Truncate(ContentText(c).value))] else [])
  {
    assert contents[..i + 1][..i] == contents[..i];
    var texts := SubmittedTexts(contents[..i]);
    if IsSubmitted(contents[i]) {
      var t := Truncate(ContentText(contents[i]).value);
      assert SubmittedTexts(contents[..i + 1]) == texts + [t];
      assert (texts + [t])[..|texts|] == texts;
      assert (texts + [t])[|texts|] == t;
    } else {
      assert SubmittedTexts(contents[..i + 1]) == texts;
    }
  }

  /** A cast error is raised exactly when some content is not a StringContent. */
  lemma {:induction false} CastErrorIff(contents: seq<TaggableContent>)
    ensures CastError(contents).Some? <==> exists i :: 0 <= i < |contents| && contents[i].OtherContent?
  {
    if contents != [] && !contents[0].OtherContent? {
      var rest := contents[1..];
      CastErrorIff(rest);
      if exists i :: 0 <= i < |rest| && rest[i].OtherContent? {
        var i :| 0 <= i < |rest| && rest[i].OtherContent?;
        assert contents[i + 1].OtherContent?;
      }
      if exists i :: 0 <= i < |contents| && contents[i].OtherContent? {
        var i :| 0 <= i < |contents| && contents[i].OtherContent?;
        assert rest[i - 1].OtherContent?;
      }
    }
  }

  lemma {:induction false} CastErrorIsFirst(contents: seq<TaggableContent>, i: nat)
    requires i < |contents| && contents[i].OtherContent?
    requires forall j :: 0 <= j < i ==> !contents[j].OtherContent?
    ensures CastError(contents) == Some(contents[i].castError)
  {
    if i > 0 {
      CastErrorIsFirst(contents[1..], i - 1);
    }
  }

  lemma {:induction false} CastErrorNone(contents: seq<TaggableContent>)
    requires forall j :: 0 <= j < |contents| ==> !contents[j].OtherContent?
    ensures CastError(contents) == None
  {
    if contents != [] {
      CastErrorNone(contents[1..]);
    }
  }

  /** Batching keeps the input order: the texts of a concatenation are the texts
      of its parts, concatenated. */
  lemma {:induction false} SubmittedTextsAppend(a: seq<TaggableContent>, b: seq<TaggableContent>)
    ensures SubmittedTexts(a + b) == SubmittedTexts(a) + SubmittedTexts(b)
    decreases |b|
  {
    if b == [] {
      assert a + b == a;
    } else {
      var b' := b[..|b| - 1];
      assert (a + b)[..|a + b| - 1] == a + b';
      SubmittedTextsAppend(a, b');
    }
  }

  /** A single content is sent exactly when its text is non-null and non-empty. */
  lemma SubmittedTextsSingle(c: TaggableContent)
    ensures SubmittedTexts([c]) == if IsSubmitted(c) then [Truncate(ContentText(c).value)] else []
  {
    assert [c][..0] == [];
  }

  /** There is nothing to send exactly when every content is null or empty. */
  lemma {:induction false} NothingSubmitted(contents: seq<TaggableContent>)
    ensures SubmittedTexts(contents) == [] <==> forall i :: 0 <= i < |contents| ==> !IsSubmitted(contents[i])
  {
    if contents != [] {
      var p := contents[..|contents| - 1];
      NothingSubmitted(p);
      assert forall i :: 0 <= i < |p| ==> p[i] == contents[i];
    }
  }

  /** The i-th document of a successful batch has id i in decimal and a text
      within the limit. */
  lemma BatchDocumentsShape(contents: seq<TaggableContent>, i: nat)
    requires Batch(contents).Success? && i < |Batch(contents).value|
    ensures var d := Batch(contents).value[i];
      d.id == NatToString(i) && 1 <= |d.text| <= MaxDocumentLength
  {
    DocumentId(SubmittedTexts(contents), i);
  }
}
