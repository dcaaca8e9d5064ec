/**
 * One side of a flashcard (models/content.py): text, or an image locator with
 * optional alternative text, and its dict form.
 */
module CardContents {
  import opened Wrappers
  import opened Json

  datatype ContentType = Text | Image

  /** The enum member's string value; `ContentType(name)` reads it back. */
  function TypeName(t: ContentType): (name: string)
    ensures name == "text" || name == "image"
    ensures ParseType(Str(name)) == Some(t)
  {
    match t
    case Text => "text"
    case Image => "image"
  }

  /** `ContentType(v)`: the member whose value is v, if there is one. */
  function ParseType(v: Value): (r: Option<ContentType>)
    ensures r.Some? <==> v == Str("text") || v == Str("image")
    ensures r == Some(Text) <==> v == Str("text")
  {
    if v == Str("text") then Some(Text)
    else if v == Str("image") then Some(Image)
    else None
  }

  datatype CardContent = CardContent(kind: ContentType, value: string, altText: Option<string>)

  /** What a card's `front` or `back` holds: a bare string, or a content object. */
  datatype Side = Raw(text: string) | Structured(content: CardContent)

  /** `CardContent.text(s)`. */
  function TextContent(s: string): (c: CardContent)
    ensures IsText(c) && c.value == s && c.altText == None
  {
    CardContent(Text, s, None)
  }

  /** `CardContent.image(url, alt_text)`. */
  function ImageContent(url: string, altText: Option<string>): (c: CardContent)
    ensures IsImage(c) && c.value == url && c.altText == altText
  {
    CardContent(Image, url, altText)
  }

  predicate IsText(c: CardContent)
    ensures IsText(c) <==> !IsImage(c)
  {
    c.kind == Text
  }

  predicate IsImage(c: CardContent)
  {
    c.kind == Image
  }

  /** `if self.alt_text:` — only a non-empty alternative text is written out. */
  predicate EmitsAltText(c: CardContent)
  {
    c.altText.Some? && c.altText.value != ""
  }

  /** What survives a dict round trip: an empty alternative text comes back as None. */
  function Normalized(c: CardContent): CardContent
  {
    if EmitsAltText(c) then c else c.(altText := None)
  }

  /** `to_dict`. Its partner is FromDict: reading the dict back gives the content, normalized. */
  function ToDict(c: CardContent): (v: Value)
    ensures v.Object?
    ensures "type" in v.fields && v.fields["type"] == Str(TypeName(c.kind))
    ensures "value" in v.fields && v.fields["value"] == Str(c.value)
    ensures "alt_text" in v.fields <==> EmitsAltText(c)
    ensures v.fields.Keys <= {"type", "value", "alt_text"}
    ensures FromDict(v) == Ok(Normalized(c))
  {
    var base := map["type" := Str(TypeName(c.kind)), "value" := Str(c.value)];
    Object(if EmitsAltText(c) then base["alt_text" := Str(c.altText.value)] else base)
  }

  /**
   * `from_dict`: fails on a missing or unknown `type` or a missing `value`;
   * `alt_text` is optional.
   */
  function FromDict(data: Value): (r: Result<CardContent, DecodeError>)
    ensures data.Object? && ("type" !in data.fields || ParseType(data.fields["type"]).None?) ==> r.Err?
    ensures data.Object? && "value" !in data.fields ==> r.Err?
    ensures r.Ok? ==> data.Object?
                      && "type" in data.fields && data.fields["type"] == Str(TypeName(r.value.kind))
                      && "value" in data.fields && data.fields["value"] == Str(r.value.value)
    ensures r.Ok? && r.value.altText.Some? ==> "alt_text" in data.fields
                                               && data.fields["alt_text"] == Str(r.value.altText.value)
    ensures r.Ok? && "alt_text" !in data.fields ==> r.value.altText == None
  {
    if !data.Object? then Err(NotAnObject)
    else
      var m := data.fields;
      if "type" !in m then Err(MissingKey("type"))
      else match ParseType(m["type"])
        case None => Err(UnknownType(m["type"]))
        case Some(kind) =>
          if "value" !in m then Err(MissingKey("value"))
          else if !m["value"].Str? then Err(WrongType("value"))
          else match OptionalString(m, "alt_text")
            case Err(e) => Err(e)
            case Ok(alt) => Ok(CardContent(kind, m["value"].s, alt))
  }

  /** The round trip is exact precisely when the alternative text is absent or non-empty. */
  lemma RoundTripExact(c: CardContent)
    ensures FromDict(ToDict(c)) == Ok(c) <==> c.altText != Some("")
  {
  }

  /** Text content built by `text()` never carries an `alt_text` key. */
  lemma TextOmitsAltText(s: string)
    ensures "alt_text" !in ToDict(TextContent(s)).fields
    ensures FromDict(ToDict(TextContent(s))) == Ok(TextContent(s))
  {
  }

  /** An image with a non-empty alternative text keeps it through the round trip. */
  lemma ImageKeepsAltText(url: string, alt: string)
    requires alt != ""
    ensures ToDict(ImageContent(url, Some(alt))).fields["alt_text"] == Str(alt)
    ensures FromDict(ToDict(ImageContent(url, Some(alt)))) == Ok(ImageContent(url, Some(alt)))
  {
  }
}
