/**
 * The already-tokenised HTML events an `html.parser.HTMLParser` subclass receives: a start
 * tag with its attributes (a value is absent for an attribute written without one), a run
 * of character data, and an end tag.
 */
module Html {
  import opened Wrappers

  type Attribute = (string, Option<string>)

  datatype Event =
    | StartTag(tag: string, attrs: seq<Attribute>)
    | Data(data: string)
    | EndTag(tag: string)

  /** `('class', v)` as an attribute pair with a value. */
  function ClassIs(v: string): Attribute
  {
    ("class", Some(v))
  }
}
