/**
 * The byte-range handling of `GetVideoHandler.get` in tvfamily/webservice.py: from the
 * `Range` header, as Tornado's range parser reads it, to the status, the `Content-Range`
 * and `Content-Length` headers and the byte span handed to the video. The parser is a
 * parameter; the pair it returns holds the first byte and one past the last byte, each
 * optional, a suffix range `-N` as a negative first byte.
 */
module VideoRange {
  import opened Wrappers

  /** The pair `_parse_request_range` returns. */
  datatype Range = Range(start: Option<int>, end: Option<int>)

  type RangeParser = string -> Option<Range>

  /** `Content-Range`: `bytes *` and the size for an unsatisfiable range, `bytes FIRST-LAST/SIZE` otherwise. */
  datatype ContentRange = Unsatisfied(size: nat) | Span(first: int, last: int, size: nat)

  /** A 416 answer, or the video with its status, the headers and the span served. */
  datatype Response =
    | RangeNotSatisfiable(unsatisfied: ContentRange)
    | Content(status: nat, contentRange: Option<ContentRange>, contentLength: nat, start: Option<int>, end: Option<int>)

  /** The parsed range: none for a missing or empty header, or one the parser rejects. */
  function RangeOf(header: Option<string>, parse: RangeParser): Option<Range>
  {
    if header.None? || header.value == "" then None else parse(header.value)
  }

  /** Python's `x or default` on an optional integer: `None` and `0` give the default. */
  function OrDefault(x: Option<int>, default: int): int
  {
    if x.None? || x.value == 0 then default else x.value
  }

  /** `_get_content_range(start, end, total)`. */
  function SpanOf(start: Option<int>, end: Option<int>, size: nat): ContentRange
  {
    Span(OrDefault(start, 0), OrDefault(end, size) - 1, size)
  }

  /** A range the handler refuses with 416. */
  predicate Unsatisfiable(r: Range, size: nat)
  {
    (r.start.Some? && r.start.value >= size) || r.end == Some(0)
  }

  /** The response, as the handler computes it. */
  function Respond(header: Option<string>, parse: RangeParser, size: nat): Response
  {
    var range := RangeOf(header, parse);
    if range.None? then Content(200, None, size, None, None)
    else if Unsatisfiable(range.value, size) then RangeNotSatisfiable(Unsatisfied(size))
    else
      var start := if range.value.start.Some? && range.value.start.value < 0
                   then Some(range.value.start.value + size) else range.value.start;
      var end := if range.value.end.Some? && range.value.end.value > size then Some(size) else range.value.end;
      Content(206, Some(SpanOf(start, end, size)), size, start, end)
  }

  /** The handler's steps, reassigning `start` and `end` as it goes. */
  method ServeRange(header: Option<string>, parse: RangeParser, size: nat) returns (resp: Response)
    ensures resp == Respond(header, parse, size)
  {
    var requestRange: Option<Range> := None;
    if header.Some? && header.value != "" {
      requestRange := parse(header.value);
    }
    var start: Option<int>, end: Option<int>;
    var status: nat := 200;
    var contentRange: Option<ContentRange> := None;
    if requestRange.Some? {
      start, end := requestRange.value.start, requestRange.value.end;
      if (start.Some? && start.value >= size) || end == Some(0) {
        return RangeNotSatisfiable(Unsatisfied(size));
      }
      if start.Some? && start.value < 0 {
        start := Some(start.value + size);
      }
      if end.Some? && end.value > size {
        end := Some(size);
      }
      status := 206;
      contentRange := Some(SpanOf(start, end, size));
    } else {
      start, end := None, None;
    }
    resp := Content(status, contentRange, size, start, end);
  }

  /**
   * The response is 416 exactly when there is a range whose first byte is at or past the
   * end of the video, or whose end is `0` (a suffix of length zero); otherwise a range gives
   * a 206.
   */
  lemma {:induction false} UnsatisfiableIff(header: Option<string>, parse: RangeParser, size: nat)
    ensures Respond(header, parse, size).RangeNotSatisfiable? <==>
      RangeOf(header, parse).Some? &&
      ((RangeOf(header, parse).value.start.Some? && RangeOf(header, parse).value.start.value >= size) ||
       RangeOf(header, parse).value.end == Some(0))
    ensures Respond(header, parse, size).RangeNotSatisfiable? ==> Respond(header, parse, size).unsatisfied == Unsatisfied(size)
    ensures Respond(header, parse, size).Content? ==>
      (Respond(header, parse, size).status == 206 <==> RangeOf(header, parse).Some?)
  {
  }

  /** A negative first byte (a suffix range) is counted back from the end of the video. */
  lemma {:induction false} SuffixShifted(header: Option<string>, parse: RangeParser, size: nat)
    requires RangeOf(header, parse).Some? && Respond(header, parse, size).Content?
    ensures var r := RangeOf(header, parse).value;
      && (r.start.Some? && r.start.value < 0 ==> Respond(header, parse, size).start == Some(r.start.value + size))
      && (r.start.None? || r.start.value >= 0 ==> Respond(header, parse, size).start == r.start)
      && (r.start.Some? ==> Respond(header, parse, size).start.value < size)
  {
  }

  /** An end past the video is cut to its size, so a served end never exceeds the size. */
  lemma {:induction false} EndCapped(header: Option<string>, parse: RangeParser, size: nat)
    requires RangeOf(header, parse).Some? && Respond(header, parse, size).Content?
    ensures var r := RangeOf(header, parse).value;
      && (r.end.Some? ==> Respond(header, parse, size).end == Some(if r.end.value > size then size else r.end.value))
      && (r.end.None? ==> Respond(header, parse, size).end.None?)
      && (Respond(header, parse, size).end.Some? ==> Respond(header, parse, size).end.value <= size)
  {
  }

  /** Without a usable range the whole video is served with status 200 and no span. */
  lemma {:induction false} NoRange(header: Option<string>, parse: RangeParser, size: nat)
    requires RangeOf(header, parse).None?
    ensures Respond(header, parse, size) == Content(200, None, size, None, None)
  {
  }

  /** `Content-Length` is the whole size whenever the video is served, 206 included. */
  lemma {:induction false} ContentLengthIsSize(header: Option<string>, parse: RangeParser, size: nat)
    ensures Respond(header, parse, size).Content? ==> Respond(header, parse, size).contentLength == size
  {
  }

  /** A suffix longer than the video: `bytes=-200` on 100 bytes leaves the first byte at -100. */
  lemma {:induction false} SuffixLongerThanVideo()
    ensures var resp := Respond(Some("bytes=-200"), (h: string) => Some(Range(Some(-200), None)), 100);
      resp.Content? && resp.start == Some(-100) && resp.contentRange == Some(Span(-100, 99, 100))
  {
  }

  /** A ten-byte range `bytes=0-9` of 100 bytes is answered with a `Content-Length` of 100. */
  lemma {:induction false} PartialLengthIsWholeSize()
    ensures var resp := Respond(Some("bytes=0-9"), (h: string) => Some(Range(Some(0), Some(10))), 100);
      resp.Content? && resp.status == 206 && resp.contentRange == Some(Span(0, 9, 100)) && resp.contentLength == 100
  {
  }

  /** The number of bytes a `Content-Range` span covers. */
  function SpanLength(c: ContentRange): int
  {
    if c.Span? then c.last - c.first + 1 else 0
  }

  /**
   * The handler as the RFC 7233 rules intend it: a suffix longer than the video selects the
   * whole video (section 2.1), a span whose last byte would come before its first is not a
   * valid range and is ignored (section 2.1), an unsatisfiable range is answered with 416
   * (section 4.4), and a 206 carries the length of the span (section 4.1).
   */
  function RespondCorrected(header: Option<string>, parse: RangeParser, size: nat): Response
  {
    var range := RangeOf(header, parse);
    if range.None? then Content(200, None, size, None, None)
    else if Unsatisfiable(range.value, size) then RangeNotSatisfiable(Unsatisfied(size))
    else
      var start := if range.value.start.Some? && range.value.start.value < 0
                   then Some(if range.value.start.value + size < 0 then 0 else range.value.start.value + size)
                   else range.value.start;
      var end := if range.value.end.Some? && range.value.end.value > size then Some(size) else range.value.end;
      var span := SpanOf(start, end, size);
      if span.last < span.first then Content(200, None, size, None, None)
      else Content(206, Some(span), span.last - span.first + 1, start, end)
  }

  /**
   * The corrected handler serves every 206 span inside the video, announcing its length;
   * it refuses the same ranges with 416, and serves the whole video on the same requests
   * without a range.
   */
  lemma {:induction false} CorrectedSpanInVideo(header: Option<string>, parse: RangeParser, size: nat)
    ensures var resp := RespondCorrected(header, parse, size);
      resp.Content? && resp.status == 206 ==>
        && resp.contentRange.Some? && resp.contentRange.value.Span?
        && 0 <= resp.contentRange.value.first <= resp.contentRange.value.last < size
        && resp.contentLength == SpanLength(resp.contentRange.value)
        && 0 < resp.contentLength <= size
    ensures RespondCorrected(header, parse, size).RangeNotSatisfiable? <==> Respond(header, parse, size).RangeNotSatisfiable?
    ensures RangeOf(header, parse).None? ==> RespondCorrected(header, parse, size) == Respond(header, parse, size)
  {
  }

  /** The long suffix is served as the whole video, with its length. */
  lemma {:induction false} CorrectedLongSuffix()
    ensures var resp := RespondCorrected(Some("bytes=-200"), (h: string) => Some(Range(Some(-200), None)), 100);
      resp.Content? && resp.start == Some(0) && resp.contentRange == Some(Span(0, 99, 100)) && resp.contentLength == 100
  {
  }
}
