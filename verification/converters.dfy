/** `ConverterHelper`: choose the first message converter, in list order, that
    can read the request's media type, and decode the body with it.  The
    converters themselves (`canRead`, `read`) are collaborators and appear as
    functions; the target class is fixed by the type parameter `T`. */
module Converters {
  import opened Base

  /** A media type as `MediaType.parseMediaType` yields it from the request's
      Content-Type header. */
  type MediaType = string

  /** The parts of a servlet request the converters look at. */
  datatype Request<B> = Request(contentType: MediaType, body: B)

  /** `HttpMessageConverters`: the ordered converter list together with what
      each converter answers to `canRead` for the target class and what its
      `read` returns for the whole request, headers included (null is
      `None`). */
  datatype HttpMessageConverters<!C, !B, T> =
    HttpMessageConverters(converters: seq<C>, canRead: (C, MediaType) -> bool, read: (C, Request<B>) -> Option<T>)

  /** `i` is the position of the first converter that can read `mediaType`. */
  ghost predicate IsFirstReadable<C>(converters: seq<C>, canRead: (C, MediaType) -> bool, mediaType: MediaType, i: int)
  {
    && 0 <= i < |converters|
    && canRead(converters[i], mediaType)
    && forall j :: 0 <= j < i ==> !canRead(converters[j], mediaType)
  }

  /** No converter in the list can read `mediaType`. */
  ghost predicate NoneReadable<C>(converters: seq<C>, canRead: (C, MediaType) -> bool, mediaType: MediaType)
  {
    forall i :: 0 <= i < |converters| ==> !canRead(converters[i], mediaType)
  }

  /** `findConverter`: the first converter in list order that can read
      `mediaType`, or empty when there is none. */
  function FindConverter<C>(converters: seq<C>, canRead: (C, MediaType) -> bool, mediaType: MediaType): (r: Option<C>)
    ensures r.None? <==> NoneReadable(converters, canRead, mediaType)
    ensures r.Some? ==> canRead(r.value, mediaType)
    ensures r.Some? ==> exists i :: IsFirstReadable(converters, canRead, mediaType, i) && converters[i] == r.value
  {
    if |converters| == 0 then
      None
    else if canRead(converters[0], mediaType) then
      assert IsFirstReadable(converters, canRead, mediaType, 0);
      Some(converters[0])
    else
      var rest := converters[1..];
      assert forall i :: IsFirstReadable(rest, canRead, mediaType, i) ==> IsFirstReadable(converters, canRead, mediaType, i + 1);
      FindConverter(rest, canRead, mediaType)
  }

  /** There is at most one first readable position. */
  lemma FirstReadableUnique<C>(converters: seq<C>, canRead: (C, MediaType) -> bool, mediaType: MediaType, i: int, j: int)
    requires IsFirstReadable(converters, canRead, mediaType, i)
    requires IsFirstReadable(converters, canRead, mediaType, j)
    ensures i == j
  {
  }

  /** `findConverter` picks exactly the converter at the first readable position. */
  lemma FindConverterIsFirst<C>(converters: seq<C>, canRead: (C, MediaType) -> bool, mediaType: MediaType, i: int)
    requires IsFirstReadable(converters, canRead, mediaType, i)
    ensures FindConverter(converters, canRead, mediaType) == Some(converters[i])
  {
  }

  /** Converters earlier in the list take precedence: appending converters
      never changes a match already found, and the appended ones are consulted
      only when none of the earlier ones can read the media type. */
  lemma {:induction false} FindConverterAppend<C>(front: seq<C>, back: seq<C>, canRead: (C, MediaType) -> bool, mediaType: MediaType)
    ensures FindConverter(front + back, canRead, mediaType)
         == match FindConverter(front, canRead, mediaType)
            case Some(c) => Some(c)
            case None => FindConverter(back, canRead, mediaType)
  {
    if |front| > 0 {
      assert (front + back)[0] == front[0];
      assert (front + back)[1..] == front[1..] + back;
      FindConverterAppend(front[1..], back, canRead, mediaType);
    } else {
      assert front + back == back;
    }
  }

  /** `parseBody`: decode the request body with the first converter that can
      read the request's media type; null (not an error) when none can. */
  function ParseBody<C, B, T>(hc: HttpMessageConverters<C, B, T>, req: Request<B>): (r: Option<T>)
    ensures NoneReadable(hc.converters, hc.canRead, req.contentType) ==> r.None?
    ensures forall i :: IsFirstReadable(hc.converters, hc.canRead, req.contentType, i) ==>
              r == hc.read(hc.converters[i], req)
  {
    match FindConverter(hc.converters, hc.canRead, req.contentType)
    case Some(converter) =>
      assert forall i :: IsFirstReadable(hc.converters, hc.canRead, req.contentType, i) ==> converter == hc.converters[i] by {
        forall i | IsFirstReadable(hc.converters, hc.canRead, req.contentType, i)
          ensures converter == hc.converters[i]
        {
          var k :| IsFirstReadable(hc.converters, hc.canRead, req.contentType, k) && hc.converters[k] == converter;
          FirstReadableUnique(hc.converters, hc.canRead, req.contentType, i, k);
        }
      }
      hc.read(converter, req)
    case None => None
  }
}
