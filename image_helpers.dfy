/** `dataUrlToParts` of utils/imageHelpers.ts. */
module ImageHelpers {
  import opened Basics
  import opened JsText

  datatype Parts = Parts(base64: string, mimeType: string)

  const InvalidDataUrl: string := "Invalid data URL"

  /** The guard of `dataUrlToParts`: a non-empty header before the first comma and a non-empty piece after it. */
  predicate HasHeaderAndData(dataUrl: string) {
    var pieces := Split(dataUrl, ',');
    pieces[0] != [] && |pieces| >= 2 && pieces[1] != []
  }

  /**
   * What the code needs in order not to fail with a TypeError: once the guard passes, the
   * header must hold a ':' (otherwise `header.split(':')[1]` is undefined).
   */
  predicate Parseable(dataUrl: string) {
    HasHeaderAndData(dataUrl) ==> ':' in Split(dataUrl, ',')[0]
  }

  /**
   * `dataUrlToParts(dataUrl)`: the piece after the first comma is the payload (anything after a
   * second comma is dropped); the MIME type is the header text after its first ':' up to the
   * next ';' or ':'. A missing or empty header or payload throws "Invalid data URL".
   */
  function DataUrlToParts(dataUrl: string): (r: Outcome<Parts>)
    requires Parseable(dataUrl)
    ensures r.Err? <==> !HasHeaderAndData(dataUrl)
    ensures r.Err? ==> r.message == InvalidDataUrl
    ensures r.Ok? ==> r.value.base64 != [] && ',' !in r.value.base64 && ',' in dataUrl
    ensures r.Ok? ==> ':' !in r.value.mimeType && ';' !in r.value.mimeType
  {
    var pieces := Split(dataUrl, ',');
    var header, data := pieces[0], if |pieces| >= 2 then pieces[1] else [];
    if header == [] || data == [] then Err(InvalidDataUrl)
    else
      var afterColon := Split(header, ':')[1];
      var mimeType := Split(afterColon, ';')[0];
      Ok(Parts(data, mimeType))
  }

  /** The MIME type read from a header `pre:mime` followed by `;...`, `:...` or nothing is `mime`. */
  lemma {:induction false} MimeOfHeader(pre: string, mime: string, post: string)
    requires ':' !in pre && ':' !in mime && ';' !in mime
    requires post == [] || post[0] == ';' || post[0] == ':'
    ensures var header := pre + ":" + mime + post;
      ':' in header && |Split(header, ':')| >= 2 && Split(Split(header, ':')[1], ';')[0] == mime
  {
    var header := pre + ":" + mime + post;
    assert header == pre + [':'] + (mime + post);
    assert header[|pre|] == ':';
    SplitAtFirst(pre, ':', mime + post);
    var afterColon := Split(header, ':')[1];
    assert afterColon == Split(mime + post, ':')[0];
    SplitFirstPiece(mime, post, ':');
    var tail := Split(post, ':')[0];
    assert afterColon == mime + tail;
    if post != [] && post[0] == ';' {
      SplitFirstStarts(post, ':');
    } else {
      SplitFirstEmpty(post, ':');
    }
    SplitFirstPiece(mime, tail, ';');
    SplitFirstEmpty(tail, ';');
  }

  /**
   * How a data URL whose header is `pre:mime` followed by `;...`, `:...` or nothing is split:
   * the MIME type is `mime`, and the payload is the text after the comma up to any further
   * comma, which is rejected when empty.
   */
  lemma {:induction false} ParseEmbedded(pre: string, mime: string, post: string, payload: string)
    requires ',' !in pre && ':' !in pre
    requires ',' !in mime && ':' !in mime && ';' !in mime
    requires ',' !in post && (post == [] || post[0] == ';' || post[0] == ':')
    ensures var url := pre + ":" + mime + post + "," + payload;
      && Parseable(url)
      && DataUrlToParts(url) == if Split(payload, ',')[0] == [] then Err(InvalidDataUrl)
                                else Ok(Parts(Split(payload, ',')[0], mime))
  {
    var header := pre + ":" + mime + post;
    var url := pre + ":" + mime + post + "," + payload;
    assert url == header + [','] + payload;
    assert ',' !in header;
    SplitAtFirst(header, ',', payload);
    assert Split(url, ',') == [header] + Split(payload, ',');
    MimeOfHeader(pre, mime, post);
  }

  /** The data URL `data:M;base64,P` of a base64 payload, as a canvas or the customisation step builds it. */
  function Base64Url(mime: string, payload: string): string {
    "data:" + mime + ";base64," + payload
  }

  /**
   * What `dataUrlToParts` makes of `data:M;base64,P` for a MIME type without ':', ';' or ',':
   * the MIME type comes back, and the payload up to its first comma unless that part is empty.
   */
  lemma Base64UrlParts(mime: string, payload: string)
    requires ',' !in mime && ':' !in mime && ';' !in mime
    ensures Parseable(Base64Url(mime, payload))
    ensures DataUrlToParts(Base64Url(mime, payload)) ==
      if payload == [] || payload[0] == ',' then Err(InvalidDataUrl)
      else Ok(Parts(Split(payload, ',')[0], mime))
  {
    var url := Base64Url(mime, payload);
    assert url == "data" + ":" + mime + ";base64" + "," + payload by {
      assert "data:" == "data" + ":";
      assert ";base64," == ";base64" + ",";
    }
    ParseEmbedded("data", mime, ";base64", payload);
    if payload == [] || payload[0] == ',' {
      SplitFirstEmpty(payload, ',');
    } else {
      SplitFirstStarts(payload, ',');
    }
  }

  /**
   * Round trip: the data URL `data:M;base64,B` built for an image yields `B` and `M` back, for
   * a MIME type without ':', ';' or ',' and a non-empty payload without ','.
   */
  lemma DataUrlRoundTrip(mime: string, payload: string)
    requires ',' !in mime && ':' !in mime && ';' !in mime
    requires payload != [] && ',' !in payload
    ensures Parseable(Base64Url(mime, payload))
    ensures DataUrlToParts(Base64Url(mime, payload)) == Ok(Parts(payload, mime))
  {
    Base64UrlParts(mime, payload);
    SplitWhole(payload, ',');
  }

  /** Text after a second comma never reaches the result. */
  lemma TrailingPiecesDropped(header: string, payload: string, rest: string)
    requires ',' !in header && ',' !in payload
    ensures Parseable(header + "," + payload + "," + rest) == Parseable(header + "," + payload)
    ensures Parseable(header + "," + payload) ==>
      DataUrlToParts(header + "," + payload + "," + rest) == DataUrlToParts(header + "," + payload)
  {
    var long, short := header + "," + payload + "," + rest, header + "," + payload;
    assert long == header + [','] + (payload + [','] + rest);
    assert short == header + [','] + payload;
    SplitAtFirst(header, ',', payload + [','] + rest);
    SplitAtFirst(payload, ',', rest);
    SplitAtFirst(header, ',', payload);
    SplitWhole(payload, ',');
  }

  /** A string with no comma has no payload and is rejected. */
  lemma NoCommaRejected(dataUrl: string)
    requires ',' !in dataUrl
    ensures Parseable(dataUrl) && DataUrlToParts(dataUrl) == Err(InvalidDataUrl)
  {
    SplitWhole(dataUrl, ',');
  }

  /** A string starting with a comma has an empty header and is rejected. */
  lemma EmptyHeaderRejected(dataUrl: string)
    requires |dataUrl| > 0 && dataUrl[0] == ','
    ensures Parseable(dataUrl) && DataUrlToParts(dataUrl) == Err(InvalidDataUrl)
  {
    SplitFirstEmpty(dataUrl, ',');
  }
}
