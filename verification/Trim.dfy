/** Cutting a data packet down to its sample payload. */
module Trim {
  import opened Bytes
  import opened Formats
  import opened Header

  datatype Trimmed = Trimmed(body: bytes, numSamples: nat)

  /** The whole samples between the header and the trailer of the declared packet. A
      sample size of zero fails like any other bad input. */
  function TrimData(b: bytes, hdr: Header, bytesPerSample: nat): (r: Result<Trimmed>)
    ensures r.Ok? ==> |r.value.body| == r.value.numSamples * bytesPerSample
  {
    var declared := hdr.packetSize * 4;
    if |b| < declared || bytesPerSample == 0 then Err
    else
      var start := hdr.headerLen;
      var end := Max(start, Min(|b|, declared) - (if hdr.hasTrailer then TRAILER_SIZE else 0));
      var body := if start < end then b[start..end] else [];
      var numSamples := |body| / bytesPerSample;
      WholeSamples(|body|, bytesPerSample);
      Ok(Trimmed(body[..numSamples * bytesPerSample], numSamples))
  }

  lemma WholeSamples(length: nat, size: nat)
    requires 0 < size
    ensures length / size * size <= length
    ensures length - length / size * size == length % size
  {
  }

  /** Padding is dropped and nothing else: for a data packet of whole samples, any padding,
      an optional trailer and any trailing bytes, trimming returns exactly the payload if and
      only if the padding is shorter than one sample. */
  lemma DataPacketRoundTrip(hdr: Header, reserved: nat, payload: bytes, pad: bytes, trailer: bytes, extra: bytes, bytesPerSample: nat)
    requires hdr.Printable() && reserved < 4
    requires 0 < bytesPerSample && |payload| % bytesPerSample == 0
    requires |trailer| == if hdr.hasTrailer then TRAILER_SIZE else 0
    requires 4 * hdr.packetSize == hdr.headerLen + |payload| + |pad| + |trailer|
    ensures var raw := PrintHeader(hdr, reserved) + payload + pad + trailer + extra;
      && HeaderOf(raw) == Ok(hdr)
      && TrimData(raw, hdr, bytesPerSample).Ok?
      && (TrimData(raw, hdr, bytesPerSample).value.body == payload <==> |pad| < bytesPerSample)
  {
    hide PrintHeader, HeaderOf, TrimData;
    var head := PrintHeader(hdr, reserved);
    var raw := head + payload + pad + trailer + extra;
    assert raw == head + (payload + pad + trailer + extra);
    ParsePrint(hdr, reserved, payload + pad + trailer + extra);
    TrimPadded(hdr, head, payload, pad, trailer + extra, bytesPerSample);
    assert raw == head + (payload + pad) + (trailer + extra);
  }

  lemma TrimPadded(hdr: Header, head: bytes, payload: bytes, pad: bytes, rest: bytes, bytesPerSample: nat)
    requires 0 < bytesPerSample && |payload| % bytesPerSample == 0 && |head| == hdr.headerLen
    requires var t := if hdr.hasTrailer then TRAILER_SIZE else 0;
      |rest| >= t && 4 * hdr.packetSize == hdr.headerLen + |payload| + |pad| + t
    ensures var r := TrimData(head + (payload + pad) + rest, hdr, bytesPerSample);
      r.Ok? && (r.value.body == payload <==> |pad| < bytesPerSample)
  {
    var body := payload + pad;
    var raw := head + body + rest;
    assert raw[hdr.headerLen..hdr.headerLen + |body|] == body;
    WholePart(|payload|, |pad|, bytesPerSample);
    var kept := |body| / bytesPerSample * bytesPerSample;
    assert TrimData(raw, hdr, bytesPerSample).value.body == body[..kept];
    if |pad| < bytesPerSample {
      assert body[..kept] == payload;
    } else {
      assert |body[..kept]| != |payload|;
    }
  }

  lemma WholePart(samples: nat, pad: nat, size: nat)
    requires 0 < size && samples % size == 0
    ensures (samples + pad) / size * size <= samples + pad
    ensures (samples + pad) / size * size == samples <==> pad < size
  {
    var n, k := samples / size, pad / size;
    assert samples == size * n;
    assert pad == size * k + pad % size;
    Together(size, n, k);
    DivUnique(samples + pad, size, n + k, pad % size);
    NoExtra(size, k, pad % size);
  }

  lemma Together(size: nat, n: nat, k: nat)
    ensures size * (n + k) == size * n + size * k == (n + k) * size
  {
  }

  lemma NoExtra(size: nat, k: nat, rest: nat)
    requires 0 < size && rest < size
    ensures size * k == 0 <==> size * k + rest < size
  {
    if k > 0 {
      assert size * k >= size;
    }
  }

  /** What trimming gives: it fails exactly on data shorter than declared or without a sample
      size, and otherwise starts behind the header and holds every whole sample that fits
      before the declared end, less four bytes if there is a trailer; a declared size that
      ends before that leaves nothing. */
  lemma TrimMeaning(b: bytes, hdr: Header, bytesPerSample: nat)
    requires hdr.headerLen <= |b|
    ensures var r := TrimData(b, hdr, bytesPerSample);
      var space := 4 * hdr.packetSize - hdr.headerLen - (if hdr.hasTrailer then 4 else 0);
      && (r.Err? <==> |b| < 4 * hdr.packetSize || bytesPerSample == 0)
      && (r.Ok? ==>
            var n, body := r.value.numSamples, r.value.body;
            && |body| == n * bytesPerSample && body <= b[hdr.headerLen..]
            && (if space <= 0 then body == [] else |body| <= space < |body| + bytesPerSample))
  {
    if |b| >= 4 * hdr.packetSize && bytesPerSample != 0 {
      var space := 4 * hdr.packetSize - hdr.headerLen - (if hdr.hasTrailer then 4 else 0);
      if space > 0 {
        WholeSamples(space, bytesPerSample);
      }
    }
  }

  /** Bytes past the declared end are never taken for samples. */
  lemma TrimIgnoresTail(b: bytes, hdr: Header, bytesPerSample: nat, tail: bytes)
    requires hdr.packetSize * 4 <= |b|
    ensures TrimData(b + tail, hdr, bytesPerSample) == TrimData(b, hdr, bytesPerSample)
  {
    var end := Max(hdr.headerLen, hdr.packetSize * 4 - (if hdr.hasTrailer then TRAILER_SIZE else 0));
    if hdr.headerLen < end {
      assert (b + tail)[hdr.headerLen..end] == b[hdr.headerLen..end];
    }
  }
}
