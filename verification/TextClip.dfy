/** Fitting texts into buffers and columns (`trfx_utils`). */
module TextClip {
  import opened CStrings
  import opened EndpointCodec
  import opened History

  /** `%.*s`. */
  function Prefix(s: string, n: nat): (r: string)
    ensures |r| <= n && |r| <= |s|
  {
    if |s| <= n then s else s[..n]
  }

  /** `trfx_clip_text` into a buffer of `size` bytes; a missing buffer stays as it is. */
  function ClipText(src: Option<string>, size: nat, maxWidth: int): string {
    if size == 0 then ""
    else if src.None? || maxWidth <= 0 then ""
    else Fit(Prefix(src.value, if maxWidth >= size then size - 1 else maxWidth), size)
  }

  /** The clipped text is the longest prefix that neither the width nor the buffer refuses. */
  lemma ClipIsLongestPrefix(src: string, size: nat, maxWidth: int, other: string)
    requires size > 0
    ensures var r := ClipText(Some(src), size, maxWidth);
            && r <= src && |r| < size && (maxWidth >= 0 ==> |r| <= maxWidth)
            && (other <= src && |other| < size && |other| <= maxWidth ==> other <= r)
  {
  }

  // ---------------------------------------------------------------- endpoints

  /** `trfx_format_endpoint_for_tui`: a long endpoint loses its middle, so that its port can still be read. */
  function ShortenEndpoint(value: Option<string>, bufsize: nat): string {
    if bufsize == 0 then ""
    else
      match value
      case None => Fit("-", bufsize)
      case Some(v) =>
        if |v| < bufsize then Fit(v, bufsize)
        else if bufsize <= 4 then Fit(Prefix(v, bufsize - 1), bufsize)
        else
          match LastIndexOf(v, ':')
          case Some(colon) =>
            if colon > 0 && SuffixFits(v, colon, bufsize) then
              Fit(Prefix(v, bufsize - (|v| - colon) - 4) + "..." + v[colon..], bufsize)
            else Fit(Prefix(v, bufsize - 4) + "...", bufsize)
          case None => Fit(Prefix(v, bufsize - 4) + "...", bufsize)
  }

  predicate SuffixFits(v: string, colon: nat, bufsize: nat)
    requires colon <= |v|
  {
    |v| - colon + 4 < bufsize
  }

  /** The output fits, short endpoints are unchanged, and long ones fill the buffer to its last byte. */
  lemma ShortenedFits(v: string, bufsize: nat)
    requires bufsize > 0
    ensures var r := ShortenEndpoint(Some(v), bufsize);
            && |r| < bufsize
            && (|v| < bufsize ==> r == v)
            && (|v| >= bufsize ==> |r| == bufsize - 1)
  {
  }

  /** Every shortened endpoint starts like the original one, and above four bytes shows where text is missing. */
  lemma PrefixKept(v: string, bufsize: nat) returns (n: nat)
    requires bufsize > 0 && |v| >= bufsize
    ensures var r := ShortenEndpoint(Some(v), bufsize);
            && n <= |r| && n <= |v| && r[..n] == v[..n]
            && (bufsize <= 4 ==> n == |r|)
            && (bufsize > 4 ==> n + 3 <= |r| && r[n..n + 3] == "...")
  {
    var r := ShortenEndpoint(Some(v), bufsize);
    if bufsize <= 4 {
      n := bufsize - 1;
    } else {
      var colon := LastIndexOf(v, ':');
      if colon.Some? && colon.value > 0 && SuffixFits(v, colon.value, bufsize) {
        n := bufsize - (|v| - colon.value) - 4;
        assert r == v[..n] + "..." + v[colon.value..];
      } else {
        n := bufsize - 4;
        assert r == v[..n] + "...";
      }
    }
  }

  lemma ShortForm(v: string, bufsize: nat, colon: nat)
    requires bufsize > 4 && |v| >= bufsize && LastIndexOf(v, ':') == Some(colon) && colon > 0 && SuffixFits(v, colon, bufsize)
    ensures var n := bufsize - (|v| - colon) - 4;
            0 < n < colon && ShortenEndpoint(Some(v), bufsize) == v[..n] + "..." + v[colon..]
  {
  }

  lemma SuffixFacts(v: string, colon: nat)
    requires LastIndexOf(v, ':') == Some(colon)
    ensures colon < |v| && v[colon..][0] == ':' && forall j :: 0 < j < |v[colon..]| ==> v[colon..][j] != ':'
  {
  }

  lemma LastColonOf(front: string, v: string, colon: nat)
    requires LastIndexOf(v, ':') == Some(colon)
    ensures LastIndexOf(front + v[colon..], ':') == Some(|front|)
  {
    var suffix := v[colon..];
    SuffixFacts(v, colon);
    var text := front + suffix;
    forall j | |front| < j < |text|
      ensures text[j] != ':'
    {
      assert text[j] == suffix[j - |front|];
    }
    LastIndexUnique(text, ':', |front|);
  }

  /** The whole `:port` behind the last colon survives whenever it fits and is not the whole text. */
  lemma SuffixSurvives(v: string, bufsize: nat, colon: nat)
    requires bufsize > 4 && |v| >= bufsize && LastIndexOf(v, ':') == Some(colon) && colon > 0 && SuffixFits(v, colon, bufsize)
    ensures var r := ShortenEndpoint(Some(v), bufsize);
            && |r| == bufsize - 1 && LastIndexOf(r, ':') == Some(|r| - (|v| - colon))
            && r[|r| - (|v| - colon)..] == v[colon..]
  {
    ShortForm(v, bufsize, colon);
    var front := v[..bufsize - (|v| - colon) - 4] + "...";
    LastColonOf(front, v, colon);
    assert (front + v[colon..])[|front|..] == v[colon..];
  }

  predicate EndsWith(s: string, suffix: string) {
    |suffix| <= |s| && s[|s| - |suffix|..] == suffix
  }

  /** A text that does not end with a dot keeps its whole `:port` exactly when four bytes besides it fit, one more
      than the three dots need: at the boundary the port is dropped although dots and port together would fit. */
  lemma SuffixSurvivesExactly(v: string, bufsize: nat, colon: nat)
    requires bufsize > 4 && |v| >= bufsize && LastIndexOf(v, ':') == Some(colon) && v[|v| - 1] != '.'
    ensures EndsWith(ShortenEndpoint(Some(v), bufsize), v[colon..]) <==> SuffixFits(v, colon, bufsize)
  {
    var r, suffix := ShortenEndpoint(Some(v), bufsize), v[colon..];
    if SuffixFits(v, colon, bufsize) {
      SuffixSurvives(v, bufsize, colon);
    } else {
      assert r == v[..bufsize - 4] + "..." && r[|r| - 1] == '.';
      LastOfSuffix(v, colon, r);
    }
  }

  lemma LastOfSuffix(v: string, colon: nat, r: string)
    requires colon < |v| && r != "" && r[|r| - 1] != v[|v| - 1]
    ensures !EndsWith(r, v[colon..])
  {
    var suffix := v[colon..];
    assert suffix[|suffix| - 1] == v[|v| - 1];
    if |suffix| <= |r| {
      assert r[|r| - |suffix|..][|suffix| - 1] == r[|r| - 1];
    }
  }

  /** An endpoint at the boundary: nine bytes of dots and port would fit a buffer of ten. */
  lemma PortLostAtBoundary()
    ensures |"...:65535"| < 10
    ensures ShortenEndpoint(Some("192.168.100.200:65535"), 10) == "192.16..."
  {
    var v, port := "192.168.100.200:65535", "65535";
    assert v == "192.168.100.200" + [':'] + port;
    LastIndexIs("192.168.100.200", ':', port);
  }

  lemma HostAndPort(front: string, port: string)
    requires front != "" && front[0] != '[' && port != "" && ':' !in port
    ensures Splits(front + "..." + (":" + port), front + "...", port)
  {
    assert front + "..." + (":" + port) == (front + "...") + ":" + port;
  }

  /** An endpoint without brackets keeps its port through shortening: both forms split into the same port. */
  lemma PortSurvives(v: string, bufsize: nat, host: string, port: string)
    requires Splits(v, host, port) && v[0] != '[' && |v| >= bufsize > 4 && SuffixFits(v, |host|, bufsize)
    ensures exists shortHost :: Splits(ShortenEndpoint(Some(v), bufsize), shortHost, port)
  {
    LastIndexIs(host, ':', port);
    ShortForm(v, bufsize, |host|);
    var n := bufsize - (|v| - |host|) - 4;
    assert v[|host|..] == ":" + port && v[..n][0] == v[0];
    HostAndPort(v[..n], port);
  }

  /** Shortening again changes nothing. */
  lemma ShortenTwice(v: Option<string>, bufsize: nat)
    ensures bufsize > 0 ==>
              ShortenEndpoint(Some(ShortenEndpoint(v, bufsize)), bufsize) == ShortenEndpoint(v, bufsize)
  {
    if bufsize > 0 && v.Some? {
      ShortenedFits(v.value, bufsize);
    }
  }
}
