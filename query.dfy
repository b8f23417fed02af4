/**
 * Composition of the announce URL (the "Trackers" section of BEP 3): the
 * tracker's base URL, '?', then seven key=value parameters joined by '&'.
 * A small query-string reader is given beside it so that what the URL
 * carries can be stated as a round trip.
 */
module AnnounceQuery {
  import opened Optional
  import opened ByteStrings
  import opened UrlEscape
  import opened Decimal

  const InfoHashKey: Bytes := "info_hash"
  const PeerIdKey: Bytes := "peer_id"
  const PortKey: Bytes := "port"
  const UploadedKey: Bytes := "uploaded"
  const DownloadedKey: Bytes := "downloaded"
  const LeftKey: Bytes := "left"
  const StatusKey: Bytes := "status"

  const QueryStart: Bytes := "?"
  const Assign: Bytes := "="
  const Separator: Bytes := "&"

  /** One "key=value" query parameter. */
  function Param(key: Bytes, value: Bytes): Bytes {
    key + Assign + value
  }

  /**
   * The announce URL of `Tracker.Request`: `fmt.Sprint` of string operands
   * concatenates them with no separator. info_hash, peer_id, port and
   * status are escaped; the three byte counts are rendered in base ten.
   */
  function AnnounceUrl(base: Bytes, infoHash: Bytes, peerId: Bytes, port: Bytes,
                       uploaded: int, downloaded: int, left: int, status: Bytes): (url: Bytes)
    ensures |base| < |url| && url[..|base|] == base && url[|base|] == '?'
  {
    base + QueryStart +
    Param(InfoHashKey, Escape(infoHash)) + Separator +
    Param(PeerIdKey, Escape(peerId)) + Separator +
    Param(PortKey, Escape(port)) + Separator +
    Param(UploadedKey, Itoa(uploaded)) + Separator +
    Param(DownloadedKey, Itoa(downloaded)) + Separator +
    Param(LeftKey, Itoa(left)) + Separator +
    Param(StatusKey, Escape(status))
  }

  // ---- a query-string reader, the partner of AnnounceUrl ----

  function Join(parts: seq<Bytes>, sep: byte): Bytes {
    if |parts| == 0 then []
    else if |parts| == 1 then parts[0]
    else parts[0] + [sep] + Join(parts[1..], sep)
  }

  /** The pieces of `s` between occurrences of `sep` (always at least one). */
  function Split(s: Bytes, sep: byte): (parts: seq<Bytes>)
    ensures |parts| >= 1
  {
    if s == [] then [[]]
    else
      var rest := Split(s[1..], sep);
      if s[0] == sep then [[]] + rest else [[s[0]] + rest[0]] + rest[1..]
  }

  /** One "key=value" field, both halves percent-decoded. */
  function DecodeField(f: Bytes): Option<(Bytes, Bytes)> {
    var kv := Split(f, '=');
    if |kv| != 2 then None
    else
      match (Unescape(kv[0]), Unescape(kv[1]))
      case (Some(k), Some(v)) => Some((k, v))
      case _ => None
  }

  function DecodeFields(fs: seq<Bytes>): Option<seq<(Bytes, Bytes)>> {
    if fs == [] then Some([])
    else
      match (DecodeField(fs[0]), DecodeFields(fs[1..]))
      case (Some(kv), Some(rest)) => Some([kv] + rest)
      case _ => None
  }

  /** The parameters of a query string, in order. */
  function DecodeQuery(q: Bytes): Option<seq<(Bytes, Bytes)>> {
    DecodeFields(Split(q, '&'))
  }

  // ---- lemmas ----

  lemma {:induction false} SplitNoSep(p: Bytes, sep: byte)
    requires sep !in p
    ensures Split(p, sep) == [p]
  {
    if p != [] {
      SplitNoSep(p[1..], sep);
      assert [p[0]] + p[1..] == p;
    }
  }

  lemma {:induction false} SplitAfter(p: Bytes, sep: byte, rest: Bytes)
    requires sep !in p
    ensures Split(p + [sep] + rest, sep) == [p] + Split(rest, sep)
  {
    var s := p + [sep] + rest;
    if p == [] {
      assert s[1..] == rest;
    } else {
      assert s[1..] == p[1..] + [sep] + rest;
      SplitAfter(p[1..], sep, rest);
      assert [p[0]] + p[1..] == p;
    }
  }

  /** Splitting a join on a separator no part contains gives the parts back. */
  lemma {:induction false} SplitJoin(parts: seq<Bytes>, sep: byte)
    requires |parts| >= 1
    requires forall i | 0 <= i < |parts| :: sep !in parts[i]
    ensures Split(Join(parts, sep), sep) == parts
  {
    if |parts| == 1 {
      SplitNoSep(parts[0], sep);
    } else {
      SplitJoin(parts[1..], sep);
      SplitAfter(parts[0], sep, Join(parts[1..], sep));
      assert [parts[0]] + parts[1..] == parts;
    }
  }

  /** A key=value field whose halves carry no '=' decodes to the key and the decoded value. */
  lemma DecodeParam(k: Bytes, e: Bytes, v: Bytes)
    requires '=' !in k && '%' !in k && '=' !in e
    requires Unescape(e) == Some(v)
    ensures DecodeField(Param(k, e)) == Some((k, v))
  {
    assert Join([k, e], '=') == Param(k, e);
    SplitJoin([k, e], '=');
    UnescapePlain(k);
  }

  /** An escaped value contains neither separator of the query string. */
  lemma EscapeNoSeparators(s: Bytes)
    ensures '&' !in Escape(s) && '=' !in Escape(s)
  {
    EscapeHidesReserved(s, '&');
    EscapeHidesReserved(s, '=');
  }

  /** A rendered count contains no separator and no '%'. */
  lemma ItoaPlain(n: int)
    ensures '&' !in Itoa(n) && '=' !in Itoa(n) && '%' !in Itoa(n)
    ensures Unescape(Itoa(n)) == Some(Itoa(n))
  {
    UnescapePlain(Itoa(n));
  }

  lemma JoinCons(head: Bytes, tail: seq<Bytes>, sep: byte)
    requires |tail| >= 1
    ensures Join([head] + tail, sep) == head + [sep] + Join(tail, sep)
  {
    assert ([head] + tail)[1..] == tail;
  }

  lemma JoinSeven(f0: Bytes, f1: Bytes, f2: Bytes, f3: Bytes, f4: Bytes, f5: Bytes, f6: Bytes, sep: byte)
    ensures Join([f0, f1, f2, f3, f4, f5, f6], sep) ==
      f0 + [sep] + f1 + [sep] + f2 + [sep] + f3 + [sep] + f4 + [sep] + f5 + [sep] + f6
  {
    var S := [sep];
    JoinCons(f5, [f6], sep);
    JoinCons(f4, [f5, f6], sep);
    JoinCons(f3, [f4, f5, f6], sep);
    JoinCons(f2, [f3, f4, f5, f6], sep);
    JoinCons(f1, [f2, f3, f4, f5, f6], sep);
    JoinCons(f0, [f1, f2, f3, f4, f5, f6], sep);
    assert [f0] + [f1, f2, f3, f4, f5, f6] == [f0, f1, f2, f3, f4, f5, f6];
    assert [f1] + [f2, f3, f4, f5, f6] == [f1, f2, f3, f4, f5, f6];
    assert [f2] + [f3, f4, f5, f6] == [f2, f3, f4, f5, f6];
    assert [f3] + [f4, f5, f6] == [f3, f4, f5, f6];
    assert [f4] + [f5, f6] == [f4, f5, f6];
    assert [f5] + [f6] == [f5, f6];
  }

  lemma ConcatAssoc(p: Bytes, f0: Bytes, f1: Bytes, f2: Bytes, f3: Bytes, f4: Bytes, f5: Bytes, f6: Bytes, S: Bytes)
    ensures p + f0 + S + f1 + S + f2 + S + f3 + S + f4 + S + f5 + S + f6 ==
            p + (f0 + S + f1 + S + f2 + S + f3 + S + f4 + S + f5 + S + f6)
  {
  }

  /** The URL as Go composes it is the base, '?', and the seven parameters joined by '&'. */
  lemma AnnounceUrlIsJoin(base: Bytes, infoHash: Bytes, peerId: Bytes, port: Bytes,
                          uploaded: int, downloaded: int, left: int, status: Bytes)
    ensures AnnounceUrl(base, infoHash, peerId, port, uploaded, downloaded, left, status) ==
      base + QueryStart + Join([Param(InfoHashKey, Escape(infoHash)), Param(PeerIdKey, Escape(peerId)),
                                Param(PortKey, Escape(port)), Param(UploadedKey, Itoa(uploaded)),
                                Param(DownloadedKey, Itoa(downloaded)), Param(LeftKey, Itoa(left)),
                                Param(StatusKey, Escape(status))], '&')
  {
    assert Separator == ['&'];
    ConcatAssoc(base + QueryStart, Param(InfoHashKey, Escape(infoHash)), Param(PeerIdKey, Escape(peerId)),
                Param(PortKey, Escape(port)), Param(UploadedKey, Itoa(uploaded)),
                Param(DownloadedKey, Itoa(downloaded)), Param(LeftKey, Itoa(left)),
                Param(StatusKey, Escape(status)), Separator);
    JoinSeven(Param(InfoHashKey, Escape(infoHash)), Param(PeerIdKey, Escape(peerId)),
              Param(PortKey, Escape(port)), Param(UploadedKey, Itoa(uploaded)),
              Param(DownloadedKey, Itoa(downloaded)), Param(LeftKey, Itoa(left)),
              Param(StatusKey, Escape(status)), '&');
  }

  /**
   * The announce URL is the base URL, '?', and a query string that reads
   * back as exactly the seven parameters info_hash, peer_id, port,
   * uploaded, downloaded, left and status, in that order, each carrying the
   * original value (byte counts as their base-ten text, which parses back to
   * the count).
   */
  lemma AnnounceUrlDecodes(base: Bytes, infoHash: Bytes, peerId: Bytes, port: Bytes,
                           uploaded: int, downloaded: int, left: int, status: Bytes)
    ensures var url := AnnounceUrl(base, infoHash, peerId, port, uploaded, downloaded, left, status);
      |base| < |url| && url[..|base|] == base && url[|base|] == '?' &&
      DecodeQuery(url[|base| + 1..]) == Some([(InfoHashKey, infoHash), (PeerIdKey, peerId),
                                              (PortKey, port), (UploadedKey, Itoa(uploaded)),
                                              (DownloadedKey, Itoa(downloaded)), (LeftKey, Itoa(left)),
                                              (StatusKey, status)])
    ensures Atoi(Itoa(uploaded)) == Some(uploaded) && Atoi(Itoa(downloaded)) == Some(downloaded) &&
            Atoi(Itoa(left)) == Some(left)
  {
    var q := Join([Param(InfoHashKey, Escape(infoHash)), Param(PeerIdKey, Escape(peerId)),
                   Param(PortKey, Escape(port)), Param(UploadedKey, Itoa(uploaded)),
                   Param(DownloadedKey, Itoa(downloaded)), Param(LeftKey, Itoa(left)),
                   Param(StatusKey, Escape(status))], '&');
    AnnounceUrlIsJoin(base, infoHash, peerId, port, uploaded, downloaded, left, status);
    AfterQueryStart(base, q);
    ParamsDecode(infoHash, peerId, port, uploaded, downloaded, left, status);
    AtoiItoa(uploaded);
    AtoiItoa(downloaded);
    AtoiItoa(left);
  }

  /** The seven joined parameters read back as the keys and the raw values. */
  lemma ParamsDecode(infoHash: Bytes, peerId: Bytes, port: Bytes,
                     uploaded: int, downloaded: int, left: int, status: Bytes)
    ensures DecodeQuery(Join([Param(InfoHashKey, Escape(infoHash)), Param(PeerIdKey, Escape(peerId)),
                              Param(PortKey, Escape(port)), Param(UploadedKey, Itoa(uploaded)),
                              Param(DownloadedKey, Itoa(downloaded)), Param(LeftKey, Itoa(left)),
                              Param(StatusKey, Escape(status))], '&')) ==
      Some([(InfoHashKey, infoHash), (PeerIdKey, peerId), (PortKey, port), (UploadedKey, Itoa(uploaded)),
            (DownloadedKey, Itoa(downloaded)), (LeftKey, Itoa(left)), (StatusKey, status)])
  {
    var fields := [Param(InfoHashKey, Escape(infoHash)), Param(PeerIdKey, Escape(peerId)),
                   Param(PortKey, Escape(port)), Param(UploadedKey, Itoa(uploaded)),
                   Param(DownloadedKey, Itoa(downloaded)), Param(LeftKey, Itoa(left)),
                   Param(StatusKey, Escape(status))];
    var pairs := [(InfoHashKey, infoHash), (PeerIdKey, peerId), (PortKey, port), (UploadedKey, Itoa(uploaded)),
                  (DownloadedKey, Itoa(downloaded)), (LeftKey, Itoa(left)), (StatusKey, status)];
    KeysPlain();
    EscapedParam(InfoHashKey, infoHash);
    EscapedParam(PeerIdKey, peerId);
    EscapedParam(PortKey, port);
    RenderedParam(UploadedKey, uploaded);
    RenderedParam(DownloadedKey, downloaded);
    RenderedParam(LeftKey, left);
    EscapedParam(StatusKey, status);
    SevenDecode(fields[0], fields[1], fields[2], fields[3], fields[4], fields[5], fields[6],
                pairs[0], pairs[1], pairs[2], pairs[3], pairs[4], pairs[5], pairs[6]);
  }

  lemma SevenDecode(f0: Bytes, f1: Bytes, f2: Bytes, f3: Bytes, f4: Bytes, f5: Bytes, f6: Bytes,
                    p0: (Bytes, Bytes), p1: (Bytes, Bytes), p2: (Bytes, Bytes), p3: (Bytes, Bytes),
                    p4: (Bytes, Bytes), p5: (Bytes, Bytes), p6: (Bytes, Bytes))
    requires '&' !in f0 && DecodeField(f0) == Some(p0)
    requires '&' !in f1 && DecodeField(f1) == Some(p1)
    requires '&' !in f2 && DecodeField(f2) == Some(p2)
    requires '&' !in f3 && DecodeField(f3) == Some(p3)
    requires '&' !in f4 && DecodeField(f4) == Some(p4)
    requires '&' !in f5 && DecodeField(f5) == Some(p5)
    requires '&' !in f6 && DecodeField(f6) == Some(p6)
    ensures DecodeQuery(Join([f0, f1, f2, f3, f4, f5, f6], '&')) == Some([p0, p1, p2, p3, p4, p5, p6])
  {
    DecodeJoined([f0, f1, f2, f3, f4, f5, f6], [p0, p1, p2, p3, p4, p5, p6]);
  }

  /** Parameters without '&', each of which reads back, read back in order once joined. */
  lemma DecodeJoined(fields: seq<Bytes>, pairs: seq<(Bytes, Bytes)>)
    requires |fields| == |pairs| >= 1
    requires forall i | 0 <= i < |fields| :: '&' !in fields[i] && DecodeField(fields[i]) == Some(pairs[i])
    ensures DecodeQuery(Join(fields, '&')) == Some(pairs)
  {
    SplitJoin(fields, '&');
    DecodeEach(fields, pairs);
  }

  lemma AfterQueryStart(base: Bytes, q: Bytes)
    ensures var url := base + QueryStart + q;
      |base| < |url| && url[..|base|] == base && url[|base|] == '?' && url[|base| + 1..] == q
  {
    assert QueryStart == ['?'];
  }

  lemma KeysPlain()
    ensures forall k | k in {InfoHashKey, PeerIdKey, PortKey, UploadedKey, DownloadedKey, LeftKey, StatusKey} ::
      '=' !in k && '%' !in k && '&' !in k
  {
  }

  /** A parameter carrying an escaped value has no '&' and reads back as the key and the raw value. */
  lemma EscapedParam(k: Bytes, v: Bytes)
    requires '=' !in k && '%' !in k && '&' !in k
    ensures '&' !in Param(k, Escape(v)) && DecodeField(Param(k, Escape(v))) == Some((k, v))
  {
    EscapeNoSeparators(v);
    UnescapeEscape(v);
    DecodeParam(k, Escape(v), v);
  }

  /** A parameter carrying a rendered count has no '&' and reads back as the key and the text. */
  lemma RenderedParam(k: Bytes, n: int)
    requires '=' !in k && '%' !in k && '&' !in k
    ensures '&' !in Param(k, Itoa(n)) && DecodeField(Param(k, Itoa(n))) == Some((k, Itoa(n)))
  {
    ItoaPlain(n);
    DecodeParam(k, Itoa(n), Itoa(n));
  }

  lemma {:induction false} DecodeEach(fields: seq<Bytes>, pairs: seq<(Bytes, Bytes)>)
    requires |fields| == |pairs|
    requires forall i | 0 <= i < |fields| :: DecodeField(fields[i]) == Some(pairs[i])
    ensures DecodeFields(fields) == Some(pairs)
  {
    if fields != [] {
      DecodeEach(fields[1..], pairs[1..]);
      assert [pairs[0]] + pairs[1..] == pairs;
    }
  }
}
