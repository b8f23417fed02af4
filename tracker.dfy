/**
 * The `Tracker` of gotracker.go: the session fields set by `Init` and the
 * announce `Request`, which composes the announce URL and validates the
 * tracker's decoded answer, storing the reported interval.
 */
module GoTracker {
  import opened Optional
  import opened ByteStrings
  import opened Decimal
  import opened Bencode
  import opened AnnounceQuery
  import opened TrackerResponse

  /**
   * The loop of gotracker.go:70-78: walk the "peers" list in order, pushing
   * each dictionary to the front of the result, and give up on the first
   * element that is not a dictionary.
   */
  method CollectPeers(items: seq<Node>) returns (peers: Option<seq<Peer>>)
    ensures peers == PeerList(items)
  {
    var list: seq<Peer> := [];
    var i := 0;
    while i < |items|
      invariant 0 <= i <= |items|
      invariant forall j | 0 <= j < i :: items[j].Dict?
      invariant |list| == i
      invariant forall k | 0 <= k < i :: list[k] == items[i - 1 - k].entries
    {
      if items[i].Dict? {
        list := [items[i].entries] + list;
      } else {
        return None;
      }
      i := i + 1;
    }
    assert list == PeerList(items).value;
    return Some(list);
  }

  class Tracker {
    var infoHash: Bytes
    var peerId: Bytes
    var url: Bytes
    var port: Bytes
    var interval: int

    /** A zero-valued tracker, as Go's `new(Tracker)` gives it. */
    constructor ()
      ensures infoHash == [] && peerId == [] && url == [] && port == [] && interval == 0
    {
      infoHash, peerId, url, port, interval := [], [], [], [], 0;
    }

    /** Stores the session's tracker URL, info hash, peer id and port; the interval is left alone. */
    method Init(url: Bytes, infoHash: Bytes, peerId: Bytes, port: Bytes)
      modifies this
      ensures this.url == url && this.infoHash == infoHash && this.peerId == peerId && this.port == port
      ensures interval == old(interval)
    {
      this.url := url;
      this.infoHash := infoHash;
      this.peerId := peerId;
      this.port := port;
    }

    /**
     * One announce. `sent` is the URL the GET is issued against; `response`
     * stands for the tracker's answer as the bencode decoder returns it.
     * The result and the new interval are those of Validate, and the
     * interval changes only when the response gets past the "interval" check.
     */
    method Request(uploaded: int, downloaded: int, left: int, status: Bytes, response: Node)
      returns (sent: Bytes, peers: Option<seq<Peer>>, err: Option<Error>)
      modifies this`interval
      ensures sent == AnnounceUrl(url, infoHash, peerId, port, uploaded, downloaded, left, status)
      ensures peers == Validate(response).peers && err == Validate(response).err
      ensures interval == Validate(response).interval.GetOr(old(interval))
    {
      sent := AnnounceUrl(url, infoHash, peerId, port, uploaded, downloaded, left, status);
      peers, err := None, None;
      if !response.Dict? {
        err := Some(UnexpectedResponse);
        return;
      }
      var d := response.entries;
      // Departs from the literal code (gotracker.go:53 tests `!ok`): see
      // TrackerResponse.Validate and TrackerResponse.ValidateAsWritten.
      if FailureReasonKey in d {
        err := Some(TrackerFailure(d[FailureReasonKey]));
        return;
      }
      if IntervalKey !in d {
        err := Some(UnexpectedResponse);
        return;
      }
      var text := IntervalText(d[IntervalKey]);
      var parsed := Atoi(text);
      interval := parsed.GetOr(0);
      err := if parsed.Some? then None else Some(IntervalSyntax(text));
      if PeersKey !in d || !d[PeersKey].List? {
        err := Some(UnexpectedResponse);
        return;
      }
      var collected := CollectPeers(d[PeersKey].items);
      if collected.None? {
        err := Some(UnexpectedResponse);
        return;
      }
      peers := collected;
    }
  }

  /** An initialised tracker announces exactly the session fields Init was given. */
  method InitThenRequest(url: Bytes, infoHash: Bytes, peerId: Bytes, port: Bytes,
                         uploaded: int, downloaded: int, left: int, status: Bytes, response: Node)
    returns (sent: Bytes, peers: Option<seq<Peer>>, err: Option<Error>, interval: int)
    ensures |url| < |sent| && sent[..|url|] == url && sent[|url|] == '?'
    ensures DecodeQuery(sent[|url| + 1..]) ==
      Some([(InfoHashKey, infoHash), (PeerIdKey, peerId), (PortKey, port), (UploadedKey, Itoa(uploaded)),
            (DownloadedKey, Itoa(downloaded)), (LeftKey, Itoa(left)), (StatusKey, status)])
    ensures peers == Validate(response).peers && err == Validate(response).err
    ensures interval == Validate(response).interval.GetOr(0)
  {
    var t := new Tracker();
    t.Init(url, infoHash, peerId, port);
    sent, peers, err := t.Request(uploaded, downloaded, left, status, response);
    interval := t.interval;
    AnnounceUrlDecodes(url, infoHash, peerId, port, uploaded, downloaded, left, status);
  }
}
