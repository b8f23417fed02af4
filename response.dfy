/**
 * Validation of a decoded tracker response (the "Trackers" section of
 * BEP 3): a dictionary that either carries a "failure reason", or carries
 * "interval" and a "peers" list of dictionaries.
 */
module TrackerResponse {
  import opened Optional
  import opened ByteStrings
  import opened Decimal
  import opened Bencode

  const FailureReasonKey: Bytes := "failure reason"
  const IntervalKey: Bytes := "interval"
  const PeersKey: Bytes := "peers"

  /** One peer as the client hands it on: the peer's dictionary (`Bedict`). */
  type Peer = map<Bytes, Node>

  datatype Error =
    | UnexpectedResponse            // "unexpected response from tracker"
    | TrackerFailure(reason: Node)  // the tracker declined the request
    | IntervalSyntax(text: Bytes)   // strconv.Atoi rejected the interval text

  /**
   * What one validation yields: the value assigned to `t.interval` (None
   * when the assignment is not reached), the peer list return value (None
   * for Go's nil) and the error return value (None for Go's nil).
   */
  datatype Reply = Reply(interval: Option<int>, peers: Option<seq<Peer>>, err: Option<Error>)

  /**
   * The text `strconv.Atoi` is given for the interval (`interval.Bestr`):
   * a string node's bytes; an integer node is taken to carry its base-ten
   * text; a list or dictionary node has an empty `Bestr`.
   */
  function IntervalText(n: Node): (text: Bytes)
    ensures n.Str? ==> text == n.bytes
    ensures n.Int? ==> Atoi(text) == Some(n.value)
    ensures n.List? || n.Dict? ==> Atoi(text).None?
  {
    match n
    case Str(s) => s
    case Int(i) => AtoiItoa(i); Itoa(i)
    case _ => []
  }

  /**
   * The peer list built by pushing each dictionary element of `items` to the
   * front of an initially empty list: None as soon as one element is not a
   * dictionary, otherwise every element's dictionary in reverse order.
   */
  function PeerList(items: seq<Node>): (r: Option<seq<Peer>>)
    ensures r.Some? <==> forall i | 0 <= i < |items| :: items[i].Dict?
    ensures r.Some? ==> |r.value| == |items| &&
                        forall k | 0 <= k < |items| :: r.value[k] == items[|items| - 1 - k].entries
  {
    if items == [] then Some([])
    else if !items[0].Dict? then None
    else
      match PeerList(items[1..])
      case Some(rest) => Some(rest + [items[0].entries])
      case None => None
  }

  /** The peers of a "peers" value; a value that is not a list holds no valid peer list. */
  function PeersOf(n: Node): (r: Option<seq<Peer>>)
    ensures r.Some? <==> n.List? && forall i | 0 <= i < |n.items| :: n.items[i].Dict?
    ensures r.Some? ==> |r.value| == |n.items| &&
                        forall k | 0 <= k < |n.items| :: r.value[k] == n.items[|n.items| - 1 - k].entries
  {
    if n.List? then PeerList(n.items) else None
  }

  /**
   * The shape checks of `Tracker.Request` on the decoded response `root`,
   * in the code's order: root kind, "failure reason", "interval", "peers",
   * then each peer.
   */
  function Validate(root: Node): (r: Reply)
    // every peer list returned is the reversed list of the "peers" dictionaries, all-or-nothing
    ensures r.peers.Some? <==>
      root.Dict? && FailureReasonKey !in root.entries && IntervalKey in root.entries &&
      PeersKey in root.entries && root.entries[PeersKey].List? &&
      forall i | 0 <= i < |root.entries[PeersKey].items| :: root.entries[PeersKey].items[i].Dict?
    ensures r.peers.Some? ==>
      var items := root.entries[PeersKey].items;
      |r.peers.value| == |items| &&
      forall k | 0 <= k < |items| :: r.peers.value[k] == items[|items| - 1 - k].entries
    // the interval is assigned exactly when the first three checks pass
    ensures r.interval.Some? <==>
      root.Dict? && FailureReasonKey !in root.entries && IntervalKey in root.entries
    ensures r.interval.Some? ==>
      var parsed := Atoi(IntervalText(root.entries[IntervalKey]));
      r.interval.value == parsed.GetOr(0) &&
      (parsed.None? && r.peers.Some? ==> r.err == Some(IntervalSyntax(IntervalText(root.entries[IntervalKey]))))
    // a "failure reason" key yields the tracker's failure and nothing else
    ensures root.Dict? && FailureReasonKey in root.entries ==>
      r == Reply(None, None, Some(TrackerFailure(root.entries[FailureReasonKey])))
    // every outcome without peers is an error
    ensures r.peers.None? ==> r.err.Some?
  {
    if !root.Dict? then Reply(None, None, Some(UnexpectedResponse))
    else
      var d := root.entries;
      // Departs from the literal code: gotracker.go:53 tests `!ok`, which
      // errors on every response WITHOUT a failure reason and returns
      // silently WITH one. Modelled here is the reading the error message and
      // the response rules call for: a failure reason ends the request as a
      // tracker failure; its absence moves on to "interval" and "peers".
      // The literal guard is kept as ValidateAsWritten below.
      if FailureReasonKey in d then Reply(None, None, Some(TrackerFailure(d[FailureReasonKey])))
      else if IntervalKey !in d then Reply(None, None, Some(UnexpectedResponse))
      else
        var text := IntervalText(d[IntervalKey]);
        var parsed := Atoi(text);
        // Atoi's error is kept in `err` but does not stop the request.
        var interval := Some(parsed.GetOr(0));
        if PeersKey !in d then Reply(interval, None, Some(UnexpectedResponse))
        else
          match PeersOf(d[PeersKey])
          case None => Reply(interval, None, Some(UnexpectedResponse))
          case Some(ps) => Reply(interval, Some(ps), if parsed.Some? then None else Some(IntervalSyntax(text)))
  }

  /**
   * A response the client accepts without error, stated from the response
   * rules alone: a dictionary with no "failure reason", an "interval" whose
   * text is a base-ten integer, and a "peers" list of dictionaries.
   */
  ghost predicate AcceptedResponse(root: Node) {
    && root.Dict?
    && FailureReasonKey !in root.entries
    && IntervalKey in root.entries
    && Atoi(IntervalText(root.entries[IntervalKey])).Some?
    && PeersKey in root.entries
    && root.entries[PeersKey].List?
    && forall i | 0 <= i < |root.entries[PeersKey].items| :: root.entries[PeersKey].items[i].Dict?
  }

  /** Validation succeeds exactly on accepted responses; then it reports the parsed interval. */
  lemma ValidateSucceedsIffAccepted(root: Node)
    ensures Validate(root).err.None? <==> AcceptedResponse(root)
    ensures Validate(root).err.None? ==>
      Validate(root).peers.Some? &&
      Some(Validate(root).interval.value) == Atoi(IntervalText(root.entries[IntervalKey]))
  {
  }

  /** A root that is not a dictionary is an unexpected response with no peers and no interval. */
  lemma NonDictRootIsUnexpected(root: Node)
    requires !root.Dict?
    ensures Validate(root) == Reply(None, None, Some(UnexpectedResponse))
  {
  }

  /** Without a failure reason, a missing "interval" or "peers" key is an unexpected response. */
  lemma MissingKeyIsUnexpected(root: Node)
    requires root.Dict? && FailureReasonKey !in root.entries
    requires IntervalKey !in root.entries || PeersKey !in root.entries
    ensures Validate(root).peers.None? && Validate(root).err == Some(UnexpectedResponse)
  {
  }

  /** One element of "peers" that is not a dictionary fails the whole response. */
  lemma NonDictPeerFailsAll(root: Node, i: nat)
    requires root.Dict? && FailureReasonKey !in root.entries && IntervalKey in root.entries
    requires PeersKey in root.entries && root.entries[PeersKey].List?
    requires i < |root.entries[PeersKey].items| && !root.entries[PeersKey].items[i].Dict?
    ensures Validate(root).peers.None? && Validate(root).err == Some(UnexpectedResponse)
  {
  }

  // ---- the guard of gotracker.go:53 as written ----

  /**
   * The checks of gotracker.go:49-59 exactly as written: a response without
   * "failure reason" is rejected, one with it returns nil and nil.
   */
  function ValidateAsWritten(root: Node): (r: Reply)
    // no response ever yields a peer list or reaches the interval assignment
    ensures r.peers.None? && r.interval.None?
    // the error is nil exactly for a dictionary that carries a failure reason
    ensures r.err.None? <==> root.Dict? && FailureReasonKey in root.entries
  {
    if !root.Dict? then Reply(None, None, Some(UnexpectedResponse))
    else if FailureReasonKey !in root.entries then Reply(None, None, Some(UnexpectedResponse))
    else Reply(None, None, None)
  }

  /** A one-peer response with interval 1800, as in BEP 3's response rules. */
  function OnePeerResponse(): Node {
    Dict(map[IntervalKey := Int(1800),
             PeersKey := List([Dict(map["ip" := Str("127.0.0.1"),
                                        "peer id" := Str("AAAAAAAAAAAAAAAAAAAA"),
                                        "port" := Int(6881)])])])
  }

  /** A response in which the tracker declines the request. */
  function BannedResponse(): Node {
    Dict(map[FailureReasonKey := Str("torrent banned")])
  }

  /**
   * The discrepancy on concrete responses: as written, a well-formed one-peer
   * response is rejected and a tracker failure comes back as a silent nil,
   * nil; validated as intended, the first yields its peer and interval 1800
   * and the second the tracker's reason.
   */
  lemma AsWrittenDiffers()
    ensures ValidateAsWritten(OnePeerResponse()) == Reply(None, None, Some(UnexpectedResponse))
    ensures ValidateAsWritten(BannedResponse()) == Reply(None, None, None)
    ensures Validate(OnePeerResponse()) ==
      Reply(Some(1800), Some([OnePeerResponse().entries[PeersKey].items[0].entries]), None)
    ensures Validate(BannedResponse()) == Reply(None, None, Some(TrackerFailure(Str("torrent banned"))))
  {
    var root := OnePeerResponse();
    assert FailureReasonKey !in root.entries;
    assert Itoa(1800) == "1800";
    assert DigitsValue("1800") == 1800 by {
      assert "1800"[..3] == "180" && "180"[..2] == "18" && "18"[..1] == "1";
    }
    assert Atoi(IntervalText(root.entries[IntervalKey])) == Some(1800);
    var items := root.entries[PeersKey].items;
    assert |items| == 1 && items[0].Dict?;
    assert PeerList(items).value == [items[0].entries];
  }
}
