/**
 * The content-API generation (src/api.rs): the nodes of the content listing,
 * their ids, airing windows and listing lines, and the stream keys found in
 * the assets of the current clip of a player page.
 */
module Api {
  import opened Wrappers
  import opened Text
  import opened Numbers
  import opened Timeline

  /** `Flag` (api.rs:115-119): a live programme or an on-demand video. */
  datatype Flag = Live | Video

  /**
   * A content node (api.rs:23-54), with the fields the listing reads.
   * `publishedAt` is the decoded JSON string; `durationSeconds` is the
   * media duration after rounding to whole seconds.
   */
  datatype Node = Node(id: int, url: string, title: string, flag: Flag, publishedAt: string, durationSeconds: int)

  // ----- The id shown for a node -----

  /** `Node::proper_id` (api.rs:57-59): the last piece of `url.split('/')`. */
  function ProperId(url: string): (r: string)
    ensures '/' !in r
    ensures |r| <= |url| && url[|url| - |r|..] == r
    ensures |r| < |url| ==> url[|url| - |r| - 1] == '/'
    decreases |url|
  {
    if url == [] || url[|url| - 1] == '/' then ""
    else
      var last := url[|url| - 1];
      var r := ProperId(url[..|url| - 1]) + [last];
      r
  }

  /** The shown id is the whole last path segment, and all of a URL without '/'. */
  lemma {:induction false} ProperIdOfPath(dir: string, segment: string)
    requires '/' !in segment
    ensures ProperId(dir + "/" + segment) == segment
  {
    var url := dir + "/" + segment;
    var r := ProperId(url);
    assert url[|dir|] == '/';
    assert forall k :: |dir| < k < |url| ==> url[k] == segment[k - |dir| - 1];
    assert forall k :: |url| - |r| <= k < |url| ==> url[k] == r[k - (|url| - |r|)];
    assert |r| == |segment|;
  }

  /** A URL without '/' is shown whole. */
  lemma ProperIdWithoutSlash(url: string)
    requires '/' !in url
    ensures ProperId(url) == url
  {
    var r := ProperId(url);
    assert forall k :: 0 <= k < |url| ==> url[k] != '/';
  }

  /** A slug is not cut at its last '-': under any directory, an event page shows its whole slug. */
  lemma ProperIdKeepsSlug(dir: string)
    ensures ProperId(dir + "/" + "event-name-30045") == "event-name-30045"
  {
    var segment := "event-name-30045";
    assert forall k :: 0 <= k < |segment| ==> segment[k] != '/';
    ProperIdOfPath(dir, segment);
  }

  // ----- Time of a node -----

  /** `Node::timestamp` (api.rs:90-92): `published_at` read as an `i64` count of milliseconds. */
  function Timestamp(node: Node): (r: Result<int, IntErrorKind>)
    ensures r.Ok? ==> I64_MIN <= r.value <= I64_MAX
    ensures node.publishedAt == [] || !AllDigits(SignedPart(node.publishedAt)) ==> r.Err?
  {
    ParseI64(node.publishedAt)
  }

  /** A decimal count of milliseconds is read back exactly. */
  lemma TimestampOfMillis(node: Node, ms: int)
    requires I64_MIN <= ms <= I64_MAX && node.publishedAt == IntString(ms)
    ensures Timestamp(node) == Ok(ms)
  {
    IntStringRoundTrip(ms);
  }

  const NanosPerMilli: nat := 1_000_000
  const NanosPerSecond: nat := 1_000_000_000

  /** The start of a node's airing window, in nanoseconds since the epoch. */
  function StartNanos(ms: int): int {
    ms * NanosPerMilli
  }

  /** The end of a node's airing window, in nanoseconds since the epoch. */
  function EndNanos(ms: int, durationSeconds: int): int {
    StartNanos(ms) + durationSeconds * NanosPerSecond
  }

  /** `Node::is_live` (api.rs:98-105) at the instant `now`, in nanoseconds since the epoch. */
  function IsLive(node: Node, now: int): (r: Result<bool, IntErrorKind>)
    ensures r.Err? <==> Timestamp(node).Err?
    ensures r.Ok? ==> (r.value <==>
      StartNanos(Timestamp(node).value) <= now <= EndNanos(Timestamp(node).value, node.durationSeconds))
  {
    match Timestamp(node)
    case Err(e) => Err(e)
    case Ok(ms) =>
      var start := ms * NanosPerMilli;
      var end := start + node.durationSeconds * NanosPerSecond;
      Ok(start <= now && now <= end)
  }

  /** Both ends of the airing window are on air; the instants just outside it are not. */
  lemma AiringWindowInclusive(node: Node)
    requires Timestamp(node).Ok? && node.durationSeconds >= 0
    ensures var ms := Timestamp(node).value;
      IsLive(node, StartNanos(ms)) == Ok(true) &&
      IsLive(node, EndNanos(ms, node.durationSeconds)) == Ok(true) &&
      IsLive(node, StartNanos(ms) - 1) == Ok(false) &&
      IsLive(node, EndNanos(ms, node.durationSeconds) + 1) == Ok(false)
  {
  }

  // ----- Listing line of a node -----

  /** The state a node is listed in at `now` (api.rs:68-85). */
  function NodeState(node: Node, now: int): (state: VidState)
    requires Timestamp(node).Ok?
    ensures state == Replay <==> node.flag == Video
    ensures state == Started <==> node.flag == Live && IsLive(node, now) == Ok(true)
  {
    var liveOrUpcoming := node.flag == Live;
    if liveOrUpcoming then (if IsLive(node, now).value then Started else Upcoming) else Replay
  }

  const FullUrlBase: string := "https://www.cbc.ca/player/play/video/"

  /** The text in front of a node's id: the watch-page base when full URLs are asked for. */
  function ListingPrefix(fullUrls: bool): (p: string)
    ensures p == FullUrlBase <==> fullUrls
    ensures p == [] <==> !fullUrls
  {
    if fullUrls then FullUrlBase else ""
  }

  /** The local text of a node's air time at `now` (api.rs:62-66); instants in seconds. */
  function NodeTimeText(zone: Zone, now: int, ms: int): (text: string)
    ensures SameLocalDay(zone, now / NanosPerSecond, ms / 1000) ==> text == zone.strftime(SameDayFormat, ms / 1000)
    ensures !SameLocalDay(zone, now / NanosPerSecond, ms / 1000) ==> text == zone.strftime(OtherDayFormat, ms / 1000)
  {
    AirTimeText(zone, now / NanosPerSecond, ms / 1000)
  }

  /** `Node::to_human` (api.rs:61-88) at the instant `now`, in nanoseconds since the epoch. */
  function ToHuman(node: Node, fullUrls: bool, zone: Zone, now: int): (r: Result<string, IntErrorKind>)
    ensures r.Err? <==> Timestamp(node).Err?
    ensures r.Ok? ==> (r.value ==
      ListingPrefix(fullUrls) + ProperId(node.url) + " - " +
      Note(NodeState(node, now), NodeTimeText(zone, now, Timestamp(node).value)) + node.title)
  {
    match Timestamp(node)
    case Err(e) => Err(e)
    case Ok(ms) =>
      var dateTime := NodeTimeText(zone, now, ms);
      var note := Note(NodeState(node, now), dateTime);
      Ok(ListingPrefix(fullUrls) + ProperId(node.url) + " - " + note + node.title)
  }

  /** An on-demand video is listed with the replay note `(time) ` whatever the clock says. */
  lemma VideoIsAlwaysReplay(node: Node, fullUrls: bool, zone: Zone, now: int)
    requires node.flag == Video && Timestamp(node).Ok?
    ensures var text := NodeTimeText(zone, now, Timestamp(node).value);
      ToHuman(node, fullUrls, zone, now) ==
        Ok(ListingPrefix(fullUrls) + ProperId(node.url) + " - " + Note(Replay, text) + node.title)
  {
  }

  /**
   * A live programme whose airing window is over is listed as UPCOMING, like
   * one that has not started: only the window decides, not which side of it
   * `now` lies on.
   */
  lemma FinishedLiveIsUpcoming(node: Node, zone: Zone, now: int)
    requires node.flag == Live && Timestamp(node).Ok?
    requires now > EndNanos(Timestamp(node).value, node.durationSeconds)
    ensures NodeState(node, now) == Upcoming
    ensures ParseNote(Note(NodeState(node, now), NodeTimeText(zone, now, Timestamp(node).value))).Some?
  {
    ParseNoteRoundTrip(Upcoming, NodeTimeText(zone, now, Timestamp(node).value));
  }

  /** With full URLs the line opens with the watch-page URL of the node; without, with its id; the note follows. */
  lemma ListingLineOpensWithLink(node: Node, fullUrls: bool, zone: Zone, now: int)
    requires Timestamp(node).Ok?
    ensures var line := ToHuman(node, fullUrls, zone, now).value;
      var head := ListingPrefix(fullUrls) + ProperId(node.url) + " - ";
      (fullUrls ==> FullUrlBase <= line) && head <= line && |head| < |line| && line[|head|] == '('
  {
    var note := Note(NodeState(node, now), NodeTimeText(zone, now, Timestamp(node).value));
    var line := ToHuman(node, fullUrls, zone, now).value;
    var head := ListingPrefix(fullUrls) + ProperId(node.url) + " - ";
    assert line == head + note + node.title;
    PrefixOfConcat(head, head, note);
    PrefixOfConcat(head, head + note, node.title);
    assert line[|head|] == (head + note)[|head|] == note[0];
    if fullUrls {
      PrefixOfConcat(FullUrlBase, FullUrlBase, ProperId(node.url));
      PrefixOfConcat(FullUrlBase, FullUrlBase + ProperId(node.url), " - ");
      PrefixOfConcat(FullUrlBase, head, note);
      PrefixOfConcat(FullUrlBase, head + note, node.title);
    }
  }

  // ----- Stream keys of a player page -----

  /** An asset of the current clip (api.rs:276-282). */
  datatype Asset = Asset(key: string, assetType: string)

  /** The media of the current clip (api.rs:250-274). */
  datatype ClipMedia = ClipMedia(id: int, assets: seq<Asset>, duration: int)

  /** The current clip of a player page (api.rs:228-248). */
  datatype CurrentClip = CurrentClip(sourceId: string, title: string, publishedAt: string, media: ClipMedia)

  /** `Video`, the video part of a player page's initial state (api.rs:197-205). */
  datatype PageVideo = PageVideo(currentClip: CurrentClip)

  /** `StreamURLs` (api.rs:222-226). */
  datatype StreamUrls = StreamUrls(dai: Option<string>, medianet: Option<string>)

  const PlatformDai: string := "platform-dai"
  const Medianet: string := "medianet"

  /** The asset at `j` is the last one of type `t`. */
  predicate LastOfTypeAt(assets: seq<Asset>, t: string, j: int) {
    0 <= j < |assets| && assets[j].assetType == t &&
    forall k :: j < k < |assets| ==> assets[k].assetType != t
  }

  /** The index of the last asset of type `t`. */
  function LastIndexOfType(assets: seq<Asset>, t: string): (r: Option<nat>)
    ensures r.Some? ==> LastOfTypeAt(assets, t, r.value)
    ensures r.None? <==> forall k :: 0 <= k < |assets| ==> assets[k].assetType != t
  {
    if assets == [] then None
    else if assets[|assets| - 1].assetType == t then Some(|assets| - 1)
    else LastIndexOfType(assets[..|assets| - 1], t)
  }

  /** The key of the last asset of type `t`. */
  function LastKeyOfType(assets: seq<Asset>, t: string): (r: Option<string>)
    ensures r.None? <==> forall k :: 0 <= k < |assets| ==> assets[k].assetType != t
    ensures r.Some? ==> exists j :: LastOfTypeAt(assets, t, j) && assets[j].key == r.value
  {
    match LastIndexOfType(assets, t)
    case None => None
    case Some(j) => Some(assets[j].key)
  }

  /** `Video::get_stream_urls` (api.rs:207-220). */
  method GetStreamUrls(video: PageVideo) returns (urls: StreamUrls)
    ensures urls.dai == None
    ensures urls.medianet == LastKeyOfType(video.currentClip.media.assets, Medianet)
  {
    var assets := video.currentClip.media.assets;
    urls := StreamUrls(None, None);
    for i := 0 to |assets|
      invariant urls.dai == None
      invariant urls.medianet == LastKeyOfType(assets[..i], Medianet)
    {
      assert assets[..i + 1][..i] == assets[..i];
      if assets[i].assetType == PlatformDai {
        // the ad-insertion stream is not used
      } else if assets[i].assetType == Medianet {
        urls := urls.(medianet := Some(assets[i].key));
      }
    }
    assert assets[..|assets|] == assets;
  }

  /** The assets of type `t`, in order. */
  function OfType(assets: seq<Asset>, t: string): (r: seq<Asset>)
    ensures forall k :: 0 <= k < |r| ==> r[k].assetType == t && r[k] in assets
    ensures forall k :: 0 <= k < |assets| && assets[k].assetType == t ==> assets[k] in r
    ensures |assets| == 1 ==> r == if assets[0].assetType == t then assets else []
  {
    if assets == [] then []
    else if assets[|assets| - 1].assetType == t then OfType(assets[..|assets| - 1], t) + [assets[|assets| - 1]]
    else OfType(assets[..|assets| - 1], t)
  }

  /** Assets of other types, `platform-dai` among them, do not change the key found. */
  lemma {:induction false} OtherAssetsIgnored(assets: seq<Asset>, t: string)
    ensures LastKeyOfType(assets, t) == LastKeyOfType(OfType(assets, t), t)
  {
    if assets != [] {
      var init := assets[..|assets| - 1];
      OtherAssetsIgnored(init, t);
      var last := assets[|assets| - 1];
      if last.assetType != t {
        assert OfType(assets, t) == OfType(init, t);
        assert LastIndexOfType(assets, t) == LastIndexOfType(init, t);
      } else {
        var f := OfType(init, t) + [last];
        assert OfType(assets, t) == f;
        assert LastIndexOfType(f, t) == Some(|f| - 1);
        assert LastKeyOfType(f, t) == Some(last.key) == LastKeyOfType(assets, t);
      }
    }
  }

  /** Filtering keeps order: the assets of a concatenation are those of each part, in turn. */
  lemma {:induction false} OfTypeConcat(front: seq<Asset>, back: seq<Asset>, t: string)
    ensures OfType(front + back, t) == OfType(front, t) + OfType(back, t)
    decreases |back|
  {
    if back != [] {
      var init := back[..|back| - 1];
      var last := back[|back| - 1];
      var whole := front + back;
      assert whole[..|whole| - 1] == front + init;
      assert whole[|whole| - 1] == last;
      OfTypeConcat(front, init, t);
      if last.assetType == t {
        assert OfType(whole, t) == OfType(front + init, t) + [last];
        assert OfType(back, t) == OfType(init, t) + [last];
      } else {
        assert OfType(whole, t) == OfType(front + init, t);
        assert OfType(back, t) == OfType(init, t);
      }
    } else {
      assert front + back == front;
    }
  }
}
