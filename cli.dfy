/**
 * The command-line tool (src/main.rs): it validates a CBC id or watch-page
 * URL, turns it into a numeric media id, picks the platform asset descriptor
 * of the order response and prints the stream URL of the SMIL document; in
 * listing mode it cuts the page's state JSON out of a script element and
 * prints one line per clip.
 */
module Cli {
  import opened Wrappers
  import opened Text
  import opened Numbers
  import opened Timeline

  // ----- Digit strings -----

  /** `str::is_numeric`: a non-empty string of ASCII digits. */
  function IsNumeric(s: string): (b: bool)
    ensures b <==> |s| > 0 && forall i :: 0 <= i < |s| ==> IsAsciiDigit(s[i])
  {
    s != [] && AllDigits(s)
  }

  // ----- Substring helpers -----

  /** `str::substring_from`: the suffix of `s` from the first occurrence of `pat`. */
  function SubstringFrom(s: string, pat: string): (r: string)
    ensures s == [] || pat == [] || (forall j :: !OccursAt(s, pat, j)) ==> r == s
    ensures s != [] && pat != [] && (exists j :: OccursAt(s, pat, j)) ==>
      |r| <= |s| && pat <= r && r == s[|s| - |r|..] && forall j :: 0 <= j < |s| - |r| ==> !OccursAt(s, pat, j)
  {
    if s == [] || pat == [] then s
    else match FindFirst(s, pat)
      case None => s
      case Some(i) =>
        assert s[i..][..|pat|] == s[i..i + |pat|];
        s[i..]
  }

  /**
   * `str::substring_to_last` as written: the prefix of `s` that ends one
   * character after the start of the last occurrence of `pat`.
   */
  function SubstringToLast(s: string, pat: string): (r: string)
    ensures s == [] || pat == [] || (forall j :: !OccursAt(s, pat, j)) ==> r == s
    ensures s != [] && pat != [] && (exists j :: OccursAt(s, pat, j)) ==>
      1 <= |r| <= |s| && r == s[..|r|] && OccursAt(s, pat, |r| - 1) &&
      forall j :: |r| - 1 < j ==> !OccursAt(s, pat, j)
  {
    if s == [] || pat == [] then s
    else match FindLast(s, pat)
      case None => s
      case Some(i) => s[..i + 1]
  }

  /**
   * The prefix of `s` that ends with the last occurrence of `pat`: what
   * `substring_to_last` is meant to compute, and does for a one-character `pat`.
   */
  function SubstringThroughLast(s: string, pat: string): (r: string)
    ensures s == [] || pat == [] || (forall j :: !OccursAt(s, pat, j)) ==> r == s
    ensures s != [] && pat != [] && (exists j :: OccursAt(s, pat, j)) ==>
      |pat| <= |r| <= |s| && r == s[..|r|] && r[|r| - |pat|..] == pat &&
      forall j :: |r| - |pat| < j ==> !OccursAt(s, pat, j)
  {
    if s == [] || pat == [] then s
    else match FindLast(s, pat)
      case None => s
      case Some(i) => s[..i + |pat|]
  }

  /** For the one-character patterns the tool passes, the two definitions agree. */
  lemma SubstringToLastOneChar(s: string, pat: string)
    requires |pat| == 1
    ensures SubstringToLast(s, pat) == SubstringThroughLast(s, pat)
  {
  }

  /** With a longer pattern, the as-written helper keeps only its first character. */
  lemma SubstringToLastCutsLongPattern()
    ensures SubstringToLast("xaby", "ab") == "xa"
    ensures SubstringThroughLast("xaby", "ab") == "xab"
  {
    var s: string, pat: string := "xaby", "ab";
    assert OccursAt(s, pat, 1);
    assert s[0..2] == "xa" && s[2..4] == "by";
    assert !OccursAt(s, pat, 0) && !OccursAt(s, pat, 2) && !OccursAt(s, pat, 3);
    var i := FindLast(s, pat);
    assert i == Some(1);
  }

  /** A one-character pattern occurs exactly where that character stands. */
  lemma OccursAtOneChar(s: string, c: char, j: int)
    ensures OccursAt(s, [c], j) <==> 0 <= j < |s| && s[j] == c
  {
    if 0 <= j < |s| {
      assert s[j..j + 1] == [s[j]];
    }
  }

  /**
   * main.rs:118-126: the text of the `initialStateDom` script cut from its
   * first '{' through its last '}'.
   */
  function StateScript(text: string): (r: string)
    ensures |r| <= |text| && exists i :: 0 <= i <= |text| && r <= text[i..]
    ensures '{' in text ==> r != [] && r[0] == '{'
  {
    var from := SubstringFrom(text, "{");
    var r := SubstringToLast(from, "}");
    var i := |text| - |from|;
    assert r <= text[i..];
    if '{' in text then
      var a :| 0 <= a < |text| && text[a] == '{';
      OccursAtOneChar(text, '{', a);
      r
    else r
  }

  /** Cutting from the first '{' keeps the text from that brace on. */
  lemma FromFirstBrace(text: string, a: nat)
    requires a < |text| && text[a] == '{'
    requires forall k :: 0 <= k < a ==> text[k] != '{'
    ensures SubstringFrom(text, "{") == text[a..]
  {
    OccursAtOneChar(text, '{', a);
    var r := SubstringFrom(text, "{");
    var c := |text| - |r|;
    assert r[0] == '{';
    assert text[c] == '{';
    OccursAtOneChar(text, '{', c);
    assert c == a;
  }

  /** Cutting through the last '}' keeps the text up to and including that brace. */
  lemma ThroughLastBrace(text: string, b: nat)
    requires b < |text| && text[b] == '}'
    requires forall k :: b < k < |text| ==> text[k] != '}'
    ensures SubstringThroughLast(text, "}") == text[..b + 1]
  {
    OccursAtOneChar(text, '}', b);
    var r := SubstringThroughLast(text, "}");
    var e := |r| - 1;
    assert text[e] == '}' by {
      assert r[e..] == "}";
    }
    OccursAtOneChar(text, '}', e);
    assert e == b;
  }

  /** When a '}' follows the first '{', the state JSON is exactly the text between them. */
  lemma StateScriptSlice(text: string, a: nat, b: nat)
    requires a < b < |text| && text[a] == '{' && text[b] == '}'
    requires forall k :: 0 <= k < a ==> text[k] != '{'
    requires forall k :: b < k < |text| ==> text[k] != '}'
    ensures StateScript(text) == text[a..b + 1]
  {
    FromFirstBrace(text, a);
    var r := text[a..];
    assert forall k :: b - a < k < |r| ==> r[k] == text[a + k];
    ThroughLastBrace(r, b - a);
    SubstringToLastOneChar(r, "}");
    assert StateScript(text) == SubstringToLast(r, "}");
    assert r[..b - a + 1] == text[a..b + 1];
  }

  // ----- Proxy specification -----

  const ProxyScheme: string := "socks5h://"

  /** `proxy_url`: the proxy specification behind a fixed `socks5h://` scheme. */
  function ProxyUrl(spec: string): (url: string)
    ensures ProxyScheme <= url && url[|ProxyScheme|..] == spec
  {
    ProxyScheme + spec
  }

  /** The proxy specification a proxy URL was made from. */
  function ProxySpec(url: string): Option<string> {
    if ProxyScheme <= url then Some(url[|ProxyScheme|..]) else None
  }

  /** The specification is recovered from the proxy URL, so distinct specifications give distinct URLs. */
  lemma ProxySpecRoundTrip(spec: string, other: string)
    ensures ProxySpec(ProxyUrl(spec)) == Some(spec)
    ensures ProxyUrl(spec) == ProxyUrl(other) ==> spec == other
  {
  }

  /** A specification that already carries a scheme is not rewritten: the scheme is prefixed all the same. */
  lemma ProxyUrlKeepsGivenScheme()
    ensures ProxyUrl("socks5://1.2.3.4:1080") == "socks5h://socks5://1.2.3.4:1080"
  {
  }

  // ----- The watch-page URL pattern -----

  /** The literal part of `ID_REGEX` (main.rs:20-21), `https://www\.cbc\.ca/player/play/` unescaped. */
  const PlayPrefix: string := "https://www.cbc.ca/player/play/"

  /** `ID_REGEX` matches `s` at index `i`: the prefix, then at least one ASCII digit. */
  predicate MatchesAt(s: string, i: int) {
    OccursAt(s, PlayPrefix, i) && i + |PlayPrefix| < |s| && IsAsciiDigit(s[i + |PlayPrefix|])
  }

  /** The leftmost index at or after `from` where `ID_REGEX` matches. */
  function MatchFrom(s: string, from: nat): (r: Option<nat>)
    requires from <= |s|
    ensures r.Some? ==> from <= r.value && MatchesAt(s, r.value)
    ensures r.Some? ==> forall j :: from <= j < r.value ==> !MatchesAt(s, j)
    ensures r.None? ==> forall j :: from <= j ==> !MatchesAt(s, j)
    decreases |s| - from
  {
    if MatchesAt(s, from) then Some(from)
    else if from == |s| then None
    else MatchFrom(s, from + 1)
  }

  /** The length of the run of ASCII digits that starts at `start`. */
  function DigitRun(s: string, start: nat): (n: nat)
    requires start <= |s|
    ensures start + n <= |s|
    ensures forall k :: start <= k < start + n ==> IsAsciiDigit(s[k])
    ensures start + n == |s| || !IsAsciiDigit(s[start + n])
    decreases |s| - start
  {
    if start < |s| && IsAsciiDigit(s[start]) then 1 + DigitRun(s, start + 1) else 0
  }

  /** `ID_REGEX.captures(s)` group 1: the digits of the leftmost match, taken greedily. */
  function IdCapture(s: string): (r: Option<string>)
    ensures r.None? <==> forall i :: !MatchesAt(s, i)
    ensures r.Some? ==> r.value != [] && AllDigits(r.value)
  {
    match MatchFrom(s, 0)
    case None => None
    case Some(i) =>
      var start := i + |PlayPrefix|;
      var digits := s[start..start + DigitRun(s, start)];
      assert digits[0] == s[start];
      Some(digits)
  }

  /**
   * The capture is the whole digit run that follows the prefix at the
   * leftmost match, and nothing else.
   */
  lemma IdCaptureLeftmostGreedy(s: string, i: nat, n: nat)
    requires MatchesAt(s, i) && forall j :: 0 <= j < i ==> !MatchesAt(s, j)
    requires i + |PlayPrefix| + n <= |s|
    requires forall k :: i + |PlayPrefix| <= k < i + |PlayPrefix| + n ==> IsAsciiDigit(s[k])
    requires i + |PlayPrefix| + n == |s| || !IsAsciiDigit(s[i + |PlayPrefix| + n])
    ensures IdCapture(s) == Some(s[i + |PlayPrefix|..i + |PlayPrefix| + n])
  {
    var m := MatchFrom(s, 0);
    assert m == Some(i);
    var start := i + |PlayPrefix|;
    var run := DigitRun(s, start);
    assert start + run < |s| ==> !IsAsciiDigit(s[start + run]);
    assert run == n;
  }

  // ----- Validation and parsing of the identifier -----

  /** `probably_cbc`, the command line's validator of the URL argument (main.rs:207-214). */
  function ProbablyCbc(input: string): (r: Result<(), string>)
    ensures r.Ok? <==> IsNumeric(input) || exists i :: MatchesAt(input, i)
    ensures r.Err? ==> r.error == "invalid url"
  {
    if IsNumeric(input) || MatchFrom(input, 0).Some? then Ok(()) else Err("invalid url")
  }

  /** What `parse_cbc_id` does with its input: a `u64`, a parse error, or a panic in `unwrap()`. */
  datatype IdOutcome = Parsed(id: nat) | ParseFailed(kind: IntErrorKind) | Panicked

  function FromParse(r: Result<nat, IntErrorKind>): IdOutcome {
    match r
    case Ok(n) => Parsed(n)
    case Err(e) => ParseFailed(e)
  }

  /** `parse_cbc_id` (main.rs:167-173). */
  function ParseCbcId(input: string): (r: IdOutcome)
    ensures IsNumeric(input) ==>
      r == if DecimalValue(input) <= U64_MAX then Parsed(DecimalValue(input)) else ParseFailed(PosOverflow)
    ensures r.Panicked? <==> !IsNumeric(input) && forall i :: !MatchesAt(input, i)
    ensures r.Parsed? ==> r.id <= U64_MAX
    ensures r.ParseFailed? ==> r.kind == PosOverflow
  {
    if IsNumeric(input) then FromParse(ParseU64(input))
    else match IdCapture(input)
      case None => Panicked
      case Some(digits) => FromParse(ParseU64(digits))
  }

  /** Input the validator accepts never reaches the panicking `unwrap()`, and input it rejects always would. */
  lemma ValidatedIdNeverPanics(input: string)
    ensures ProbablyCbc(input).Ok? <==> !ParseCbcId(input).Panicked?
  {
  }

  /**
   * For a watch-page URL, the id is the value of the whole digit run after
   * the leftmost match of the pattern; only a value beyond `u64` fails.
   */
  lemma ParseCbcIdOfUrl(input: string, i: nat, n: nat)
    requires MatchesAt(input, i) && forall j :: 0 <= j < i ==> !MatchesAt(input, j)
    requires i + |PlayPrefix| + n <= |input|
    requires forall k :: i + |PlayPrefix| <= k < i + |PlayPrefix| + n ==> IsAsciiDigit(input[k])
    requires i + |PlayPrefix| + n == |input| || !IsAsciiDigit(input[i + |PlayPrefix| + n])
    ensures var digits := input[i + |PlayPrefix|..i + |PlayPrefix| + n];
      AllDigits(digits) &&
      ParseCbcId(input) == if DecimalValue(digits) <= U64_MAX then Parsed(DecimalValue(digits)) else ParseFailed(PosOverflow)
  {
    IdCaptureLeftmostGreedy(input, i, n);
    assert input[i..i + |PlayPrefix|][5] == ':';
    assert !IsNumeric(input);
    var digits := input[i + |PlayPrefix|..i + |PlayPrefix| + n];
    assert digits[0] == input[i + |PlayPrefix|];
  }

  // ----- The order request and the choice of asset descriptor -----

  /** An asset descriptor of an order item (main.rs:291-297). */
  datatype AssetDescriptor = AssetDescriptor(loader: string, key: string, mimeType: Option<string>)

  /** An item of the order response (main.rs:222-289); only the fields the tool reads are kept. */
  datatype OrderItem = OrderItem(id: string, title: string, assetDescriptors: seq<AssetDescriptor>)

  const PlatformLoader: string := "PlatformLoader"
  const MissingItem: string := "missing item"
  const MissingPlatformLoader: string := "couldn't find PlatformLoader"

  /** The descriptor at `k` is the first one whose loader is the platform loader. */
  predicate FirstPlatformLoaderAt(descriptors: seq<AssetDescriptor>, k: int) {
    0 <= k < |descriptors| && descriptors[k].loader == PlatformLoader &&
    forall j :: 0 <= j < k ==> descriptors[j].loader != PlatformLoader
  }

  /** `iter().find(|id| id.loader == "PlatformLoader")` from index `from` on, as an index. */
  function FindPlatformLoader(descriptors: seq<AssetDescriptor>, from: nat): (r: Option<nat>)
    requires from <= |descriptors|
    ensures r.Some? ==> from <= r.value < |descriptors| && descriptors[r.value].loader == PlatformLoader
    ensures r.Some? ==> forall j :: from <= j < r.value ==> descriptors[j].loader != PlatformLoader
    ensures r.None? ==> forall j :: from <= j < |descriptors| ==> descriptors[j].loader != PlatformLoader
    decreases |descriptors| - from
  {
    if from == |descriptors| then None
    else if descriptors[from].loader == PlatformLoader then Some(from)
    else FindPlatformLoader(descriptors, from + 1)
  }

  /** main.rs:72-79: the platform descriptor of the first order item. */
  function SelectDescriptor(items: seq<OrderItem>): (r: Result<AssetDescriptor, string>)
    ensures r == Err(MissingItem) <==> items == []
    ensures r == Err(MissingPlatformLoader) <==>
      items != [] && forall k :: 0 <= k < |items[0].assetDescriptors| ==> items[0].assetDescriptors[k].loader != PlatformLoader
    ensures r.Ok? ==> exists k :: FirstPlatformLoaderAt(items[0].assetDescriptors, k) && r.value == items[0].assetDescriptors[k]
    ensures r.Err? ==> r.error == MissingItem || r.error == MissingPlatformLoader
  {
    if items == [] then Err(MissingItem)
    else match FindPlatformLoader(items[0].assetDescriptors, 0)
      case None => Err(MissingPlatformLoader)
      case Some(k) =>
        assert FirstPlatformLoaderAt(items[0].assetDescriptors, k);
        Ok(items[0].assetDescriptors[k])
  }

  /** The descriptors of items after the first are never consulted. */
  lemma SelectDescriptorFirstItemOnly(first: OrderItem, rest: seq<OrderItem>)
    ensures SelectDescriptor([first] + rest) == SelectDescriptor([first])
  {
  }

  const OrderPrefix: string := "https://www.cbc.ca/bistro/order?mediaId="
  const OrderSuffix: string := "&limit=10&sort=dateAired"

  /** main.rs:70: the order request for a media id. */
  function OrderUrl(id: nat): (url: string)
    ensures OrderPrefix <= url && |OrderPrefix| + |OrderSuffix| < |url|
    ensures url[|url| - |OrderSuffix|..] == OrderSuffix
    ensures var digits := url[|OrderPrefix|..|url| - |OrderSuffix|];
      AllDigits(digits) && DecimalValue(digits) == id && (digits[0] == '0' ==> digits == "0")
  {
    var digits := NatString(id);
    var url := OrderPrefix + digits + OrderSuffix;
    assert url[|OrderPrefix|..|url| - |OrderSuffix|] == digits;
    url
  }

  /** The media id parses back out of the order request. */
  lemma OrderUrlRoundTrip(id: nat)
    requires id <= U64_MAX
    ensures var url := OrderUrl(id);
      OrderPrefix <= url && |OrderPrefix| + |OrderSuffix| <= |url| &&
      url[|url| - |OrderSuffix|..] == OrderSuffix &&
      ParseU64(url[|OrderPrefix|..|url| - |OrderSuffix|]) == Ok(id)
  {
    var url := OrderUrl(id);
    assert url[|OrderPrefix|..|url| - |OrderSuffix|] == NatString(id);
    NatStringRoundTrip(id);
  }

  // ----- Resolution of a stream -----

  /** The first `seq > video` element of the SMIL document and its `src`, as the HTML parser reports them. */
  datatype SmilVideo = NoVideo | NoSrc | Src(url: string)

  /** The ways the tool stops before printing a stream URL. */
  datatype Failure =
    | InvalidArgument(message: string)
    | BadId(kind: IntErrorKind)
    | Upstream(message: string)
    | Missing(message: string)

  /**
   * main.rs:39 and 69-85: from the URL argument to the stream URL printed
   * (or handed to streamlink). `fetchOrder` stands for the order request and
   * its JSON decoding, `fetchSmil` for the SMIL request and its parsing.
   */
  function Resolve(input: string, fetchOrder: string -> Result<seq<OrderItem>, string>,
                   fetchSmil: string -> Result<SmilVideo, string>): (r: Result<string, Failure>)
    ensures r == Err(InvalidArgument("invalid url")) <==> ProbablyCbc(input).Err?
    ensures r.Ok? ==> exists id: nat, items: seq<OrderItem>, desc: AssetDescriptor ::
      ParseCbcId(input) == Parsed(id) && fetchOrder(OrderUrl(id)) == Ok(items) &&
      SelectDescriptor(items) == Ok(desc) && fetchSmil(desc.key) == Ok(Src(r.value))
  {
    if ProbablyCbc(input).Err? then Err(InvalidArgument(ProbablyCbc(input).error))
    else match ParseCbcId(input)
      case Panicked => assert false; Err(InvalidArgument("invalid url"))
      case ParseFailed(kind) => Err(BadId(kind))
      case Parsed(id) =>
        match fetchOrder(OrderUrl(id))
        case Err(e) => Err(Upstream(e))
        case Ok(items) =>
          match SelectDescriptor(items)
          case Err(message) => Err(Missing(message))
          case Ok(desc) =>
            match fetchSmil(desc.key)
            case Err(e) => Err(Upstream(e))
            case Ok(NoVideo) => Err(Missing("missing seq"))
            case Ok(NoSrc) => Err(Missing("missing src"))
            case Ok(Src(url)) => Ok(url)
  }

  /**
   * End to end: the order for the id names a platform descriptor and its SMIL
   * document has a video with a source, so that source is the printed URL.
   */
  lemma ResolvePrintsSmilSource(input: string, fetchOrder: string -> Result<seq<OrderItem>, string>,
                                fetchSmil: string -> Result<SmilVideo, string>, items: seq<OrderItem>, k: nat)
    requires IsNumeric(input) && DecimalValue(input) <= U64_MAX
    requires fetchOrder(OrderUrl(DecimalValue(input))) == Ok(items)
    requires items != [] && FirstPlatformLoaderAt(items[0].assetDescriptors, k)
    requires fetchSmil(items[0].assetDescriptors[k].key).Ok? && fetchSmil(items[0].assetDescriptors[k].key).value.Src?
    ensures Resolve(input, fetchOrder, fetchSmil) == Ok(fetchSmil(items[0].assetDescriptors[k].key).value.url)
  {
    var r := SelectDescriptor(items);
    assert r == Ok(items[0].assetDescriptors[k]) by {
      var k' :| FirstPlatformLoaderAt(items[0].assetDescriptors, k') && r.value == items[0].assetDescriptors[k'];
      assert k' == k;
    }
  }

  /** An order whose first item has no platform descriptor fails with the error that names the loader. */
  lemma ResolveNamesMissingLoader(input: string, fetchOrder: string -> Result<seq<OrderItem>, string>,
                                  fetchSmil: string -> Result<SmilVideo, string>, items: seq<OrderItem>)
    requires IsNumeric(input) && DecimalValue(input) <= U64_MAX
    requires fetchOrder(OrderUrl(DecimalValue(input))) == Ok(items)
    requires items != [] && forall j :: 0 <= j < |items[0].assetDescriptors| ==> items[0].assetDescriptors[j].loader != PlatformLoader
    ensures Resolve(input, fetchOrder, fetchSmil) == Err(Missing(MissingPlatformLoader))
  {
  }

  // ----- Listing lines of the player page -----

  /** A clip of the player page's state (main.rs:353-374); the `i64` fields `id` and `airDate` (milliseconds) and the title. */
  datatype Item = Item(id: int, title: string, airDate: int)

  /** main.rs:152: the air instant in whole seconds, `air_date / 1000` rounded toward zero. */
  function AirSeconds(item: Item): int {
    TruncDiv(item.airDate, 1000)
  }

  /** `Item::to_human` (main.rs:151-164) at the instant `now` (seconds). */
  function ItemToHuman(item: Item, state: VidState, zone: Zone, now: int): (line: string)
    ensures line == IntString(item.id) + " - " + Note(state, AirTimeText(zone, now, AirSeconds(item))) + item.title
    ensures IntString(item.id) + " - (" <= line
    ensures |item.title| <= |line| && line[|line| - |item.title|..] == item.title
  {
    var head := IntString(item.id) + " - ";
    var note := Note(state, AirTimeText(zone, now, AirSeconds(item)));
    assert (head + note)[..|head| + 1] == head + [note[0]];
    PrefixOfConcat(head + "(", head + note, item.title);
    head + note + item.title
  }

  /** A string of signs and digits never contains a watch-page URL. */
  lemma NoMatchAmongDigits(w: string)
    requires forall k :: 0 <= k < |w| ==> w[k] == '-' || IsAsciiDigit(w[k])
    ensures forall i :: !MatchesAt(w, i)
  {
    forall i | 0 <= i && i + |PlayPrefix| <= |w|
      ensures !OccursAt(w, PlayPrefix, i)
    {
      assert w[i..i + |PlayPrefix|][0] == w[i];
    }
  }

  /**
   * The id that opens a listing line is one the command line accepts, and
   * resolves to the same media id, exactly when it is not negative.
   */
  lemma ListedIdResolves(id: int)
    requires I64_MIN <= id <= I64_MAX
    ensures ProbablyCbc(IntString(id)).Ok? <==> id >= 0
    ensures id >= 0 ==> ParseCbcId(IntString(id)) == Parsed(id)
  {
    var word := IntString(id);
    if id < 0 {
      assert word == "-" + NatString(-id);
      assert forall k :: 1 <= k < |word| ==> IsAsciiDigit(word[k]);
      NoMatchAmongDigits(word);
    }
  }
}
