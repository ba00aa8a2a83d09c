/** CDN URL builders of lib/cloudfront.ts. The distribution domain, read from
    the environment in the source, is a parameter; an empty domain means no
    CDN is configured. Numbers are integers; `undefined` options are `None`. */
module CloudFront {
  import opened JsString

  const Marker: string := ".com/"

  datatype ImageFormat = Webp | Jpeg | Png

  function FormatName(f: ImageFormat): (r: string)
    ensures r != []
  {
    match f
    case Webp => "webp"
    case Jpeg => "jpeg"
    case Png => "png"
  }

  datatype ImageOptions = ImageOptions(
    width: Option<int>,
    height: Option<int>,
    quality: Option<int>,
    format: Option<ImageFormat>)

  const NoOptions := ImageOptions(None, None, None, None)

  /** A number is truthy iff it is not zero. */
  predicate TruthyNum(n: int)
  {
    n != 0
  }

  /** `originalUrl.split(".com/")[1] || originalUrl`. */
  function S3Key(originalUrl: string): (r: string)
  {
    var parts := Split(originalUrl, Marker);
    if |parts| >= 2 && parts[1] != [] then parts[1] else originalUrl
  }

  /** Without ".com/" in the URL the key is the whole URL. */
  lemma S3KeyWithoutMarker(url: string)
    requires forall k :: !OccursAt(url, Marker, k)
    ensures S3Key(url) == url
  {
    SplitWithoutSeparator(url, Marker, []);
  }

  /** With the first ".com/" at `i` and the next one at `j`, the key is the
      text between them, or the whole URL when that text is empty. */
  lemma S3KeyBetweenMarkers(url: string, i: nat, j: nat)
    requires OccursAt(url, Marker, i)
    requires forall k :: 0 <= k < i ==> !OccursAt(url, Marker, k)
    requires i + |Marker| <= j && OccursAt(url, Marker, j)
    requires forall k :: i + |Marker| <= k < j ==> !OccursAt(url, Marker, k)
    ensures S3Key(url) == if j > i + |Marker| then url[i + |Marker|..j] else url
  {
    SplitFromFirst(url, Marker, [], i);
    var rest := url[i + |Marker|..];
    var j' := j - (i + |Marker|);
    assert OccursAt(rest, Marker, j') by {
      assert rest[j'..j' + |Marker|] == url[j..j + |Marker|];
    }
    forall k | 0 <= k < j' ensures !OccursAt(rest, Marker, k) {
      if OccursAt(rest, Marker, k) {
        assert rest[k..k + |Marker|] == url[i + |Marker| + k..i + |Marker| + k + |Marker|];
        assert OccursAt(url, Marker, i + |Marker| + k);
      }
    }
    SplitFromFirst(rest, Marker, [], j');
    assert rest[..j'] == url[i + |Marker|..j];
  }

  /** With one ".com/" at `i` and none after it, the key is everything after
      it, or the whole URL when nothing follows. */
  lemma S3KeyAfterLastMarker(url: string, i: nat)
    requires OccursAt(url, Marker, i)
    requires forall k :: 0 <= k < i ==> !OccursAt(url, Marker, k)
    requires forall k :: i + |Marker| <= k ==> !OccursAt(url, Marker, k)
    ensures S3Key(url) == if |url| > i + |Marker| then url[i + |Marker|..] else url
  {
    SplitFromFirst(url, Marker, [], i);
    NoOccurrenceFrom(url, Marker, i + |Marker|);
    SplitWithoutSeparator(url[i + |Marker|..], Marker, []);
  }

  /** The query parameter names the image URL can carry, in the order they are appended. */
  datatype ParamName = W | H | Q | F

  function NameText(n: ParamName): (r: string)
    ensures |r| == 1 && r[0] != '&' && r[0] != '='
  {
    match n
    case W => "w"
    case H => "h"
    case Q => "q"
    case F => "f"
  }

  datatype Param = Param(name: ParamName, value: string)

  /** The `name=value` text of each parameter, in order. */
  function Pairs(params: seq<Param>): (r: seq<string>)
    ensures |r| == |params|
    ensures forall i :: 0 <= i < |r| ==> r[i] == NameText(params[i].name) + "=" + params[i].value
  {
    if params == [] then [] else [NameText(params[0].name) + "=" + params[0].value] + Pairs(params[1..])
  }

  /** `URLSearchParams.toString()` for names and values that need no escaping. */
  function Serialize(params: seq<Param>): (r: string)
    ensures r == [] <==> params == []
  {
    Join(Pairs(params), "&")
  }

  lemma PairsWithoutAmpersand(params: seq<Param>)
    requires forall i :: 0 <= i < |params| ==> '&' !in params[i].value
    ensures forall i :: 0 <= i < |Pairs(params)| ==> '&' !in Pairs(params)[i]
  {
    var ps := Pairs(params);
    forall i | 0 <= i < |ps| ensures '&' !in ps[i] {
      assert ps[i] == NameText(params[i].name) + ("=" + params[i].value);
    }
  }

  /** Values without '&' can be read back from the query string. */
  lemma SerializeSplit(params: seq<Param>)
    requires params != []
    requires forall i :: 0 <= i < |params| ==> '&' !in params[i].value
    ensures Split(Serialize(params), "&") == Pairs(params)
  {
    PairsWithoutAmpersand(params);
    SplitJoinChar(Pairs(params), '&');
  }

  /** `URLSearchParams.get(name)`: the value of the first parameter so named. */
  function Lookup(params: seq<Param>, name: ParamName): (r: Option<string>)
  {
    if params == [] then None
    else if params[0].name == name then Some(params[0].value)
    else Lookup(params[1..], name)
  }

  /** Nothing is found exactly when no parameter has that name. */
  lemma {:induction false} LookupNone(params: seq<Param>, name: ParamName)
    ensures Lookup(params, name).None? <==> forall i :: 0 <= i < |params| ==> params[i].name != name
  {
    if params != [] && params[0].name != name {
      LookupNone(params[1..], name);
      forall i | 1 <= i < |params| ensures params[i].name == params[1..][i - 1].name {}
    }
  }

  /** A found value belongs to the first parameter with that name. */
  lemma {:induction false} LookupFirst(params: seq<Param>, name: ParamName)
    requires Lookup(params, name).Some?
    ensures exists i :: FirstNamed(params, name, i) && params[i].value == Lookup(params, name).value
  {
    if params[0].name == name {
      assert FirstNamed(params, name, 0);
    } else {
      LookupFirst(params[1..], name);
      var i :| FirstNamed(params[1..], name, i) && params[1..][i].value == Lookup(params[1..], name).value;
      assert FirstNamed(params, name, i + 1);
    }
  }

  /** `i` is the first position holding a parameter called `name`. */
  predicate FirstNamed(params: seq<Param>, name: ParamName, i: int)
  {
    0 <= i < |params| && params[i].name == name
    && forall k :: 0 <= k < i ==> params[k].name != name
  }

  /** A lookup in a concatenation finds the first part's value before the second's. */
  lemma {:induction false} LookupAppend(a: seq<Param>, b: seq<Param>, name: ParamName)
    ensures Lookup(a + b, name) == if Lookup(a, name).Some? then Lookup(a, name) else Lookup(b, name)
  {
    if a != [] {
      assert (a + b)[1..] == a[1..] + b;
      LookupAppend(a[1..], b, name);
    } else {
      assert a + b == b;
    }
  }

  /** Position of a parameter name in the fixed order w, h, q, f. */
  function Rank(name: ParamName): int
  {
    match name
    case W => 0
    case H => 1
    case Q => 2
    case F => 3
  }

  /** The parameters appended for the resolved width, height, quality and
      format, in the order w, h, q, f, the last being the format. */
  function ImageParams(width: Option<int>, height: Option<int>, quality: int, format: ImageFormat): (r: seq<Param>)
    ensures RankOrdered(r)
    ensures |r| >= 1 && r[|r| - 1] == Param(F, FormatName(format))
  {
    var w, h, q := NumParam(W, width), NumParam(H, height), NumParam(Q, Some(quality));
    var f := [Param(F, FormatName(format))];
    RankedBefore(q, f, Q);
    RankedBefore(h, q + f, H);
    RankedBefore(w, h + (q + f), W);
    w + (h + (q + f))
  }

  /** One numeric parameter, present when its value is given and truthy. */
  function NumParam(n: ParamName, v: Option<int>): (r: seq<Param>)
    ensures |r| <= 1 && forall i :: 0 <= i < |r| ==> r[i].name == n
  {
    if v.Some? && TruthyNum(v.value) then [Param(n, IntToString(v.value))] else []
  }

  /** The names strictly increase in the order w, h, q, f. */
  predicate RankOrdered(r: seq<Param>)
  {
    forall i, j :: 0 <= i < j < |r| ==> Rank(r[i].name) < Rank(r[j].name)
  }

  /** At most one parameter named `n` in front of a list ranked after `n`
      keeps the list in rank order, with no rank below that of `n`. */
  lemma RankedBefore(part: seq<Param>, r: seq<Param>, n: ParamName)
    requires |part| <= 1 && forall i :: 0 <= i < |part| ==> part[i].name == n
    requires RankOrdered(r)
    requires forall i :: 0 <= i < |r| ==> Rank(n) < Rank(r[i].name)
    ensures RankOrdered(part + r)
    ensures forall i :: 0 <= i < |part + r| ==> Rank(n) <= Rank((part + r)[i].name)
  {
    var s := part + r;
    forall i | 0 <= i < |s| ensures Rank(n) <= Rank(s[i].name) {
      if i >= |part| { assert s[i] == r[i - |part|]; }
    }
    forall i, j | 0 <= i < j < |s| ensures Rank(s[i].name) < Rank(s[j].name) {
      assert s[j] == r[j - |part|];
      if i >= |part| { assert s[i] == r[i - |part|]; }
    }
  }

  /** Each of w, h and q is present exactly when its value is truthy, with
      that value in decimal; f is always present. */
  lemma ImageParamsLookup(width: Option<int>, height: Option<int>, quality: int, format: ImageFormat)
    ensures var r := ImageParams(width, height, quality, format);
      && Lookup(r, W) == (if width.Some? && TruthyNum(width.value) then Some(IntToString(width.value)) else None)
      && Lookup(r, H) == (if height.Some? && TruthyNum(height.value) then Some(IntToString(height.value)) else None)
      && Lookup(r, Q) == (if TruthyNum(quality) then Some(IntToString(quality)) else None)
      && Lookup(r, F) == Some(FormatName(format))
  {
    var w, h, q := NumParam(W, width), NumParam(H, height), NumParam(Q, Some(quality));
    var f := [Param(F, FormatName(format))];
    assert ImageParams(width, height, quality, format) == w + (h + (q + f));
    ParamsLookup(width, height, Some(quality), f, W);
    ParamsLookup(width, height, Some(quality), f, H);
    ParamsLookup(width, height, Some(quality), f, Q);
    ParamsLookup(width, height, Some(quality), f, F);
  }

  /** The lookup of one name in the w, h, q parameters followed by `f`. */
  lemma ParamsLookup(width: Option<int>, height: Option<int>, quality: Option<int>, f: seq<Param>, name: ParamName)
    requires f == [] || (|f| == 1 && f[0].name == F)
    ensures Lookup(NumParam(W, width) + (NumParam(H, height) + (NumParam(Q, quality) + f)), name)
      == match name
         case W => NumValue(width)
         case H => NumValue(height)
         case Q => NumValue(quality)
         case F => Lookup(f, F)
  {
    var w, h, q := NumParam(W, width), NumParam(H, height), NumParam(Q, quality);
    LookupThrough(w, h, q, f, name);
    NumParamLookup(W, width, name);
    NumParamLookup(H, height, name);
    NumParamLookup(Q, quality, name);
    if name != F && f != [] {
      assert f[1..] == [];
    }
  }

  /** The decimal text of a given, truthy number. */
  function NumValue(v: Option<int>): Option<string>
  {
    if v.Some? && TruthyNum(v.value) then Some(IntToString(v.value)) else None
  }

  lemma NumParamLookup(n: ParamName, v: Option<int>, m: ParamName)
    ensures Lookup(NumParam(n, v), m) == if m == n then NumValue(v) else None
  {
    var r := NumParam(n, v);
    if r != [] {
      assert r[1..] == [];
    }
  }

  lemma LookupThrough(w: seq<Param>, h: seq<Param>, q: seq<Param>, f: seq<Param>, name: ParamName)
    ensures Lookup(w + (h + (q + f)), name)
      == if Lookup(w, name).Some? then Lookup(w, name)
         else if Lookup(h, name).Some? then Lookup(h, name)
         else if Lookup(q, name).Some? then Lookup(q, name)
         else Lookup(f, name)
  {
    LookupAppend(w, h + (q + f), name);
    LookupAppend(h, q + f, name);
    LookupAppend(q, f, name);
  }

  /** `getOptimizedImageUrl(originalUrl, options)`. */
  function OptimizedImageUrl(domain: string, originalUrl: string, options: ImageOptions): (r: string)
    ensures domain == [] || originalUrl == [] ==> r == originalUrl
  {
    if domain == [] || originalUrl == [] then originalUrl
    else
      var quality := if options.quality.Some? then options.quality.value else 80;
      var format := if options.format.Some? then options.format.value else Webp;
      var query := Serialize(ImageParams(options.width, options.height, quality, format));
      var separator := if query != [] then "?" else "";
      "https://" + domain + "/" + S3Key(originalUrl) + separator + query
  }

  /** With a domain and a URL, the result is the CDN origin, the key, and the
      serialized parameters, which are never empty because the format is
      always present; quality falls back to 80 and the format to webp. */
  lemma ImageUrlShape(domain: string, originalUrl: string, options: ImageOptions)
    requires domain != [] && originalUrl != []
    ensures var quality := if options.quality.Some? then options.quality.value else 80;
      var format := if options.format.Some? then options.format.value else Webp;
      OptimizedImageUrl(domain, originalUrl, options)
        == "https://" + domain + "/" + S3Key(originalUrl) + "?" + Serialize(ImageParams(options.width, options.height, quality, format))
  {
  }

  lemma EightyToString()
    ensures IntToString(80) == "80"
  {
    assert NatToString(8) == "8";
  }

  /** With no options the defaults quality 80 and format webp are sent. */
  lemma ImageUrlDefaults(domain: string, originalUrl: string)
    requires domain != [] && originalUrl != []
    ensures OptimizedImageUrl(domain, originalUrl, NoOptions)
      == "https://" + domain + "/" + S3Key(originalUrl) + "?q=80&f=webp"
  {
    DefaultQuery();
    ImageUrlShape(domain, originalUrl, NoOptions);
  }

  /** The query string sent for quality 80 and webp, without width or height. */
  lemma DefaultQuery()
    ensures Serialize(ImageParams(None, None, 80, Webp)) == "q=80&f=webp"
  {
    EightyToString();
    var ps := ImageParams(None, None, 80, Webp);
    assert ps == [Param(Q, "80"), Param(F, "webp")];
    DefaultPairs(ps);
    JoinTwo("q=80", "f=webp", "&");
  }

  lemma DefaultPairs(ps: seq<Param>)
    requires ps == [Param(Q, "80"), Param(F, "webp")]
    ensures Pairs(ps) == ["q=80", "f=webp"]
  {
    assert Pairs(ps)[0] == "q=80" && Pairs(ps)[1] == "f=webp";
  }

  datatype VideoQuality = P720 | P480 | P360

  /** `getOptimizedVideoUrl(originalUrl, quality)`; `None` is the default "720p". */
  function OptimizedVideoUrl(domain: string, originalUrl: string, quality: Option<VideoQuality>): (r: string)
    ensures domain == [] || originalUrl == [] ==> r == originalUrl
  {
    if domain == [] || originalUrl == [] then originalUrl
    else
      var q := if quality.Some? then quality.value else P720;
      "https://" + domain + "/" + QualityPrefix(q) + "/" + S3Key(originalUrl)
  }

  function QualityPrefix(q: VideoQuality): (r: string)
    ensures |r| == 2 && r[1] == 'd'
  {
    if q == P720 then "hd" else if q == P480 then "md" else "sd"
  }

  /** Reading a video URL from the left: the site prefix, the two-letter
      quality folder, a slash, and the object key, nothing else. */
  lemma VideoUrlShape(domain: string, originalUrl: string, quality: Option<VideoQuality>)
    requires domain != [] && originalUrl != []
    ensures var r := OptimizedVideoUrl(domain, originalUrl, quality);
      var site := "https://" + domain + "/";
      var key := S3Key(originalUrl);
      |r| == |site| + 3 + |key| && r[..|site|] == site
      && r[|site|..|site| + 2] == QualityPrefix(if quality.Some? then quality.value else P720)
      && r[|site| + 2] == '/' && r[|site| + 3..] == key
  {
    var site := "https://" + domain + "/";
    var key := S3Key(originalUrl);
    var p := QualityPrefix(if quality.Some? then quality.value else P720);
    var r := OptimizedVideoUrl(domain, originalUrl, quality);
    assert r == site + p + "/" + key;
    assert r[..|site|] == site;
    assert r[|site|..|site| + 2] == p;
    assert r[|site| + 3..] == key;
  }

  /** The default quality is 720p, and the three qualities give three
      different URLs for the same video. */
  lemma VideoUrlQualities(domain: string, originalUrl: string, q1: VideoQuality, q2: VideoQuality)
    ensures OptimizedVideoUrl(domain, originalUrl, None) == OptimizedVideoUrl(domain, originalUrl, Some(P720))
    ensures domain != [] && originalUrl != [] && q1 != q2 ==>
      OptimizedVideoUrl(domain, originalUrl, Some(q1)) != OptimizedVideoUrl(domain, originalUrl, Some(q2))
  {
    if domain != [] && originalUrl != [] && q1 != q2 {
      VideoUrlShape(domain, originalUrl, Some(q1));
      VideoUrlShape(domain, originalUrl, Some(q2));
      QualityPrefixInjective(q1, q2);
    }
  }

  lemma QualityPrefixInjective(q1: VideoQuality, q2: VideoQuality)
    requires q1 != q2
    ensures QualityPrefix(q1) != QualityPrefix(q2)
  {
    assert QualityPrefix(q1)[0] != QualityPrefix(q2)[0];
  }

  /** A video URL never carries a query string. */
  lemma VideoUrlHasNoQuery(domain: string, originalUrl: string, quality: Option<VideoQuality>)
    requires domain != [] && originalUrl != []
    requires '?' !in domain && '?' !in originalUrl
    ensures '?' !in OptimizedVideoUrl(domain, originalUrl, quality)
  {
    var key := S3Key(originalUrl);
    if key != originalUrl {
      var parts := Split(originalUrl, Marker);
      JoinSplit(originalUrl, Marker);
      JoinContainsPart(parts, Marker, 1);
    }
    var q := if quality.Some? then quality.value else P720;
    assert OptimizedVideoUrl(domain, originalUrl, quality)
      == "https://" + domain + "/" + QualityPrefix(q) + "/" + key;
  }

  /** Every piece of a join appears inside the joined string. */
  lemma {:induction false} JoinContainsPart(parts: seq<string>, sep: string, i: nat)
    requires i < |parts|
    ensures forall c :: c in parts[i] ==> c in Join(parts, sep)
  {
    if |parts| > 1 && i > 0 {
      JoinContainsPart(parts[1..], sep, i - 1);
    }
  }

  datatype OptimizedImage = OptimizedImage(src: string, srcSet: string)

  /** `useOptimizedImage(originalUrl, options)`: `src` and `srcSet` only. */
  function UseOptimizedImage(domain: string, originalUrl: string, options: ImageOptions): (r: OptimizedImage)
    ensures r.src == OptimizedImageUrl(domain, originalUrl, options)
    ensures r.srcSet == r.src + " 1x, " + OptimizedImageUrl(domain, originalUrl, options.(width := Some(DoubleWidth(options.width)))) + " 2x"
  {
    var src := OptimizedImageUrl(domain, originalUrl, options);
    var oneX := OptimizedImageUrl(domain, originalUrl, options.(width := options.width)) + " 1x";
    var twice := OptimizedImageUrl(domain, originalUrl, options.(width := Some(DoubleWidth(options.width))));
    var twoX := twice + " 2x";
    assert options.(width := options.width) == options;
    SrcSetJoin(src, twice);
    OptimizedImage(src, oneX + ", " + twoX)
  }

  lemma SrcSetJoin(one: string, two: string)
    ensures (one + " 1x") + ", " + (two + " 2x") == one + " 1x, " + two + " 2x"
  {
    assert " 1x" + ", " == " 1x, ";
  }

  /** `(options.width || 400) * 2`. */
  function DoubleWidth(width: Option<int>): int
  {
    (if width.Some? && TruthyNum(width.value) then width.value else 400) * 2
  }

  /** The 2x entry always asks for a width, twice the given one or 800. */
  lemma SrcSetTwoXWidth(domain: string, originalUrl: string, options: ImageOptions)
    requires domain != [] && originalUrl != []
    ensures var w := DoubleWidth(options.width);
      w != 0
      && (options.width.Some? && TruthyNum(options.width.value) ==> w == 2 * options.width.value)
      && (options.width.None? || !TruthyNum(options.width.value) ==> w == 800)
      && ImageParams(Some(w), options.height, if options.quality.Some? then options.quality.value else 80,
           if options.format.Some? then options.format.value else Webp)[0] == Param(W, IntToString(w))
  {
  }
}
