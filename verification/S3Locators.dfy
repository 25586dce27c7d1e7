/** `buildS3Url` and `S3Locator`: the address of an object, written and read. */
module S3Locators {
  import opened Wrappers
  import opened Sequences
  import opened Text
  import opened Urls
  import opened S3Keys

  /** The bucket goes into the path if it would add labels to the host name. */
  function BuildS3Url(bucket: string, key: string, region: string): string {
    if '.' in bucket then "https://" + ("s3." + region + ".amazonaws.com") + "/" + (bucket + "/" + KeyPath(key))
    else "https://" + (bucket + ".s3." + region + ".amazonaws.com") + "/" + KeyPath(key)
  }

  // ---------------------------------------------------------------- reading

  datatype Location = Location(region: string, bucket: string, key: string)

  datatype LocatorError = EndpointMismatch | InvalidUrl | NoBucket | NoRegion

  /** `s.indexOf(c, from)`. */
  function IndexOf(s: string, c: char, from: nat): (i: Option<nat>)
    ensures i.Some? ==> from <= i.value < |s| && s[i.value] == c && c !in s[from..i.value]
    ensures i.None? && from <= |s| ==> c !in s[from..]
    decreases |s| - from
  {
    if from >= |s| then None
    else if s[from] == c then Some(from)
    else
      var i := IndexOf(s, c, from + 1);
      assert s[from..] == [s[from]] + s[from + 1..];
      assert i.Some? ==> s[from..i.value] == [s[from]] + s[from + 1..i.value];
      i
  }

  /** The bucket starts at `start` and ends at the next slash. */
  function FromPath(region: string, pathname: string, start: nat): Result<Location, LocatorError> {
    match IndexOf(pathname, '/', start)
    case None => Err(NoBucket)
    case Some(end) => Ok(Location(region, pathname[start..end], pathname[end + 1..]))
  }

  predicate HostedOnAws(parts: seq<string>) {
    |parts| >= 3 && parts[|parts| - 1] == "com" && parts[|parts| - 2] == "amazonaws"
  }

  /** The region, and whether the host name has the old style, which joins it to `s3` or leaves it out. */
  function RegionOf(parts: seq<string>): (r: Option<(string, bool)>)
    requires HostedOnAws(parts)
    ensures r.Some? && !r.value.1 ==> |parts| >= 4
  {
    var n := |parts|;
    if StartsWith(parts[n - 3], "s3-") then Some((parts[n - 3][3..], true))
    else if parts[n - 3] == "s3" then Some(("us-east-1", true))
    else if n >= 4 && parts[n - 4] == "s3" then Some((parts[n - 3], false))
    else None
  }

  function FromHost(parts: seq<string>, pathname: string): Result<Location, LocatorError>
    requires HostedOnAws(parts) && pathname != ""
  {
    match RegionOf(parts)
    case None => Err(NoRegion)
    case Some(found) =>
      var own := if found.1 then 3 else 4;
      if |parts| == own then FromPath(found.0, pathname, 1)
      else Ok(Location(found.0, Join(parts[..|parts| - own], "."), pathname[1..]))
  }

  /** Where the bucket starts in a path that is not hosted on AWS: after the path of the endpoint. */
  function BucketStart(endpointUrl: string): Option<nat> {
    if endpointUrl == "" then Some(1)
    else
      match ParseUrl(endpointUrl)
      case None => None
      case Some(endpoint) =>
        match ReadPath(endpoint.pathname)
        case None => None
        case Some(endpointPathname) => Some(|endpointPathname|)
  }

  /** What the constructor makes of its properties; an empty endpoint is as good as none. */
  function Locate(url: string, endpointUrl: string): Result<Location, LocatorError> {
    if endpointUrl != "" && !StartsWith(url, endpointUrl) then Err(EndpointMismatch)
    else
      match ParseUrl(url)
      case None => Err(InvalidUrl)
      case Some(u) =>
        match ReadPath(u.pathname)
        case None => Err(InvalidUrl)
        case Some(pathname) =>
          var parts := Split(u.hostname, '.');
          if HostedOnAws(parts) then FromHost(parts, pathname)
          else
            match BucketStart(endpointUrl)
            case None => Err(InvalidUrl)
            case Some(start) => FromPath("", pathname, start)
  }

  class S3Locator {
    const url: string
    var endpointUrl: string
    var region: string
    var bucket: string
    var key: string

    constructor (url: string)
      ensures this.url == url && endpointUrl == ""
    {
      this.url := url;
      endpointUrl, region, bucket, key := "", "", "", "";
    }

    /** The rest of the constructor in the source, which throws where this returns an error. */
    method Initialize(endpoint: string) returns (error: Option<LocatorError>)
      requires endpointUrl == ""
      modifies this
      ensures Outcome(error, Locate(url, endpoint))
      ensures error.None? ==> endpointUrl == endpoint
    {
      if endpoint != "" {
        if !StartsWith(url, endpoint) {
          return Some(EndpointMismatch);
        }
        endpointUrl := endpoint;
      }
      var parsed := ParseUrl(url);
      if parsed.None? {
        return Some(InvalidUrl);
      }
      var read := ReadPath(parsed.value.pathname);
      if read.None? {
        return Some(InvalidUrl);
      }
      var pathname, parts := read.value, Split(parsed.value.hostname, '.');
      if |parts| < 3 || parts[|parts| - 1] != "com" || parts[|parts| - 2] != "amazonaws" {
        var startBucketName := BucketStart(endpointUrl);
        if startBucketName.None? {
          return Some(InvalidUrl);
        }
        region := "";
        error := UsePath(pathname, startBucketName.value);
      } else {
        error := UseHost(parts, pathname);
      }
    }

    /** The fields hold what was located, or the error is the one of locating it. */
    ghost predicate Outcome(error: Option<LocatorError>, located: Result<Location, LocatorError>)
      reads this
    {
      match error
      case None => located == Ok(Location(region, bucket, key))
      case Some(e) => located == Err(e)
    }

    /** The bucket and the key, from the path. */
    method UsePath(pathname: string, start: nat) returns (error: Option<LocatorError>)
      modifies this`bucket, this`key
      ensures Outcome(error, FromPath(region, pathname, start))
    {
      var end := IndexOf(pathname, '/', start);
      if end.None? {
        return Some(NoBucket);
      }
      bucket := pathname[start..end.value];
      key := pathname[end.value + 1..];
      error := None;
    }

    /** The region from the host name, and the bucket from wherever it is. */
    method UseHost(parts: seq<string>, pathname: string) returns (error: Option<LocatorError>)
      requires HostedOnAws(parts) && pathname != ""
      modifies this`region, this`bucket, this`key
      ensures Outcome(error, FromHost(parts, pathname))
    {
      var n := |parts|;
      var oldStyle := false;
      if StartsWith(parts[n - 3], "s3-") {
        region := parts[n - 3][3..];
        oldStyle := true;
      } else if parts[n - 3] == "s3" {
        region := "us-east-1";
        oldStyle := true;
      } else if n >= 4 && parts[n - 4] == "s3" {
        region := parts[n - 3];
      } else {
        return Some(NoRegion);
      }
      var own := if oldStyle then 3 else 4;
      if n == own {
        error := UsePath(pathname, 1);
      } else {
        bucket := Join(parts[..n - own], ".");
        key := pathname[1..];
        error := None;
      }
    }
  }

  // ---------------------------------------------------------------- the round trip

  predicate LabelChar(c: char) {
    'a' <= c <= 'z' || IsDigit(c) || c == '-'
  }

  /** A label of a host name, in lower case and not internationalised. */
  predicate ValidLabel(s: string) {
    s != "" && (forall i | 0 <= i < |s| :: LabelChar(s[i])) && !StartsWith(s, "xn--")
  }

  /** The names that S3 gives out: they begin with a letter or a digit. */
  predicate ValidBucket(s: string) {
    && s != "" && s[0] != '.' && !StartsWith(s, "xn--")
    && forall i | 0 <= i < |s| :: LabelChar(s[i]) || s[i] == '.'
  }

  /** A region that is read back as it is: none of those that look like the old style. */
  predicate Recognisable(region: string) {
    region != "s3" && !StartsWith(region, "s3-")
  }

  // ---------------------------------------------------------------- the host

  lemma LabelIsHostText(s: string)
    requires forall i | 0 <= i < |s| :: LabelChar(s[i])
    ensures AllHostChars(s) && Lower(s) == s && '.' !in s
  {
  }

  lemma {:induction false} LowerTogether(a: string, b: string)
    ensures Lower(a + b) == Lower(a) + Lower(b)
  {
  }

  /** A host name that is read as it is, and taken apart into these labels. */
  ghost predicate GoodName(host: string, labels: seq<string>) {
    Split(host, '.') == labels && AllHostChars(host) && Lower(host) == host && host != ""
  }

  lemma LabelInFront(first: string, host: string, others: seq<string>)
    requires ValidLabel(first) && GoodName(host, others)
    ensures GoodName(first + "." + host, [first] + others)
  {
    LabelIsHostText(first);
    LowerOfDot(first, host);
    SplitCons(first, '.', host);
    assert first + ['.'] + host == first + "." + host;
  }

  lemma LowerOfDot(a: string, b: string)
    ensures Lower(a + "." + b) == Lower(a) + "." + Lower(b)
  {
    LowerTogether(a + ".", b);
    LowerTogether(a, ".");
    assert Lower(".") == ".";
  }

  /** A host name of good labels. */
  lemma {:induction false} NameOfLabels(labels: seq<string>)
    requires labels != [] && forall i | 0 <= i < |labels| :: ValidLabel(labels[i])
    ensures GoodName(Join(labels, "."), labels)
  {
    if |labels| == 1 {
      LabelIsHostText(labels[0]);
      SplitSingle(labels[0], '.');
      assert [labels[0]] == labels;
    } else {
      var rest := labels[1..];
      NameOfLabels(rest);
      LabelInFront(labels[0], Join(rest, "."), rest);
      assert [labels[0]] + rest == labels;
    }
  }

  lemma AmazonLabels()
    ensures ValidLabel("s3") && ValidLabel("amazonaws") && ValidLabel("com")
  {
    assert "xn--"[0] == 'x' && |"xn--"| == 4;
    assert !StartsWith("amazonaws", "xn--");
  }

  lemma PathHost(region: string)
    requires ValidLabel(region)
    ensures var host := "s3." + region + ".amazonaws.com";
            Split(host, '.') == ["s3", region, "amazonaws", "com"] && PlainName(host) && Lower(host) == host
  {
    AmazonLabels();
    var labels := ["s3", region, "amazonaws", "com"];
    NameOfLabels(labels);
    JoinTail(region);
    JoinPair("s3", [region, "amazonaws", "com"]);
    HostText("", region);
  }

  lemma BucketHost(bucket: string, region: string)
    requires ValidLabel(bucket) && ValidLabel(region)
    ensures var host := bucket + ".s3." + region + ".amazonaws.com";
            Split(host, '.') == [bucket, "s3", region, "amazonaws", "com"] && PlainName(host) && Lower(host) == host
  {
    AmazonLabels();
    var labels := [bucket, "s3", region, "amazonaws", "com"];
    NameOfLabels(labels);
    JoinTail(region);
    JoinPair("s3", [region, "amazonaws", "com"]);
    JoinPair(bucket, ["s3", region, "amazonaws", "com"]);
    HostText(bucket, region);
  }

  lemma JoinPair(first: string, others: seq<string>)
    requires others != []
    ensures Join([first] + others, ".") == first + "." + Join(others, ".")
  {
    JoinFirst(first, others, ".");
  }

  lemma JoinTail(region: string)
    ensures Join([region, "amazonaws", "com"], ".") == region + "." + "amazonaws.com"
  {
    assert [region, "amazonaws", "com"][1..] == ["amazonaws", "com"] && ["amazonaws", "com"][1..] == ["com"];
    assert "amazonaws" + "." + "com" == "amazonaws.com";
  }

  lemma HostText(bucket: string, region: string)
    ensures "s3" + "." + (region + "." + "amazonaws.com") == "s3." + region + ".amazonaws.com"
    ensures bucket + "." + ("s3" + "." + (region + "." + "amazonaws.com")) == bucket + ".s3." + region + ".amazonaws.com"
  {
    assert "s3" + "." == "s3." && "." + "amazonaws.com" == ".amazonaws.com" && "." + "s3." == ".s3.";
  }

  // ---------------------------------------------------------------- the path

  /** A bucket is written as it is. */
  lemma {:induction false} BucketIsWritten(bucket: string)
    requires forall i | 0 <= i < |bucket| :: LabelChar(bucket[i]) || bucket[i] == '.'
    ensures Written.Pieces(bucket) == bucket
  {
    if bucket != "" {
      BucketIsWritten(bucket[1..]);
      assert [bucket[0]] + bucket[1..] == bucket;
    }
  }

  lemma BucketPathIsWritten(bucket: string, key: string)
    requires ValidBucket(bucket)
    ensures bucket + "/" + KeyPath(key) == Written.Pieces(bucket + "/" + key)
  {
    KeyPathIsPieces(key);
    BucketIsWritten(bucket);
    WrittenSlash(bucket, key);
    assert bucket + "/" + key == bucket + ['/'] + key;
  }

  /** An address on a plain host with a written path reads as what is left of the path's text. */
  lemma AddressReads(host: string, text: string)
    requires PlainName(host) && Lower(host) == host
    ensures var u := ParseUrl("https://" + host + "/" + Written.Pieces(text));
            u.Some? && u.value.hostname == host && ReadPath(u.value.pathname) == Some("/" + Normal(text))
  {
    WrittenIsPathText(text);
    ParseAddress(host, Written.Pieces(text));
    WrittenReadsAsNormal(text);
  }

  // ---------------------------------------------------------------- the theorem

  function Address(host: string, path: string): string {
    "https://" + host + "/" + Written.Pieces(path)
  }

  /** An address on AWS is located by its labels and what is left of its path. */
  lemma LocatedOnAws(host: string, parts: seq<string>, text: string)
    requires PlainName(host) && Lower(host) == host && Split(host, '.') == parts && HostedOnAws(parts)
    ensures Locate(Address(host, text), "") == FromHost(parts, "/" + Normal(text))
  {
    AddressReads(host, text);
    LocatedFrom(Address(host, text), host, parts, "/" + Normal(text));
  }

  lemma LocatedFrom(url: string, host: string, parts: seq<string>, pathname: string)
    requires var u := ParseUrl(url); u.Some? && u.value.hostname == host && ReadPath(u.value.pathname) == Some(pathname)
    requires Split(host, '.') == parts && HostedOnAws(parts) && pathname != ""
    ensures Locate(url, "") == FromHost(parts, pathname)
  {
  }

  lemma DotlessAddress(bucket: string, key: string, region: string)
    requires '.' !in bucket
    ensures BuildS3Url(bucket, key, region) == Address(bucket + ".s3." + region + ".amazonaws.com", key)
  {
    KeyPathIsPieces(key);
  }

  lemma DottedAddress(bucket: string, key: string, region: string)
    requires '.' in bucket && ValidBucket(bucket)
    ensures BuildS3Url(bucket, key, region) == Address("s3." + region + ".amazonaws.com", bucket + "/" + key)
  {
    BucketPathIsWritten(bucket, key);
  }

  lemma DotlessLocated(bucket: string, key: string, region: string)
    requires ValidBucket(bucket) && '.' !in bucket && ValidLabel(region)
    ensures Locate(BuildS3Url(bucket, key, region), "") == FromHost([bucket, "s3", region, "amazonaws", "com"], "/" + Normal(key))
  {
    var host := bucket + ".s3." + region + ".amazonaws.com";
    BucketHost(bucket, region);
    DotlessAddress(bucket, key, region);
    LocatedOnAws(host, [bucket, "s3", region, "amazonaws", "com"], key);
  }

  lemma DottedLocated(bucket: string, key: string, region: string)
    requires ValidBucket(bucket) && '.' in bucket && ValidLabel(region)
    ensures Locate(BuildS3Url(bucket, key, region), "") == FromHost(["s3", region, "amazonaws", "com"], "/" + Normal(bucket + "/" + key))
  {
    var host := "s3." + region + ".amazonaws.com";
    PathHost(region);
    DottedAddress(bucket, key, region);
    LocatedOnAws(host, ["s3", region, "amazonaws", "com"], bucket + "/" + key);
  }

  /** The first slash after a text without slashes. */
  lemma {:induction false} IndexAfter(a: string, b: string, c: char, rest: string)
    requires c !in b
    ensures IndexOf(a + (b + [c] + rest), c, |a|) == Some(|a| + |b|)
    decreases |b|
  {
    var s := a + (b + [c] + rest);
    if b != "" {
      IndexAfter(a + [b[0]], b[1..], c, rest);
      assert a + [b[0]] + (b[1..] + [c] + rest) == s;
    } else {
      assert s[|a|] == c;
    }
  }

  lemma PutTogether(region: string, bucket: string, key: string)
    requires '/' !in bucket
    ensures FromPath(region, "/" + (bucket + "/" + key), 1) == Ok(Location(region, bucket, key))
  {
    var pathname := "/" + (bucket + "/" + key);
    IndexAfter("/", bucket, '/', key);
    assert bucket + ['/'] + key == bucket + "/" + key;
    assert pathname[1..|bucket| + 1] == bucket && pathname[|bucket| + 2..] == key;
  }

  lemma TakenApart(region: string, pathname: string)
    requires StartsWith(pathname, "/")
    ensures var r := FromPath(region, pathname, 1); r.Ok? ==> pathname == "/" + (r.value.bucket + "/" + r.value.key)
  {
    var i := IndexOf(pathname, '/', 1);
    if i.Some? {
      assert pathname == [pathname[0]] + (pathname[1..i.value] + [pathname[i.value]] + pathname[i.value + 1..]);
    }
  }

  /** A bucket and a key are taken apart just where they were put together. */
  lemma FromPathExactly(region: string, pathname: string, bucket: string, key: string)
    requires StartsWith(pathname, "/") && '/' !in bucket
    ensures FromPath(region, pathname, 1) == Ok(Location(region, bucket, key)) <==> pathname == "/" + (bucket + "/" + key)
  {
    PutTogether(region, bucket, key);
    TakenApart(region, pathname);
  }

  /** `S3Locator` of `buildS3Url` gives back the region, the bucket and the key, for every key at all,
      exactly when no segment of the key is `.` or `..` and the region does not look like the old style. */
  lemma RoundTripExactly(bucket: string, key: string, region: string)
    requires ValidBucket(bucket) && ValidLabel(region)
    ensures Locate(BuildS3Url(bucket, key, region), "") == Ok(Location(region, bucket, key))
       <==> NoDotSegments(key) && Recognisable(region)
  {
    if '.' in bucket {
      DottedLocated(bucket, key, region);
      DottedExactly(bucket, key, region);
    } else {
      DotlessLocated(bucket, key, region);
      DotlessExactly(bucket, key, region);
    }
  }

  lemma DotlessExactly(bucket: string, key: string, region: string)
    requires ValidBucket(bucket) && '.' !in bucket && ValidLabel(region)
    ensures FromHost([bucket, "s3", region, "amazonaws", "com"], "/" + Normal(key)) == Ok(Location(region, bucket, key))
       <==> NoDotSegments(key) && Recognisable(region)
  {
    var parts := [bucket, "s3", region, "amazonaws", "com"];
    NormalExactly(key);
    assert ("/" + Normal(key))[1..] == Normal(key);
    assert parts[..1] == [bucket];
    RegionExactly(parts, region);
  }

  lemma DottedExactly(bucket: string, key: string, region: string)
    requires ValidBucket(bucket) && '.' in bucket && ValidLabel(region)
    ensures FromHost(["s3", region, "amazonaws", "com"], "/" + Normal(bucket + "/" + key)) == Ok(Location(region, bucket, key))
       <==> NoDotSegments(key) && Recognisable(region)
  {
    var parts, text := ["s3", region, "amazonaws", "com"], bucket + "/" + key;
    NormalExactly(text);
    DotsAfterBucket(bucket, key);
    RegionExactly(parts, region);
    FromPathExactly(region, "/" + Normal(text), bucket, key);
    assert ("/" + Normal(text))[1..] == Normal(text) && ("/" + text)[1..] == text;
  }

  /** The region is found just when it is recognisable. */
  lemma RegionExactly(parts: seq<string>, region: string)
    requires HostedOnAws(parts) && |parts| >= 4 && parts[|parts| - 4] == "s3" && parts[|parts| - 3] == region
    ensures RegionOf(parts).Some?
    ensures Recognisable(region) ==> RegionOf(parts) == Some((region, false))
    ensures !Recognisable(region) ==> RegionOf(parts).value.0 != region
  {
    if StartsWith(region, "s3-") {
      assert |region[3..]| < |region|;
    }
  }

  lemma DotsAfterBucket(bucket: string, key: string)
    requires ValidBucket(bucket)
    ensures NoDotSegments(bucket + "/" + key) <==> NoDotSegments(key)
  {
    SplitCons(bucket, '/', key);
    assert bucket + ['/'] + key == bucket + "/" + key;
    NoDotsCons(bucket, Split(key, '/'));
  }

  lemma NoDotsCons(first: string, others: seq<string>)
    requires first != "." && first != ".."
    ensures NoDots([first] + others) <==> NoDots(others)
  {
    var all := [first] + others;
    assert forall i | 0 <= i < |others| :: others[i] == all[i + 1];
    assert forall i | 1 <= i < |all| :: all[i] == others[i - 1];
  }

  // ---------------------------------------------------------------- the three styles of host names

  /** What a host name on AWS has before `amazonaws.com` if it names this region: `s3` alone, `s3-` and the region
      in one label, or `s3` and the region in two. */
  predicate NamesRegion(service: seq<string>, region: string) {
    || (service == ["s3"] && region == "us-east-1")
    || service == ["s3-" + region]
    || (service == ["s3", region] && Recognisable(region))
  }

  predicate AllValid(labels: seq<string>) {
    forall i | 0 <= i < |labels| :: ValidLabel(labels[i])
  }

  function Tail(): seq<string> {
    ["amazonaws", "com"]
  }

  /** An address with these labels in its host name is located by them and by its path. */
  lemma LocatedByLabels(labels: seq<string>, text: string)
    requires labels != [] && AllValid(labels) && HostedOnAws(labels) && NoDotSegments(text)
    ensures Locate(Address(Join(labels, "."), text), "") == FromHost(labels, "/" + text)
  {
    AmazonLabels();
    AddressIsRead(labels, text);
  }

  lemma TailIsHosted(labels: seq<string>, service: seq<string>)
    requires AllValid(labels) && AllValid(service) && service != []
    ensures var parts := labels + (service + Tail()); AllValid(parts) && HostedOnAws(parts) && |parts| == |labels| + |service| + 2
  {
    AmazonLabels();
    var parts := labels + (service + Tail());
    forall i | 0 <= i < |parts| ensures ValidLabel(parts[i]) {
      assert i < |labels| ==> parts[i] == labels[i];
      assert |labels| <= i < |labels| + |service| ==> parts[i] == service[i - |labels|];
      assert i >= |labels| + |service| ==> parts[i] == Tail()[i - |labels| - |service|];
    }
  }

  lemma RegionFound(labels: seq<string>, service: seq<string>, region: string)
    requires AllValid(labels) && AllValid(service) && service != [] && NamesRegion(service, region)
    ensures var parts := labels + (service + Tail());
            HostedOnAws(parts) && RegionOf(parts) == Some((region, |service| == 1)) && parts[..|labels|] == labels
  {
    TailIsHosted(labels, service);
    var parts := labels + (service + Tail());
    assert parts[|parts| - 3] == service[|service| - 1];
    if |service| == 2 {
      assert parts[|parts| - 4] == service[0];
    }
    assert ("s3-" + region)[3..] == region && "s3-"[2] == '-' && |"s3"| == 2;
  }

  /** With the bucket in the host name, of one label or more: every style gives its region, the bucket and the key. */
  lemma HostStyleLocated(labels: seq<string>, service: seq<string>, region: string, key: string)
    requires labels != [] && AllValid(labels) && AllValid(service) && service != [] && NamesRegion(service, region)
    requires NoDotSegments(key)
    ensures Locate(Address(Join(labels + (service + Tail()), "."), key), "") == Ok(Location(region, Join(labels, "."), key))
  {
    TailIsHosted(labels, service);
    RegionFound(labels, service, region);
    LocatedByLabels(labels + (service + Tail()), key);
    BucketFromHost(labels + (service + Tail()), labels, service, region, key);
  }

  lemma BucketFromHost(parts: seq<string>, labels: seq<string>, service: seq<string>, region: string, key: string)
    requires HostedOnAws(parts) && labels != [] && |parts| == |labels| + |service| + 2 && parts[..|labels|] == labels
    requires (|service| == 1 || |service| == 2) && RegionOf(parts) == Some((region, |service| == 1))
    ensures FromHost(parts, "/" + key) == Ok(Location(region, Join(labels, "."), key))
  {
    assert ("/" + key)[1..] == key;
  }

  lemma BucketFromPath(parts: seq<string>, service: seq<string>, region: string, bucket: string, key: string)
    requires HostedOnAws(parts) && |parts| == |service| + 2 && '/' !in bucket
    requires (|service| == 1 || |service| == 2) && RegionOf(parts) == Some((region, |service| == 1))
    ensures FromHost(parts, "/" + (bucket + "/" + key)) == Ok(Location(region, bucket, key))
  {
    PutTogether(region, bucket, key);
  }

  lemma ServiceAlone(service: seq<string>, region: string)
    requires AllValid(service) && service != [] && NamesRegion(service, region)
    ensures var parts := service + Tail();
            AllValid(parts) && HostedOnAws(parts) && |parts| == |service| + 2 && RegionOf(parts) == Some((region, |service| == 1))
  {
    assert [] + (service + Tail()) == service + Tail();
    TailIsHosted([], service);
    RegionFound([], service, region);
  }

  /** And so it does with the bucket in the path. */
  lemma PathStyleLocated(service: seq<string>, region: string, bucket: string, key: string)
    requires AllValid(service) && service != [] && NamesRegion(service, region)
    requires ValidBucket(bucket) && NoDotSegments(key)
    ensures Locate(Address(Join(service + Tail(), "."), bucket + "/" + key), "") == Ok(Location(region, bucket, key))
  {
    ServiceAlone(service, region);
    DotsAfterBucket(bucket, key);
    BucketHasNoSlash(bucket);
    PathLocated(service + Tail(), service, region, bucket, key);
  }

  lemma BucketHasNoSlash(bucket: string)
    requires ValidBucket(bucket)
    ensures '/' !in bucket
  {
  }

  lemma PathLocated(parts: seq<string>, service: seq<string>, region: string, bucket: string, key: string)
    requires AllValid(parts) && HostedOnAws(parts) && |parts| == |service| + 2 && '/' !in bucket
    requires (|service| == 1 || |service| == 2) && RegionOf(parts) == Some((region, |service| == 1))
    requires NoDotSegments(bucket + "/" + key)
    ensures Locate(Address(Join(parts, "."), bucket + "/" + key), "") == Ok(Location(region, bucket, key))
  {
    LocatedByLabels(parts, bucket + "/" + key);
    BucketFromPath(parts, service, region, bucket, key);
  }

  /** The host name has one of the three styles, the bucket's labels in front of it or not. */
  ghost predicate NamesSomeRegion(parts: seq<string>) {
    exists labels: seq<string>, service: seq<string>, region: string :: NamedBy(parts, labels, service, region)
  }

  predicate NamedBy(parts: seq<string>, labels: seq<string>, service: seq<string>, region: string) {
    parts == labels + (service + Tail()) && (service == ["s3"] || service == ["s3-" + region] || service == ["s3", region])
  }

  /** A host name on AWS is refused exactly if it has none of the three styles. */
  lemma RefusedExactly(parts: seq<string>, text: string)
    requires AllValid(parts) && HostedOnAws(parts) && NoDotSegments(text)
    ensures Locate(Address(Join(parts, "."), text), "") == Err(NoRegion) <==> !NamesSomeRegion(parts)
  {
    LocatedByLabels(parts, text);
    if NamesSomeRegion(parts) {
      var labels: seq<string>, service: seq<string>, region: string :| NamedBy(parts, labels, service, region);
      StyleIsFound(parts, labels, service, region);
    } else if RegionOf(parts).Some? {
      FoundIsStyle(parts);
    }
  }

  lemma StyleIsFound(parts: seq<string>, labels: seq<string>, service: seq<string>, region: string)
    requires HostedOnAws(parts) && NamedBy(parts, labels, service, region)
    ensures RegionOf(parts).Some?
  {
    assert parts[|parts| - 3] == service[|service| - 1];
    if |service| == 2 {
      assert parts[|parts| - 4] == service[0];
    }
  }

  lemma FoundIsStyle(parts: seq<string>)
    requires HostedOnAws(parts) && RegionOf(parts).Some?
    ensures NamesSomeRegion(parts)
  {
    var n := |parts|;
    if StartsWith(parts[n - 3], "s3-") {
      assert parts[n - 3] == "s3-" + parts[n - 3][3..];
      assert NamedBy(parts, parts[..n - 3], [parts[n - 3]], parts[n - 3][3..]);
    } else if parts[n - 3] == "s3" {
      assert NamedBy(parts, parts[..n - 3], ["s3"], "");
    } else {
      assert NamedBy(parts, parts[..n - 4], ["s3", parts[n - 3]], parts[n - 3]);
    }
  }

  lemma OldHostText(service: string)
    ensures Join([service] + Tail(), ".") == service + ".amazonaws.com"
  {
    JoinPair(service, Tail());
    assert Tail()[1..] == ["com"];
    assert "amazonaws" + "." + "com" == "amazonaws.com" && "." + "amazonaws.com" == ".amazonaws.com";
  }

  lemma JoinBehind(labels: seq<string>, others: seq<string>)
    requires labels != [] && others != []
    ensures Join(labels + others, ".") == Join(labels, ".") + "." + Join(others, ".")
    decreases |labels|
  {
    if |labels| == 1 {
      assert [labels[0]] + others == labels + others;
      JoinPair(labels[0], others);
    } else {
      JoinBehind(labels[1..], others);
      assert labels + others == [labels[0]] + (labels[1..] + others);
      JoinPair(labels[0], labels[1..] + others);
    }
  }

  lemma OldServiceIsValid(region: string)
    requires ValidLabel(region)
    ensures ValidLabel("s3") && ValidLabel("s3-" + region)
  {
    AmazonLabels();
    var service := "s3-" + region;
    assert service[0] == 's' && "xn--"[0] == 'x';
    assert forall i | 3 <= i < |service| :: service[i] == region[i - 3];
  }

  /** One label in front of `amazonaws.com`, with the bucket in the path or in the host name. */
  lemma OneLabelLocated(labels: seq<string>, service: string, region: string, bucket: string, key: string)
    requires labels != [] && AllValid(labels) && ValidLabel(service) && NamesRegion([service], region)
    requires ValidBucket(bucket) && NoDotSegments(key)
    ensures Locate(Address(service + ".amazonaws.com", bucket + "/" + key), "") == Ok(Location(region, bucket, key))
    ensures Locate(Address(Join(labels, ".") + "." + (service + ".amazonaws.com"), key), "") == Ok(Location(region, Join(labels, "."), key))
  {
    OldHostText(service);
    PathStyleLocated([service], region, bucket, key);
    JoinBehind(labels, [service] + Tail());
    HostStyleLocated(labels, [service], region, key);
  }

  /** The old host names: without a region, which means us-east-1, and with the region joined to `s3`. The bucket is
      found in the path, or, of any number of labels, in the host name. */
  lemma OldStyleLocated(labels: seq<string>, region: string, bucket: string, key: string)
    requires labels != [] && AllValid(labels) && ValidLabel(region) && ValidBucket(bucket) && NoDotSegments(key)
    ensures Locate(Address("s3" + ".amazonaws.com", bucket + "/" + key), "") == Ok(Location("us-east-1", bucket, key))
    ensures Locate(Address("s3-" + region + ".amazonaws.com", bucket + "/" + key), "") == Ok(Location(region, bucket, key))
    ensures Locate(Address(Join(labels, ".") + "." + ("s3" + ".amazonaws.com"), key), "")
         == Ok(Location("us-east-1", Join(labels, "."), key))
    ensures Locate(Address(Join(labels, ".") + "." + ("s3-" + region + ".amazonaws.com"), key), "")
         == Ok(Location(region, Join(labels, "."), key))
  {
    OldServiceIsValid(region);
    OneLabelLocated(labels, "s3", "us-east-1", bucket, key);
    OneLabelLocated(labels, "s3-" + region, region, bucket, key);
  }

  // ---------------------------------------------------------------- errors

  /** An address that does not begin with the endpoint's is refused, and only such a one for that reason. */
  lemma MismatchExactly(url: string, endpointUrl: string)
    ensures Locate(url, endpointUrl) == Err(EndpointMismatch) <==> endpointUrl != "" && !(endpointUrl <= url)
  {
  }

  /** A path is without a bucket exactly if it has no slash from its start on; otherwise the bucket ends at the
      first one. */
  lemma NoBucketExactly(region: string, pathname: string, start: nat)
    requires start <= |pathname|
    ensures FromPath(region, pathname, start) == Err(NoBucket) <==> '/' !in pathname[start..]
    ensures var r := FromPath(region, pathname, start);
            r.Ok? ==> '/' !in r.value.bucket && pathname == pathname[..start] + (r.value.bucket + "/" + r.value.key) && r.value.region == region
  {
    var i := IndexOf(pathname, '/', start);
    if i.Some? {
      assert pathname[start..][i.value - start] == '/';
      assert pathname == pathname[..start] + (pathname[start..i.value] + [pathname[i.value]] + pathname[i.value + 1..]);
    }
  }

  // ---------------------------------------------------------------- endpoints

  predicate EndsWithSlash(s: string) {
    s != "" && s[|s| - 1] == '/'
  }

  lemma NoBucketAtSlash(base: string, rest: string)
    ensures FromPath("", base + ("/" + rest), |base|) == Ok(Location("", "", rest))
  {
    var pathname := base + ("/" + rest);
    IndexAfter(base, "", '/', rest);
    assert "" + ['/'] + rest == "/" + rest;
    assert pathname[|base|..|base|] == "" && pathname[|base| + 1..] == rest;
  }

  lemma BucketAfterBase(base: string, bucket: string, key: string)
    requires '/' !in bucket
    ensures FromPath("", base + (bucket + "/" + key), |base|) == Ok(Location("", bucket, key))
  {
    var pathname := base + (bucket + "/" + key);
    IndexAfter(base, bucket, '/', key);
    assert bucket + ['/'] + key == bucket + "/" + key;
    assert pathname[|base|..|base| + |bucket|] == bucket && pathname[|base| + |bucket| + 1..] == key;
  }

  /** The text of a path for a bucket and a key below the path p of an endpoint. */
  function BelowPath(p: string, bucket: string, key: string): string {
    if p == "" || EndsWithSlash(p) then p + (bucket + "/" + key) else p + ("/" + (bucket + "/" + key))
  }

  lemma EndpointIsPrefix(host: string, p: string, bucket: string, key: string)
    ensures StartsWith(Address(host, BelowPath(p, bucket, key)), Address(host, p))
  {
    var more := if p == "" || EndsWithSlash(p) then bucket + "/" + key else "/" + (bucket + "/" + key);
    FlatMapAppend(Written.Piece, p, more);
    Reassociate("https://" + host + "/", Written.Pieces(p), Written.Pieces(more));
  }

  /** Below an endpoint, and away from AWS, the bucket and the key are found exactly when the endpoint
      has no path or one that ends with a slash; otherwise the slash in front of the bucket ends an
      empty one. */
  lemma EndpointExactly(labels: seq<string>, p: string, bucket: string, key: string)
    requires labels != [] && !HostedOnAws(labels) && forall i | 0 <= i < |labels| :: ValidLabel(labels[i])
    requires var last := labels[|labels| - 1]; ValidLabel(last) && !IsDigit(last[0])
    requires bucket != "" && '/' !in bucket && NoDotSegments(p) && NoDotSegments(BelowPath(p, bucket, key))
    ensures var host := Join(labels, ".");
            (Locate(Address(host, BelowPath(p, bucket, key)), Address(host, p)) == Ok(Location("", bucket, key)))
            <==> p == "" || EndsWithSlash(p)
  {
    var host, text := Join(labels, "."), BelowPath(p, bucket, key);
    AddressIsRead(labels, p);
    AddressIsRead(labels, text);
    EndpointIsPrefix(host, p, bucket, key);
    LocatedBelow(Address(host, text), Address(host, p), labels, "/" + p, "/" + text);
    FoundBelow(p, bucket, key);
  }

  /** An address that is read with these labels and this path. */
  ghost predicate Reads(url: string, labels: seq<string>, pathname: string) {
    var u := ParseUrl(url);
    u.Some? && Split(u.value.hostname, '.') == labels && ReadPath(u.value.pathname) == Some(pathname)
  }

  lemma AddressIsRead(labels: seq<string>, text: string)
    requires labels != [] && forall i | 0 <= i < |labels| :: ValidLabel(labels[i])
    requires var last := labels[|labels| - 1]; ValidLabel(last) && !IsDigit(last[0])
    requires NoDotSegments(text)
    ensures Reads(Address(Join(labels, "."), text), labels, "/" + text)
  {
    NameOfLabels(labels);
    NameIsPlain(Join(labels, "."), labels);
    NamedAddressIsRead(Join(labels, "."), labels, text);
  }

  lemma NameIsPlain(host: string, labels: seq<string>)
    requires GoodName(host, labels) && labels != [] && forall i | 0 <= i < |labels| :: ValidLabel(labels[i])
    requires var last := labels[|labels| - 1]; ValidLabel(last) && !IsDigit(last[0])
    ensures PlainName(host)
  {
    forall i | 0 <= i < |labels| ensures !StartsWith(labels[i], "xn--") {
      assert ValidLabel(labels[i]);
    }
  }

  lemma NamedAddressIsRead(host: string, labels: seq<string>, text: string)
    requires GoodName(host, labels) && PlainName(host) && NoDotSegments(text)
    ensures Reads(Address(host, text), labels, "/" + text)
  {
    AddressReads(host, text);
    NormalExactly(text);
  }

  lemma FoundBelow(p: string, bucket: string, key: string)
    requires bucket != "" && '/' !in bucket
    ensures FromPath("", "/" + BelowPath(p, bucket, key), |"/" + p|) == Ok(Location("", bucket, key)) <==> p == "" || EndsWithSlash(p)
  {
    if p == "" || EndsWithSlash(p) {
      Reassociate("/", p, bucket + "/" + key);
      BucketAfterBase("/" + p, bucket, key);
    } else {
      Reassociate("/", p, "/" + (bucket + "/" + key));
      NoBucketAtSlash("/" + p, bucket + "/" + key);
    }
  }

  lemma LocatedBelow(url: string, endpointUrl: string, labels: seq<string>, base: string, pathname: string)
    requires endpointUrl != "" && StartsWith(url, endpointUrl) && !HostedOnAws(labels)
    requires Reads(url, labels, pathname) && Reads(endpointUrl, labels, base)
    ensures Locate(url, endpointUrl) == FromPath("", pathname, |base|)
  {
  }

  /** Away from AWS and without an endpoint, the bucket is the first part of the path and there is no region. */
  lemma ElsewhereLocated(labels: seq<string>, bucket: string, key: string)
    requires labels != [] && !HostedOnAws(labels) && AllValid(labels) && !IsDigit(labels[|labels| - 1][0])
    requires '/' !in bucket && NoDotSegments(bucket + "/" + key)
    ensures Locate(Address(Join(labels, "."), bucket + "/" + key), "") == Ok(Location("", bucket, key))
  {
    AddressIsRead(labels, bucket + "/" + key);
    LocatedElsewhere(Address(Join(labels, "."), bucket + "/" + key), labels, "/" + (bucket + "/" + key));
    PutTogether("", bucket, key);
  }

  lemma LocatedElsewhere(url: string, labels: seq<string>, pathname: string)
    requires Reads(url, labels, pathname) && !HostedOnAws(labels)
    ensures Locate(url, "") == FromPath("", pathname, 1)
  {
  }
}
