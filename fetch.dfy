/** The three request wrappers of iss.js. Each one's HTTP request is replaced
    by the response the network gives to the URL it builds, and each returns
    the list of URLs it requested beside its result, so that "no request is
    made" can be stated. */
module Fetch {
  import opened Results
  import opened Text
  import opened Js
  import opened Ipv4
  import opened Query

  /** What the `request` callback receives: whether `err` was set, the status
      code, the raw body text, and the field the wrapper reads from the parsed
      body. */
  datatype Response<T> = Response(transportError: bool, statusCode: nat, body: string, parsed: T)

  /** The `data` object of the geolocation response; missing keys are `Undefined`. */
  datatype Location = Location(
    latitude: Value,
    longitude: Value,
    altitude: Value,
    cityName: Value,
    countryName: Value)

  /** One entry of the pass-times `response` array. */
  datatype Pass = Pass(duration: int, risetime: int)

  /** The network: the response each endpoint gives to a URL. The pass-times
      field is `None` when the body has no `response` array. */
  datatype Network = Network(
    ipify: string -> Response<string>,
    ipvigilante: string -> Response<Location>,
    openNotify: string -> Response<Option<seq<Pass>>>)

  /** The URLs a step requested, in order, and what it passed to its callback. */
  datatype Outcome<T> = Outcome(requests: seq<string>, result: Result<T>)

  const InternetIssues := "It seems we're experiencing Internet issues."

  /** The text every status error message starts with. */
  const ErrorTag := "Error: "

  /** The rule the three wrappers share: a transport error first, whatever
      the status; then any status but 200; then the field read from the body. */
  function Classify<T>(r: Response<T>, statusPrefix: string): (res: Result<T>)
    ensures r.transportError ==> res == Err(InternetIssues)
    ensures res.Ok? <==> !r.transportError && r.statusCode == 200
    ensures res.Ok? ==> res.value == r.parsed
  {
    if r.transportError then Err(InternetIssues)
    else if r.statusCode != 200 then Err(statusPrefix + NatToString(r.statusCode) + ". \n " + r.body)
    else Ok(r.parsed)
  }

  /** Reads the status code and the body back out of a status error message. */
  function DecodeStatusError(statusPrefix: string, message: string): Option<(nat, string)>
  {
    if !HasPrefix(message, statusPrefix) then None
    else
      var rest := message[|statusPrefix|..];
      var n := LeadingDigits(rest);
      if n == 0 || !HasPrefix(rest[n..], ". \n ") then None
      else
        assert AllDigits(rest[..n]) by {
          LeadingDigitsFacts(rest);
          assert forall i | 0 <= i < n :: rest[..n][i] == rest[i];
        }
        Some((DigitsValue(rest[..n]), rest[n + 4..]))
  }

  /** A caller can tell the two kinds of failure apart from the message alone,
      and a status error carries the exact status code and the whole body. */
  lemma ClassifyMessages<T>(r: Response<T>, statusPrefix: string)
    requires HasPrefix(statusPrefix, ErrorTag)
    ensures Classify(r, statusPrefix).Err? ==>
              var m := Classify(r, statusPrefix).message;
              (r.transportError <==> DecodeStatusError(statusPrefix, m) == None) &&
              (!r.transportError ==> DecodeStatusError(statusPrefix, m) == Some((r.statusCode, r.body)))
  {
    if r.transportError {
      assert statusPrefix[..|ErrorTag|][0] == 'E';
      assert statusPrefix[0] == 'E';
      assert InternetIssues[0] == 'I';
      assert !HasPrefix(InternetIssues, statusPrefix) by {
        if |statusPrefix| <= |InternetIssues| {
          assert InternetIssues[..|statusPrefix|][0] != statusPrefix[0];
        }
      }
    } else if r.statusCode != 200 {
      var digits := NatToString(r.statusCode);
      var tail := ". \n " + r.body;
      var m := statusPrefix + digits + tail;
      assert m[..|statusPrefix|] == statusPrefix;
      var rest := m[|statusPrefix|..];
      assert rest == digits + tail;
      LeadingDigitsIs(rest, |digits|);
      assert rest[..|digits|] == digits;
      assert rest[|digits|..] == tail;
      assert tail[..4] == ". \n ";
      assert rest[|digits| + 4..] == r.body;
      NatToStringRoundTrip(r.statusCode);
      assert HasPrefix(m, statusPrefix);
      assert LeadingDigits(rest) == |digits|;
      assert HasPrefix(rest[|digits|..], ". \n ");
      assert DigitsValue(rest[..|digits|]) == r.statusCode;
      assert m == Classify(r, statusPrefix).message;
      assert DecodeStatusError(statusPrefix, m) == Some((r.statusCode, r.body));
    }
  }

  // fetchMyIP

  const IpifyUrl := "https://api.ipify.org?format=json"
  const IpStatusPrefix := ErrorTag + "Attempt to retrieve IP address failed with status code "

  /** One request, to the IP echo service, classified by the shared rule: the
      address is the body's `ip` field, and a failure is the Internet-issues
      message or the status message of this wrapper. */
  function FetchMyIP(net: Network): (o: Outcome<string>)
    ensures o.requests == [IpifyUrl]
    ensures o.result == Classify(net.ipify(IpifyUrl), IpStatusPrefix)
    ensures o.result.Ok? <==> !net.ipify(IpifyUrl).transportError && net.ipify(IpifyUrl).statusCode == 200
  {
    Outcome([IpifyUrl], Classify(net.ipify(IpifyUrl), IpStatusPrefix))
  }

  // fetchCoordsByIP

  const GeoEndpoint := "https://ipvigilante.com/"

  function GeoStatusPrefix(ip: string): string {
    ErrorTag + "Location could not be retrieved for IP address " + ip + ". Failed with status code "
  }

  /** An address that fails the check is refused before any request, with a
      message that starts with the address; a valid one is requested once, and
      the response is classified by the shared rule with a status message that
      names the address. */
  function FetchCoordsByIP(ip: string, net: Network): (o: Outcome<Location>)
    ensures !IsValidIPv4(ip) ==> o == Outcome([], Err(ip + " is not a valid IPv4 address."))
    ensures IsValidIPv4(ip) ==> o.requests == [GeoEndpoint + ip]
    ensures IsValidIPv4(ip) ==> o.result == Classify(net.ipvigilante(GeoEndpoint + ip), GeoStatusPrefix(ip))
    ensures o.result.Ok? ==> IsValidIPv4(ip)
  {
    if !IsValidIPv4(ip) then Outcome([], Err(ip + " is not a valid IPv4 address."))
    else
      var url := GeoEndpoint + ip;
      Outcome([url], Classify(net.ipvigilante(url), GeoStatusPrefix(ip)))
  }

  // fetchISSTimes

  const PassTimesEndpoint := "http://api.open-notify.org/iss-pass.json?"
  const InvalidCoordinates := "Your coordinates do not seem to include a valid latitude and longitude."
  const IssStatusPrefix := ErrorTag + "Attempt to retrieve ISS pass times failed with status code "

  /** `numToRetrieve`: the count, or 5 when the count is falsy. It is computed
      and never used. */
  function NumToRetrieve(num: Value): (n: Value)
    ensures Truthy(n)
    ensures Truthy(num) ==> n == num
    ensures !Truthy(num) ==> n == Num("5")
  {
    if Truthy(num) then num else Num("5")
  }

  /** Neither coordinate converts to NaN. */
  predicate CoordinatesValid(loc: Location, rt: Runtime) {
    !IsNaNNumber(loc.latitude, rt) && !IsNaNNumber(loc.longitude, rt)
  }

  function AltitudeString(altitude: Value): string {
    if Truthy(altitude) then "&alt=" + Render(altitude) else ""
  }

  /** The query after `iss-pass.json?`. */
  function QueryString(loc: Location, num: Value): string {
    "lat=" + Render(loc.latitude) + "&lon=" + Render(loc.longitude) + AltitudeString(loc.altitude) + "&n=" + Render(num)
  }

  function PassTimesUrl(loc: Location, num: Value): string {
    PassTimesEndpoint + QueryString(loc, num)
  }

  /** Coordinates that are not numbers are refused before any request; valid
      ones are requested once, at the pass-times URL, and the response is
      classified by the shared rule: on success, the body's `response` array
      exactly as sent. */
  function FetchISSTimes(loc: Location, num: Value, net: Network, rt: Runtime): (o: Outcome<Option<seq<Pass>>>)
    ensures !CoordinatesValid(loc, rt) ==> o == Outcome([], Err(InvalidCoordinates))
    ensures CoordinatesValid(loc, rt) ==> o.requests == [PassTimesUrl(loc, num)]
    ensures CoordinatesValid(loc, rt) ==> o.result == Classify(net.openNotify(PassTimesUrl(loc, num)), IssStatusPrefix)
  {
    if IsNaNNumber(loc.latitude, rt) || IsNaNNumber(loc.longitude, rt) then
      Outcome([], Err(InvalidCoordinates))
    else
      var url := PassTimesUrl(loc, num);
      Outcome([url], Classify(net.openNotify(url), IssStatusPrefix))
  }

  /** Every status error message of the three wrappers starts with "Error: ",
      so `ClassifyMessages` applies to all of them. */
  lemma StatusPrefixesStartWithError(ip: string)
    ensures HasPrefix(IpStatusPrefix, ErrorTag)
    ensures HasPrefix(GeoStatusPrefix(ip), ErrorTag)
    ensures HasPrefix(IssStatusPrefix, ErrorTag)
  {
    PrefixOfAppend(ErrorTag, IpStatusPrefix[|ErrorTag|..]);
    PrefixOfAppend(ErrorTag, GeoStatusPrefix(ip)[|ErrorTag|..]);
    PrefixOfAppend(ErrorTag, IssStatusPrefix[|ErrorTag|..]);
  }

  lemma EncodeFourParams(a: Param, b: Param, c: Param, d: Param)
    ensures EncodeQuery([a, b, c, d])
            == EncodeParam(a) + "&" + (EncodeParam(b) + "&" + (EncodeParam(c) + "&" + EncodeParam(d)))
  {
    assert EncodeQuery([d]) == EncodeParam(d);
    assert [c, d][1..] == [d];
    assert EncodeQuery([c, d]) == EncodeParam(c) + "&" + EncodeQuery([d]);
    assert [b, c, d][1..] == [c, d];
    assert EncodeQuery([b, c, d]) == EncodeParam(b) + "&" + EncodeQuery([c, d]);
    assert [a, b, c, d][1..] == [b, c, d];
  }

  lemma EncodeThreeParams(a: Param, b: Param, d: Param)
    ensures EncodeQuery([a, b, d]) == EncodeParam(a) + "&" + (EncodeParam(b) + "&" + EncodeParam(d))
  {
    assert EncodeQuery([d]) == EncodeParam(d);
    assert [b, d][1..] == [d];
    assert EncodeQuery([b, d]) == EncodeParam(b) + "&" + EncodeQuery([d]);
    assert [a, b, d][1..] == [b, d];
  }

  /** Only regroups a concatenation into encoded parameters, for `PassTimesQuery`. */
  lemma QueryWithAltitude(lat: string, lon: string, alt: string, n: string)
    ensures "lat=" + lat + "&lon=" + lon + ("&alt=" + alt) + "&n=" + n
            == EncodeParam(Param("lat", lat)) + "&" + (EncodeParam(Param("lon", lon)) + "&"
               + (EncodeParam(Param("alt", alt)) + "&" + EncodeParam(Param("n", n))))
  {
  }

  /** Only regroups a concatenation into encoded parameters, for `PassTimesQuery`. */
  lemma QueryWithoutAltitude(lat: string, lon: string, n: string)
    ensures "lat=" + lat + "&lon=" + lon + "" + "&n=" + n
            == EncodeParam(Param("lat", lat)) + "&" + (EncodeParam(Param("lon", lon)) + "&" + EncodeParam(Param("n", n)))
  {
  }

  /** Read back as a query, the pass-times URL holds `lat`, then `lon`, then
      `alt` exactly when the altitude is truthy (so 0 and "" leave it out),
      and last `n` with the count as given. */
  lemma PassTimesQuery(loc: Location, num: Value)
    requires '&' !in Render(loc.latitude) && '&' !in Render(loc.longitude)
    requires '&' !in Render(loc.altitude) && '&' !in Render(num)
    ensures HasPrefix(PassTimesUrl(loc, num), PassTimesEndpoint)
    ensures var params := DecodeQuery(PassTimesUrl(loc, num)[|PassTimesEndpoint|..]);
              |params| == (if Truthy(loc.altitude) then 4 else 3) &&
              params[0] == Param("lat", Render(loc.latitude)) &&
              params[1] == Param("lon", Render(loc.longitude)) &&
              (Truthy(loc.altitude) ==> params[2] == Param("alt", Render(loc.altitude))) &&
              params[|params| - 1] == Param("n", Render(num))
  {
    var lat := Param("lat", Render(loc.latitude));
    var lon := Param("lon", Render(loc.longitude));
    var n := Param("n", Render(num));
    var query := QueryString(loc, num);
    PrefixOfAppend(PassTimesEndpoint, query);
    assert PassTimesUrl(loc, num)[|PassTimesEndpoint|..] == query;
    if Truthy(loc.altitude) {
      var alt := Param("alt", Render(loc.altitude));
      QueryWithAltitude(lat.value, lon.value, alt.value, n.value);
      EncodeFourParams(lat, lon, alt, n);
      assert query == EncodeQuery([lat, lon, alt, n]);
      DecodeEncode([lat, lon, alt, n]);
    } else {
      QueryWithoutAltitude(lat.value, lon.value, n.value);
      EncodeThreeParams(lat, lon, n);
      assert query == EncodeQuery([lat, lon, n]);
      DecodeEncode([lat, lon, n]);
    }
  }

  /** The URL carries the raw count: with no count it asks for
      `n=undefined`, not for the default of 5. */
  lemma CountDefaultIgnored(loc: Location)
    ensures NumToRetrieve(Undefined) == Num("5")
    ensures PassTimesUrl(loc, Undefined) != PassTimesUrl(loc, NumToRetrieve(Undefined))
  {
    var head := PassTimesEndpoint + ("lat=" + Render(loc.latitude) + "&lon=" + Render(loc.longitude)
                + AltitudeString(loc.altitude) + "&n=");
    assert PassTimesUrl(loc, Undefined) == head + "undefined";
    assert PassTimesUrl(loc, Num("5")) == head + "5";
  }

  /** `Number(null)` is 0, so null coordinates pass the check, and the request
      is sent with the text "null" for both. */
  lemma NullCoordinatesAccepted(loc: Location, num: Value, net: Network, rt: Runtime)
    requires loc.latitude == Null && loc.longitude == Null
    ensures CoordinatesValid(loc, rt)
    ensures FetchISSTimes(loc, num, net, rt).requests == [PassTimesUrl(loc, num)]
    ensures Render(loc.latitude) == "null" && Render(loc.longitude) == "null"
  {
  }
}
