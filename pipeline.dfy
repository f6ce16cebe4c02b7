/** `returnISSTimes`: the four stages in a row, stopping at the first failure
    and prefixing its message with the stage's own text; on success, the
    report with a fixed header above the pass lines. */
module Pipeline {
  import opened Results
  import opened Text
  import opened Js
  import opened Ipv4
  import opened Fetch
  import opened Passes

  datatype Stage = IpStage | LocationStage | PassTimesStage | FormattingStage

  /** The text put before a stage's error message, with no separator for the
      three request stages. */
  function StagePrefix(s: Stage): string {
    match s
    case IpStage => "Error while finding IP address"
    case LocationStage => "Error while finding your location"
    case PassTimesStage => "Error while finding ISS pass times"
    case FormattingStage => "An error happened when trying to " + "convert NASA's times into " + "human-readable format. "
  }

  /** Which stage a pipeline error message comes from. */
  function StageOfMessage(m: string): Option<Stage> {
    if HasPrefix(m, StagePrefix(IpStage)) then Some(IpStage)
    else if HasPrefix(m, StagePrefix(LocationStage)) then Some(LocationStage)
    else if HasPrefix(m, StagePrefix(PassTimesStage)) then Some(PassTimesStage)
    else if HasPrefix(m, StagePrefix(FormattingStage)) then Some(FormattingStage)
    else None
  }

  lemma NotPrefixAt(m: string, p: string, k: nat)
    requires k < |p| && k < |m| && m[k] != p[k]
    ensures !HasPrefix(m, p)
  {
    if |p| <= |m| {
      assert m[..|p|][k] == m[k];
    }
  }

  /** The four prefixes tell the stages apart: whatever the underlying message,
      the stage can be read back from the tagged one. */
  lemma StageOfTaggedMessage(s: Stage, m: string)
    ensures StageOfMessage(StagePrefix(s) + m) == Some(s)
  {
    var t := StagePrefix(s) + m;
    PrefixOfAppend(StagePrefix(s), m);
    assert StagePrefix(IpStage)[20] == 'I' && StagePrefix(IpStage)[21] == 'P';
    assert StagePrefix(LocationStage)[20] == 'y';
    assert StagePrefix(PassTimesStage)[20] == 'I' && StagePrefix(PassTimesStage)[21] == 'S';
    assert StagePrefix(FormattingStage)[0] == 'A' && StagePrefix(IpStage)[0] == 'E';
    match s
    case IpStage =>
    case LocationStage =>
      assert t[20] == 'y';
      NotPrefixAt(t, StagePrefix(IpStage), 20);
    case PassTimesStage =>
      assert t[21] == 'S';
      NotPrefixAt(t, StagePrefix(IpStage), 21);
      assert t[20] == 'I';
      NotPrefixAt(t, StagePrefix(LocationStage), 20);
    case FormattingStage =>
      assert t[0] == 'A';
      NotPrefixAt(t, StagePrefix(IpStage), 0);
      NotPrefixAt(t, StagePrefix(LocationStage), 0);
      NotPrefixAt(t, StagePrefix(PassTimesStage), 0);
  }

  /** The second line, written in two appends: the place, then the coordinates. */
  function LocationLine(loc: Location): string {
    "This means you are located in " + Render(loc.cityName) + ", " + Render(loc.countryName) + ", "
    + "latitude " + Render(loc.latitude) + ", longitude " + Render(loc.longitude)
  }

  const NasaLine := "According to NASA's data, " + "the International Space Station " + "will appear over your location " + "at these times: "
  const GmtNote := "(Note: The APIs used in this " + "assignment don't give me a time zone, " + "so these will be GMT times) "

  /** The lines above the passes: the address, the place, two notes and a
      blank line. */
  function HeaderLines(ip: string, loc: Location): seq<string> {
    ["Your IP address is " + ip, LocationLine(loc), NasaLine, GmtNote, ""]
  }

  function Report(ip: string, loc: Location, passText: string): string {
    Terminated(HeaderLines(ip, loc), '\n') + passText
  }

  lemma HeaderText(ip: string, loc: Location)
    ensures Terminated(HeaderLines(ip, loc), '\n')
            == "Your IP address is " + ip + "\n" + LocationLine(loc) + "\n" + NasaLine + "\n" + GmtNote + "\n" + "\n"
  {
    TerminatedFive("Your IP address is " + ip, LocationLine(loc), NasaLine, GmtNote, "", '\n');
  }

  /** Only regroups the concatenation of the two appends that write the second
      line, for `AssembleReport`. */
  lemma LocationLineAppends(head: string, loc: Location)
    ensures head + "This means you are located in " + Render(loc.cityName) + ", " + Render(loc.countryName) + ", "
            + "latitude " + Render(loc.latitude) + ", longitude " + Render(loc.longitude)
            == head + LocationLine(loc)
  {
  }

  /** Only regroups a concatenation, for `AssembleReport`. */
  lemma DoubleNewline(s: string)
    ensures s + "\n\n" == s + "\n" + "\n"
  {
  }

  /** Builds the report with successive appends, as `output +=` does. */
  method AssembleReport(ip: string, loc: Location, passText: string) returns (output: string)
    ensures output == Report(ip, loc, passText)
  {
    output := "Your IP address is " + ip + "\n";
    ghost var head := output;
    output := output + "This means you are located in " + Render(loc.cityName) + ", " + Render(loc.countryName) + ", ";
    output := output + "latitude " + Render(loc.latitude) + ", longitude " + Render(loc.longitude) + "\n";
    LocationLineAppends(head, loc);
    assert output == head + LocationLine(loc) + "\n";
    output := output + NasaLine + "\n";
    ghost var beforeNote := output + GmtNote;
    output := output + GmtNote + "\n\n";
    DoubleNewline(beforeNote);
    HeaderText(ip, loc);
    assert output == Terminated(HeaderLines(ip, loc), '\n');
    output := output + passText;
  }

  lemma NasaLineHasNoNewline()
    ensures '\n' !in NasaLine
  {
  }

  lemma GmtNoteHasNoNewline()
    ensures '\n' !in GmtNote
  {
  }

  lemma HeaderHasNoNewline(ip: string, loc: Location)
    requires '\n' !in ip && '\n' !in LocationLine(loc)
    ensures forall i | 0 <= i < 5 :: '\n' !in HeaderLines(ip, loc)[i]
  {
    assert '\n' !in "Your IP address is ";
    NasaLineHasNoNewline();
    GmtNoteHasNoNewline();
  }

  /** Split at newlines, the report is the header lines, then one line per
      pass in order, then nothing after the last newline. */
  lemma ReportLines(ip: string, loc: Location, passes: seq<Pass>, utc: int -> string)
    requires '\n' !in ip && '\n' !in LocationLine(loc)
    requires forall p | p in passes :: '\n' !in utc(p.risetime * 1000)
    ensures Split(Report(ip, loc, FormatPasses(passes, utc)), '\n')
            == HeaderLines(ip, loc) + PassLines(passes, utc) + [""]
  {
    var header := HeaderLines(ip, loc);
    var lines := PassLines(passes, utc);
    HeaderHasNoNewline(ip, loc);
    forall i | 0 <= i < |lines| ensures '\n' !in lines[i] {
      assert passes[i] in passes;
      PassLineHasNoNewline(passes[i], utc);
    }
    TerminatedAppend(header, lines, '\n');
    SplitTerminated(header + lines, '\n');
  }

  /** `returnISSTimes`, as a function of the network's responses: the URLs
      requested and what reaches the callback. */
  function Run(num: Value, net: Network, rt: Runtime): Outcome<string> {
    var ip := FetchMyIP(net);
    if ip.result.Err? then Outcome(ip.requests, Err(StagePrefix(IpStage) + ip.result.message))
    else
      var loc := FetchCoordsByIP(ip.result.value, net);
      var afterLoc := ip.requests + loc.requests;
      if loc.result.Err? then Outcome(afterLoc, Err(StagePrefix(LocationStage) + loc.result.message))
      else
        var times := FetchISSTimes(loc.result.value, num, net, rt);
        var afterTimes := afterLoc + times.requests;
        if times.result.Err? then Outcome(afterTimes, Err(StagePrefix(PassTimesStage) + times.result.message))
        else if times.result.value.None? then
          Outcome(afterTimes, Err(StagePrefix(FormattingStage) + rt.mapTypeError))
        else
          var text := FormatPasses(times.result.value.value, rt.toUTCString);
          Outcome(afterTimes, Ok(Report(ip.result.value, loc.result.value, text)))
  }

  /** The chain of callbacks, each stage started only once the one before it
      has succeeded. */
  method ReturnISSTimes(num: Value, net: Network, rt: Runtime) returns (requests: seq<string>, r: Result<string>)
    ensures Outcome(requests, r) == Run(num, net, rt)
  {
    var ip := FetchMyIP(net);
    requests := ip.requests;
    if ip.result.Err? {
      return requests, Err(StagePrefix(IpStage) + ip.result.message);
    }
    var loc := FetchCoordsByIP(ip.result.value, net);
    requests := requests + loc.requests;
    if loc.result.Err? {
      return requests, Err(StagePrefix(LocationStage) + loc.result.message);
    }
    var times := FetchISSTimes(loc.result.value, num, net, rt);
    requests := requests + times.requests;
    if times.result.Err? {
      return requests, Err(StagePrefix(PassTimesStage) + times.result.message);
    }
    var text := ProcessISSTimes(times.result.value, rt);
    if text.Err? {
      return requests, Err(StagePrefix(FormattingStage) + text.message);
    }
    var output := AssembleReport(ip.result.value, loc.result.value, text.value);
    r := Ok(output);
  }

  /** If the address cannot be fetched, that is the only request, the error is
      tagged with the first stage, and nothing the later services or the host
      would do changes the outcome. */
  lemma IpStageFailure(num: Value, net: Network, rt: Runtime,
                       geo: string -> Response<Location>,
                       passes: string -> Response<Option<seq<Pass>>>,
                       rt': Runtime)
    requires FetchMyIP(net).result.Err?
    ensures Run(num, net, rt) == Outcome([IpifyUrl], Err(StagePrefix(IpStage) + FetchMyIP(net).result.message))
    ensures StageOfMessage(Run(num, net, rt).result.message) == Some(IpStage)
    ensures Run(num, net.(ipvigilante := geo, openNotify := passes), rt') == Run(num, net, rt)
  {
    StageOfTaggedMessage(IpStage, FetchMyIP(net).result.message);
  }

  /** If the location fails, no pass-times request is made (nor a location
      request, when the address failed the check), and the pass-times service
      and the host cannot change the outcome. */
  lemma LocationStageFailure(num: Value, net: Network, rt: Runtime,
                             passes: string -> Response<Option<seq<Pass>>>,
                             rt': Runtime)
    requires FetchMyIP(net).result.Ok?
    requires FetchCoordsByIP(FetchMyIP(net).result.value, net).result.Err?
    ensures var ip := FetchMyIP(net).result.value;
            var loc := FetchCoordsByIP(ip, net);
            Run(num, net, rt)
              == Outcome([IpifyUrl] + (if IsValidIPv4(ip) then [GeoEndpoint + ip] else []),
                         Err(StagePrefix(LocationStage) + loc.result.message))
    ensures StageOfMessage(Run(num, net, rt).result.message) == Some(LocationStage)
    ensures Run(num, net.(openNotify := passes), rt') == Run(num, net, rt)
  {
    var ip := FetchMyIP(net).result.value;
    StageOfTaggedMessage(LocationStage, FetchCoordsByIP(ip, net).result.message);
  }

  /** Unfolding step for `PassTimesStageFailure`, kept separate for solver
      stability. */
  lemma PassTimesStageOutcome(num: Value, net: Network, rt: Runtime)
    requires FetchMyIP(net).result.Ok?
    requires FetchCoordsByIP(FetchMyIP(net).result.value, net).result.Ok?
    requires FetchISSTimes(FetchCoordsByIP(FetchMyIP(net).result.value, net).result.value, num, net, rt).result.Err?
    ensures var ip := FetchMyIP(net).result.value;
            var loc := FetchCoordsByIP(ip, net).result.value;
            var times := FetchISSTimes(loc, num, net, rt);
            Run(num, net, rt)
              == Outcome([IpifyUrl, GeoEndpoint + ip] + times.requests,
                         Err(StagePrefix(PassTimesStage) + times.result.message))
  {
  }

  /** If the pass times fail, the error is tagged with the third stage and
      neither the date formatting nor the TypeError text matters. */
  lemma PassTimesStageFailure(num: Value, net: Network, rt: Runtime, utc: int -> string, typeError: string)
    requires FetchMyIP(net).result.Ok?
    requires FetchCoordsByIP(FetchMyIP(net).result.value, net).result.Ok?
    requires FetchISSTimes(FetchCoordsByIP(FetchMyIP(net).result.value, net).result.value, num, net, rt).result.Err?
    ensures var ip := FetchMyIP(net).result.value;
            var loc := FetchCoordsByIP(ip, net).result.value;
            var times := FetchISSTimes(loc, num, net, rt);
            Run(num, net, rt)
              == Outcome([IpifyUrl, GeoEndpoint + ip] + times.requests,
                         Err(StagePrefix(PassTimesStage) + times.result.message))
    ensures StageOfMessage(Run(num, net, rt).result.message) == Some(PassTimesStage)
    ensures Run(num, net, rt.(toUTCString := utc, mapTypeError := typeError)) == Run(num, net, rt)
  {
    var ip := FetchMyIP(net).result.value;
    var loc := FetchCoordsByIP(ip, net).result.value;
    var rt' := rt.(toUTCString := utc, mapTypeError := typeError);
    PassTimesStageOutcome(num, net, rt);
    assert FetchISSTimes(loc, num, net, rt') == FetchISSTimes(loc, num, net, rt);
    PassTimesStageOutcome(num, net, rt');
    StageOfTaggedMessage(PassTimesStage, FetchISSTimes(loc, num, net, rt).result.message);
  }

  /** Unfolding step for `FormattingStageFailure`, kept separate for solver
      stability. */
  lemma FormattingStageOutcome(num: Value, net: Network, rt: Runtime)
    requires FetchMyIP(net).result.Ok?
    requires FetchCoordsByIP(FetchMyIP(net).result.value, net).result.Ok?
    requires FetchISSTimes(FetchCoordsByIP(FetchMyIP(net).result.value, net).result.value, num, net, rt).result
             == Ok(None)
    ensures var ip := FetchMyIP(net).result.value;
            var loc := FetchCoordsByIP(ip, net).result.value;
            Run(num, net, rt)
              == Outcome([IpifyUrl, GeoEndpoint + ip, PassTimesUrl(loc, num)],
                         Err(StagePrefix(FormattingStage) + rt.mapTypeError))
  {
  }

  /** A pass-times body without a `response` array fails in the formatting
      stage, after all three requests, with the formatting stage's own text. */
  lemma FormattingStageFailure(num: Value, net: Network, rt: Runtime)
    requires FetchMyIP(net).result.Ok?
    requires FetchCoordsByIP(FetchMyIP(net).result.value, net).result.Ok?
    requires FetchISSTimes(FetchCoordsByIP(FetchMyIP(net).result.value, net).result.value, num, net, rt).result
             == Ok(None)
    ensures var ip := FetchMyIP(net).result.value;
            var loc := FetchCoordsByIP(ip, net).result.value;
            Run(num, net, rt)
              == Outcome([IpifyUrl, GeoEndpoint + ip, PassTimesUrl(loc, num)],
                         Err(StagePrefix(FormattingStage) + rt.mapTypeError))
    ensures StageOfMessage(Run(num, net, rt).result.message) == Some(FormattingStage)
  {
    FormattingStageOutcome(num, net, rt);
    StageOfTaggedMessage(FormattingStage, rt.mapTypeError);
  }

  /** Unfolding step for `PipelineSuccess`, kept separate for solver
      stability. */
  lemma SuccessfulStages(num: Value, net: Network, rt: Runtime)
    requires Run(num, net, rt).result.Ok?
    ensures FetchMyIP(net).result.Ok?
    ensures var ip := FetchMyIP(net).result.value;
            IsValidIPv4(ip) && FetchCoordsByIP(ip, net).result.Ok? &&
            var loc := FetchCoordsByIP(ip, net).result.value;
            CoordinatesValid(loc, rt) &&
            FetchISSTimes(loc, num, net, rt).result.Ok? &&
            FetchISSTimes(loc, num, net, rt).result.value.Some?
  {
  }

  /** A report is produced only when every stage succeeded: the address passed
      the check, the coordinates are numbers, all three requests were made in
      order, and the report is built from exactly what each stage returned. */
  lemma PipelineSuccess(num: Value, net: Network, rt: Runtime)
    requires Run(num, net, rt).result.Ok?
    ensures FetchMyIP(net).result.Ok?
    ensures var ip := FetchMyIP(net).result.value;
            IsValidIPv4(ip) && FetchCoordsByIP(ip, net).result.Ok? &&
            var loc := FetchCoordsByIP(ip, net).result.value;
            CoordinatesValid(loc, rt) &&
            FetchISSTimes(loc, num, net, rt).result.Ok? &&
            FetchISSTimes(loc, num, net, rt).result.value.Some? &&
            var passes := FetchISSTimes(loc, num, net, rt).result.value.value;
            Run(num, net, rt)
              == Outcome([IpifyUrl, GeoEndpoint + ip, PassTimesUrl(loc, num)],
                         Ok(Report(ip, loc, FormatPasses(passes, rt.toUTCString))))
  {
    SuccessfulStages(num, net, rt);
    var ip := FetchMyIP(net).result.value;
    var loc := FetchCoordsByIP(ip, net).result.value;
    var passes := FetchISSTimes(loc, num, net, rt).result.value.value;
    PipelineDelivers(num, net, rt, ip, loc, passes);
  }

  /** The converse: when every stage succeeds, the three URLs are requested in
      order and the report is built from the three results. */
  lemma PipelineDelivers(num: Value, net: Network, rt: Runtime, ip: string, loc: Location, passes: seq<Pass>)
    requires FetchMyIP(net).result == Ok(ip)
    requires FetchCoordsByIP(ip, net).result == Ok(loc)
    requires FetchISSTimes(loc, num, net, rt).result == Ok(Some(passes))
    ensures Run(num, net, rt)
            == Outcome([IpifyUrl, GeoEndpoint + ip, PassTimesUrl(loc, num)],
                       Ok(Report(ip, loc, FormatPasses(passes, rt.toUTCString))))
  {
    assert IsValidIPv4(ip);
    assert CoordinatesValid(loc, rt);
  }

  /** What a caller receives for an HTTP status error: the stage's text, then
      a message from which the status code and the body can be read back. */
  predicate ReportsStatus(m: string, s: Stage, statusPrefix: string, statusCode: nat, body: string) {
    HasPrefix(m, StagePrefix(s))
    && DecodeStatusError(statusPrefix, m[|StagePrefix(s)|..]) == Some((statusCode, body))
  }

  lemma TaggedStatusError<T>(s: Stage, r: Response<T>, statusPrefix: string)
    requires HasPrefix(statusPrefix, ErrorTag)
    requires !r.transportError && r.statusCode != 200
    ensures Classify(r, statusPrefix).Err?
    ensures ReportsStatus(StagePrefix(s) + Classify(r, statusPrefix).message, s, statusPrefix, r.statusCode, r.body)
  {
    ClassifyMessages(r, statusPrefix);
    PrefixOfAppend(StagePrefix(s), Classify(r, statusPrefix).message);
  }

  /** An error status from the IP echo service reaches the caller with the
      address stage's text, the status code and the body. */
  lemma IpStatusReported(num: Value, net: Network, rt: Runtime)
    requires !net.ipify(IpifyUrl).transportError && net.ipify(IpifyUrl).statusCode != 200
    ensures Run(num, net, rt).requests == [IpifyUrl]
    ensures Run(num, net, rt).result.Err?
    ensures ReportsStatus(Run(num, net, rt).result.message, IpStage, IpStatusPrefix,
                          net.ipify(IpifyUrl).statusCode, net.ipify(IpifyUrl).body)
  {
    StatusPrefixesStartWithError("");
    TaggedStatusError(IpStage, net.ipify(IpifyUrl), IpStatusPrefix);
  }

  /** An outage of the geolocation service (a 503 "Service Unavailable", say)
      reaches the caller with the location stage's text, the status code and
      the body, after the two requests. */
  lemma LocationStatusReported(num: Value, net: Network, rt: Runtime, ip: string)
    requires FetchMyIP(net).result == Ok(ip) && IsValidIPv4(ip)
    requires !net.ipvigilante(GeoEndpoint + ip).transportError && net.ipvigilante(GeoEndpoint + ip).statusCode != 200
    ensures Run(num, net, rt).requests == [IpifyUrl, GeoEndpoint + ip]
    ensures Run(num, net, rt).result.Err?
    ensures ReportsStatus(Run(num, net, rt).result.message, LocationStage, GeoStatusPrefix(ip),
                          net.ipvigilante(GeoEndpoint + ip).statusCode, net.ipvigilante(GeoEndpoint + ip).body)
  {
    StatusPrefixesStartWithError(ip);
    TaggedStatusError(LocationStage, net.ipvigilante(GeoEndpoint + ip), GeoStatusPrefix(ip));
  }

  /** An error status from the pass-times service reaches the caller with the
      pass-times stage's text, the status code and the body, after all three
      requests. */
  lemma PassTimesStatusReported(num: Value, net: Network, rt: Runtime, ip: string, loc: Location)
    requires FetchMyIP(net).result == Ok(ip) && FetchCoordsByIP(ip, net).result == Ok(loc)
    requires CoordinatesValid(loc, rt)
    requires var r := net.openNotify(PassTimesUrl(loc, num)); !r.transportError && r.statusCode != 200
    ensures Run(num, net, rt).requests == [IpifyUrl, GeoEndpoint + ip, PassTimesUrl(loc, num)]
    ensures Run(num, net, rt).result.Err?
    ensures var r := net.openNotify(PassTimesUrl(loc, num));
            ReportsStatus(Run(num, net, rt).result.message, PassTimesStage, IssStatusPrefix, r.statusCode, r.body)
  {
    StatusPrefixesStartWithError(ip);
    TaggedStatusError(PassTimesStage, net.openNotify(PassTimesUrl(loc, num)), IssStatusPrefix);
  }

  /** A `data` that is not an object reads as a location with every field
      `undefined`; its coordinates convert to NaN, so the pass-times stage
      refuses it with the fixed message and makes no third request. */
  lemma ShapelessLocationRefused(num: Value, net: Network, rt: Runtime, ip: string)
    requires FetchMyIP(net).result == Ok(ip)
    requires FetchCoordsByIP(ip, net).result == Ok(Location(Undefined, Undefined, Undefined, Undefined, Undefined))
    ensures Run(num, net, rt) == Outcome([IpifyUrl, GeoEndpoint + ip], Err(StagePrefix(PassTimesStage) + InvalidCoordinates))
  {
    var loc := Location(Undefined, Undefined, Undefined, Undefined, Undefined);
    assert IsValidIPv4(ip);
    assert !CoordinatesValid(loc, rt);
    assert FetchISSTimes(loc, num, net, rt) == Outcome([], Err(InvalidCoordinates));
  }

  /** The passes the service sends, however many the count asked for, appear
      in the report one line each and in the order sent, below the header. */
  lemma ReportListsEveryPass(num: Value, net: Network, rt: Runtime, ip: string, loc: Location, passes: seq<Pass>)
    requires FetchMyIP(net).result == Ok(ip) && FetchCoordsByIP(ip, net).result == Ok(loc)
    requires CoordinatesValid(loc, rt)
    requires net.openNotify(PassTimesUrl(loc, num)).parsed == Some(passes)
    requires !net.openNotify(PassTimesUrl(loc, num)).transportError
    requires net.openNotify(PassTimesUrl(loc, num)).statusCode == 200
    requires '\n' !in ip && '\n' !in LocationLine(loc)
    requires forall p | p in passes :: '\n' !in rt.toUTCString(p.risetime * 1000)
    ensures Run(num, net, rt).result.Ok?
    ensures Split(Run(num, net, rt).result.value, '\n') == HeaderLines(ip, loc) + PassLines(passes, rt.toUTCString) + [""]
  {
    PipelineDelivers(num, net, rt, ip, loc, passes);
    ReportLines(ip, loc, passes, rt.toUTCString);
  }
}
