/** `processISSTimes`: one line per pass, `<date> for <m> minutes <s> seconds`,
    each followed by a newline. */
module Passes {
  import opened Results
  import opened Text
  import opened Js
  import opened Fetch

  /** `obj.duration % 60`. */
  function Seconds(duration: int): int {
    Remainder(duration, 60)
  }

  /** `Math.floor(obj.duration / 60)`. */
  function Minutes(duration: int): int {
    FloorDiv(duration, 60)
  }

  /** For a duration that is not negative the two parts are whole minutes and
      the seconds left over. */
  lemma DurationSplit(duration: int)
    requires duration >= 0
    ensures Minutes(duration) * 60 + Seconds(duration) == duration
    ensures 0 <= Seconds(duration) < 60
  {
  }

  /** A negative duration keeps JavaScript's mixed rounding: the seconds are
      truncated towards zero and the minutes floored, so unless it is a whole
      number of minutes the two parts add up to a minute less than it. */
  lemma DurationSplitNegative(duration: int)
    requires duration < 0
    ensures -60 < Seconds(duration) <= 0
    ensures Minutes(duration) * 60 + Seconds(duration)
            == if Seconds(duration) == 0 then duration else duration - 60
  {
  }

  function PassLine(p: Pass, utc: int -> string): string {
    utc(p.risetime * 1000) + " for " + IntToString(Minutes(p.duration)) + " minutes "
    + IntToString(Seconds(p.duration)) + " seconds"
  }

  /** `timesArray.map(...)`: the lines in the order of the passes. */
  function PassLines(passes: seq<Pass>, utc: int -> string): (lines: seq<string>)
    ensures |lines| == |passes|
    ensures forall i | 0 <= i < |passes| :: lines[i] == PassLine(passes[i], utc)
  {
    seq(|passes|, i requires 0 <= i < |passes| => PassLine(passes[i], utc))
  }

  /** The text `processISSTimes` hands to its callback. */
  function FormatPasses(passes: seq<Pass>, utc: int -> string): string {
    Terminated(PassLines(passes, utc), '\n')
  }

  /** Accumulates the lines the way the `forEach` loop does. A missing
      `response` array makes `.map` throw; the `catch` passes that error on. */
  method ProcessISSTimes(times: Option<seq<Pass>>, rt: Runtime) returns (r: Result<string>)
    ensures times.None? ==> r == Err(rt.mapTypeError)
    ensures times.Some? ==> r == Ok(FormatPasses(times.value, rt.toUTCString))
  {
    if times.None? {
      return Err(rt.mapTypeError);
    }
    var lines := PassLines(times.value, rt.toUTCString);
    var text := "";
    var i := 0;
    while i < |lines|
      invariant 0 <= i <= |lines|
      invariant text == Terminated(lines[..i], '\n')
    {
      TerminatedPrefix(lines, i, '\n');
      text := text + lines[i] + "\n";
      i := i + 1;
    }
    assert lines[..i] == lines;
    return Ok(text);
  }

  /** What a line says: the date text, and the minutes and seconds. */
  datatype PassText = PassText(date: string, minutes: nat, seconds: nat)

  /** Reads a line back from its end: the seconds before " seconds", the
      minutes before " minutes ", and the date before " for ". */
  function DecodePassLine(line: string): Option<PassText> {
    match StripSuffix(line, " seconds")
    case None => None
    case Some(a) =>
      match StripTrailingNumber(a)
      case None => None
      case Some((b, seconds)) =>
        match StripSuffix(b, " minutes ")
        case None => None
        case Some(c) =>
          match StripTrailingNumber(c)
          case None => None
          case Some((d, minutes)) =>
            match StripSuffix(d, " for ")
            case None => None
            case Some(date) => Some(PassText(date, minutes, seconds))
  }

  /** Only regroups a concatenation, for `PassLineDecodes`. */
  lemma PassLineAssociates(date: string, m: string, s: string)
    ensures date + " for " + m + " minutes " + s + " seconds"
            == ((date + " for ") + m + " minutes ") + s + " seconds"
  {
  }

  /** A line names the date of the rise time and splits the duration exactly:
      minutes times 60 plus seconds gives it back. */
  lemma PassLineDecodes(p: Pass, utc: int -> string)
    requires p.duration >= 0
    ensures DecodePassLine(PassLine(p, utc)).Some?
    ensures var t := DecodePassLine(PassLine(p, utc)).value;
              t.date == utc(p.risetime * 1000) && t.minutes * 60 + t.seconds == p.duration && t.seconds < 60
  {
    DurationSplit(p.duration);
    var date := utc(p.risetime * 1000);
    var m := NatToString(Minutes(p.duration));
    var s := NatToString(Seconds(p.duration));
    var d := date + " for ";
    var c := d + m;
    var b := c + " minutes ";
    var a := b + s;
    PassLineAssociates(date, m, s);
    assert PassLine(p, utc) == a + " seconds";
    StripSuffixOf(a, " seconds");
    assert b[|b| - 1] == ' ';
    StripTrailingNumberOf(b, Seconds(p.duration));
    StripSuffixOf(c, " minutes ");
    assert d[|d| - 1] == ' ';
    StripTrailingNumberOf(d, Minutes(p.duration));
    StripSuffixOf(date, " for ");
  }

  lemma PassLineHasNoNewline(p: Pass, utc: int -> string)
    requires '\n' !in utc(p.risetime * 1000)
    ensures '\n' !in PassLine(p, utc)
  {
    var m := IntToString(Minutes(p.duration));
    var s := IntToString(Seconds(p.duration));
    assert '\n' !in m && '\n' !in s;
  }

  /** Split at newlines, the text is one line per pass in the order of the
      passes, then nothing after the last newline; no passes give "". */
  lemma FormatPassesLines(passes: seq<Pass>, utc: int -> string)
    requires forall p | p in passes :: '\n' !in utc(p.risetime * 1000)
    ensures Split(FormatPasses(passes, utc), '\n') == PassLines(passes, utc) + [""]
    ensures passes == [] ==> FormatPasses(passes, utc) == ""
  {
    var lines := PassLines(passes, utc);
    forall i | 0 <= i < |lines| ensures '\n' !in lines[i] {
      assert passes[i] in passes;
      PassLineHasNoNewline(passes[i], utc);
    }
    SplitTerminated(lines, '\n');
  }

  /** A line reads back as the pass it was made from: the date of the rise
      time, and minutes and seconds that recombine to the duration. */
  predicate ReadsBackAs(line: string, p: Pass, utc: int -> string) {
    match DecodePassLine(line)
    case None => false
    case Some(t) => t.date == utc(p.risetime * 1000) && t.minutes * 60 + t.seconds == p.duration && t.seconds < 60
  }

  /** The formatted text, split at newlines, is one line per pass followed by
      an empty field, and each line reads back as its own pass, in order. */
  lemma FormatPassesDecodes(passes: seq<Pass>, utc: int -> string)
    requires forall p | p in passes :: '\n' !in utc(p.risetime * 1000) && p.duration >= 0
    ensures var fields := Split(FormatPasses(passes, utc), '\n');
            |fields| == |passes| + 1 && fields[|passes|] == "" &&
            forall i | 0 <= i < |passes| :: ReadsBackAs(fields[i], passes[i], utc)
  {
    FormatPassesLines(passes, utc);
    var fields := Split(FormatPasses(passes, utc), '\n');
    forall i | 0 <= i < |passes| ensures ReadsBackAs(fields[i], passes[i], utc) {
      assert passes[i] in passes;
      assert fields[i] == PassLine(passes[i], utc);
      PassLineDecodes(passes[i], utc);
    }
  }

  /** Only regroups a concatenation, for `PassLineExample`. */
  lemma PassLineGroups(date: string, m: string, sec: string)
    ensures date + " for " + m + " minutes " + sec + " seconds"
            == date + (" for " + m + " minutes " + sec + " seconds")
  {
  }

  /** A pass of 125 seconds reads "2 minutes 5 seconds". */
  lemma PassLineExample(utc: int -> string)
    ensures PassLine(Pass(125, 1609459200), utc) == utc(1609459200000) + " for 2 minutes 5 seconds"
  {
    assert Minutes(125) == 2 && Seconds(125) == 5;
    assert NatToString(2) == "2" && NatToString(5) == "5";
    var date := utc(1609459200000);
    PassLineGroups(date, "2", "5");
    assert " for " + "2" + " minutes " + "5" + " seconds" == " for 2 minutes 5 seconds";
  }
}
